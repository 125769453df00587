// parseTinyYAML of internal/config/workflow.go: indented lines into nested maps. Go's maps are
// references, so the maps are kept in a sequence and refer to each other by index; the root is 0.
module TinyYaml {
  import opened Domain
  import opened Text
  import opened Sequences
  import YamlScalars

  // An accepted line. One without a value is a header: it opens a map of its own.
  datatype Entry = Entry(indent: nat, key: string, val: string) {
    predicate Header() { val == "" }
  }

  datatype LineKind = Skipped | Rejected(message: string) | Accepted(entry: Entry)

  datatype Item = Scalar(value: YamlScalars.Scalar) | Child(node: nat)

  type Nodes = seq<map<string, Item>>

  // ---- Lines.

  predicate IsBlankChar(c: char) {
    c == ' ' || c == '\t'
  }

  // strings.TrimRight(line, " \t")
  function TrimRight(line: string): string {
    if line != "" && IsBlankChar(line[|line| - 1]) then TrimRight(line[..|line| - 1]) else line
  }

  // The number of spaces at the front.
  function LeadingSpaces(line: string): nat {
    if line != "" && line[0] == ' ' then 1 + LeadingSpaces(line[1..]) else 0
  }

  // The place of the first colon, or the length.
  function ColonAt(s: string): (n: nat)
    ensures n <= |s| && (n < |s| ==> s[n] == ':')
    ensures ':' !in s[..n]
  {
    if s == "" || s[0] == ':' then 0 else 1 + ColonAt(s[1..])
  }

  function Classify(raw: string): LineKind {
    var line := TrimRight(raw);
    var trimmed := TrimSpace(line);
    if trimmed == "" || trimmed[0] == '#' then Skipped
    else if trimmed[0] == '-' then Rejected("list shorthand is supported only as inline arrays")
    else
      var colon := ColonAt(trimmed);
      if colon == |trimmed| then Rejected("invalid YAML line: " + trimmed)
      else Accepted(Entry(LeadingSpaces(line), TrimSpace(trimmed[..colon]), TrimSpace(trimmed[colon + 1..])))
  }

  function Entries(lines: seq<string>): seq<Entry> {
    if lines == [] then []
    else
      var n := |lines| - 1;
      Entries(lines[..n]) + match Classify(lines[n]) case Accepted(e) => [e] case _ => []
  }

  function Errors(lines: seq<string>): seq<string> {
    if lines == [] then []
    else
      var n := |lines| - 1;
      Errors(lines[..n]) + match Classify(lines[n]) case Rejected(message) => [message] case _ => []
  }

  // ---- What lines are, in terms of the text between the white space.

  lemma {:induction false} TrimRightLeavesBlanks(line: string)
    ensures TrimRight(line) <= line && AllSpace(line[|TrimRight(line)|..])
    ensures TrimRight(line) != "" ==> !IsBlankChar(line[|TrimRight(line)| - 1])
  {
    if line != "" && IsBlankChar(line[|line| - 1]) {
      var init := line[..|line| - 1];
      TrimRightLeavesBlanks(init);
      var n := |TrimRight(line)|;
      assert line[n..] == init[n..] + [line[|line| - 1]];
      assert IsSpace(line[|line| - 1]);
      hide IsSpace;
    }
  }

  lemma TrimRightTrims(line: string)
    ensures TrimSpace(TrimRight(line)) == TrimSpace(line)
  {
    TrimRightLeavesBlanks(line);
    var t := TrimRight(line);
    assert line == "" + t + line[|t|..];
    hide TrimRight, TrimSpace, IsSpace;
    TrimGaps("", t, line[|t|..]);
  }

  lemma {:induction false} LeadingSpacesOfMore(a: string, b: string)
    requires a != "" && LeadingSpaces(a) < |a|
    ensures LeadingSpaces(a + b) == LeadingSpaces(a)
  {
    if a[0] == ' ' {
      LeadingSpacesOfMore(a[1..], b);
      assert (a + b)[1..] == a[1..] + b;
    }
  }

  lemma {:induction false} FirstColonIsUnique(s: string, key: string, rest: string)
    requires s == key + ":" + rest && ':' !in key
    ensures ColonAt(s) == |key|
  {
    if key != "" {
      assert s[1..] == key[1..] + ":" + rest;
      FirstColonIsUnique(s[1..], key[1..], rest);
    }
  }

  lemma NoColon(s: string)
    ensures ColonAt(s) == |s| <==> ':' !in s
  {
    var n := ColonAt(s);
    if n == |s| {
      assert s[..n] == s;
    }
  }

  // A line is skipped exactly when it is blank or a comment, and rejected exactly when it is a list item
  // or, being neither, has no colon.
  lemma OtherLines(raw: string, t: string)
    requires TrimsTo(raw, t)
    ensures Classify(raw).Skipped? <==> t == "" || t[0] == '#'
    ensures Classify(raw).Rejected? <==> t != "" && t[0] != '#' && (t[0] == '-' || ':' !in t)
    ensures Classify(raw).Rejected? && t[0] == '-' ==>
      Classify(raw).message == "list shorthand is supported only as inline arrays"
    ensures Classify(raw).Rejected? && t[0] != '-' ==> Classify(raw).message == "invalid YAML line: " + t
  {
    TrimIsExact(raw, t);
    TrimRightTrims(raw);
    NoColon(t);
    hide TrimSpace, TrimRight, TrimsTo, ColonAt, LeadingSpaces;
  }

  // Any other line is split at its first colon, and its indent is the number of spaces at its front.
  lemma AcceptedLines(indent: nat, body: string, t: string, key: string, val: string, before: string, after: string)
    requires body != "" && body[0] != ' ' && TrimsTo(body, t) && t != "" && t[0] != '#' && t[0] != '-'
    requires t == before + ":" + after && ':' !in before && TrimsTo(before, key) && TrimsTo(after, val)
    ensures Classify(Spaces(indent) + body) == Accepted(Entry(indent, key, val))
  {
    var raw := Spaces(indent) + body;
    SpacesAreSpace(indent);
    TrimIsExact(body, t);
    TrimIsExact(before, key);
    TrimIsExact(after, val);
    assert raw == Spaces(indent) + body + "";
    SpacesLead(indent, body);
    FirstColonIsUnique(t, before, after);
    assert t[..|before|] == before && t[|before| + 1..] == after;
    hide TrimSpace, TrimsTo, ColonAt, Spaces, IsSpace;
    TrimGaps(Spaces(indent), body, "");
    TrimRightTrims(raw);
    TrimmedIndent(raw, indent, t);
    hide LeadingSpaces, TrimRight;
  }

  lemma TrimmedIndent(raw: string, indent: nat, t: string)
    requires LeadingSpaces(raw) == indent && TrimSpace(raw) == t && t != ""
    ensures LeadingSpaces(TrimRight(raw)) == indent
  {
    TrimRightLeavesBlanks(raw);
    TrimRightTrims(raw);
    var line := TrimRight(raw);
    assert raw == line + raw[|line|..];
    hide TrimRight;
    if LeadingSpaces(line) < |line| {
      LeadingSpacesOfMore(line, raw[|line|..]);
    } else {
      OnlySpaces(line);
      BlankIsAllSpace(line);
    }
  }

  lemma {:induction false} OnlySpaces(line: string)
    requires LeadingSpaces(line) >= |line|
    ensures AllSpace(line)
  {
    if line != "" {
      OnlySpaces(line[1..]);
      assert IsSpace(' ');
      hide IsSpace;
      SplitHead(line);
    }
  }

  lemma {:induction false} LinesAdd(a: seq<string>, b: seq<string>)
    ensures Entries(a + b) == Entries(a) + Entries(b) && Errors(a + b) == Errors(a) + Errors(b)
    decreases |b|
  {
    hide Classify;
    if b == [] {
      NothingAdded(a);
      NothingAdded(Entries(a));
      NothingAdded(Errors(a));
    } else {
      var n := |b| - 1;
      LinesAdd(a, b[..n]);
      assert (a + b)[..|a| + n] == a + b[..n];
      OneMoreLine(a + b);
      OneMoreLine(b);
      hide Entries, Errors;
      Assoc(Entries(a), Entries(b[..n]), EntriesOf(b[n]));
      Assoc(Errors(a), Errors(b[..n]), ErrorsOf(b[n]));
    }
  }

  function EntriesOf(line: string): seq<Entry> {
    match Classify(line) case Accepted(e) => [e] case _ => []
  }

  function ErrorsOf(line: string): seq<string> {
    match Classify(line) case Rejected(message) => [message] case _ => []
  }

  lemma OneMoreLine(lines: seq<string>)
    requires lines != []
    ensures var n := |lines| - 1;
      Entries(lines) == Entries(lines[..n]) + EntriesOf(lines[n])
          && Errors(lines) == Errors(lines[..n]) + ErrorsOf(lines[n])
  {
  }

  // Comments and blank lines make no difference, wherever they stand; a rejected line is reported in its
  // place and otherwise makes none either.
  lemma OtherLinesChangeNothing(before: seq<string>, line: string, after: seq<string>)
    requires !Classify(line).Accepted?
    ensures Entries(before + [line] + after) == Entries(before + after)
    ensures Errors(before + [line] + after)
         == Errors(before) + (if Classify(line).Rejected? then [Classify(line).message] else []) + Errors(after)
  {
    LinesAdd(before + [line], after);
    LinesAdd(before, [line]);
    LinesAdd(before, after);
    OneMoreLine([line]);
    assert [line][..0] == [];
    NothingAdded(ErrorsOf(line));
    NothingAdded(EntriesOf(line));
    NothingAdded(Entries(before));
    assert Entries([]) == [] && Errors([]) == [];
    hide Classify, Entries, Errors;
  }

  // ---- The machine: the maps, the open ones, and the indents of the headers that opened them.

  datatype Machine = Machine(nodes: Nodes, stack: seq<nat>, indents: seq<nat>)

  const START := Machine([map[]], [0], [0])

  // How many open maps a line of this indent leaves open. The root is never closed.
  function Keep(indents: seq<nat>, indent: nat): (n: nat)
    ensures n <= |indents| && (indents != [] ==> 1 <= n)
  {
    if |indents| > 1 && indent <= indents[|indents| - 1] then Keep(indents[..|indents| - 1], indent) else |indents|
  }

  predicate WellFormed(m: Machine) {
    && 1 <= |m.stack| == |m.indents| && m.stack[0] == 0
    && forall p :: 0 <= p < |m.stack| ==> m.stack[p] < |m.nodes|
  }

  function Step(m: Machine, e: Entry): (m': Machine)
    requires WellFormed(m)
    ensures WellFormed(m')
  {
    var n := Keep(m.indents, e.indent);
    var cur := m.stack[n - 1];
    if e.Header() then
      var child := |m.nodes|;
      Machine(m.nodes[cur := m.nodes[cur][e.key := Child(child)]] + [map[]], m.stack[..n] + [child],
          m.indents[..n] + [e.indent])
    else
      Machine(m.nodes[cur := m.nodes[cur][e.key := Scalar(YamlScalars.ParseScalar(e.val))]], m.stack[..n],
          m.indents[..n])
  }

  function Run(es: seq<Entry>): (m: Machine)
    ensures WellFormed(m)
  {
    if es == [] then START else Step(Run(es[..|es| - 1]), es[|es| - 1])
  }

  // The part of the loop that an accepted line reaches.
  method Place(m: Machine, e: Entry) returns (m': Machine)
    requires WellFormed(m)
    ensures m' == Step(m, e)
  {
    var nodes, stack, indents := m.nodes, m.stack, m.indents;
    while |indents| > 1 && e.indent <= indents[|indents| - 1]
      invariant 1 <= |indents| == |stack| <= |m.indents|
      invariant stack == m.stack[..|stack|] && indents == m.indents[..|stack|]
      invariant Keep(indents, e.indent) == Keep(m.indents, e.indent)
    {
      stack, indents := stack[..|stack| - 1], indents[..|indents| - 1];
    }
    var cur := stack[|stack| - 1];
    if e.val == "" {
      var child := |nodes|;
      nodes := nodes[cur := nodes[cur][e.key := Child(child)]] + [map[]];
      stack, indents := stack + [child], indents + [e.indent];
    } else {
      nodes := nodes[cur := nodes[cur][e.key := Scalar(YamlScalars.ParseScalar(e.val))]];
    }
    return Machine(nodes, stack, indents);
  }

  method ParseTinyYaml(text: string) returns (nodes: Nodes, errors: seq<string>)
    ensures nodes == Run(Entries(Split(text, '\n'))).nodes
    ensures errors == Errors(Split(text, '\n'))
  {
    hide Classify, Step, Split;
    var lines := Split(text, '\n');
    var m := START;
    errors := [];
    for i := 0 to |lines|
      invariant m == Run(Entries(lines[..i]))
      invariant errors == Errors(lines[..i])
    {
      assert lines[..i + 1][..i] == lines[..i];
      NothingAdded(Errors(lines[..i]));
      NothingAdded(Entries(lines[..i]));
      match Classify(lines[i])
      case Skipped =>
      case Rejected(message) =>
        errors := errors + [message];
      case Accepted(e) =>
        RunOneMore(Entries(lines[..i]), e);
        m := Place(m, e);
    }
    assert lines[..|lines|] == lines;
    return m.nodes, errors;
  }

  lemma RunOneMore(es: seq<Entry>, e: Entry)
    ensures Run(es + [e]) == Step(Run(es), e)
  {
    assert (es + [e])[..|es|] == es;
  }

  lemma RunUpTo(es: seq<Entry>, k: nat)
    requires k < |es|
    ensures Run(es[..k + 1]) == Step(Run(es[..k]), es[k])
  {
    assert es[..k + 1][..k] == es[..k];
  }

  // ---- Where each line lands.

  // Every line after header j, up to line k, is indented further than j.
  ghost predicate Encloses(es: seq<Entry>, j: nat, k: nat)
    requires k < |es|
  {
    j < k && es[j].Header() && forall m :: j < m <= k ==> es[j].indent < es[m].indent
  }

  // Header j still stood open when the first k lines had been read.
  ghost predicate IsOpen(es: seq<Entry>, j: nat, k: nat)
    requires k <= |es|
  {
    j < k && es[j].Header() && forall m :: j < m < k ==> es[j].indent < es[m].indent
  }

  // The map that line j opened: maps are numbered in the order of their headers, after the root.
  function NodeOf(es: seq<Entry>, j: nat): nat
    requires j < |es|
  {
    |Run(es[..j]).nodes|
  }

  // Line k leaves the first n of the open headers and opens its own map if it is a header.
  function Reopened(es: seq<Entry>, k: nat, hs: seq<nat>, n: nat): seq<nat>
    requires k < |es| && n <= |hs|
  {
    hs[..n] + if es[k].Header() then [k] else []
  }

  // The headers that stand open after k lines, outermost first.
  function OpenHeaders(es: seq<Entry>, k: nat): seq<nat>
    requires k <= |es|
  {
    if k == 0 then []
    else
      var before := OpenHeaders(es, k - 1);
      var n := Keep(Run(es[..k - 1]).indents, es[k - 1].indent) - 1;
      Reopened(es, k - 1, before, if n <= |before| then n else |before|)
  }

  // The machine's stack is the root and the maps of these headers, with their indents.
  ghost predicate Mirrors(es: seq<Entry>, m: Machine, hs: seq<nat>)
    requires WellFormed(m)
  {
    && |m.stack| == |hs| + 1 && m.indents[0] == 0
    && forall p {:trigger hs[p]} :: 0 <= p < |hs| ==>
      hs[p] < |es| && m.stack[p + 1] == NodeOf(es, hs[p]) && m.indents[p + 1] == es[hs[p]].indent
  }

  // Each header is inside the one before it.
  ghost predicate Nested(es: seq<Entry>, hs: seq<nat>) {
    && (forall p :: 0 <= p < |hs| ==> hs[p] < |es|)
    && forall p, q {:trigger hs[p], hs[q]} :: 0 <= p < q < |hs| ==> hs[p] < hs[q] && es[hs[p]].indent < es[hs[q]].indent
  }

  ghost predicate ExactlyOpen(es: seq<Entry>, hs: seq<nat>, k: nat)
    requires k <= |es|
  {
    && (forall p {:trigger hs[p]} :: 0 <= p < |hs| ==> hs[p] < k && IsOpen(es, hs[p], k))
    && (forall j: nat {:trigger IsOpen(es, j, k)} :: IsOpen(es, j, k) ==> j in hs)
  }

  ghost predicate StackOk(es: seq<Entry>, k: nat)
    requires k <= |es|
  {
    var hs := OpenHeaders(es, k);
    Mirrors(es, Run(es[..k]), hs) && Nested(es, hs) && ExactlyOpen(es, hs, k)
  }

  // Popping keeps exactly the headers that are indented less than the line.
  lemma {:induction false} KeepSplits(indents: seq<nat>, indent: nat)
    requires indents != [] && forall p, q :: 1 <= p < q < |indents| ==> indents[p] < indents[q]
    ensures var n := Keep(indents, indent);
      && (forall p :: 1 <= p < n ==> indents[p] < indent)
      && (forall p :: n <= p < |indents| ==> indent <= indents[p])
  {
    if |indents| > 1 && indent <= indents[|indents| - 1] {
      var init := indents[..|indents| - 1];
      KeepSplits(init, indent);
      forall p | Keep(indents, indent) <= p < |indents| ensures indent <= indents[p] {
        if p < |init| {
          assert init[p] == indents[p];
        }
      }
      assert forall p :: 1 <= p < Keep(init, indent) ==> indents[p] == init[p];
    }
  }

  ghost predicate SplitAt(es: seq<Entry>, k: nat, hs: seq<nat>, n: nat)
    requires k < |es|
  {
    && n <= |hs| && (forall p :: 0 <= p < |hs| ==> hs[p] < k)
    && (forall p :: 0 <= p < n ==> es[hs[p]].indent < es[k].indent)
    && (forall p :: n <= p < |hs| ==> es[k].indent <= es[hs[p]].indent)
  }

  // What a line of this indent leaves open, in terms of headers.
  lemma PoppedBy(es: seq<Entry>, k: nat, m: Machine, hs: seq<nat>)
    requires k < |es| && WellFormed(m) && Mirrors(es, m, hs) && Nested(es, hs)
    requires forall p :: 0 <= p < |hs| ==> hs[p] < k
    ensures SplitAt(es, k, hs, Keep(m.indents, es[k].indent) - 1) && Keep(m.indents, es[k].indent) - 1 <= |hs|
  {
    hide NodeOf;
    forall p, q | 1 <= p < q < |m.indents| ensures m.indents[p] < m.indents[q] {
      assert hs[p - 1] < hs[q - 1];
    }
    KeepSplits(m.indents, es[k].indent);
    hide Keep;
    assert forall p :: 0 <= p < |hs| ==> m.indents[p + 1] == es[hs[p]].indent;
  }

  lemma StillOpen(es: seq<Entry>, j: nat, k: nat)
    requires k < |es| && j < |es|
    ensures IsOpen(es, j, k + 1) <==> (j == k && es[k].Header()) || (IsOpen(es, j, k) && es[j].indent < es[k].indent)
  {
  }

  lemma StepKeepsPrefix(m: Machine, e: Entry)
    requires WellFormed(m)
    ensures var n, m' := Keep(m.indents, e.indent), Step(m, e);
      && |m'.stack| == n + (if e.Header() then 1 else 0)
      && m'.indents[..n] == m.indents[..n] && m'.stack[..n] == m.stack[..n]
      && (e.Header() ==> m'.stack[n] == |m.nodes| && m'.indents[n] == e.indent)
  {
    hide Keep;
  }

  lemma ExactStays(es: seq<Entry>, k: nat, hs: seq<nat>, n: nat)
    requires k < |es| && ExactlyOpen(es, hs, k) && SplitAt(es, k, hs, n)
    ensures ExactlyOpen(es, Reopened(es, k, hs, n), k + 1)
  {
    var hs' := Reopened(es, k, hs, n);
    forall p | 0 <= p < |hs'| ensures hs'[p] < k + 1 && IsOpen(es, hs'[p], k + 1) {
      StillOpen(es, hs'[p], k);
      assert p < n ==> hs'[p] == hs[p];
      hide IsOpen;
    }
    forall j: nat | IsOpen(es, j, k + 1) ensures j in hs' {
      StillOpen(es, j, k);
      hide IsOpen;
      if j == k && es[k].Header() {
        assert hs'[n] == k;
      } else {
        var p :| 0 <= p < |hs| && hs[p] == j;
        assert hs'[p] == j;
      }
    }
  }

  lemma NestingStays(es: seq<Entry>, k: nat, hs: seq<nat>, n: nat)
    requires k < |es| && Nested(es, hs) && SplitAt(es, k, hs, n)
    ensures Nested(es, Reopened(es, k, hs, n))
  {
    var hs' := Reopened(es, k, hs, n);
    forall p, q | 0 <= p < q < |hs'| ensures hs'[p] < hs'[q] && es[hs'[p]].indent < es[hs'[q]].indent {
      assert hs'[p] == hs[p];
      if q < n {
        assert hs'[q] == hs[q];
      }
    }
  }

  lemma MirroringStays(es: seq<Entry>, k: nat, hs: seq<nat>, n: nat)
    requires k < |es| && Mirrors(es, Run(es[..k]), hs) && n <= |hs| && n == Keep(Run(es[..k]).indents, es[k].indent) - 1
    ensures Mirrors(es, Run(es[..k + 1]), Reopened(es, k, hs, n))
  {
    var m, hs' := Run(es[..k]), Reopened(es, k, hs, n);
    assert NodeOf(es, k) == |m.nodes|;
    RunUpTo(es, k);
    StepKeepsPrefix(m, es[k]);
    var m' := Step(m, es[k]);
    hide Run, Keep, Step, NodeOf;
    assert m'.indents[..n + 1][0] == m.indents[..n + 1][0];
    forall p | 0 <= p < |hs'|
      ensures hs'[p] < |es| && m'.stack[p + 1] == NodeOf(es, hs'[p]) && m'.indents[p + 1] == es[hs'[p]].indent
    {
      if p < n {
        assert hs'[p] == hs[p];
        assert m'.stack[..n + 1][p + 1] == m.stack[..n + 1][p + 1];
        assert m'.indents[..n + 1][p + 1] == m.indents[..n + 1][p + 1];
      }
    }
  }

  lemma StackStaysOk(es: seq<Entry>, k: nat)
    requires k < |es| && StackOk(es, k)
    ensures StackOk(es, k + 1)
  {
    var m, hs := Run(es[..k]), OpenHeaders(es, k);
    var n := Keep(m.indents, es[k].indent) - 1;
    hide Run, Keep, Mirrors, Nested, SplitAt, Reopened, IsOpen;
    PoppedBy(es, k, m, hs);
    hide ExactlyOpen;
    ExactStays(es, k, hs, n);
    NestingStays(es, k, hs, n);
    MirroringStays(es, k, hs, n);
    assert OpenHeaders(es, k + 1) == Reopened(es, k, hs, n);
  }

  lemma {:induction false} StackIsAlwaysOk(es: seq<Entry>, k: nat)
    requires k <= |es|
    ensures StackOk(es, k)
  {
    if k == 0 {
      assert es[..0] == [];
    } else {
      hide StackOk;
      StackIsAlwaysOk(es, k - 1);
      StackStaysOk(es, k - 1);
    }
  }

  // Header j is the last to enclose line k, or none does.
  ghost predicate IsParent(es: seq<Entry>, k: nat, parent: Option<nat>)
    requires k < |es|
  {
    match parent
    case Some(j) => Encloses(es, j, k) && forall i :: j < i < k ==> !Encloses(es, i, k)
    case None => forall i :: 0 <= i < k ==> !Encloses(es, i, k)
  }

  // The last of the first n headers.
  function LastOf(hs: seq<nat>, n: nat): Option<nat>
    requires n <= |hs|
  {
    if n == 0 then None else Some(hs[n - 1])
  }

  // The last header left open by line k is its parent.
  lemma ParentIsLastLeft(es: seq<Entry>, k: nat, hs: seq<nat>, n: nat)
    requires k < |es| && ExactlyOpen(es, hs, k) && Nested(es, hs) && SplitAt(es, k, hs, n)
    ensures IsParent(es, k, LastOf(hs, n))
  {
    forall i: nat | i < k && Encloses(es, i, k) ensures exists p :: 0 <= p < n && hs[p] == i {
      assert IsOpen(es, i, k);
      var p :| 0 <= p < |hs| && hs[p] == i;
    }
    if n > 0 {
      assert IsOpen(es, hs[n - 1], k);
      forall i | hs[n - 1] < i < k ensures !Encloses(es, i, k) {
        assert forall p :: 0 <= p < n ==> hs[p] <= hs[n - 1];
      }
    }
  }

  lemma ExactIsInRange(es: seq<Entry>, hs: seq<nat>, k: nat)
    requires k <= |es| && ExactlyOpen(es, hs, k)
    ensures forall p :: 0 <= p < |hs| ==> hs[p] < k
  {
    hide IsOpen;
  }


  // The line's key was written into the map `target`, a header's with a new, empty map; nothing else changed.
  ghost predicate LandsIn(before: Nodes, after: Nodes, target: nat, e: Entry) {
    && target < |before|
    && after == before[target :=
        before[target][e.key := if e.Header() then Child(|before|) else Scalar(YamlScalars.ParseScalar(e.val))]]
                + if e.Header() then [map[]] else []
  }

  lemma StepWrites(m: Machine, e: Entry)
    requires WellFormed(m)
    ensures LandsIn(m.nodes, Step(m, e).nodes, m.stack[Keep(m.indents, e.indent) - 1], e)
  {
    hide Keep;
    NothingAdded(Step(m, e).nodes);
  }

  ghost function MapOf(es: seq<Entry>, header: Option<nat>): nat
    requires header.Some? ==> header.value < |es|
  {
    if header.Some? then NodeOf(es, header.value) else 0
  }

  lemma StackHolds(es: seq<Entry>, m: Machine, hs: seq<nat>, n: nat)
    requires WellFormed(m) && Mirrors(es, m, hs) && n <= |hs|
    ensures LastOf(hs, n).Some? ==> LastOf(hs, n).value < |es|
    ensures n < |m.stack| && m.stack[n] == MapOf(es, LastOf(hs, n))
  {
    hide NodeOf;
    if n > 0 {
      assert m.stack[n - 1 + 1] == NodeOf(es, hs[n - 1]);
    }
  }

  lemma LineLands(es: seq<Entry>, k: nat, m: Machine, hs: seq<nat>) returns (parent: Option<nat>)
    requires k < |es| && WellFormed(m) && Mirrors(es, m, hs) && Nested(es, hs) && ExactlyOpen(es, hs, k)
    ensures IsParent(es, k, parent) && LandsIn(m.nodes, Step(m, es[k]).nodes, MapOf(es, parent), es[k])
  {
    var n := Keep(m.indents, es[k].indent) - 1;
    hide Keep, Nested, SplitAt, IsOpen, Mirrors, Step, MapOf, LandsIn, IsParent, LastOf, WellFormed;
    ExactIsInRange(es, hs, k);
    hide *;
    PoppedBy(es, k, m, hs);
    ParentIsLastLeft(es, k, hs, n);
    parent := LastOf(hs, n);
    StackHolds(es, m, hs, n);
    StepWrites(m, es[k]);
  }

  // Every accepted line lands in the map of the last preceding header that every later line up to
  // it is indented further than, or in the root when there is none.
  lemma EachLineLandsInItsParent(es: seq<Entry>, k: nat) returns (parent: Option<nat>)
    requires k < |es|
    ensures IsParent(es, k, parent)
    ensures LandsIn(Run(es[..k]).nodes, Run(es[..k + 1]).nodes, MapOf(es, parent), es[k])
  {
    StackIsAlwaysOk(es, k);
    hide Mirrors, Nested, ExactlyOpen, OpenHeaders, Run, Step, IsParent, LandsIn;
    parent := LineLands(es, k, Run(es[..k]), OpenHeaders(es, k));
    RunUpTo(es, k);
  }

  // ---- Open maps stay reachable.

  // Each open map is a value in the open map around it.
  ghost predicate Chained(m: Machine) {
    && WellFormed(m)
    && (forall p, q :: 0 <= p < q < |m.stack| ==> m.stack[p] < m.stack[q])
    && forall p {:trigger Linked(m, p)} :: 0 < p < |m.stack| ==> Linked(m, p)
  }

  ghost predicate Linked(m: Machine, p: nat)
    requires WellFormed(m) && 0 < p < |m.stack|
  {
    Child(m.stack[p]) in m.nodes[m.stack[p - 1]].Values
  }

  lemma StepKeepsChain(m: Machine, e: Entry)
    requires Chained(m)
    ensures Chained(Step(m, e))
  {
    var n, m' := Keep(m.indents, e.indent), Step(m, e);
    StepKeepsPrefix(m, e);
    hide Keep;
    forall p: nat | 0 < p < |m'.stack| ensures Linked(m', p) {
      if p < n {
        assert Linked(m, p);
        assert m'.stack[p - 1] == m.stack[p - 1] < m.stack[n - 1];
      } else {
        assert m'.nodes[m'.stack[p - 1]][e.key] == Child(m'.stack[p]);
      }
    }
  }

  ghost predicate Leads(nodes: Nodes, from: nat, path: seq<string>, to: nat)
    decreases |path|
  {
    if path == [] then from == to
    else
      && from < |nodes| && path[0] in nodes[from] && nodes[from][path[0]].Child?
      && Leads(nodes, nodes[from][path[0]].node, path[1..], to)
  }

  lemma {:induction false} LeadsOn(nodes: Nodes, from: nat, path: seq<string>, mid: nat, key: string)
    requires Leads(nodes, from, path, mid) && mid < |nodes| && key in nodes[mid] && nodes[mid][key].Child?
    ensures Leads(nodes, from, path + [key], nodes[mid][key].node)
    decreases |path|
  {
    if path == [] {
      assert ([] + [key])[1..] == [];
    } else {
      LeadsOn(nodes, nodes[from][path[0]].node, path[1..], mid, key);
      assert (path + [key])[1..] == path[1..] + [key];
    }
  }

  lemma {:induction false} ChainLeads(m: Machine, p: nat)
    requires Chained(m) && p < |m.stack|
    ensures exists path :: Leads(m.nodes, 0, path, m.stack[p])
  {
    if p == 0 {
      assert Leads(m.nodes, 0, [], 0);
    } else {
      ChainLeads(m, p - 1);
      var path :| Leads(m.nodes, 0, path, m.stack[p - 1]);
      assert Linked(m, p);
      var key :| key in m.nodes[m.stack[p - 1]] && m.nodes[m.stack[p - 1]][key] == Child(m.stack[p]);
      LeadsOn(m.nodes, 0, path, m.stack[p - 1], key);
    }
  }

  lemma {:induction false} RunIsChained(es: seq<Entry>)
    ensures Chained(Run(es))
  {
    if es != [] {
      RunIsChained(es[..|es| - 1]);
      hide Chained, Step;
      StepKeepsChain(Run(es[..|es| - 1]), es[|es| - 1]);
    }
  }

  // At every line, every open map is reached from the root by some path of keys.
  lemma OpenMapsStayReachable(es: seq<Entry>, p: nat)
    requires p < |Run(es).stack|
    ensures exists path :: Leads(Run(es).nodes, 0, path, Run(es).stack[p])
  {
    RunIsChained(es);
    hide Run, Chained;
    ChainLeads(Run(es), p);
  }

  // ---- Writing a nested map and reading it back.

  // A leaf is some way of writing a value.
  datatype Node = Leaf(w: YamlScalars.Writing) | Map(fields: Doc)

  // The fields of a map in the order they are written.
  datatype Doc = Empty | Field(key: string, node: Node, rest: Doc)

  function Keys(d: Doc): set<string> {
    match d
    case Empty => {}
    case Field(key, _, rest) => {key} + Keys(rest)
  }

  // Keys are distinct, and a leaf is written clearly and not as nothing.
  ghost predicate ValidDoc(d: Doc) {
    match d
    case Empty => true
    case Field(key, node, rest) => ValidNode(node) && key !in Keys(rest) && ValidDoc(rest)
  }

  ghost predicate ValidNode(n: Node) {
    match n
    case Leaf(w) => YamlScalars.IsWriting(w) && YamlScalars.IsClear(w) && YamlScalars.TextOf(w) != ""
    case Map(fields) => ValidDoc(fields)
  }

  // The lines of a map, each level `width` further in.
  function Written(d: Doc, indent: nat, width: nat): seq<Entry> {
    match d
    case Empty => []
    case Field(key, Leaf(w), rest) => [Entry(indent, key, YamlScalars.TextOf(w))] + Written(rest, indent, width)
    case Field(key, Map(fields), rest) =>
      [Entry(indent, key, "")] + (Written(fields, indent + width, width) + Written(rest, indent, width))
  }

  // What the maps from `low` on hold under a key is this node.
  ghost predicate Holds(nodes: Nodes, item: Item, n: Node, low: nat)
    decreases n, 0
  {
    match n
    case Leaf(w) => YamlScalars.IsWriting(w) && item == Scalar(YamlScalars.Meaning(w))
    case Map(fields) => item.Child? && low <= item.node < |nodes| && Denotes(nodes, item.node, fields, low)
  }

  ghost predicate HoldsAll(nodes: Nodes, m: map<string, Item>, d: Doc, low: nat)
    decreases d, 0
  {
    match d
    case Empty => true
    case Field(key, node, rest) => key in m && Holds(nodes, m[key], node, low) && HoldsAll(nodes, m, rest, low)
  }

  // Map i is the map that the document describes: these keys, these values, all the way down.
  ghost predicate Denotes(nodes: Nodes, i: nat, d: Doc, low: nat)
    requires i < |nodes|
    decreases d, 1
  {
    nodes[i].Keys == Keys(d) && HoldsAll(nodes, nodes[i], d, low)
  }

  // The machine after some lines, from any machine.
  function RunFrom(m: Machine, es: seq<Entry>): (m': Machine)
    requires WellFormed(m)
    ensures WellFormed(m')
    decreases |es|
  {
    if es == [] then m else RunFrom(Step(m, es[0]), es[1..])
  }

  lemma {:induction false} RunFromAppends(m: Machine, a: seq<Entry>, b: seq<Entry>)
    requires WellFormed(m)
    ensures RunFrom(m, a + b) == RunFrom(RunFrom(m, a), b)
    decreases |a|
  {
    hide Step;
    if a == [] {
      NothingAdded(b);
    } else {
      RunFromAppends(Step(m, a[0]), a[1..], b);
      assert (a + b)[1..] == a[1..] + b;
    }
  }

  lemma RunOne(m: Machine, e: Entry)
    requires WellFormed(m)
    ensures RunFrom(m, [e]) == Step(m, e)
  {
    hide Step;
    assert [e][1..] == [];
  }

  lemma {:induction false} RunIsRunFrom(es: seq<Entry>)
    ensures Run(es) == RunFrom(START, es)
  {
    hide Step;
    if es != [] {
      var n := |es| - 1;
      RunIsRunFrom(es[..n]);
      RunFromAppends(START, es[..n], [es[n]]);
      assert es == es[..n] + [es[n]];
      RunOne(Run(es[..n]), es[n]);
    }
  }

  // Maps that stay as they are go on denoting what they did.
  lemma {:induction false} HoldsAllLasts(nodes: Nodes, nodes': Nodes, m: map<string, Item>, d: Doc, low: nat, low': nat)
    requires HoldsAll(nodes, m, d, low) && low' <= low && |nodes| <= |nodes'|
    requires forall x :: low <= x < |nodes| ==> nodes'[x] == nodes[x]
    ensures HoldsAll(nodes', m, d, low')
    decreases d
  {
    if d.Field? {
      HoldsAllLasts(nodes, nodes', m, d.rest, low, low');
      assert Holds(nodes, m[d.key], d.node, low);
      if d.node.Map? {
        assert Denotes(nodes, m[d.key].node, d.node.fields, low);
        HoldsAllLasts(nodes, nodes', nodes[m[d.key].node], d.node.fields, low, low');
        assert Denotes(nodes', m[d.key].node, d.node.fields, low');
      }
      assert Holds(nodes', m[d.key], d.node, low');
    }
  }

  // Only the fields named matter.
  lemma {:induction false} HoldsAllSees(nodes: Nodes, m: map<string, Item>, m': map<string, Item>, d: Doc, low: nat)
    requires HoldsAll(nodes, m, d, low)
    requires forall k :: k in Keys(d) && k in m ==> k in m' && m'[k] == m[k]
    ensures HoldsAll(nodes, m', d, low)
  {
    if d.Field? {
      HoldsAllSees(nodes, m, m', d.rest, low);
    }
  }

  // From m to m' the fields of d went into the map that a line of this indent belongs to, the n-th open one.
  ghost predicate TookIn(m: Machine, m': Machine, d: Doc, indent: nat, n: nat)
    requires WellFormed(m) && WellFormed(m') && 1 <= n <= |m.stack|
  {
    var cur := m.stack[n - 1];
    && SameElsewhere(m.nodes, m'.nodes, cur)
    && m'.nodes[cur].Keys == m.nodes[cur].Keys + Keys(d)
    && (forall k :: k in m.nodes[cur] && k !in Keys(d) ==> m'.nodes[cur][k] == m.nodes[cur][k])
    && HoldsAll(m'.nodes, m'.nodes[cur], d, |m.nodes|)
    && Kept(m, m', indent, n)
  }

  ghost predicate SameElsewhere(nodes: Nodes, nodes': Nodes, cur: nat) {
    && cur < |nodes| <= |nodes'|
    && forall x :: 0 <= x < |nodes| && x != cur ==> nodes'[x] == nodes[x]
  }

  // The first n open maps are as they were and are what a line of this indent leaves open.
  ghost predicate Kept(m: Machine, m': Machine, indent: nat, n: nat)
    requires WellFormed(m) && WellFormed(m')
  {
    && n <= |m.stack| && n <= |m'.stack|
    && m'.stack[..n] == m.stack[..n] && m'.indents[..n] == m.indents[..n]
    && Keep(m'.indents, indent) == n
  }

  // Popping for a greater indent first makes no difference.
  lemma {:induction false} KeepTwice(indents: seq<nat>, a: nat, b: nat)
    requires indents != [] && a <= b
    ensures Keep(indents[..Keep(indents, b)], a) == Keep(indents, a)
  {
    if |indents| > 1 && b <= indents[|indents| - 1] {
      var init := indents[..|indents| - 1];
      KeepTwice(init, a, b);
      assert init[..Keep(init, b)] == indents[..Keep(indents, b)];
    } else {
      assert indents[..|indents|] == indents;
    }
  }

  lemma TextTakesIn(m: Machine, indent: nat, key: string, text: string, w: YamlScalars.Writing)
    requires WellFormed(m) && text != "" && YamlScalars.IsWriting(w)
    requires YamlScalars.ParseScalar(text) == YamlScalars.Meaning(w)
    ensures TookIn(m, Step(m, Entry(indent, key, text)), Field(key, Leaf(w), Empty), indent, Keep(m.indents, indent))
  {
    hide YamlScalars.ParseScalar, YamlScalars.IsWriting, YamlScalars.Meaning;
    KeepTwice(m.indents, indent, indent);
    hide Keep;
    var d, m' := Field(key, Leaf(w), Empty), Step(m, Entry(indent, key, text));
    var cur := m.stack[Keep(m.indents, indent) - 1];
    assert Keys(d) == {key} + Keys(Empty) == {key};
    assert Holds(m'.nodes, m'.nodes[cur][key], Leaf(w), |m.nodes|);
    assert HoldsAll(m'.nodes, m'.nodes[cur], Empty, |m.nodes|);
  }

  lemma LeafTakesIn(m: Machine, indent: nat, key: string, w: YamlScalars.Writing)
    requires WellFormed(m) && ValidNode(Leaf(w))
    ensures TookIn(m, Step(m, Entry(indent, key, YamlScalars.TextOf(w))), Field(key, Leaf(w), Empty), indent,
                   Keep(m.indents, indent))
  {
    assert YamlScalars.IsWriting(w) && YamlScalars.IsClear(w) && YamlScalars.TextOf(w) != "";
    hide *;
    YamlScalars.WritingReads(w);
    TextTakesIn(m, indent, key, YamlScalars.TextOf(w), w);
  }

  lemma HeaderOpens(m: Machine, indent: nat, key: string, width: nat)
    requires WellFormed(m) && width > 0
    ensures var n, m' := Keep(m.indents, indent), Step(m, Entry(indent, key, ""));
      && |m'.nodes| == |m.nodes| + 1 && m'.nodes[|m.nodes|] == map[]
      && |m'.stack| == n + 1 && m'.stack[n] == |m.nodes|
      && Keep(m'.indents, indent + width) == n + 1 && m'.indents == m.indents[..n] + [indent]
      && m'.stack[..n] == m.stack[..n]
      && m'.nodes == m.nodes[m.stack[n - 1] := m.nodes[m.stack[n - 1]][key := Child(|m.nodes|)]] + [map[]]
  {
  }

  lemma MapKeeps(m: Machine, m1: Machine, m2: Machine, indent: nat, width: nat)
    requires WellFormed(m) && WellFormed(m1) && WellFormed(m2)
    requires var n := Keep(m.indents, indent);
      && |m1.stack| == n + 1 && m1.indents == m.indents[..n] + [indent] && m1.stack[..n] == m.stack[..n]
      && Kept(m1, m2, indent + width, n + 1)
    ensures Kept(m, m2, indent, Keep(m.indents, indent))
  {
    var n := Keep(m.indents, indent);
    KeepTwice(m.indents, indent, indent);
    KeepTwice(m2.indents, indent, indent + width);
    assert m1.indents[..n + 1] == m1.indents;
    assert m2.indents[..n] == m2.indents[..n + 1][..n] == m.indents[..n];
    assert m2.stack[..n] == m2.stack[..n + 1][..n] == m1.stack[..n + 1][..n] == m.stack[..n];
    assert (m.indents[..n] + [indent])[..n] == m.indents[..n];
  }

  lemma MapTakesIn(m: Machine, m1: Machine, m2: Machine, key: string, fields: Doc, indent: nat, width: nat)
    requires WellFormed(m) && width > 0 && m1 == Step(m, Entry(indent, key, "")) && WellFormed(m2)
    requires var n := Keep(m.indents, indent); n + 1 <= |m1.stack| && TookIn(m1, m2, fields, indent + width, n + 1)
    ensures TookIn(m, m2, Field(key, Map(fields), Empty), indent, Keep(m.indents, indent))
  {
    var n, d := Keep(m.indents, indent), Field(key, Map(fields), Empty);
    var cur, child := m.stack[n - 1], |m.nodes|;
    HeaderOpens(m, indent, key, width);
    hide Step;
    MapKeeps(m, m1, m2, indent, width);
    hide Keep, Kept;
    assert m2.nodes[cur] == m.nodes[cur][key := Child(child)];
    HoldsAllLasts(m2.nodes, m2.nodes, m2.nodes[child], fields, |m1.nodes|, child);
    assert Denotes(m2.nodes, child, fields, child);
    assert Keys(d) == {key} + Keys(Empty) == {key};
    assert Holds(m2.nodes, m2.nodes[cur][key], Map(fields), child);
    assert HoldsAll(m2.nodes, m2.nodes[cur], Empty, child);
  }

  lemma TakenInTogether(m: Machine, m1: Machine, m2: Machine, key: string, node: Node, rest: Doc, indent: nat, n: nat)
    requires WellFormed(m) && WellFormed(m1) && WellFormed(m2) && 1 <= n <= |m.stack| && key !in Keys(rest)
    requires TookIn(m, m1, Field(key, node, Empty), indent, n) && TookIn(m1, m2, rest, indent, n)
    ensures TookIn(m, m2, Field(key, node, rest), indent, n)
  {
    var cur := m.stack[n - 1];
    assert m1.stack[n - 1] == m1.stack[..n][n - 1] == cur;
    assert Kept(m, m2, indent, n);
    hide Kept;
    var first := Field(key, node, Empty);
    assert Keys(first) == {key} + Keys(Empty) == {key};
    HoldsAllSees(m1.nodes, m1.nodes[cur], m2.nodes[cur], first, |m.nodes|);
    HoldsAllLasts(m1.nodes, m2.nodes, m2.nodes[cur], first, |m.nodes|, |m.nodes|);
    HoldsAllLasts(m2.nodes, m2.nodes, m2.nodes[cur], rest, |m1.nodes|, |m.nodes|);
    assert Holds(m2.nodes, m2.nodes[cur][key], node, |m.nodes|);
  }

  lemma KeptIndent(m: Machine, m': Machine, d: Doc, indent: nat, n: nat)
    requires WellFormed(m) && WellFormed(m') && 1 <= n <= |m.stack| && TookIn(m, m', d, indent, n)
    ensures Keep(m'.indents, indent) == n
  {
  }

  // A document was read: what WrittenReads says of one machine and one document.
  ghost predicate ReadsFrom(m: Machine, d: Doc, indent: nat, width: nat)
    requires WellFormed(m)
  {
    TookIn(m, RunFrom(m, Written(d, indent, width)), d, indent, Keep(m.indents, indent))
  }

  lemma LeafReads(m: Machine, key: string, w: YamlScalars.Writing, rest: Doc, indent: nat, width: nat)
    requires WellFormed(m) && ValidNode(Leaf(w)) && key !in Keys(rest)
    requires ReadsFrom(Step(m, Entry(indent, key, YamlScalars.TextOf(w))), rest, indent, width)
    ensures ReadsFrom(m, Field(key, Leaf(w), rest), indent, width)
  {
    var e, n := Entry(indent, key, YamlScalars.TextOf(w)), Keep(m.indents, indent);
    LeafTakesIn(m, indent, key, w);
    hide Step, Keep, TookIn, RunFrom, YamlScalars.TextOf, YamlScalars.IsClear;
    RunFromAppends(m, [e], Written(rest, indent, width));
    RunOne(m, e);
    KeptIndent(m, Step(m, e), Field(key, Leaf(w), Empty), indent, n);
    TakenInTogether(m, Step(m, e), RunFrom(Step(m, e), Written(rest, indent, width)), key, Leaf(w), rest, indent, n);
  }

  lemma MapReads(m: Machine, m2: Machine, key: string, fields: Doc, rest: Doc, indent: nat, width: nat)
    requires WellFormed(m) && width > 0 && key !in Keys(rest)
    requires m2 == RunFrom(Step(m, Entry(indent, key, "")), Written(fields, indent + width, width))
    requires ReadsFrom(Step(m, Entry(indent, key, "")), fields, indent + width, width)
    requires ReadsFrom(m2, rest, indent, width)
    ensures ReadsFrom(m, Field(key, Map(fields), rest), indent, width)
  {
    var e, n := Entry(indent, key, ""), Keep(m.indents, indent);
    var m1 := Step(m, e);
    HeaderOpens(m, indent, key, width);
    assert Written(Field(key, Map(fields), rest), indent, width)
      == [e] + (Written(fields, indent + width, width) + Written(rest, indent, width));
    hide Step, Keep, TookIn, RunFrom, Written, Keys;
    MapTakesIn(m, m1, m2, key, fields, indent, width);
    KeptIndent(m, m2, Field(key, Map(fields), Empty), indent, n);
    RunFromAppends(m1, Written(fields, indent + width, width), Written(rest, indent, width));
    RunFromAppends(m, [e], Written(fields, indent + width, width) + Written(rest, indent, width));
    RunOne(m, e);
    TakenInTogether(m, m2, RunFrom(m2, Written(rest, indent, width)), key, Map(fields), rest, indent, n);
  }

  lemma NothingReads(m: Machine, indent: nat, width: nat)
    requires WellFormed(m)
    ensures ReadsFrom(m, Empty, indent, width)
  {
    hide Keep;
    assert m.nodes[m.stack[Keep(m.indents, indent) - 1]].Keys + Keys(Empty)
        == m.nodes[m.stack[Keep(m.indents, indent) - 1]].Keys;
  }

  lemma {:induction false} WrittenReads(m: Machine, d: Doc, indent: nat, width: nat)
    requires WellFormed(m) && ValidDoc(d) && width > 0
    ensures ReadsFrom(m, d, indent, width)
    decreases d
  {
    hide Step, RunFrom, ReadsFrom, WellFormed, Written, Keys;
    match d
    case Empty => NothingReads(m, indent, width);
    case Field(key, node, rest) =>
      assert ValidNode(node);
      if node.Leaf? {
        WrittenReads(Step(m, Entry(indent, key, YamlScalars.TextOf(node.w))), rest, indent, width);
        LeafReads(m, key, node.w, rest, indent, width);
      } else {
        var m1 := Step(m, Entry(indent, key, ""));
        var m2 := RunFrom(m1, Written(node.fields, indent + width, width));
        WrittenReads(m1, node.fields, indent + width, width);
        WrittenReads(m2, rest, indent, width);
        MapReads(m, m2, key, node.fields, rest, indent, width);
      }
  }

  // Writing any nested map as indented lines and reading them gives that map.
  lemma WritingRoundTrips(d: Doc, width: nat)
    requires ValidDoc(d) && width > 0
    ensures Denotes(Run(Written(d, 0, width)).nodes, 0, d, 1)
  {
    WrittenReads(START, d, 0, width);
    RunIsRunFrom(Written(d, 0, width));
    hide Run, RunFrom, HoldsAll, Written, Keep;
  }

  // ---- The same for text.

  function Spaces(n: nat): (s: string)
    ensures |s| == n && forall k :: 0 <= k < n ==> s[k] == ' '
  {
    if n == 0 then "" else [' '] + Spaces(n - 1)
  }

  function LineText(e: Entry): string {
    Spaces(e.indent) + (e.key + ":" + if e.Header() then "" else " " + e.val)
  }

  // A key or value that a line can hold: no space around it, no line break, no colon in a key, and
  // nothing that makes a line a comment or a list item.
  predicate Writable(e: Entry) {
    && '\n' !in e.key && '\n' !in e.val
    && NoSpaceAround(e.key) && NoSpaceAround(e.val) && ':' !in e.key
    && (e.key != "" ==> e.key[0] != '#' && e.key[0] != '-')
  }

  lemma {:induction false} SpacesLead(n: nat, body: string)
    requires body != "" && body[0] != ' '
    ensures LeadingSpaces(Spaces(n) + body) == n
  {
    if n == 0 {
      NothingAdded(body);
    } else {
      SpacesLead(n - 1, body);
      assert (Spaces(n) + body)[1..] == Spaces(n - 1) + body;
    }
  }

  lemma {:induction false} FirstColon(key: string, after: string)
    requires ':' !in key
    ensures ColonAt(key + ":" + after) == |key|
  {
    var s := key + ":" + after;
    if key != "" {
      FirstColon(key[1..], after);
      assert s[1..] == key[1..] + ":" + after;
    }
  }

  lemma BodyEdges(e: Entry, body: string)
    requires Writable(e) && body == e.key + ":" + if e.Header() then "" else " " + e.val
    ensures body != "" && !IsSpace(body[0]) && !IsSpace(body[|body| - 1]) && body[0] != '#' && body[0] != '-'
  {
    assert !IsSpace(':');
    hide IsSpace;
  }

  lemma TrimValue(val: string)
    requires NoSpaceAround(val)
    ensures TrimSpace(if val == "" then "" else " " + val) == val
  {
    if val == "" {
      TrimNothing("");
    } else {
      TrimFront(" ", val);
    }
  }

  lemma NothingToTrimRight(line: string)
    requires line != "" && !IsSpace(line[|line| - 1])
    ensures TrimRight(line) == line
  {
    assert IsSpace(' ') && IsSpace('\t');
    hide IsSpace;
  }

  lemma SpacesAreSpace(n: nat)
    ensures forall k :: 0 <= k < n ==> IsSpace(Spaces(n)[k])
  {
  }

  lemma LineReads(e: Entry)
    requires Writable(e)
    ensures Classify(LineText(e)) == Accepted(e)
  {
    hide TrimSpace, IsSpace, TrimRight, LeadingSpaces, ColonAt, Spaces;
    var rest := if e.Header() then "" else " " + e.val;
    var body := e.key + ":" + rest;
    var line := LineText(e);
    BodyEdges(e, body);
    assert body[0] != ' ' by {
      SpacesAreSpace(1);
      assert Spaces(1)[0] == ' ';
    }
    SpacesAreSpace(e.indent);
    TrimFront(Spaces(e.indent), body);
    SpacesLead(e.indent, body);
    FirstColon(e.key, rest);
    TrimNothing(e.key);
    TrimValue(e.val);
    assert line[|line| - 1] == body[|body| - 1];
    NothingToTrimRight(line);
    assert body[..|e.key|] == e.key && body[|e.key| + 1..] == rest;
  }

  function LinesText(es: seq<Entry>): seq<string> {
    if es == [] then [] else LinesText(es[..|es| - 1]) + [LineText(es[|es| - 1])]
  }

  lemma OneLineMore(lines: seq<string>, line: string, e: Entry)
    requires Classify(line) == Accepted(e)
    ensures Entries(lines + [line]) == Entries(lines) + [e] && Errors(lines + [line]) == Errors(lines)
  {
    hide Classify;
    assert (lines + [line])[..|lines|] == lines;
    NothingAdded(Errors(lines));
  }

  predicate AllWritable(es: seq<Entry>) {
    forall k :: 0 <= k < |es| ==> Writable(es[k])
  }

  lemma {:induction false} LinesRead(es: seq<Entry>)
    requires AllWritable(es)
    ensures Entries(LinesText(es)) == es && Errors(LinesText(es)) == []
  {
    if es != [] {
      var n := |es| - 1;
      var before, last := es[..n], es[n];
      assert AllWritable(before) && Writable(last);
      hide AllWritable, Writable, Classify, LineText, Entries, Errors;
      LinesRead(before);
      LineReads(last);
      OneLineMore(LinesText(before), LineText(last), last);
      SplitLast(es);
    } else {
      assert LinesText(es) == [];
    }
  }

  predicate WritableDoc(d: Doc)
    decreases d
  {
    match d
    case Empty => true
    case Field(key, node, rest) => WritableNode(key, node) && WritableDoc(rest)
  }

  predicate WritableNode(key: string, n: Node)
    decreases n
  {
    match n
    case Leaf(w) => Writable(Entry(0, key, YamlScalars.TextOf(w)))
    case Map(fields) => Writable(Entry(0, key, "")) && WritableDoc(fields)
  }

  lemma {:induction false} WrittenIsWritable(d: Doc, indent: nat, width: nat)
    requires WritableDoc(d)
    ensures AllWritable(Written(d, indent, width))
    decreases d
  {
    if d.Field? {
      WrittenIsWritable(d.rest, indent, width);
      assert WritableNode(d.key, d.node);
      if d.node.Map? {
        WrittenIsWritable(d.node.fields, indent + width, width);
      }
      hide NoSpaceAround;
    }
  }

  lemma {:induction false} LinesStayWhole(es: seq<Entry>)
    requires AllWritable(es)
    ensures |LinesText(es)| == |es| && forall line :: line in LinesText(es) ==> '\n' !in line
  {
    if es != [] {
      var n := |es| - 1;
      LinesStayWhole(es[..n]);
      assert '\n' !in LineText(es[n]);
      InLonger(LinesText(es[..n]), LineText(es[n]));
      hide LineText;
    }
  }

  // The text of some lines comes apart into them; that of none into a blank one, which is skipped.
  lemma TextReads(es: seq<Entry>)
    requires AllWritable(es)
    ensures var lines := Split(Join(LinesText(es), '\n'), '\n'); Entries(lines) == es && Errors(lines) == []
  {
    LinesRead(es);
    LinesStayWhole(es);
    if es == [] {
      assert Classify("") == Skipped;
      assert [""][..0] == [];
      assert LinesText(es) == [];
    } else {
      hide Split, Join, LinesText, Entries, Errors, AllWritable;
      JoinSplits(LinesText(es), '\n');
    }
  }

  // Writing any nested map of writable keys and values as indented lines and parsing the text gives
  // that map, without errors.
  method RoundTrip(d: Doc, width: nat) returns (nodes: Nodes, errors: seq<string>)
    requires ValidDoc(d) && WritableDoc(d) && width > 0
    ensures errors == [] && nodes != [] && Denotes(nodes, 0, d, 1)
  {
    var es := Written(d, 0, width);
    WrittenIsWritable(d, 0, width);
    WritingRoundTrips(d, width);
    hide Written, LinesText, Run, Denotes, Split, Join, Entries, Errors, AllWritable;
    TextReads(es);
    nodes, errors := ParseTinyYaml(Join(LinesText(es), '\n'));
  }
}
