// Go's notions of white space and trimming, shared by the components that read text.
module Text {
  import opened Sequences

  // unicode.IsSpace
  predicate IsSpace(c: char) {
    || '\t' <= c <= '\r' || c == ' ' || c == '\U{85}' || c == '\U{A0}' || c == '\U{1680}'
    || '\U{2000}' <= c <= '\U{200A}' || c == '\U{2028}' || c == '\U{2029}'
    || c == '\U{202F}' || c == '\U{205F}' || c == '\U{3000}'
  }

  // The first index from i on that does not hold white space.
  function SkipSpace(s: string, i: nat): (n: nat)
    requires i <= |s|
    ensures i <= n <= |s|
    ensures n < |s| ==> !IsSpace(s[n])
    ensures forall k :: i <= k < n ==> IsSpace(s[k])
    decreases |s| - i
  {
    if i < |s| && IsSpace(s[i]) then SkipSpace(s, i + 1) else i
  }

  // The least end of s[i..] that loses nothing but white space.
  function DropSpace(s: string, i: nat, n: nat): (m: nat)
    requires i <= n <= |s|
    ensures i <= m <= n
    ensures i < m ==> !IsSpace(s[m - 1])
    ensures forall k :: m <= k < n ==> IsSpace(s[k])
  {
    if i < n && IsSpace(s[n - 1]) then DropSpace(s, i, n - 1) else n
  }

  // strings.TrimSpace
  function TrimSpace(s: string): (t: string)
    ensures t != [] ==> !IsSpace(t[0]) && !IsSpace(t[|t| - 1])
    ensures |t| <= |s|
  {
    var i := SkipSpace(s, 0);
    s[i..DropSpace(s, i, |s|)]
  }

  predicate Blank(s: string) {
    TrimSpace(s) == ""
  }

  predicate NoSpaceAround(s: string) {
    s != "" ==> !IsSpace(s[0]) && !IsSpace(s[|s| - 1])
  }

  // Trimming leaves alone what has no white space at its ends.
  lemma TrimNothing(s: string)
    requires NoSpaceAround(s)
    ensures TrimSpace(s) == s
  {
  }

  // One space at the end is all there is to trim.
  lemma TrimOne(s: string, c: char)
    requires s != [] && !IsSpace(s[0]) && !IsSpace(s[|s| - 1]) && IsSpace(c)
    ensures TrimSpace(s + [c]) == s
  {
    hide IsSpace;
    var t := s + [c];
    assert DropSpace(t, 0, |t|) == |s|;
  }

  lemma {:induction false} SkipsSpaces(gap: string, s: string, i: nat)
    requires (forall k :: 0 <= k < |gap| ==> IsSpace(gap[k])) && s != [] && !IsSpace(s[0]) && i <= |gap|
    ensures SkipSpace(gap + s, i) == |gap|
    decreases |gap| - i
  {
    if i < |gap| {
      SkipsSpaces(gap, s, i + 1);
    }
  }

  // White space at the front is all there is to trim.
  lemma TrimFront(gap: string, s: string)
    requires (forall k :: 0 <= k < |gap| ==> IsSpace(gap[k])) && s != [] && !IsSpace(s[0]) && !IsSpace(s[|s| - 1])
    ensures TrimSpace(gap + s) == s
  {
    hide IsSpace;
    SkipsSpaces(gap, s, 0);
    var t := gap + s;
    assert t[|t| - 1] == s[|s| - 1];
    assert t[|gap|..] == s;
  }

  // ---- What trimming comes to.

  predicate AllSpace(s: string) {
    forall k :: 0 <= k < |s| ==> IsSpace(s[k])
  }

  // The text is this one with white space around it, and this one has none.
  ghost predicate TrimsTo(s: string, t: string) {
    NoSpaceAround(t) && exists a, b :: AllSpace(a) && AllSpace(b) && s == a + t + b
  }

  lemma {:induction false} DropsAll(s: string, i: nat, n: nat, m: nat)
    requires i <= m <= n <= |s| && (i < m ==> !IsSpace(s[m - 1])) && forall k :: m <= k < n ==> IsSpace(s[k])
    ensures DropSpace(s, i, n) == m
    decreases n
  {
    hide IsSpace;
    if m < n {
      DropsAll(s, i, n - 1, m);
    }
  }

  lemma SpaceAround(a: string, t: string, b: string)
    requires NoSpaceAround(t) && AllSpace(a) && AllSpace(b)
    ensures TrimSpace(a + t + b) == t
  {
    hide IsSpace;
    var s := a + t + b;
    assert forall k :: 0 <= k < |a| ==> s[k] == a[k];
    assert forall k :: 0 <= k < |b| ==> s[|a| + |t| + k] == b[k];
    assert forall k :: |a| + |t| <= k < |s| ==> s[k] == b[k - |a| - |t|];
    if t == "" {
      assert forall k :: 0 <= k < |s| ==> IsSpace(s[k]);
    } else {
      assert s[|a|] == t[0] && s[|a| + |t| - 1] == t[|t| - 1];
      assert SkipSpace(s, 0) == |a|;
      DropsAll(s, |a|, |s|, |a| + |t|);
      assert s[|a|..|a| + |t|] == t;
    }
  }

  // Trimming finds the one text without white space around it that this is with some.
  lemma TrimIsExact(s: string, t: string)
    ensures TrimSpace(s) == t <==> TrimsTo(s, t)
  {
    hide IsSpace;
    if TrimSpace(s) == t {
      var i := SkipSpace(s, 0);
      var n := DropSpace(s, i, |s|);
      assert s == s[..i] + t + s[n..];
      assert AllSpace(s[..i]) && AllSpace(s[n..]);
    }
    if TrimsTo(s, t) {
      var a, b :| AllSpace(a) && AllSpace(b) && s == a + t + b;
      SpaceAround(a, t, b);
    }
  }

  lemma BlankIsAllSpace(s: string)
    ensures Blank(s) <==> AllSpace(s)
  {
    TrimIsExact(s, "");
    if AllSpace(s) {
      assert s == s + "" + "";
    }
    if TrimsTo(s, "") {
      var a, b :| AllSpace(a) && AllSpace(b) && s == a + "" + b;
    }
    hide IsSpace, TrimSpace;
  }

  lemma SpacesAdd(a: string, b: string)
    requires AllSpace(a) && AllSpace(b)
    ensures AllSpace(a + b)
  {
  }

  lemma Regrouped(x: string, a: string, t: string, b: string, y: string)
    ensures x + (a + t + b) + y == (x + a) + t + (b + y)
  {
  }

  // White space around a text makes no difference to its trimming.
  lemma TrimGaps(before: string, s: string, after: string)
    requires AllSpace(before) && AllSpace(after)
    ensures TrimSpace(before + s + after) == TrimSpace(s)
  {
    hide TrimSpace, AllSpace, IsSpace;
    var t := TrimSpace(s);
    TrimIsExact(s, t);
    var a, b :| AllSpace(a) && AllSpace(b) && s == a + t + b;
    SpacesAdd(before, a);
    SpacesAdd(b, after);
    Regrouped(before, a, t, b, after);
    SpaceAround(before + a, t, b + after);
  }

  // ---- Splitting and joining.

  // strings.Split(s, sep)
  function Split(s: string, sep: char): (parts: seq<string>)
    ensures parts != []
  {
    if s == "" then [""]
    else
      var rest := Split(s[1..], sep);
      if s[0] == sep then [""] + rest else [[s[0]] + rest[0]] + rest[1..]
  }

  lemma {:induction false} PartsAreNoLonger(s: string, sep: char)
    ensures forall k :: 0 <= k < |Split(s, sep)| ==> |Split(s, sep)[k]| <= |s|
  {
    if s != "" {
      PartsAreNoLonger(s[1..], sep);
    }
  }

  function Join(parts: seq<string>, sep: char): string {
    if parts == [] then ""
    else if |parts| == 1 then parts[0]
    else parts[0] + [sep] + Join(parts[1..], sep)
  }

  lemma FirstGrows(x: seq<string>, y: seq<string>, c: char)
    requires x != []
    ensures [[c] + (x + y)[0]] + (x + y)[1..] == [[c] + x[0]] + x[1..] + y
  {
    assert (x + y)[1..] == x[1..] + y;
  }

  lemma {:induction false} SplitsAt(a: string, sep: char, b: string)
    ensures Split(a + [sep] + b, sep) == Split(a, sep) + Split(b, sep)
  {
    var s := a + [sep] + b;
    if a == "" {
      assert s[1..] == b;
    } else {
      assert s[1..] == a[1..] + [sep] + b;
      SplitsAt(a[1..], sep, b);
      FirstGrows(Split(a[1..], sep), Split(b, sep), a[0]);
      Assoc([""], Split(a[1..], sep), Split(b, sep));
    }
  }

  lemma {:induction false} SplitsNowhere(s: string, sep: char)
    ensures sep !in s ==> Split(s, sep) == [s]
    ensures sep in s ==> |Split(s, sep)| > 1
  {
    if s != "" {
      SplitsNowhere(s[1..], sep);
      SplitHead(s);
      assert sep in s <==> s[0] == sep || sep in s[1..];
    }
  }

  // Splitting takes a joined list apart into as many parts exactly when no part holds the separator,
  // and then into the same.
  lemma {:induction false} JoinSplits(parts: seq<string>, sep: char)
    requires parts != []
    ensures |Split(Join(parts, sep), sep)| >= |parts|
    ensures (forall p :: p in parts ==> sep !in p) ==> Split(Join(parts, sep), sep) == parts
    ensures (exists p :: p in parts && sep in p) ==> |Split(Join(parts, sep), sep)| > |parts|
  {
    SplitsNowhere(parts[0], sep);
    SplitHead(parts);
    if |parts| > 1 {
      hide Split;
      JoinSplits(parts[1..], sep);
      SplitsAt(parts[0], sep, Join(parts[1..], sep));
      assert forall p :: p in parts <==> p == parts[0] || p in parts[1..];
    } else {
      assert parts == [parts[0]];
    }
  }

  lemma {:induction false} JoinHolds(parts: seq<string>, c: char, sep: char)
    requires c !in Join(parts, sep)
    ensures forall p :: p in parts ==> c !in p
  {
    if |parts| > 1 {
      SplitHead(parts);
      JoinHolds(parts[1..], c, sep);
      var s := Join(parts, sep);
      assert forall k :: 0 <= k < |parts[0]| ==> s[k] == parts[0][k];
      assert s[|parts[0]| + 1..] == Join(parts[1..], sep);
      assert forall x :: x in s[|parts[0]| + 1..] ==> x in s;
      assert forall p :: p in parts <==> p == parts[0] || p in parts[1..];
    }
  }
}
