// commandParts of internal/agent/codex/codex.go: how a configured command line is cut into words.
module CommandTokenizer {
  import opened Domain
  import opened Text
  import opened Sequences

  // ---- The language: what the rest of a line means outside quotes and inside each kind.

  function TextOf(token: Option<string>): string {
    if token.Some? then token.value else ""
  }

  function Flushed(token: Option<string>): seq<string> {
    if token.Some? then [token.value] else []
  }

  function Unquoted(s: string, token: Option<string>): seq<string>
    decreases |s|
  {
    if s == "" then Flushed(token)
    else if IsSpace(s[0]) then Flushed(token) + Unquoted(s[1..], None)
    else if s[0] == '\'' then SingleQuoted(s[1..], TextOf(token))
    else if s[0] == '"' then DoubleQuoted(s[1..], TextOf(token))
    else if s[0] == '\\' then Escaped(s[1..], TextOf(token), false)
    else Unquoted(s[1..], Some(TextOf(token) + [s[0]]))
  }

  function SingleQuoted(s: string, token: string): seq<string>
    decreases |s|
  {
    if s == "" then [token]
    else if s[0] == '\'' then Unquoted(s[1..], Some(token))
    else SingleQuoted(s[1..], token + [s[0]])
  }

  function DoubleQuoted(s: string, token: string): seq<string>
    decreases |s|
  {
    if s == "" then [token]
    else if s[0] == '"' then Unquoted(s[1..], Some(token))
    else if s[0] == '\\' then Escaped(s[1..], token, true)
    else DoubleQuoted(s[1..], token + [s[0]])
  }

  // After a backslash any character stands for itself; at the end the backslash does.
  function Escaped(s: string, token: string, inDouble: bool): seq<string>
    decreases |s|
  {
    if s == "" then [token + "\\"]
    else if inDouble then DoubleQuoted(s[1..], token + [s[0]])
    else Unquoted(s[1..], Some(token + [s[0]]))
  }

  function Words(command: string): seq<string> {
    Unquoted(TrimSpace(command), None)
  }

  // What is still to come, by the flags of the loop.
  function Remaining(s: string, inSingle: bool, inDouble: bool, escaped: bool, started: bool,
      current: string): seq<string> {
    if escaped then Escaped(s, current, inDouble)
    else if inSingle then SingleQuoted(s, current)
    else if inDouble then DoubleQuoted(s, current)
    else Unquoted(s, if started then Some(current) else None)
  }

  method Flush(parts: seq<string>, current: string, started: bool) returns (parts': seq<string>, current': string)
    requires !started ==> current == ""
    ensures parts' == parts + Flushed(if started then Some(current) else None) && current' == ""
  {
    if !started {
      return parts, current;
    }
    return parts + [current], "";
  }

  method CommandParts(command: string) returns (parts: seq<string>)
    ensures parts == Words(command)
  {
    hide TrimSpace, IsSpace;
    var line := TrimSpace(command);
    if line == "" {
      return [];
    }
    parts := [];
    var current, inSingle, inDouble, escaped, started := "", false, false, false, false;
    var i := 0;
    assert line[0..] == line;
    while i < |line|
      invariant i <= |line|
      invariant !started ==> current == "" && !inSingle && !inDouble && !escaped
      invariant !(inSingle && inDouble) && !(inSingle && escaped)
      invariant parts + Remaining(line[i..], inSingle, inDouble, escaped, started, current) == Words(command)
    {
      var r := line[i];
      assert line[i..][0] == r && line[i..][1..] == line[i + 1..];
      i := i + 1;
      if escaped {
        current, started, escaped := current + [r], true, false;
      } else if inSingle {
        if r == '\'' {
          inSingle := false;
        } else {
          current, started := current + [r], true;
        }
      } else if inDouble {
        if r == '"' {
          inDouble := false;
        } else if r == '\\' {
          escaped := true;
        } else {
          current, started := current + [r], true;
        }
      } else if IsSpace(r) {
        parts, current := Flush(parts, current, started);
        started := false;
      } else if r == '\'' {
        inSingle, started := true, true;
      } else if r == '"' {
        inDouble, started := true, true;
      } else if r == '\\' {
        escaped, started := true, true;
      } else {
        current, started := current + [r], true;
      }
    }
    assert line[i..] == "";
    if escaped {
      current := current + "\\";
    }
    parts, current := Flush(parts, current, started);
  }

  // ---- Every way of writing a word.

  datatype Piece =
    | Bare(c: char)
    | Backslashed(c: char)
    | InSingles(text: string)
    | InDoubles(text: string)

  predicate IsPlain(c: char) {
    !IsSpace(c) && c != '\'' && c != '"' && c != '\\'
  }

  predicate Writable(p: Piece) {
    match p
    case Bare(c) => IsPlain(c)
    case InSingles(text) => '\'' !in text
    case _ => true
  }

  // Inside double quotes, quotes and backslashes are escaped.
  function EscapeDouble(text: string): string {
    if text == "" then ""
    else (if text[0] == '"' || text[0] == '\\' then ['\\', text[0]] else [text[0]]) + EscapeDouble(text[1..])
  }

  function Written(p: Piece): (s: string)
    ensures s != ""
  {
    match p
    case Bare(c) => [c]
    case Backslashed(c) => ['\\', c]
    case InSingles(text) => "'" + text + "'"
    case InDoubles(text) => "\"" + EscapeDouble(text) + "\""
  }

  function Meaning(p: Piece): string {
    match p
    case Bare(c) => [c]
    case Backslashed(c) => [c]
    case InSingles(text) => text
    case InDoubles(text) => text
  }

  type Word = seq<Piece>

  function WordWritten(w: Word): string {
    if w == [] then "" else Written(w[0]) + WordWritten(w[1..])
  }

  function WordMeaning(w: Word): string {
    if w == [] then "" else Meaning(w[0]) + WordMeaning(w[1..])
  }

  predicate WritableWord(w: Word) {
    w != [] && forall k :: 0 <= k < |w| ==> Writable(w[k])
  }

  predicate IsGap(s: string) {
    s != "" && forall k :: 0 <= k < |s| ==> IsSpace(s[k])
  }

  // A line of words: every word but the last is followed by a gap of white space.
  datatype Line = Line(body: seq<(Word, string)>, last: Word)

  predicate WritableBody(body: seq<(Word, string)>) {
    forall k :: 0 <= k < |body| ==> WritableWord(body[k].0) && IsGap(body[k].1)
  }

  predicate WritableLine(l: Line) {
    WritableBody(l.body) && WritableWord(l.last)
  }

  function BodyWritten(body: seq<(Word, string)>): string {
    if body == [] then "" else WordWritten(body[0].0) + body[0].1 + BodyWritten(body[1..])
  }

  function BodyMeaning(body: seq<(Word, string)>): seq<string> {
    if body == [] then [] else [WordMeaning(body[0].0)] + BodyMeaning(body[1..])
  }

  function LineWritten(l: Line): string {
    BodyWritten(l.body) + WordWritten(l.last)
  }

  function LineMeaning(l: Line): seq<string> {
    BodyMeaning(l.body) + [WordMeaning(l.last)]
  }

  // ---- Each piece, word and line reads back as what it means.

  lemma {:induction false} SinglesRead(text: string, rest: string, token: string)
    requires '\'' !in text
    ensures SingleQuoted(text + "'" + rest, token) == Unquoted(rest, Some(token + text))
  {
    var s := text + "'" + rest;
    if text == "" {
      assert s[1..] == rest && token + text == token;
    } else {
      assert s[1..] == text[1..] + "'" + rest;
      SinglesRead(text[1..], rest, token + [text[0]]);
      assert token + [text[0]] + text[1..] == token + text;
    }
  }

  lemma {:induction false} DoublesRead(text: string, rest: string, token: string)
    ensures DoubleQuoted(EscapeDouble(text) + "\"" + rest, token) == Unquoted(rest, Some(token + text))
  {
    var s := EscapeDouble(text) + "\"" + rest;
    if text == "" {
      assert s[1..] == rest && token + text == token;
    } else {
      var tail := EscapeDouble(text[1..]) + "\"" + rest;
      DoublesRead(text[1..], rest, token + [text[0]]);
      assert token + [text[0]] + text[1..] == token + text;
      if text[0] == '"' || text[0] == '\\' {
        assert s[1..][1..] == tail;
      } else {
        assert s[1..] == tail;
      }
    }
  }

  lemma BareReads(c: char, rest: string, token: Option<string>)
    requires IsPlain(c)
    ensures Unquoted([c] + rest, token) == Unquoted(rest, Some(TextOf(token) + [c]))
  {
    assert ([c] + rest)[1..] == rest;
  }

  lemma BackslashReads(c: char, rest: string, token: Option<string>)
    ensures Unquoted(['\\', c] + rest, token) == Unquoted(rest, Some(TextOf(token) + [c]))
  {
    var s := ['\\', c] + rest;
    assert s[1..] == [c] + rest && ([c] + rest)[1..] == rest;
    assert Unquoted(s, token) == Escaped(s[1..], TextOf(token), false);
  }

  lemma QuoteOpens(quote: char, rest: string, token: Option<string>)
    requires quote == '\'' || quote == '"'
    ensures Unquoted([quote] + rest, token)
         == if quote == '"' then DoubleQuoted(rest, TextOf(token)) else SingleQuoted(rest, TextOf(token))
  {
    assert ([quote] + rest)[1..] == rest;
  }

  lemma PieceReads(p: Piece, rest: string, token: Option<string>)
    requires Writable(p)
    ensures Unquoted(Written(p) + rest, token) == Unquoted(rest, Some(TextOf(token) + Meaning(p)))
  {
    hide Unquoted, SingleQuoted, DoubleQuoted, Escaped, IsSpace;
    match p
    case Bare(c) => BareReads(c, rest, token);
    case Backslashed(c) => BackslashReads(c, rest, token);
    case InSingles(text) =>
      assert Written(p) + rest == ['\''] + (text + "'" + rest);
      QuoteOpens('\'', text + "'" + rest, token);
      SinglesRead(text, rest, TextOf(token));
    case InDoubles(text) =>
      assert Written(p) + rest == ['"'] + (EscapeDouble(text) + "\"" + rest);
      QuoteOpens('"', EscapeDouble(text) + "\"" + rest, token);
      DoublesRead(text, rest, TextOf(token));
  }

  lemma OnePiece(w: Word)
    requires |w| == 1
    ensures WordWritten(w) == Written(w[0]) && WordMeaning(w) == Meaning(w[0])
  {
    hide Written, Meaning;
    NothingAdded(Written(w[0]));
    NothingAdded(Meaning(w[0]));
  }

  lemma {:induction false} WordReads(w: Word, rest: string, token: Option<string>)
    requires WritableWord(w)
    ensures Unquoted(WordWritten(w) + rest, token) == Unquoted(rest, Some(TextOf(token) + WordMeaning(w)))
  {
    hide Unquoted, Written, Meaning, Writable;
    if |w| == 1 {
      OnePiece(w);
      PieceReads(w[0], rest, token);
    } else {
      var token' := Some(TextOf(token) + Meaning(w[0]));
      PieceReads(w[0], WordWritten(w[1..]) + rest, token);
      WordReads(w[1..], rest, token');
      hide WritableWord;
      Assoc(Written(w[0]), WordWritten(w[1..]), rest);
      Assoc(TextOf(token), Meaning(w[0]), WordMeaning(w[1..]));
    }
  }

  lemma {:induction false} GapReads(gap: string, rest: string, token: Option<string>)
    requires IsGap(gap)
    ensures Unquoted(gap + rest, token) == Flushed(token) + Unquoted(rest, None)
  {
    assert (gap + rest)[1..] == gap[1..] + rest;
    if |gap| == 1 {
      assert gap[1..] + rest == rest;
    } else {
      GapReads(gap[1..], rest, None);
    }
  }

  lemma {:induction false} BodyReads(body: seq<(Word, string)>, rest: string)
    requires WritableBody(body)
    ensures Unquoted(BodyWritten(body) + rest, None) == BodyMeaning(body) + Unquoted(rest, None)
  {
    hide WritableWord, IsGap, Unquoted, WordWritten, WordMeaning;
    if body == [] {
      NothingAdded(rest);
      NothingAdded(Unquoted(rest, None));
    } else {
      var word, gap := body[0].0, body[0].1;
      var after := BodyWritten(body[1..]);
      BodyReads(body[1..], rest);
      WordReads(word, gap + (after + rest), None);
      NothingAdded(WordMeaning(word));
      GapReads(gap, after + rest, Some(WordMeaning(word)));
      hide WritableBody;
      Assoc(WordWritten(word) + gap, after, rest);
      Assoc(WordWritten(word), gap, after + rest);
      Assoc([WordMeaning(word)], BodyMeaning(body[1..]), Unquoted(rest, None));
    }
  }

  lemma LineReads(l: Line)
    requires WritableLine(l)
    ensures Unquoted(LineWritten(l), None) == LineMeaning(l)
  {
    assert Unquoted("", Some(WordMeaning(l.last))) == [WordMeaning(l.last)];
    hide WritableWord, Unquoted, WritableBody, WordWritten, WordMeaning, BodyWritten, BodyMeaning;
    NothingAdded(WordWritten(l.last));
    NothingAdded(WordMeaning(l.last));
    BodyReads(l.body, WordWritten(l.last));
    WordReads(l.last, "", None);
  }

  // ---- Trimming the line first spoils only an escaped space at its very end.

  predicate EndsInEscapedSpace(w: Word) {
    w != [] && w[|w| - 1].Backslashed? && IsSpace(w[|w| - 1].c)
  }

  lemma {:induction false} WordSplits(w: Word)
    requires w != []
    ensures WordWritten(w) == WordWritten(w[..|w| - 1]) + Written(w[|w| - 1])
    ensures WordMeaning(w) == WordMeaning(w[..|w| - 1]) + Meaning(w[|w| - 1])
  {
    hide Written, Meaning;
    if |w| == 1 {
      OnePiece(w);
      NothingAdded(Written(w[0]));
      NothingAdded(Meaning(w[0]));
    } else {
      Shift(w);
      var init := w[..|w| - 1];
      WordSplits(w[1..]);
      Assoc(Written(w[0]), WordWritten(init[1..]), Written(w[|w| - 1]));
      Assoc(Meaning(w[0]), WordMeaning(init[1..]), Meaning(w[|w| - 1]));
    }
  }

  lemma WordEdges(w: Word)
    requires WritableWord(w)
    ensures WordWritten(w) != "" && !IsSpace(WordWritten(w)[0])
    ensures !EndsInEscapedSpace(w) ==> !IsSpace(WordWritten(w)[|WordWritten(w)| - 1])
  {
    WordSplits(w);
    assert WordWritten(w) == Written(w[0]) + WordWritten(w[1..]);
    PieceEdges(w[0]);
    PieceEdges(w[|w| - 1]);
    hide IsSpace, Written, Writable, WordWritten;
  }

  lemma PieceEdges(p: Piece)
    requires Writable(p)
    ensures !IsSpace(Written(p)[0])
    ensures !(p.Backslashed? && IsSpace(p.c)) ==> !IsSpace(Written(p)[|Written(p)| - 1])
  {
  }

  lemma LineEdges(l: Line)
    requires WritableLine(l)
    ensures LineWritten(l) != "" && !IsSpace(LineWritten(l)[0])
  {
    WordEdges(l.last);
    if l.body != [] {
      assert WritableWord(l.body[0].0);
      WordEdges(l.body[0].0);
    }
    hide IsSpace, WritableWord, WordWritten;
  }

  lemma TrimmedLine(l: Line)
    requires WritableLine(l)
    ensures TrimSpace(LineWritten(l)) ==
      if EndsInEscapedSpace(l.last) then BodyWritten(l.body) + (WordWritten(l.last[..|l.last| - 1]) + "\\")
      else LineWritten(l)
  {
    LineEdges(l);
    WordEdges(l.last);
    hide IsSpace, WritableWord, WordWritten, TrimSpace;
    if EndsInEscapedSpace(l.last) {
      WordSplits(l.last);
      var rest := BodyWritten(l.body) + (WordWritten(l.last[..|l.last| - 1]) + "\\");
      assert LineWritten(l) == rest + [l.last[|l.last| - 1].c];
      TrimOne(rest, l.last[|l.last| - 1].c);
    } else {
      TrimNothing(LineWritten(l));
    }
  }

  // The line cut short reads the backslash as itself.
  lemma CutLineReads(l: Line)
    requires WritableLine(l) && EndsInEscapedSpace(l.last)
    ensures Unquoted(BodyWritten(l.body) + (WordWritten(l.last[..|l.last| - 1]) + "\\"), None)
         == BodyMeaning(l.body) + [WordMeaning(l.last[..|l.last| - 1]) + "\\"]
  {
    var w := l.last[..|l.last| - 1];
    BodyReads(l.body, WordWritten(w) + "\\");
    if w == [] {
      assert WordWritten(w) + "\\" == "\\" && "\\"[1..] == "";
      assert Unquoted("\\", None) == Escaped("", "", false);
    } else {
      WordReads(w, "\\", None);
      assert "" + WordMeaning(w) == WordMeaning(w) && "\\"[1..] == "";
      assert Unquoted("\\", Some(WordMeaning(w))) == Escaped("", WordMeaning(w), false);
    }
  }

  // ---- Lines that end inside quotes or behind a backslash.

  lemma {:induction false} UnclosedSinglesRead(text: string, token: string)
    requires '\'' !in text
    ensures SingleQuoted(text, token) == [token + text]
  {
    if text == "" {
      NothingAdded(token);
    } else {
      UnclosedSinglesRead(text[1..], token + [text[0]]);
      assert token + [text[0]] + text[1..] == token + text;
    }
  }

  lemma {:induction false} UnclosedDoublesRead(text: string, token: string)
    ensures DoubleQuoted(EscapeDouble(text), token) == [token + text]
  {
    var s := EscapeDouble(text);
    if text == "" {
      NothingAdded(token);
    } else {
      var tail := EscapeDouble(text[1..]);
      UnclosedDoublesRead(text[1..], token + [text[0]]);
      assert token + [text[0]] + text[1..] == token + text;
      if text[0] == '"' || text[0] == '\\' {
        assert s[1..][1..] == tail;
      } else {
        assert s[1..] == tail;
      }
    }
  }

  // What is left open at the end of a line.
  datatype Loose = LooseSingle(text: string) | LooseDouble(text: string) | LooseBackslash

  function LooseWritten(end: Loose): string {
    match end
    case LooseSingle(text) => "'" + text
    case LooseDouble(text) => "\"" + EscapeDouble(text)
    case LooseBackslash => "\\"
  }

  function LooseMeaning(end: Loose): string {
    match end
    case LooseSingle(text) => text
    case LooseDouble(text) => text
    case LooseBackslash => "\\"
  }

  lemma {:induction false} EscapeDoubleEdge(text: string)
    ensures text != "" ==> EscapeDouble(text) != "" && EscapeDouble(text)[|EscapeDouble(text)| - 1] == text[|text| - 1]
  {
    if text != "" {
      EscapeDoubleEdge(text[1..]);
    }
  }

  lemma LooseReads(end: Loose, token: string)
    requires end.LooseSingle? ==> '\'' !in end.text
    ensures Unquoted(LooseWritten(end), Some(token)) == [token + LooseMeaning(end)]
  {
    match end
    case LooseSingle(text) =>
      assert ("'" + text)[1..] == text;
      UnclosedSinglesRead(text, token);
    case LooseDouble(text) =>
      assert ("\"" + EscapeDouble(text))[1..] == EscapeDouble(text);
      UnclosedDoublesRead(text, token);
    case LooseBackslash =>
      assert "\\"[1..] == "";
      assert Unquoted("\\", Some(token)) == Escaped("", token, false);
  }

  lemma LooseEdge(end: Loose)
    requires !end.LooseBackslash? && end.text != "" ==> !IsSpace(end.text[|end.text| - 1])
    ensures LooseWritten(end) != "" && !IsSpace(LooseWritten(end)[|LooseWritten(end)| - 1])
  {
    assert !IsSpace('\'') && !IsSpace('"') && !IsSpace('\\');
    hide IsSpace;
    if end.LooseDouble? {
      EscapeDoubleEdge(end.text);
    }
  }

  // The end of the line closes a quote that is left open, and a backslash that has nothing to escape
  // stands for itself.
  lemma LooseEndsRead(l: Line, end: Loose)
    requires WritableLine(l) && (end.LooseSingle? ==> '\'' !in end.text)
    requires !end.LooseBackslash? && end.text != "" ==> !IsSpace(end.text[|end.text| - 1])
    ensures Words(LineWritten(l) + LooseWritten(end)) == BodyMeaning(l.body) + [WordMeaning(l.last) + LooseMeaning(end)]
  {
    var s := LooseWritten(end);
    LineEdges(l);
    LooseEdge(end);
    LooseReads(end, WordMeaning(l.last));
    hide IsSpace, Unquoted, LooseWritten, LooseMeaning, WordWritten, WordMeaning, BodyWritten, BodyMeaning,
      WritableWord;
    TrimNothing(LineWritten(l) + s);
    Assoc(BodyWritten(l.body), WordWritten(l.last), s);
    BodyReads(l.body, WordWritten(l.last) + s);
    WordReads(l.last, s, None);
    NothingAdded(WordMeaning(l.last));
  }

  // However words are written - bare, with backslashes, in single or double quotes, in any mixture,
  // apart by any white space - the tokenizer gives them back, except when the line ends in an
  // escaped space: trimming takes the space away and the backslash stays.
  lemma TokenizerReadsBack(l: Line)
    requires WritableLine(l)
    ensures Words(LineWritten(l)) == LineMeaning(l) <==> !EndsInEscapedSpace(l.last)
  {
    TrimmedLine(l);
    if EndsInEscapedSpace(l.last) {
      CutLineReads(l);
      WordSplits(l.last);
      hide Unquoted, TrimSpace, WritableLine, WordWritten, BodyWritten, WordMeaning;
      var n := |BodyMeaning(l.body)|;
      var init := WordMeaning(l.last[..|l.last| - 1]);
      var c := l.last[|l.last| - 1].c;
      assert Words(LineWritten(l))[n] == init + "\\" && LineMeaning(l)[n] == init + [c];
      assert (init + "\\")[|init|] != (init + [c])[|init|];
    } else {
      LineReads(l);
    }
  }

  // ---- Quoting with single quotes.

  // Inside single quotes a quote is written by closing, escaping it and opening again.
  function EscapeSingle(arg: string): string {
    if arg == "" then "" else (if arg[0] == '\'' then "'\\''" else [arg[0]]) + EscapeSingle(arg[1..])
  }

  function Quote(arg: string): string {
    "'" + EscapeSingle(arg) + "'"
  }

  function QuotedLine(args: seq<string>): string {
    if args == [] then ""
    else if |args| == 1 then Quote(args[0])
    else Quote(args[0]) + " " + QuotedLine(args[1..])
  }

  // The pieces of an argument, `held` being what the quotes opened last hold so far.
  function Pieces(arg: string, held: string): (w: Word)
    requires '\'' !in held
    ensures WritableWord(w) && !EndsInEscapedSpace(w)
  {
    if arg == "" then [InSingles(held)]
    else if arg[0] == '\'' then [InSingles(held), Backslashed('\'')] + Pieces(arg[1..], "")
    else Pieces(arg[1..], held + [arg[0]])
  }

  lemma TwoPiecesMore(p: Piece, q: Piece, tail: Word)
    ensures WordWritten([p, q] + tail) == Written(p) + (Written(q) + WordWritten(tail))
    ensures WordMeaning([p, q] + tail) == Meaning(p) + (Meaning(q) + WordMeaning(tail))
  {
    hide Written, Meaning;
    HeadAndTail(p, [q] + tail);
    HeadAndTail(q, tail);
    assert [p, q] + tail == [p] + ([q] + tail);
  }

  lemma QuoteReopens(held: string, after: string)
    ensures ("'" + held + "'") + (['\\', '\''] + ("'" + "" + after + "'")) == "'" + held + ("'\\''" + after) + "'"
  {
  }

  lemma {:induction false} PiecesAreTheQuote(arg: string, held: string)
    requires '\'' !in held
    ensures WordWritten(Pieces(arg, held)) == "'" + held + EscapeSingle(arg) + "'"
    ensures WordMeaning(Pieces(arg, held)) == held + arg
  {
    hide WordWritten, WordMeaning, WritableWord;
    if arg == "" {
      OnePiece(Pieces(arg, held));
      NothingAdded("'" + held);
      NothingAdded(held);
    } else {
      SplitHead(arg);
      if arg[0] == '\'' {
        PiecesAreTheQuote(arg[1..], "");
        TwoPiecesMore(InSingles(held), Backslashed('\''), Pieces(arg[1..], ""));
        assert EscapeSingle(arg) == "'\\''" + EscapeSingle(arg[1..]);
        hide EscapeSingle, Pieces;
        QuoteReopens(held, EscapeSingle(arg[1..]));
        NothingAdded(arg[1..]);
      } else {
        PiecesAreTheQuote(arg[1..], held + [arg[0]]);
        hide Pieces;
        Assoc(held, [arg[0]], arg[1..]);
        Assoc("'", held, [arg[0]]);
        Assoc("'" + held, [arg[0]], EscapeSingle(arg[1..]));
      }
    }
  }

  function QuotedBody(args: seq<string>): (body: seq<(Word, string)>)
    ensures WritableBody(body)
  {
    if args == [] then [] else [(Pieces(args[0], ""), " ")] + QuotedBody(args[1..])
  }

  lemma PiecesOf(arg: string)
    ensures WordWritten(Pieces(arg, "")) == Quote(arg) && WordMeaning(Pieces(arg, "")) == arg
  {
    hide WordWritten, WordMeaning, Pieces, EscapeSingle;
    PiecesAreTheQuote(arg, "");
    NothingAdded("'");
    NothingAdded(arg);
  }

  lemma {:induction false} QuotedLineIsALine(args: seq<string>)
    requires args != []
    ensures var l := Line(QuotedBody(args[..|args| - 1]), Pieces(args[|args| - 1], ""));
      LineWritten(l) == QuotedLine(args) && LineMeaning(l) == args
  {
    hide WritableBody, Pieces, Quote, WordWritten, WordMeaning;
    PiecesOf(args[0]);
    if |args| == 1 {
      NothingAdded(Quote(args[0]));
      NothingAdded([args[0]]);
    } else {
      Shift(args);
      SplitHead(args);
      QuotedLineIsALine(args[1..]);
      var init := args[..|args| - 1];
      var body, last := QuotedBody(init), Pieces(args[|args| - 1], "");
      HeadAndTail((Pieces(args[0], ""), " "), QuotedBody(init[1..]));
      Assoc(Quote(args[0]) + " ", BodyWritten(body[1..]), WordWritten(last));
      Assoc([args[0]], BodyMeaning(body[1..]), [WordMeaning(last)]);
    }
  }

  // Joining single-quoted arguments with spaces and tokenizing gives the arguments back, whatever
  // they hold and however many there are.
  lemma QuotingRoundTrips(args: seq<string>)
    ensures Words(QuotedLine(args)) == args
  {
    if args == [] {
      TrimNothing("");
    } else {
      QuotedLineIsALine(args);
      TokenizerReadsBack(Line(QuotedBody(args[..|args| - 1]), Pieces(args[|args| - 1], "")));
    }
  }
}
