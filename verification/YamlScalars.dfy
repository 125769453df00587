// parseScalar of internal/config/workflow.go: what the text of a value means.
module YamlScalars {
  import opened Domain
  import opened Text
  import opened Sequences

  // Go's int on a 64-bit platform.
  type Int64 = n: int | -0x8000_0000_0000_0000 <= n < 0x8000_0000_0000_0000

  datatype Scalar = NullScalar | Flag(b: bool) | Inline(items: seq<Scalar>) | Number(n: Int64) | Plain(text: string)

  // ---- Numbers.

  predicate AllDigits(s: string) {
    forall k :: 0 <= k < |s| ==> '0' <= s[k] <= '9'
  }

  function ValueOf(digits: string): nat
    requires AllDigits(digits)
  {
    if digits == "" then 0
    else
      var n := |digits| - 1;
      10 * ValueOf(digits[..n]) + (digits[n] as int - '0' as int)
  }

  function Fitting(n: int): Option<Int64> {
    if -0x8000_0000_0000_0000 <= n < 0x8000_0000_0000_0000 then Some(n) else None
  }

  // strconv.Atoi: a sign or none, at least one digit, and a value that fits.
  function Atoi(s: string): Option<Int64> {
    var digits := if s != "" && (s[0] == '-' || s[0] == '+') then s[1..] else s;
    if digits == "" || !AllDigits(digits) then None
    else
      Fitting(if s[0] == '-' then -1 * ValueOf(digits) else ValueOf(digits))
  }

  function Digits(n: nat): (s: string)
    ensures s != "" && AllDigits(s)
  {
    (if n < 10 then "" else Digits(n / 10)) + ['0' + (n % 10) as char]
  }

  function Decimal(n: int): (s: string)
    ensures s != ""
  {
    if n < 0 then "-" + Digits(-n) else Digits(n)
  }

  lemma {:induction false} DigitsRead(n: nat)
    ensures ValueOf(Digits(n)) == n
  {
    var s := Digits(n);
    if n >= 10 {
      DigitsRead(n / 10);
      assert s[..|s| - 1] == Digits(n / 10);
    }
  }

  lemma SignsRead(digits: string)
    requires digits != "" && AllDigits(digits)
    ensures Atoi(digits) == Fitting(ValueOf(digits)) && Atoi("-" + digits) == Fitting(-1 * ValueOf(digits))
  {
    hide ValueOf, Fitting;
    assert ("-" + digits)[1..] == digits;
  }

  lemma DecimalReads(n: int)
    ensures Atoi(Decimal(n)) == Fitting(n)
  {
    var digits := Digits(if n < 0 then -n else n);
    DigitsRead(if n < 0 then -n else n);
    hide Digits, ValueOf, Atoi, AllDigits;
    SignsRead(digits);
  }

  // ---- Reading.

  predicate Bracketed(s: string) {
    |s| >= 2 && s[0] == '[' && s[|s| - 1] == ']'
  }

  predicate Quoted(s: string) {
    |s| >= 2 && s[0] == s[|s| - 1] && (s[0] == '"' || s[0] == '\'')
  }

  function ParseScalar(raw: string): Scalar
    decreases |raw|, 1
  {
    var s := TrimSpace(raw);
    if s == "null" || s == "~" then NullScalar
    else if s == "true" then Flag(true)
    else if s == "false" then Flag(false)
    else if Bracketed(s) then
      var inner := TrimSpace(s[1..|s| - 1]);
      PartsAreNoLonger(inner, ',');
      if inner == "" then Inline([]) else Inline(ParseAll(Split(inner, ','), |raw|))
    else if Quoted(s) then Plain(s[1..|s| - 1])
    else
      match Atoi(s)
      case Some(n) => Number(n)
      case None => Plain(s)
  }

  function ParseAll(parts: seq<string>, bound: nat): (items: seq<Scalar>)
    requires forall k :: 0 <= k < |parts| ==> |parts[k]| < bound
    ensures |items| == |parts|
    ensures forall k :: 0 <= k < |parts| ==> items[k] == ParseScalar(TrimSpace(parts[k]))
    decreases bound, 0, |parts|
  {
    hide TrimSpace, ParseScalar;
    if parts == [] then [] else [ParseScalar(TrimSpace(parts[0]))] + ParseAll(parts[1..], bound)
  }

  // ---- Writing.

  // The ways to write a value. A number has a sign or none and may have zeros in front; an item of an
  // inline list may have white space around it.
  datatype Writing =
    | AsNull(tilde: bool)
    | AsFlag(b: bool)
    | AsNumber(sign: string, digits: string)
    | Bare(text: string)
    | InSingleQuotes(text: string)
    | InDoubleQuotes(text: string)
    | AsList(items: seq<Item>)

  datatype Item = Item(before: string, w: Writing, after: string)

  function Quote(text: string): string {
    "\"" + text + "\""
  }

  function SingleQuote(text: string): string {
    "'" + text + "'"
  }

  function TextOf(w: Writing): string {
    match w
    case AsNull(tilde) => if tilde then "~" else "null"
    case AsFlag(b) => if b then "true" else "false"
    case AsNumber(sign, digits) => sign + digits
    case Bare(text) => text
    case InSingleQuotes(text) => SingleQuote(text)
    case InDoubleQuotes(text) => Quote(text)
    case AsList(items) => "[" + Join(Pieces(w), ',') + "]"
  }

  function Pieces(w: Writing): (parts: seq<string>)
    requires w.AsList?
    ensures |parts| == |w.items|
    ensures forall k :: 0 <= k < |parts| ==> parts[k] == w.items[k].before + TextOf(w.items[k].w) + w.items[k].after
    decreases w, 0
  {
    seq(|w.items|, k requires 0 <= k < |w.items| => w.items[k].before + TextOf(w.items[k].w) + w.items[k].after)
  }

  predicate IsDecimal(sign: string, digits: string) {
    (sign == "" || sign == "+" || sign == "-") && digits != "" && AllDigits(digits)
  }

  function SignedValue(sign: string, digits: string): int
    requires AllDigits(digits)
  {
    if sign == "-" then -1 * ValueOf(digits) else ValueOf(digits)
  }

  predicate IsNumber(sign: string, digits: string) {
    IsDecimal(sign, digits) && Fitting(SignedValue(sign, digits)).Some?
  }

  // Numbers are numbers that fit, and what is around an item is white space.
  predicate IsWriting(w: Writing) {
    match w
    case AsNumber(sign, digits) => IsNumber(sign, digits)
    case AsList(items) =>
      forall k :: 0 <= k < |items| ==> AllSpace(items[k].before) && AllSpace(items[k].after) && IsWriting(items[k].w)
    case _ => true
  }

  // What the writing stands for.
  function Meaning(w: Writing): Scalar
    requires IsWriting(w)
  {
    match w
    case AsNull(_) => NullScalar
    case AsFlag(b) => Flag(b)
    case AsNumber(sign, digits) => Number(SignedValue(sign, digits))
    case Bare(text) => Plain(text)
    case InSingleQuotes(text) => Plain(text)
    case InDoubleQuotes(text) => Plain(text)
    case AsList(items) => Inline(seq(|items|, k requires 0 <= k < |items| => Meaning(items[k].w)))
  }

  // A text that can go without quotes: it has no white space around it and is no other writing.
  ghost predicate MayBeBare(text: string) {
    && NoSpaceAround(text)
    && text != "null" && text != "~" && text != "true" && text != "false"
    && !Bracketed(text) && !Quoted(text)
    && !exists sign, digits :: IsNumber(sign, digits) && text == sign + digits
  }

  // What reads as it was meant: bare texts that can be bare, and lists without a comma inside an item
  // and without a single empty one.
  ghost predicate IsClear(w: Writing) {
    match w
    case Bare(text) => MayBeBare(text)
    case AsList(items) =>
      && (forall k :: 0 <= k < |items| ==> ',' !in TextOf(items[k].w) && IsClear(items[k].w))
      && !(|items| == 1 && items[0].w == Bare(""))
    case _ => true
  }

  // ---- Single values.

  // Atoi reads exactly the decimals that fit.
  lemma AtoiIsExact(s: string)
    ensures Atoi(s).Some? ==> exists sign, digits ::
      IsNumber(sign, digits) && s == sign + digits && Atoi(s).value == SignedValue(sign, digits)
    ensures forall sign, digits :: IsNumber(sign, digits) && s == sign + digits ==>
      Atoi(s) == Some(SignedValue(sign, digits))
  {
    if Atoi(s).Some? {
      var sign := if s[0] == '-' || s[0] == '+' then s[..1] else "";
      var digits := if s[0] == '-' || s[0] == '+' then s[1..] else s;
      assert s == sign + digits && IsNumber(sign, digits);
    }
    forall sign, digits | IsNumber(sign, digits) && s == sign + digits
      ensures Atoi(s) == Some(SignedValue(sign, digits))
    {
      DecimalsRead(sign, digits);
    }
  }

  lemma DecimalsRead(sign: string, digits: string)
    requires IsDecimal(sign, digits)
    ensures Atoi(sign + digits) == Fitting(SignedValue(sign, digits))
  {
    hide ValueOf, Fitting;
    assert sign != "" ==> (sign + digits)[1..] == digits;
    assert sign == "" ==> sign + digits == digits;
  }

  // The parser's first question: is there anything special about the trimmed text?
  lemma ParseByKind(raw: string, s: string)
    requires TrimSpace(raw) == s
    ensures s == "null" || s == "~" ==> ParseScalar(raw) == NullScalar
    ensures s == "true" ==> ParseScalar(raw) == Flag(true)
    ensures s == "false" ==> ParseScalar(raw) == Flag(false)
    ensures Bracketed(s) ==> ParseScalar(raw).Inline?
    ensures Quoted(s) && !Bracketed(s) ==> ParseScalar(raw) == Plain(s[1..|s| - 1])
    ensures !Bracketed(s) && !Quoted(s) && s != "null" && s != "~" && s != "true" && s != "false" ==>
      ParseScalar(raw) == if Atoi(s).Some? then Number(Atoi(s).value) else Plain(s)
  {
    hide TrimSpace, Atoi, ParseAll, Split;
    assert "null"[0] == 'n' && "true"[0] == 't' && "false"[0] == 'f' && "~"[0] == '~';
  }

  // Any text in quotes reads back as itself, whatever it holds.
  lemma QuotedTextReads(text: string)
    ensures ParseScalar(Quote(text)) == Plain(text) && ParseScalar(SingleQuote(text)) == Plain(text)
  {
    var s, t := Quote(text), SingleQuote(text);
    assert !IsSpace('"') && !IsSpace('\'');
    assert s[0] == '"' && s[|s| - 1] == '"' && s[1..|s| - 1] == text;
    assert t[0] == '\'' && t[|t| - 1] == '\'' && t[1..|t| - 1] == text;
    hide IsSpace, ParseScalar;
    TrimNothing(s);
    TrimNothing(t);
    hide TrimSpace;
    ParseByKind(s, s);
    ParseByKind(t, t);
  }

  // A text reads as itself without quotes exactly when it may be bare.
  lemma BareTextReads(text: string)
    ensures ParseScalar(text) == Plain(text) <==> MayBeBare(text)
  {
    var s := TrimSpace(text);
    AtoiIsExact(s);
    ParseByKind(text, s);
    QuotesShorten(text, s);
    hide ParseScalar, Atoi, IsNumber, IsSpace;
    if NoSpaceAround(text) {
      TrimNothing(text);
    }
    hide TrimSpace;
  }

  lemma QuotesShorten(text: string, s: string)
    requires TrimSpace(text) == s
    ensures Quoted(s) ==> s[1..|s| - 1] != text
  {
    assert |s| <= |text|;
  }

  lemma NumbersAreNothingElse(sign: string, digits: string)
    requires IsDecimal(sign, digits)
    ensures var s := sign + digits;
      NoSpaceAround(s) && !Bracketed(s) && !Quoted(s) && s != "null" && s != "~" && s != "true" && s != "false"
  {
    var s := sign + digits;
    assert s[0] == '-' || s[0] == '+' || '0' <= s[0] <= '9';
    assert '0' <= s[|s| - 1] <= '9';
    assert forall c :: '0' <= c <= '9' || c == '-' || c == '+' ==> !IsSpace(c);
    hide IsSpace, AllDigits;
    assert "null"[0] == 'n' && "true"[0] == 't' && "false"[0] == 'f' && "~"[0] == '~';
  }

  lemma NumberReads(sign: string, digits: string)
    requires IsNumber(sign, digits)
    ensures ParseScalar(sign + digits) == Number(SignedValue(sign, digits))
  {
    var s := sign + digits;
    NumbersAreNothingElse(sign, digits);
    DecimalsRead(sign, digits);
    hide NoSpaceAround, Atoi, ParseScalar, ValueOf, Bracketed, Quoted, AllDigits;
    TrimNothing(s);
    hide TrimSpace;
    ParseByKind(s, s);
  }

  lemma WordReads(w: Writing)
    requires w.AsNull? || w.AsFlag?
    ensures ParseScalar(TextOf(w)) == Meaning(w)
  {
    assert forall c :: 'a' <= c <= 'z' || c == '~' ==> !IsSpace(c);
    hide IsSpace, ParseScalar;
    TrimNothing(TextOf(w));
    hide TrimSpace;
    ParseByKind(TextOf(w), TextOf(w));
  }

  // ---- Lists.

  lemma {:induction false} SplitsAfterGap(gap: string, s: string, sep: char)
    requires sep !in gap
    ensures Split(gap + s, sep) == [gap + Split(s, sep)[0]] + Split(s, sep)[1..]
  {
    var parts := Split(s, sep);
    if gap == "" {
      NothingAdded(s);
      NothingAdded(parts[0]);
      SplitHead(parts);
    } else {
      SplitsAfterGap(gap[1..], s, sep);
      assert (gap + s)[1..] == gap[1..] + s;
      HeadAndTail(gap[1..] + parts[0], parts[1..]);
      SplitHead(gap);
      Assoc([gap[0]], gap[1..], parts[0]);
    }
  }

  // With more at its last element.
  function Longer(parts: seq<string>, gap: string): seq<string>
    requires parts != []
  {
    parts[..|parts| - 1] + [parts[|parts| - 1] + gap]
  }

  lemma LongerTail(parts: seq<string>, gap: string, c: char)
    requires parts != []
    ensures [""] + Longer(parts, gap) == Longer([""] + parts, gap)
    ensures [[c] + Longer(parts, gap)[0]] + Longer(parts, gap)[1..] == Longer([[c] + parts[0]] + parts[1..], gap)
  {
    var n := |parts| - 1;
    assert ([""] + parts)[..n + 1] == [""] + parts[..n];
    if n == 0 {
      Assoc([c], parts[0], gap);
      assert Longer(parts, gap) == [parts[0] + gap];
      assert [[c] + parts[0]] + parts[1..] == [[c] + parts[0]];
    } else {
      assert Longer(parts, gap)[1..] == parts[1..n] + [parts[n] + gap];
      assert ([[c] + parts[0]] + parts[1..])[..n] == [[c] + parts[0]] + parts[1..n];
    }
  }

  lemma LongerNothing(gap: string)
    ensures Longer([""], gap) == [gap]
  {
    NothingAdded(gap);
  }

  lemma SplitOnce(s: string, sep: char)
    requires s != ""
    ensures var rest := Split(s[1..], sep);
      Split(s, sep) == if s[0] == sep then [""] + rest else [[s[0]] + rest[0]] + rest[1..]
  {
  }

  lemma {:induction false} SplitsBeforeGap(s: string, gap: string, sep: char)
    requires sep !in gap
    ensures Split(s + gap, sep) == Longer(Split(s, sep), gap)
  {
    if s == "" {
      assert Split(s, sep) == [""];
      hide Longer, Split;
      SplitsNowhere(gap, sep);
      NothingAdded(gap);
      LongerNothing(gap);
    } else {
      hide Longer, Split;
      SplitsBeforeGap(s[1..], gap, sep);
      assert (s + gap)[1..] == s[1..] + gap;
      SplitOnce(s, sep);
      SplitOnce(s + gap, sep);
      LongerTail(Split(s[1..], sep), gap, s[0]);
    }
  }

  // What the gaps around a text add to its parts.
  lemma SplitsWithinGaps(a: string, t: string, b: string, sep: char)
    requires sep !in a && sep !in b
    ensures var parts, n := Split(t, sep), |Split(t, sep)| - 1;
      |Split(a + t + b, sep)| == |parts|
      && forall k :: 0 <= k <= n ==>
           Split(a + t + b, sep)[k] == (if k == 0 then a else "") + parts[k] + if k == n then b else ""
  {
    var parts := Split(t, sep);
    SplitsAfterGap(a, t, sep);
    SplitsBeforeGap(a + t, b, sep);
    hide Split;
    forall k | 0 <= k < |parts|
      ensures Split(a + t + b, sep)[k] == (if k == 0 then a else "") + parts[k] + if k == |parts| - 1 then b else ""
    {
      NothingAdded(parts[k]);
      NothingAdded(Split(a + t, sep)[k]);
    }
  }

  // Two ways to take a text apart that trim to the same.
  ghost predicate TrimAlike(xs: seq<string>, ys: seq<string>) {
    |xs| == |ys| && forall k :: 0 <= k < |xs| ==> TrimSpace(xs[k]) == TrimSpace(ys[k])
  }

  lemma NoCommaInSpace(gap: string)
    requires AllSpace(gap)
    ensures ',' !in gap
  {
    assert !IsSpace(',');
  }

  // Trimming a list before it is taken apart makes no difference to the trimmed parts.
  lemma TrimmedListSplits(s: string)
    ensures TrimAlike(Split(TrimSpace(s), ','), Split(s, ','))
  {
    var t := TrimSpace(s);
    TrimIsExact(s, t);
    hide TrimSpace, Split;
    var a, b :| AllSpace(a) && AllSpace(b) && s == a + t + b;
    NoCommaInSpace(a);
    NoCommaInSpace(b);
    NothingIsSpace();
    hide AllSpace, IsSpace;
    var parts := Split(t, ',');
    SplitsWithinGaps(a, t, b, ',');
    forall k | 0 <= k < |parts| ensures TrimSpace(parts[k]) == TrimSpace(Split(s, ',')[k]) {
      TrimGaps(if k == 0 then a else "", parts[k], if k == |parts| - 1 then b else "");
    }
  }

  lemma NothingIsSpace()
    ensures AllSpace("")
  {
  }

  // What is in brackets is taken apart at its commas.
  lemma BracketsParse(inner: string)
    ensures forall k :: 0 <= k < |Split(TrimSpace(inner), ',')| ==>
      |Split(TrimSpace(inner), ',')[k]| < |"[" + inner + "]"|
    ensures var s := "[" + inner + "]";
      ParseScalar(s) == if Blank(inner) then Inline([])
                        else Inline(ParseAll(Split(TrimSpace(inner), ','), |s|))
  {
    var s := "[" + inner + "]";
    assert s[1..|s| - 1] == inner;
    assert !IsSpace('[') && !IsSpace(']');
    hide IsSpace;
    TrimNothing(s);
    assert "null"[0] == 'n' && "true"[0] == 't' && "false"[0] == 'f' && "~"[0] == '~';
    PartsAreNoLonger(TrimSpace(inner), ',');
    assert |TrimSpace(inner)| <= |inner|;
    hide TrimSpace, Split, ParseAll;
  }

  // The value of a part is that of its trimming, so white space around it makes no difference.
  lemma ParseIgnoresGaps(x: string, y: string)
    requires TrimSpace(x) == TrimSpace(y)
    ensures ParseScalar(x) == ParseScalar(y)
  {
    hide TrimSpace, Split, Atoi;
    var s := TrimSpace(x);
    if Bracketed(s) && TrimSpace(s[1..|s| - 1]) != "" && s != "null" && s != "true" && s != "false" {
      var parts := Split(TrimSpace(s[1..|s| - 1]), ',');
      PartsAreNoLonger(TrimSpace(s[1..|s| - 1]), ',');
      assert ParseAll(parts, |x|) == ParseAll(parts, |y|);
    }
  }

  lemma ValuesOfParts(parts: seq<string>, pieces: seq<string>, bound: nat)
    requires TrimAlike(parts, pieces) && forall k :: 0 <= k < |parts| ==> |parts[k]| < bound
    ensures |ParseAll(parts, bound)| == |pieces|
    ensures forall k :: 0 <= k < |pieces| ==> ParseAll(parts, bound)[k] == ParseScalar(pieces[k])
  {
    hide ParseScalar;
    forall k | 0 <= k < |pieces| ensures ParseAll(parts, bound)[k] == ParseScalar(pieces[k]) {
      TrimTwice(parts[k]);
      ParseIgnoresGaps(TrimSpace(parts[k]), pieces[k]);
    }
  }

  lemma TrimTwice(s: string)
    ensures TrimSpace(TrimSpace(s)) == TrimSpace(s)
  {
    TrimNothing(TrimSpace(s));
  }

  // A list reads as the values of its parts, and as the empty list if it is blank.
  lemma ListParses(inner: string)
    ensures Blank(inner) ==> ParseScalar("[" + inner + "]") == Inline([])
    ensures !Blank(inner) ==> var v, parts := ParseScalar("[" + inner + "]"), Split(inner, ',');
      v.Inline? && |v.items| == |parts| && forall k :: 0 <= k < |parts| ==> v.items[k] == ParseScalar(parts[k])
  {
    BracketsParse(inner);
    TrimmedListSplits(inner);
    assert |TrimSpace(inner)| <= |inner|;
    hide TrimSpace, Split, ParseScalar, ParseAll;
    if !Blank(inner) {
      ValuesOfParts(Split(TrimSpace(inner), ','), Split(inner, ','), |"[" + inner + "]"|);
    }
  }

  predicate NoCommaInside(w: Writing)
    requires w.AsList?
  {
    forall k :: 0 <= k < |w.items| ==> ',' !in TextOf(w.items[k].w)
  }

  // A written list comes apart as it was put together exactly when no item has a comma.
  lemma PiecesSplit(w: Writing)
    requires w.AsList? && IsWriting(w) && w.items != []
    ensures NoCommaInside(w) ==> Split(Join(Pieces(w), ','), ',') == Pieces(w)
    ensures !NoCommaInside(w) ==> |Split(Join(Pieces(w), ','), ',')| > |w.items|
  {
    var parts := Pieces(w);
    hide TextOf;
    JoinSplits(parts, ',');
    forall k | 0 <= k < |parts| ensures ',' in parts[k] <==> ',' in TextOf(w.items[k].w) {
      NoCommaInSpace(w.items[k].before);
      NoCommaInSpace(w.items[k].after);
      InMiddle(w.items[k].before, TextOf(w.items[k].w), w.items[k].after, ',');
    }
    hide Join, Split, IsWriting;
    if NoCommaInside(w) {
      forall p | p in parts ensures ',' !in p {
        var k :| 0 <= k < |parts| && parts[k] == p;
      }
    } else {
      var k :| 0 <= k < |w.items| && ',' in TextOf(w.items[k].w);
      assert parts[k] in parts;
    }
  }

  lemma InMiddle(a: string, s: string, b: string, c: char)
    requires c !in a && c !in b
    ensures c in a + s + b <==> c in s
  {
    if c in s {
      var k :| 0 <= k < |s| && s[k] == c;
      assert (a + s + b)[|a| + k] == c;
    }
  }

  // Only a single blank item makes a written list blank.
  lemma BlankLists(w: Writing)
    requires w.AsList? && IsWriting(w) && NoCommaInside(w) && w.items != []
    ensures Blank(Join(Pieces(w), ',')) <==> |w.items| == 1 && Blank(TextOf(w.items[0].w))
  {
    var parts := Pieces(w);
    if |parts| == 1 {
      TrimGaps(w.items[0].before, TextOf(w.items[0].w), w.items[0].after);
    } else {
      var s := Join(parts, ',');
      hide Join, TextOf, Pieces;
      PiecesSplit(w);
      SplitsNowhere(s, ',');
      CommasAreNotBlank(s);
    }
  }

  lemma CommasAreNotBlank(s: string)
    requires ',' in s
    ensures !Blank(s)
  {
    BlankIsAllSpace(s);
    if AllSpace(s) {
      NoCommaInSpace(s);
    }
  }

  ghost predicate ReadsAsMeant(w: Writing)
    requires IsWriting(w)
  {
    ParseScalar(TextOf(w)) == Meaning(w)
  }

  lemma OnlyEmptyReadsAsEmpty(w: Writing)
    requires IsWriting(w) && Blank(TextOf(w))
    ensures w.Bare? && (ReadsAsMeant(w) <==> w == Bare(""))
  {
    if w.Bare? {
      TrimNothing("");
      ParseByKind(w.text, "");
      assert ParseScalar(w.text) == Plain("");
    } else {
      NoOtherIsBlank(w);
      hide TrimSpace;
    }
  }

  lemma NoOtherIsBlank(w: Writing)
    requires IsWriting(w) && !w.Bare?
    ensures !Blank(TextOf(w))
  {
    var s := TextOf(w);
    hide Join, Pieces;
    assert s != "" && !IsSpace(s[0]) by {
      assert !IsSpace('"') && !IsSpace('\'') && !IsSpace('[') && !IsSpace('~');
      assert forall c :: '0' <= c <= '9' || 'a' <= c <= 'z' || c == '-' || c == '+' ==> !IsSpace(c);
    }
    hide IsSpace, TextOf, TrimSpace;
    BlankIsAllSpace(s);
  }

  lemma EmptyListReads(w: Writing)
    requires w == AsList([])
    ensures ReadsAsMeant(w)
  {
    assert Pieces(w) == [] && TextOf(w) == "[" + "" + "]";
    TrimNothing("");
    ListParses("");
    hide ParseScalar;
  }

  // The list as a whole, if its items read as meant exactly when they are clear.
  lemma ListReads(w: Writing)
    requires w.AsList? && IsWriting(w) && w.items != []
    requires forall k :: 0 <= k < |w.items| ==> (ReadsAsMeant(w.items[k].w) <==> IsClear(w.items[k].w))
    ensures ReadsAsMeant(w) <==> IsClear(w)
  {
    var parts := Pieces(w);
    var inner := Join(parts, ',');
    ListParses(inner);
    PiecesSplit(w);
    hide ParseScalar, Split, Join, TrimSpace, Pieces;
    if NoCommaInside(w) {
      BlankLists(w);
      if Blank(inner) {
        OnlyEmptyReadsAsEmpty(w.items[0].w);
      } else {
        forall k | 0 <= k < |parts| ensures ParseScalar(parts[k]) == ParseScalar(TextOf(w.items[k].w)) {
          TrimGaps(w.items[k].before, TextOf(w.items[k].w), w.items[k].after);
          ParseIgnoresGaps(parts[k], TextOf(w.items[k].w));
        }
        SameItems(w, parts);
      }
    } else {
      hide MayBeBare;
    }
  }

  lemma SameItems(w: Writing, parts: seq<string>)
    requires w.AsList? && IsWriting(w) && w.items != [] && NoCommaInside(w) && |parts| == |w.items|
    requires forall k :: 0 <= k < |w.items| ==> (ReadsAsMeant(w.items[k].w) <==> IsClear(w.items[k].w))
    requires forall k :: 0 <= k < |parts| ==> ParseScalar(parts[k]) == ParseScalar(TextOf(w.items[k].w))
    requires !(|w.items| == 1 && Blank(TextOf(w.items[0].w)))
    requires var v := ParseScalar(TextOf(w));
      v.Inline? && |v.items| == |parts| && forall k :: 0 <= k < |parts| ==> v.items[k] == ParseScalar(parts[k])
    ensures ReadsAsMeant(w) <==> IsClear(w)
  {
    var v := ParseScalar(TextOf(w));
    TrimNothing("");
    hide ParseScalar, TextOf, TrimSpace, MayBeBare;
    assert ReadsAsMeant(w) ==> forall k :: 0 <= k < |parts| ==> v.items[k] == Meaning(w).items[k];
    if forall k :: 0 <= k < |parts| ==> ReadsAsMeant(w.items[k].w) {
      assert v.items == Meaning(w).items;
    }
  }

  // Any writing of any value reads as it is meant exactly when it is clear.
  lemma {:induction false} WritingReads(w: Writing)
    requires IsWriting(w)
    ensures ParseScalar(TextOf(w)) == Meaning(w) <==> IsClear(w)
    decreases w
  {
    hide ParseScalar, TrimSpace, MayBeBare, Split, Join;
    match w
    case AsNumber(sign, digits) => NumberReads(sign, digits);
    case Bare(text) => BareTextReads(text);
    case InSingleQuotes(text) => QuotedTextReads(text);
    case InDoubleQuotes(text) => QuotedTextReads(text);
    case AsList(items) =>
      if items == [] {
        EmptyListReads(w);
      } else {
        forall k | 0 <= k < |items| ensures ReadsAsMeant(items[k].w) <==> IsClear(items[k].w) {
          WritingReads(items[k].w);
        }
        ListReads(w);
      }
    case _ => WordReads(w);
  }
}
