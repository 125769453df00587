// The synthetic-sentinel redactor of internal/agent/codex/preflight.go and the detector of
// internal/agent/codex/codex.go. A character stands for a byte; only ASCII bytes are compared.
module SentinelRedactor {
  import opened Domain
  import opened Sequences

  const SENTINEL := "SYNTHETIC_"
  const REDACTED := "[REDACTED]"

  predicate IsUpperOrDigit(b: char) {
    'A' <= b <= 'Z' || '0' <= b <= '9'
  }

  // isSyntheticSentinelRedactionByte
  predicate IsRunByte(b: char) {
    b == '_' || 'A' <= b <= 'Z' || 'a' <= b <= 'z' || '0' <= b <= '9'
  }

  predicate SentinelAt(s: string, k: int) {
    0 <= k && k + 10 <= |s| && s[k..k + 10] == SENTINEL
  }

  predicate Clean(s: string) {
    forall k :: 0 <= k < |s| ==> !SentinelAt(s, k)
  }

  // strings.Index
  function IndexFrom(s: string, i: nat): (k: int)
    requires i <= |s|
    ensures k == -1 || (i <= k && SentinelAt(s, k))
    ensures forall j :: i <= j < (if k == -1 then |s| else k) ==> !SentinelAt(s, j)
    decreases |s| - i
  {
    if i == |s| then -1 else if SentinelAt(s, i) then i else IndexFrom(s, i + 1)
  }

  // The end of the run of bytes that starts at i.
  function RunEnd(s: string, i: nat): (n: nat)
    requires i <= |s|
    ensures i <= n <= |s|
    ensures forall k :: i <= k < n ==> IsRunByte(s[k])
    ensures n < |s| ==> !IsRunByte(s[n])
    decreases |s| - i
  {
    if i < |s| && IsRunByte(s[i]) then RunEnd(s, i + 1) else i
  }

  // One pass from left to right: every sentinel goes together with the whole run it starts.
  function Scrub(s: string): string
    decreases |s|
  {
    if s == "" then ""
    else if SentinelAt(s, 0) then REDACTED + Scrub(s[RunEnd(s, 10)..])
    else [s[0]] + Scrub(s[1..])
  }

  lemma {:induction false} ScrubSkips(s: string, j: nat)
    requires j <= |s| && forall k :: 0 <= k < j ==> !SentinelAt(s, k)
    ensures Scrub(s) == s[..j] + Scrub(s[j..])
  {
    if j == 0 {
      assert s[0..] == s;
    } else {
      assert forall k :: 0 <= k < j - 1 ==> (SentinelAt(s[1..], k) ==> SentinelAt(s, k + 1)) by {
        forall k | 0 <= k < j - 1 && SentinelAt(s[1..], k) ensures SentinelAt(s, k + 1) {
          assert s[1..][k..k + 10] == s[k + 1..k + 11];
        }
      }
      ScrubSkips(s[1..], j - 1);
      assert s[1..][j - 1..] == s[j..] && s[..j] == [s[0]] + s[1..][..j - 1];
      Assoc([s[0]], s[1..][..j - 1], Scrub(s[j..]));
    }
  }

  // What the loop has behind it stays behind it: no sentinel starts before `rest`.
  ghost predicate Behind(done: string, rest: string) {
    forall k :: 0 <= k < |done| ==> !SentinelAt(done + rest, k)
  }

  lemma PrefixIsClean(value: string, idx: nat)
    requires idx <= |value| && forall k :: 0 <= k < idx ==> !SentinelAt(value, k)
    ensures Clean(value[..idx])
  {
    forall k | 0 <= k < idx ensures !SentinelAt(value[..idx], k) {
      if SentinelAt(value[..idx], k) {
        assert value[k..k + 10] == value[..idx][k..k + 10];
        assert SentinelAt(value, k);
      }
    }
  }

  lemma BracketsAreInNoSentinel(s: string, k: int, p: int)
    requires 0 <= p < |s| && (s[p] == '[' || s[p] == ']') && k <= p < k + 10
    ensures !SentinelAt(s, k)
  {
    assert forall j :: 0 <= j < 10 ==> SENTINEL[j] != '[' && SENTINEL[j] != ']';
    if 0 <= k && k + 10 <= |s| {
      assert s[k..k + 10][p - k] == s[p];
    }
  }

  // No sentinel starts before the end of a replacement, whatever follows: brackets are not in it.
  lemma ReplacementIsABarrier(before: string, rest: string)
    requires Clean(before)
    ensures Behind(before + REDACTED, rest)
  {
    var n, s := |before|, before + REDACTED + rest;
    assert s[n] == '[' && s[n + 9] == ']';
    forall k | 0 <= k < n + 10 ensures !SentinelAt(s, k) {
      if k + 10 <= n {
        assert s[k..k + 10] == before[k..k + 10] && !SentinelAt(before, k);
      } else if k <= n {
        BracketsAreInNoSentinel(s, k, n);
      } else {
        BracketsAreInNoSentinel(s, k, n + 9);
      }
    }
  }

  lemma FoundBeyond(done: string, rest: string, idx: int)
    requires Behind(done, rest) && SentinelAt(done + rest, idx)
    ensures |done| <= idx && SentinelAt(rest, idx - |done|)
  {
    assert (done + rest)[idx..idx + 10] == rest[idx - |done|..idx - |done| + 10];
  }

  lemma FoundInRest(done: string, rest: string, k: nat)
    requires SentinelAt(rest, k)
    ensures SentinelAt(done + rest, |done| + k)
  {
    assert (done + rest)[|done| + k..|done| + k + 10] == rest[k..k + 10];
  }

  // scrubbedForDiagnostics. The replacement is as long as the bare sentinel, so the string need
  // not shrink; what shrinks is the part behind the last replacement.
  method ScrubbedForDiagnostics(input: string) returns (value: string)
    ensures value == Scrub(input)
  {
    value := input;
    if IndexFrom(value, 0) < 0 {
      ScrubSkips(value, |value|);
      NothingAdded(value);
      return;
    }
    ghost var done, rest := "", value;
    NothingAdded(value);
    NothingAdded(Scrub(value));
    while true
      invariant value == done + rest && Behind(done, rest)
      invariant Scrub(input) == done + Scrub(rest)
      decreases |rest|
    {
      var idx := IndexFrom(value, 0);
      if idx < 0 {
        NoSentinelLeft(done, rest);
        return;
      }
      FoundBeyond(done, rest, idx);
      var end := idx + |SENTINEL|;
      while end < |value| && IsRunByte(value[end])
        invariant idx + 10 <= end <= |value|
        invariant RunEnd(value, end) == RunEnd(value, idx + 10)
      {
        end := end + 1;
      }
      LoopStep(done, rest, idx, end);
      PrefixIsClean(value, idx);
      ReplacementIsABarrier(value[..idx], value[end..]);
      done, rest := value[..idx] + REDACTED, value[end..];
      value := value[..idx] + REDACTED + value[end..];
    }
  }

  lemma NoSentinelLeft(done: string, rest: string)
    requires forall k :: 0 <= k < |done + rest| ==> !SentinelAt(done + rest, k)
    ensures Scrub(rest) == rest
  {
    forall k: nat | k < |rest| ensures !SentinelAt(rest, k) {
      if SentinelAt(rest, k) {
        FoundInRest(done, rest, k);
      }
    }
    ScrubSkips(rest, |rest|);
    NothingAdded(rest);
  }

  lemma RunEndShifts(done: string, rest: string, i: nat)
    requires i <= |rest|
    ensures RunEnd(done + rest, |done| + i) == |done| + RunEnd(rest, i)
    decreases |rest| - i
  {
    if i < |rest| && IsRunByte(rest[i]) {
      RunEndShifts(done, rest, i + 1);
    }
  }

  // The run found in the whole value is the first run of the rest.
  lemma RunInRest(done: string, rest: string, j: nat, end: nat)
    requires SentinelAt(rest, j) && end == RunEnd(done + rest, |done| + j + 10)
    ensures RunEnd(rest[j..], 10) <= |rest[j..]| && (done + rest)[end..] == rest[j..][RunEnd(rest[j..], 10)..]
    ensures 10 <= RunEnd(rest[j..], 10)
  {
    hide RunEnd, SENTINEL;
    RunEndShifts(done, rest, j + 10);
    SplitAt(rest, j);
    RunEndShifts(rest[..j], rest[j..], 10);
    DropTwice(done, rest, j, RunEnd(rest[j..], 10));
  }

  lemma SplitAt(s: string, j: nat)
    requires j <= |s|
    ensures s == s[..j] + s[j..]
  {
  }

  lemma DropTwice(done: string, rest: string, j: nat, n: nat)
    requires j <= |rest| && n <= |rest[j..]|
    ensures (done + rest)[|done| + j + n..] == rest[j..][n..]
  {
  }

  lemma LoopStep(done: string, rest: string, idx: int, end: nat)
    requires |done| <= idx && SentinelAt(rest, idx - |done|)
    requires forall k :: 0 <= k < idx ==> !SentinelAt(done + rest, k)
    requires end == RunEnd(done + rest, idx + 10)
    ensures var value := done + rest;
      && |value[end..]| < |rest|
      && done + Scrub(rest) == value[..idx] + REDACTED + Scrub(value[end..])
  {
    var j := idx - |done|;
    forall k: nat | k < j ensures !SentinelAt(rest, k) {
      if SentinelAt(rest, k) {
        FoundInRest(done, rest, k);
      }
    }
    ScrubSkips(rest, j);
    RunInRest(done, rest, j, end);
    var tail := rest[j..];
    assert SentinelAt(tail, 0);
    assert Scrub(tail) == REDACTED + Scrub(tail[RunEnd(tail, 10)..]);
    hide Scrub, RunEnd, SentinelAt;
    assert (done + rest)[..idx] == done + rest[..j];
    Assoc(done, rest[..j], REDACTED + Scrub((done + rest)[end..]));
    Assoc(done + rest[..j], REDACTED, Scrub((done + rest)[end..]));
  }

  // ---- What redaction guarantees.

  // The two laws that fix the result: clean text stays, and the first run goes as a whole.
  lemma ScrubKeepsCleanText(s: string)
    requires Clean(s)
    ensures Scrub(s) == s
  {
    ScrubSkips(s, |s|);
    NothingAdded(s);
  }

  lemma ScrubReplacesTheFirstRun(before: string, body: string, after: string)
    requires forall k :: 0 <= k < |body| ==>
      body[k] == '_' || 'A' <= body[k] <= 'Z' || 'a' <= body[k] <= 'z' || '0' <= body[k] <= '9'
    requires after != "" ==>
      var c := after[0]; !(c == '_' || 'A' <= c <= 'Z' || 'a' <= c <= 'z' || '0' <= c <= '9')
    requires Behind(before, "SYNTHETIC_" + body + after)
    ensures Scrub(before + ("SYNTHETIC_" + body + after)) == before + "[REDACTED]" + Scrub(after)
  {
    var run := "SYNTHETIC_" + body;
    var s := before + (run + after);
    assert forall k :: 0 <= k < |run| ==> IsRunByte(run[k]);
    WholeRunGoes(run, after);
    hide Scrub, IsRunByte;
    ScrubSkips(s, |before|);
    assert s[..|before|] == before && s[|before|..] == run + after;
    Assoc(before, REDACTED, Scrub(after));
  }

  lemma WholeRunGoes(run: string, after: string)
    requires |run| >= 10 && run[..10] == SENTINEL && forall k :: 0 <= k < |run| ==> IsRunByte(run[k])
    requires after != "" ==> !IsRunByte(after[0])
    ensures Scrub(run + after) == REDACTED + Scrub(after)
  {
    assert (run + after)[0..10] == SENTINEL;
    RunIsWhole(run, after, 10);
    assert (run + after)[|run|..] == after;
  }

  lemma RunIsWhole(run: string, after: string, i: nat)
    requires i <= |run| && forall k :: 0 <= k < |run| ==> IsRunByte(run[k])
    requires after != "" ==> !IsRunByte(after[0])
    ensures RunEnd(run + after, i) == |run|
    decreases |run| - i
  {
    if i < |run| {
      RunIsWhole(run, after, i + 1);
    }
  }

  lemma {:induction false} NoSentinelSurvives(s: string)
    ensures Clean(Scrub(s))
    decreases |s|
  {
    var k := IndexFrom(s, 0);
    if k < 0 {
      ScrubKeepsCleanText(s);
    } else {
      var rest := s[RunEnd(s, k + 10)..];
      NothingAdded(s);
      NothingAdded(Scrub(s));
      LoopStep("", s, k, RunEnd(s, k + 10));
      NoSentinelSurvives(rest);
      PrefixIsClean(s, k);
      ReplacementIsABarrier(s[..k], Scrub(rest));
      var done := s[..k] + REDACTED;
      forall j | 0 <= j < |Scrub(s)| ensures !SentinelAt(Scrub(s), j) {
        if SentinelAt(done + Scrub(rest), j) {
          FoundBeyond(done, Scrub(rest), j);
        }
      }
    }
  }

  lemma ScrubIsIdempotent(s: string)
    ensures Scrub(Scrub(s)) == Scrub(s)
  {
    NoSentinelSurvives(s);
    ScrubKeepsCleanText(Scrub(s));
  }

  // ---- The detector for scalar metadata.

  datatype Regex = Exactly(word: string) | UpperOrDigit | Then(first: Regex, second: Regex) | Star(body: Regex)

  // Where a match that starts at i can end, in the order of preference of a greedy matcher: Go takes
  // the first.
  function Ends(re: Regex, s: string, i: nat): (ends: seq<nat>)
    requires i <= |s|
    ensures forall e :: e in ends ==> i <= e <= |s|
    decreases re, |s| + 1 - i, 0
  {
    match re
    case Exactly(word) => if i + |word| <= |s| && s[i..i + |word|] == word then [i + |word|] else []
    case UpperOrDigit => if i < |s| && IsUpperOrDigit(s[i]) then [i + 1] else []
    case Then(first, second) => EndsFromAll(second, s, Ends(first, s, i), i)
    case Star(body) => EndsFromAll(re, s, Beyond(Ends(body, s, i), i), i + 1) + [i]
  }

  function EndsFromAll(re: Regex, s: string, starts: seq<nat>, least: nat): (ends: seq<nat>)
    requires forall i :: i in starts ==> least <= i <= |s|
    ensures forall e :: e in ends ==> least <= e <= |s|
    decreases re, if least <= |s| then |s| + 1 - least else 0, 1 + |starts|
  {
    if starts == [] then []
    else
      assert starts[0] in starts && forall i :: i in starts[1..] ==> i in starts;
      Ends(re, s, starts[0]) + EndsFromAll(re, s, starts[1..], least)
  }

  function Beyond(ends: seq<nat>, i: nat): (beyond: seq<nat>)
    ensures forall e :: e in beyond ==> e in ends && i < e
  {
    if ends == [] then []
    else
      assert ends[0] in ends && forall e :: e in ends[1..] ==> e in ends;
      (if i < ends[0] then [ends[0]] else []) + Beyond(ends[1..], i)
  }

  // [A-Z0-9]+, (?:_[A-Z0-9]+)* and SYNTHETIC_[A-Z0-9]+(?:_[A-Z0-9]+)*
  const UPPERS := Then(UpperOrDigit, Star(UpperOrDigit))
  const WORDS := Star(Then(Exactly("_"), UPPERS))
  const SENTINEL_BODY := Then(Exactly(SENTINEL), Then(UPPERS, WORDS))

  // Go's match: the first choice.
  function Match(re: Regex, s: string, i: nat): (end: Option<nat>)
    requires i <= |s|
    ensures end.Some? ==> i <= end.value <= |s|
  {
    var ends := Ends(re, s, i);
    if ends == [] then None
    else
      assert ends[0] in ends;
      Some(ends[0])
  }

  // The first choice from the first start comes first.
  lemma FirstOfAll(re: Regex, s: string, starts: seq<nat>, least: nat)
    requires starts != [] && forall i :: i in starts ==> least <= i <= |s|
    ensures starts[0] in starts
    ensures Match(re, s, starts[0]).Some? ==>
              EndsFromAll(re, s, starts, least) != [] &&
              EndsFromAll(re, s, starts, least)[0] == Match(re, s, starts[0]).value
    ensures |starts| == 1 ==> EndsFromAll(re, s, starts, least) == Ends(re, s, starts[0])
  {
    assert starts[0] in starts;
    if |starts| == 1 {
      assert EndsFromAll(re, s, starts[1..], least) == [];
      NothingAdded(Ends(re, s, starts[0]));
    }
  }

  lemma MatchThen(a: Regex, b: Regex, s: string, i: nat)
    requires i <= |s|
    ensures Match(a, s, i).None? ==> Match(Then(a, b), s, i).None?
    ensures Match(a, s, i).Some? && Match(b, s, Match(a, s, i).value).Some? ==>
              Match(Then(a, b), s, i) == Match(b, s, Match(a, s, i).value)
  {
    var starts := Ends(a, s, i);
    assert Ends(Then(a, b), s, i) == EndsFromAll(b, s, starts, i);
    if starts != [] {
      FirstOfAll(b, s, starts, i);
    }
  }

  lemma MatchOfThen(a: Regex, b: Regex, s: string, i: nat, mid: nat)
    requires i <= mid <= |s| && Ends(a, s, i) == [mid]
    ensures Match(Then(a, b), s, i) == Match(b, s, mid)
  {
    assert Ends(Then(a, b), s, i) == EndsFromAll(b, s, [mid], i);
    FirstOfAll(b, s, [mid], i);
  }

  lemma MatchStar(a: Regex, s: string, i: nat)
    requires i <= |s| && Match(a, s, i) != Some(i)
    ensures Match(Star(a), s, i) == if Match(a, s, i).None? then Some(i) else Match(Star(a), s, Match(a, s, i).value)
  {
    var ends := Ends(a, s, i);
    var starts := Beyond(ends, i);
    assert Ends(Star(a), s, i) == EndsFromAll(Star(a), s, starts, i + 1) + [i];
    if ends != [] {
      assert ends[0] in ends;
      assert starts[0] == ends[0];
      assert Ends(Star(a), s, ends[0]) != [];
      FirstOfAll(Star(a), s, starts, i + 1);
    }
  }

  // ---- What the expression comes to.

  function UppersEnd(s: string, i: nat): (n: nat)
    requires i <= |s|
    ensures i <= n <= |s| && (i < |s| && IsUpperOrDigit(s[i]) ==> i < n)
    ensures n < |s| ==> !IsUpperOrDigit(s[n])
    decreases |s| - i
  {
    if i < |s| && IsUpperOrDigit(s[i]) then UppersEnd(s, i + 1) else i
  }

  predicate WordFollows(s: string, i: nat) {
    i + 1 < |s| && s[i] == '_' && IsUpperOrDigit(s[i + 1])
  }

  function WordsEnd(s: string, i: nat): (n: nat)
    requires i <= |s|
    ensures i <= n <= |s|
    ensures n == i || (n < |s| ==> !IsUpperOrDigit(s[n]))
    ensures !WordFollows(s, n)
    decreases |s| - i
  {
    if WordFollows(s, i) then WordsEnd(s, UppersEnd(s, i + 1)) else i
  }

  // A sentinel with a body: its prefix and an upper-case letter or digit.
  predicate BodyAt(s: string, k: int) {
    SentinelAt(s, k) && k + 10 < |s| && IsUpperOrDigit(s[k + 10])
  }

  lemma {:induction false} StarOfUppers(s: string, i: nat)
    requires i <= |s|
    ensures Match(Star(UpperOrDigit), s, i) == Some(UppersEnd(s, i))
    decreases |s| - i
  {
    MatchStar(UpperOrDigit, s, i);
    if i < |s| && IsUpperOrDigit(s[i]) {
      StarOfUppers(s, i + 1);
    }
  }

  lemma UppersMatch(s: string, i: nat)
    requires i <= |s|
    ensures Match(UPPERS, s, i) == if i < |s| && IsUpperOrDigit(s[i]) then Some(UppersEnd(s, i)) else None
  {
    MatchThen(UpperOrDigit, Star(UpperOrDigit), s, i);
    if i < |s| && IsUpperOrDigit(s[i]) {
      StarOfUppers(s, i + 1);
    }
  }

  lemma WordMatches(s: string, i: nat)
    requires i <= |s|
    ensures Match(Then(Exactly("_"), UPPERS), s, i) == if WordFollows(s, i) then Some(UppersEnd(s, i + 1)) else None
  {
    MatchThen(Exactly("_"), UPPERS, s, i);
    if i < |s| && s[i] == '_' {
      assert s[i..i + 1] == "_";
      assert Match(Exactly("_"), s, i) == Some(i + 1);
      UppersMatch(s, i + 1);
      MatchOfThen(Exactly("_"), UPPERS, s, i, i + 1);
    }
  }

  lemma {:induction false} WordsMatch(s: string, i: nat)
    requires i <= |s|
    ensures Match(WORDS, s, i) == Some(WordsEnd(s, i))
    decreases |s| - i
  {
    WordMatches(s, i);
    hide Match;
    MatchStar(Then(Exactly("_"), UPPERS), s, i);
    if WordFollows(s, i) {
      WordsMatch(s, UppersEnd(s, i + 1));
    }
  }

  // The regular expression matches exactly at a sentinel with a body, and stops only where neither an
  // upper-case letter or digit nor a further word follows.
  lemma BodyMatches(s: string, k: nat)
    requires k <= |s|
    ensures Match(SENTINEL_BODY, s, k) == if BodyAt(s, k) then Some(WordsEnd(s, UppersEnd(s, k + 10))) else None
  {
    MatchThen(Exactly(SENTINEL), Then(UPPERS, WORDS), s, k);
    if SentinelAt(s, k) {
      MatchOfThen(Exactly(SENTINEL), Then(UPPERS, WORDS), s, k, k + 10);
      MatchThen(UPPERS, WORDS, s, k + 10);
      UppersMatch(s, k + 10);
      WordsMatch(s, UppersEnd(s, k + 10));
    }
  }

  predicate HasSafeSuffixContinuation(s: string, end: nat) {
    end < |s| && (IsUpperOrDigit(s[end]) || WordFollows(s, end))
  }

  // The suffix check never finds anything behind a match.
  lemma MatchesAreGreedy(s: string, k: nat)
    requires k <= |s| && Match(SENTINEL_BODY, s, k).Some?
    ensures !HasSafeSuffixContinuation(s, Match(SENTINEL_BODY, s, k).value)
  {
    hide Match;
    BodyMatches(s, k);
  }

  // FindAllStringIndex: the matches from i on, none overlapping another.
  function FindAll(s: string, i: nat): (ms: seq<(nat, nat)>)
    requires i <= |s|
    ensures forall m :: m in ms ==> m.0 <= |s| && Match(SENTINEL_BODY, s, m.0) == Some(m.1)
    ensures ms == [] ==> forall k :: i <= k < |s| ==> !BodyAt(s, k)
    decreases |s| - i
  {
    hide Match;
    if i == |s| then []
    else
      BodyMatches(s, i);
      var end := Match(SENTINEL_BODY, s, i);
      if end.Some? then [(i, end.value)] + FindAll(s, end.value) else FindAll(s, i + 1)
  }

  // isSyntheticSentinelString: poisoned exactly when some sentinel has a body, whatever stands
  // before it. The suffix check never lets a match go.
  method IsSyntheticSentinelString(s: string) returns (poisoned: bool)
    ensures poisoned <==> exists k :: BodyAt(s, k)
  {
    hide Match;
    if IndexFrom(s, 0) < 0 {
      return false;
    }
    var matches := FindAll(s, 0);
    for n := 0 to |matches|
      invariant n > 0 ==> HasSafeSuffixContinuation(s, matches[0].1)
    {
      var m := matches[n];
      assert m in matches;
      if HasSafeSuffixContinuation(s, m.1) {
        continue;
      }
      BodyMatches(s, m.0);
      return true;
    }
    if |matches| > 0 {
      assert matches[0] in matches;
      MatchesAreGreedy(s, matches[0].0);
    }
    return false;
  }

  // What has been scrubbed is never taken for poisoned.
  lemma ScrubbedIsNotPoisoned(s: string)
    ensures !exists k :: BodyAt(Scrub(s), k)
  {
    NoSentinelSurvives(s);
  }
}
