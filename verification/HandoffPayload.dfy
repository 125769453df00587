// The handoff.submit call of internal/toolgateway/toolgateway.go: the payload is brought into one
// form, encoded, hashed and inserted.
module HandoffPayload {
  import opened Domain
  import opened Text
  import opened Invariant
  import Tx = Transactions
  import opened CanonicalJson
  import opened ProjectStore

  type Input = map<string, Value>

  const HUMAN_REVIEW := "Human Review"
  const LISTS := ["changed_files", "tests", "risks", "verification", "followups"]

  // ---- The normal form of a payload.

  function SummaryOf(input: Input): Option<string> {
    if "summary" !in input || !input["summary"].Text? || Blank(input["summary"].text) then None
    else Some(TrimSpace(input["summary"].text))
  }

  predicate TargetAccepted(input: Input) {
    "target_state" in input ==> input["target_state"].Text? && TrimSpace(input["target_state"].text) == HUMAN_REVIEW
  }

  predicate IsStringList(v: Value) {
    v.Strings? || (v.Array? && forall i :: 0 <= i < |v.elements| ==> v.elements[i].Text?)
  }

  function StringsOf(v: Value): (items: seq<string>)
    requires IsStringList(v)
  {
    if v.Strings? then v.items else seq(|v.elements|, i requires 0 <= i < |v.elements| => v.elements[i].text)
  }

  predicate ListAccepted(input: Input, key: string) {
    key in input ==> IsStringList(input[key])
  }

  function ListOf(input: Input, key: string): seq<string>
    requires ListAccepted(input, key)
  {
    if key in input then StringsOf(input[key]) else []
  }

  predicate Accepted(input: Input) {
    && SummaryOf(input).Some? && TargetAccepted(input)
    && (forall key :: key in LISTS ==> ListAccepted(input, key))
    && (forall s :: s in ListOf(input, "changed_files") ==> !Blank(s))
  }

  const FIELDS := {"summary", "target_state", "changed_files", "tests", "risks", "verification", "followups"}

  function FieldOf(input: Input, key: string): Value
    requires Accepted(input)
  {
    if key in LISTS then Strings(ListOf(input, key))
    else if key == "summary" then Text(SummaryOf(input).value)
    else Text(HUMAN_REVIEW)
  }

  function Normalised(input: Input): Input
    requires Accepted(input)
  {
    map key | key in FIELDS :: FieldOf(input, key)
  }

  // requiredStringSlice
  method RequiredStringSlice(input: Input, key: string) returns (items: Option<seq<string>>)
    ensures items == if ListAccepted(input, key) then Some(ListOf(input, key)) else None
  {
    if key !in input {
      return Some([]);
    }
    match input[key]
    case Strings(given) => return Some(given);
    case Array(elements) =>
      var out := [];
      for i := 0 to |elements|
        invariant |out| == i
        invariant forall k :: 0 <= k < i ==> elements[k].Text? && out[k] == elements[k].text
      {
        if !elements[i].Text? {
          return None;
        }
        out := out + [elements[i].text];
      }
      assert out == StringsOf(input[key]);
      return Some(out);
    case _ => return None;
  }

  method RequiredNonBlankStringSlice(input: Input, key: string) returns (items: Option<seq<string>>)
    ensures items == if ListAccepted(input, key) && forall s :: s in ListOf(input, key) ==> !Blank(s)
                     then Some(ListOf(input, key)) else None
  {
    hide TrimSpace;
    items := RequiredStringSlice(input, key);
    if items.Some? {
      for i := 0 to |items.value|
        invariant forall k :: 0 <= k < i ==> !Blank(items.value[k])
      {
        if TrimSpace(items.value[i]) == "" {
          assert items.value[i] in ListOf(input, key);
          return None;
        }
      }
    }
  }

  lemma AcceptedExactlyWhen(input: Input)
    ensures Accepted(input) <==>
      && SummaryOf(input).Some? && TargetAccepted(input)
      && ListAccepted(input, "changed_files") && ListAccepted(input, "tests") && ListAccepted(input, "risks")
      && ListAccepted(input, "verification") && ListAccepted(input, "followups")
      && forall s :: s in ListOf(input, "changed_files") ==> !Blank(s)
  {
    hide ListAccepted, ListOf, SummaryOf, TargetAccepted, TrimSpace;
    assert LISTS[0] == "changed_files" && LISTS[1] == "tests" && LISTS[2] == "risks";
    assert LISTS[3] == "verification" && LISTS[4] == "followups";
  }

  lemma NormalFormByFields(input: Input, out: Input)
    requires Accepted(input) && out.Keys == FIELDS
    requires out["summary"] == Text(SummaryOf(input).value) && out["target_state"] == Text(HUMAN_REVIEW)
    requires forall key :: key in LISTS ==> key in FIELDS && out[key] == Strings(ListOf(input, key))
    ensures out == Normalised(input)
  {
    hide ListOf, SummaryOf, TrimSpace, Accepted;
    assert "summary"[0] == 's' && "target_state"[1] == 'a';
    assert forall key :: key in LISTS ==> key != "summary" && key != "target_state";
  }

  method CanonicalHandoff(input: Input) returns (payload: Option<Input>)
    ensures payload == if Accepted(input) then Some(Normalised(input)) else None
  {
    hide TrimSpace, ListOf, ListAccepted, Accepted, Normalised;
    AcceptedExactlyWhen(input);
    var summary := SummaryOf(input);
    if summary.None? {
      return None;
    }
    if "target_state" in input {
      if !input["target_state"].Text? || TrimSpace(input["target_state"].text) != HUMAN_REVIEW {
        return None;
      }
    }
    var changed := RequiredNonBlankStringSlice(input, "changed_files");
    var tests := RequiredStringSlice(input, "tests");
    var risks := RequiredStringSlice(input, "risks");
    var verification := RequiredStringSlice(input, "verification");
    var followups := RequiredStringSlice(input, "followups");
    if changed.None? || tests.None? || risks.None? || verification.None? || followups.None? {
      return None;
    }
    var out := map[
      "summary" := Text(summary.value), "changed_files" := Strings(changed.value), "tests" := Strings(tests.value),
      "risks" := Strings(risks.value), "verification" := Strings(verification.value),
      "followups" := Strings(followups.value), "target_state" := Text("Human Review")];
    NormalFormByFields(input, out);
    return Some(out);
  }

  // ---- What the normal form is, apart from how it is computed.

  // A payload that is already in order: the seven fields, the lists as lists of strings, a summary with
  // no white space around it, and no blank file name.
  ghost predicate InOrder(n: Input) {
    && n.Keys == {"summary", "target_state", "changed_files", "tests", "risks", "verification", "followups"}
    && n["summary"].Text? && n["summary"].text != "" && NoSpaceAround(n["summary"].text)
    && n["target_state"] == Text("Human Review")
    && (forall key :: key in LISTS ==> n[key].Strings?)
    && forall s :: s in n["changed_files"].items ==> !AllSpace(s)
  }

  // The payload's list has these strings; a missing list has none.
  ghost predicate HasStrings(input: Input, key: string, items: seq<string>) {
    if key !in input then items == []
    else
      match input[key]
      case Strings(given) => items == given
      case Array(elements) => |elements| == |items| && forall i :: 0 <= i < |items| ==> elements[i] == Text(items[i])
      case _ => false
  }

  // The payload says the same as one in order: the same summary up to white space, the same strings in
  // each list, and no other target.
  ghost predicate SaysTheSame(input: Input, n: Input)
    requires InOrder(n)
  {
    && "summary" in input && input["summary"].Text? && TrimsTo(input["summary"].text, n["summary"].text)
    && ("target_state" in input ==> input["target_state"].Text? && TrimsTo(input["target_state"].text, "Human Review"))
    && forall key :: key in LISTS ==> key in n && n[key].Strings? && HasStrings(input, key, n[key].items)
  }

  lemma StringsAreUnique(input: Input, key: string, items: seq<string>)
    ensures HasStrings(input, key, items) <==> ListAccepted(input, key) && ListOf(input, key) == items
  {
  }

  lemma SummaryIsTrimmed(input: Input)
    ensures SummaryOf(input).Some? <==>
      "summary" in input && input["summary"].Text? && !Blank(input["summary"].text)
    ensures SummaryOf(input).Some? ==>
      && TrimsTo(input["summary"].text, SummaryOf(input).value)
      && SummaryOf(input).value != "" && NoSpaceAround(SummaryOf(input).value)
  {
    if "summary" in input && input["summary"].Text? {
      TrimIsExact(input["summary"].text, TrimSpace(input["summary"].text));
    }
    hide TrimSpace;
  }

  lemma TargetTrims(input: Input)
    ensures TargetAccepted(input) <==>
      ("target_state" in input ==> input["target_state"].Text? && TrimsTo(input["target_state"].text, "Human Review"))
  {
    hide TrimSpace, TrimsTo;
    if "target_state" in input && input["target_state"].Text? {
      TrimIsExact(input["target_state"].text, "Human Review");
    }
  }

  lemma NormalFields(input: Input)
    requires Accepted(input)
    ensures var n := Normalised(input);
      && n.Keys == FIELDS && n["summary"] == Text(SummaryOf(input).value) && n["target_state"] == Text("Human Review")
      && forall key :: key in LISTS ==> key in FIELDS && n[key] == Strings(ListOf(input, key))
  {
    hide SummaryOf, ListOf, ListAccepted, TargetAccepted, Blank;
    assert LISTS[0] == "changed_files" && LISTS[1] == "tests" && LISTS[2] == "risks";
    assert LISTS[3] == "verification" && LISTS[4] == "followups";
    assert "summary"[0] == 's' && "target_state"[1] == 'a';
  }

  lemma NamesOfBlanks(items: seq<string>)
    ensures (forall s :: s in items ==> !AllSpace(s)) <==> forall s :: s in items ==> !Blank(s)
  {
    hide Blank, AllSpace;
    forall s | s in items ensures Blank(s) <==> AllSpace(s) {
      BlankIsAllSpace(s);
    }
  }

  lemma NormalFormIsInOrder(input: Input)
    requires Accepted(input)
    ensures InOrder(Normalised(input)) && SaysTheSame(input, Normalised(input))
  {
    var n := Normalised(input);
    NormalFields(input);
    SummaryIsTrimmed(input);
    TargetTrims(input);
    NamesOfBlanks(ListOf(input, "changed_files"));
    hide Normalised, SummaryOf, TargetAccepted, ListOf, ListAccepted, TrimsTo, NoSpaceAround, AllSpace, TrimSpace;
    forall key | key in LISTS ensures HasStrings(input, key, ListOf(input, key)) {
      StringsAreUnique(input, key, ListOf(input, key));
    }
    hide HasStrings;
    assert LISTS[0] == "changed_files";
  }

  lemma OnlyItsNormalFormSaysTheSame(input: Input, n: Input)
    requires InOrder(n) && SaysTheSame(input, n)
    ensures Accepted(input) && n == Normalised(input)
  {
    SummaryIsTrimmed(input);
    TargetTrims(input);
    SummaryIsUnique(input, n["summary"].text);
    hide SummaryOf, TargetAccepted, ListOf, ListAccepted, TrimsTo, NoSpaceAround, AllSpace, TrimSpace, Blank,
      Normalised;
    forall key | key in LISTS
      ensures ListAccepted(input, key) && ListOf(input, key) == n[key].items
    {
      StringsAreUnique(input, key, n[key].items);
    }
    hide HasStrings;
    assert LISTS[0] == "changed_files";
    NamesOfBlanks(ListOf(input, "changed_files"));
    NormalFormByFields(input, n);
  }

  lemma SummaryIsUnique(input: Input, t: string)
    requires "summary" in input && input["summary"].Text? && TrimsTo(input["summary"].text, t) && t != ""
    ensures SummaryOf(input) == Some(t)
  {
    TrimIsExact(input["summary"].text, t);
    hide TrimSpace, TrimsTo;
  }

  // A payload is accepted exactly when it says the same as some payload in order, which is then the only
  // one and its normal form.
  lemma NormalFormIsExact(input: Input)
    ensures Accepted(input) <==> exists n :: InOrder(n) && SaysTheSame(input, n)
    ensures forall n :: InOrder(n) && SaysTheSame(input, n) ==> Accepted(input) && n == Normalised(input)
  {
    forall n | InOrder(n) && SaysTheSame(input, n) ensures Accepted(input) && n == Normalised(input) {
      OnlyItsNormalFormSaysTheSame(input, n);
    }
    hide InOrder, SaysTheSame, Normalised, Accepted;
    if Accepted(input) {
      NormalFormIsInOrder(input);
    }
  }

  // A payload in order is its own normal form.
  lemma InOrderIsNormal(n: Input)
    requires InOrder(n)
    ensures Accepted(n) && Normalised(n) == n
  {
    TrimsToItself(n["summary"].text);
    assert NoSpaceAround("Human Review");
    TrimsToItself("Human Review");
    hide TrimsTo, NoSpaceAround, AllSpace, Accepted, Normalised;
    forall key | key in LISTS ensures HasStrings(n, key, n[key].items) {
    }
    hide HasStrings;
    OnlyItsNormalFormSaysTheSame(n, n);
  }

  lemma TrimsToItself(t: string)
    requires NoSpaceAround(t)
    ensures TrimsTo(t, t)
  {
    TrimNothing(t);
    TrimIsExact(t, t);
  }

  // A normal form is accepted and is its own normal form.
  lemma NormalFormsAreFixed(input: Input)
    requires Accepted(input)
    ensures Accepted(Normalised(input)) && Normalised(Normalised(input)) == Normalised(input)
  {
    NormalFormIsInOrder(input);
    hide InOrder, SaysTheSame, Accepted, Normalised;
    InOrderIsNormal(Normalised(input));
  }

  // Two payloads agree: their summaries up to surrounding white space, and each of their lists.
  ghost predicate Agree(a: Input, b: Input)
    requires Accepted(a) && Accepted(b)
  {
    && (exists t :: TrimsTo(a["summary"].text, t) && TrimsTo(b["summary"].text, t))
    && forall key :: key in LISTS ==> exists items :: HasStrings(a, key, items) && HasStrings(b, key, items)
  }

  lemma SummariesAgree(a: string, b: string, x: string, y: string)
    requires TrimsTo(a, x) && TrimsTo(b, y)
    ensures (exists t :: TrimsTo(a, t) && TrimsTo(b, t)) <==> x == y
  {
    hide TrimsTo;
    TrimIsExact(a, x);
    TrimIsExact(b, y);
    hide TrimSpace;
    if t :| TrimsTo(a, t) && TrimsTo(b, t) {
      TrimIsExact(a, t);
      TrimIsExact(b, t);
    }
  }

  lemma ListsAgree(a: Input, b: Input, key: string, x: seq<string>, y: seq<string>)
    requires HasStrings(a, key, x) && HasStrings(b, key, y)
    ensures (exists items :: HasStrings(a, key, items) && HasStrings(b, key, items)) <==> x == y
  {
    hide HasStrings;
    StringsAreUnique(a, key, x);
    StringsAreUnique(b, key, y);
    hide ListAccepted, ListOf;
    if items :| HasStrings(a, key, items) && HasStrings(b, key, items) {
      StringsAreUnique(a, key, items);
      StringsAreUnique(b, key, items);
    }
  }

  lemma InOrderByFields(m: Input, n: Input)
    requires InOrder(m) && InOrder(n) && m["summary"] == n["summary"]
    requires forall key :: key in LISTS ==> key in m && key in n && m[key] == n[key]
    ensures m == n
  {
    hide NoSpaceAround, AllSpace;
    forall key | key in m.Keys ensures m[key] == n[key] {
      if key !in LISTS {
        FieldNames(key);
      }
    }
  }

  lemma NormalFormsAgree(a: Input, b: Input)
    requires Accepted(a) && Accepted(b)
    ensures Normalised(a) == Normalised(b) <==> Agree(a, b)
  {
    var m, n := Normalised(a), Normalised(b);
    NormalFormIsInOrder(a);
    NormalFormIsInOrder(b);
    hide Normalised, Accepted, HasStrings, TrimsTo, NoSpaceAround, AllSpace;
    SummariesAgree(a["summary"].text, b["summary"].text, m["summary"].text, n["summary"].text);
    forall key | key in LISTS
      ensures key in m && key in n
      ensures m[key] == n[key] <==> exists items :: HasStrings(a, key, items) && HasStrings(b, key, items)
    {
      ListsAgree(a, b, key, m[key].items, n[key].items);
    }
    if Agree(a, b) {
      hide SaysTheSame;
      InOrderByFields(m, n);
    }
  }

  lemma FieldNames(key: string)
    requires key in {"summary", "target_state", "changed_files", "tests", "risks", "verification", "followups"}
    requires key !in LISTS
    ensures key == "summary" || key == "target_state"
  {
    assert LISTS[0] == "changed_files" && LISTS[1] == "tests" && LISTS[2] == "risks";
    assert LISTS[3] == "verification" && LISTS[4] == "followups";
  }

  // ---- The hash.

  lemma PlainKeepsFlatValues(v: Value, w: Value)
    requires (v.Text? && w.Text?) || (v.Strings? && w.Strings?)
    requires Plain(v) == Plain(w)
    ensures v == w
  {
    if v.Strings? {
      forall i | 0 <= i < |v.items| && i < |w.items| ensures v.items[i] == w.items[i] {
        assert Plain(v).elements[i] == Plain(w).elements[i];
      }
      assert |Plain(v).elements| == |v.items| && |Plain(w).elements| == |w.items|;
    }
  }

  lemma PlainKeepsFlatObjects(m: Input, n: Input)
    requires m.Keys == n.Keys
    requires forall k :: k in m ==> (m[k].Text? && n[k].Text?) || (m[k].Strings? && n[k].Strings?)
    requires Plain(Object(m)) == Plain(Object(n))
    ensures m == n
  {
    var p, q := Plain(Object(m)).fields, Plain(Object(n)).fields;
    forall k | k in m ensures m[k] == n[k] {
      assert p[k] == q[k];
      PlainKeepsFlatValues(m[k], n[k]);
    }
  }

  lemma NormalFormsEncodeApart(a: Input, b: Input)
    requires Accepted(a) && Accepted(b)
    ensures Canonical(Object(Normalised(a))) == Canonical(Object(Normalised(b))) <==> Normalised(a) == Normalised(b)
  {
    var v, w := Normalised(a), Normalised(b);
    assert forall k :: k in FIELDS ==> (v[k].Text? && w[k].Text?) || (v[k].Strings? && w[k].Strings?);
    hide *;
    CanonicalIsInjective(Object(v), Object(w));
    if Plain(Object(v)) == Plain(Object(w)) {
      PlainKeepsFlatObjects(v, w);
    }
  }

  // canonicalHash, for any hash function.
  ghost function PayloadHash(hash: string -> nat, input: Input): nat
    requires Accepted(input)
  {
    hash(Canonical(Object(Normalised(input))))
  }

  // The hash function does not confuse the two payloads.
  ghost predicate NoCollision(hash: string -> nat, a: Input, b: Input)
    requires Accepted(a) && Accepted(b)
  {
    var x, y := Canonical(Object(Normalised(a))), Canonical(Object(Normalised(b)));
    hash(x) == hash(y) ==> x == y
  }

  datatype Response = Answered(result: HandoffResult) | Rejected

  // handoff.submit
  method Submit(store: Store, i: IssueId, r: RunId, id: HandoffId, input: Input, hash: string -> nat)
      returns (res: Response)
    requires store.Valid() && (r in store.runs ==> store.runs[r].issue == i)
    modifies store
    ensures store.Valid() && store.runs == old(store.runs)
    ensures !Accepted(input) ==> res == Rejected && store.State() == old(store.State())
    ensures Accepted(input) && r in old(store.handoffs) ==>
      && store.State() == old(store.State())
      && res == Answered(if old(store.handoffs)[r].hash == PayloadHash(hash, input)
                         then Received(old(store.handoffs)[r].id) else HandoffConflict)
    ensures Accepted(input) && r !in old(store.handoffs) ==>
      res == Answered(HandoffError)
      || (res == Answered(Received(id)) && r in store.handoffs
          && store.handoffs[r] == Handoff(id, i, PayloadHash(hash, input)))
  {
    hide LegalLog, Tx.Replay, Accepted, Normalised, Canonical;
    var payload := CanonicalHandoff(input);
    if payload.None? {
      return Rejected;
    }
    var buf := new Buffer();
    WriteCanonical(buf, Object(payload.value));
    assert buf.bytes == Canonical(Object(payload.value));
    var result := store.InsertHandoff(i, r, id, hash(buf.bytes));
    ghost var op := Tx.OpSubmitHandoff(i, r, id, hash(buf.bytes));
    ReplayAppend(old(store.log), op);
    return Answered(result);
  }

  // A handoff that is recorded stays as it is, whatever transactions follow, and so does its run's issue.
  lemma HandoffStays(log: seq<Tx.Op>, log': seq<Tx.Op>, r: RunId)
    requires LegalLog(log') && log <= log' && r in Tx.Replay(log).handoffs && r in Tx.Replay(log).runs
    ensures r in Tx.Replay(log').handoffs && Tx.Replay(log').handoffs[r] == Tx.Replay(log).handoffs[r]
    ensures r in Tx.Replay(log').runs && Tx.Replay(log').runs[r].issue == Tx.Replay(log).runs[r].issue
  {
    assert log'[..|log|] == log && log'[..|log'|] == log';
    hide LegalLog, Tx.Replay;
    LogEvolves(log', |log|, |log'|);
  }

  // A second submission for the same run, after any transactions by anybody, is answered like the
  // first exactly when its payload agrees with the first, up to collisions of the hash; otherwise it is a
  // conflict. Either way it changes nothing.
  method SubmitTwice(store: Store, i: IssueId, r: RunId, id: HandoffId, id': HandoffId,
                     first: Input, second: Input, hash: string -> nat)
    returns (res: Response, again: Option<Response>)
    requires store.Valid() && (r in store.runs ==> store.runs[r].issue == i)
    requires Accepted(first) && Accepted(second) && NoCollision(hash, first, second)
    modifies store
    ensures res.Answered? && store.Valid()
    ensures again.Some? <==> res.result.Received?
    ensures again.Some? && r !in old(store.handoffs) ==>
      && again.value == (if Agree(first, second) then res else Answered(HandoffConflict))
      && r in store.handoffs && store.handoffs[r] == Handoff(id, i, PayloadHash(hash, first))
  {
    hide Accepted, Normalised, Canonical, LegalLog, Tx.Replay, Agree;
    res := Submit(store, i, r, id, first, hash);
    if !res.result.Received? {
      return res, None;
    }
    ghost var log1 := store.log;
    ReceivedIsRecorded(log1, r);
    Interfere(store);
    HandoffStays(log1, store.log, r);
    var response := Submit(store, i, r, id', second, hash);
    NormalFormsEncodeApart(first, second);
    NormalFormsAgree(first, second);
    return res, Some(response);
  }

  lemma ReceivedIsRecorded(log: seq<Tx.Op>, r: RunId)
    requires LegalLog(log) && r in Tx.Replay(log).handoffs
    ensures r in Tx.Replay(log).runs
  {
    LogKeepsInvariant(log);
    hide LegalLog, Tx.Replay;
    assert BelongsTo(Tx.Replay(log), r, Tx.Replay(log).handoffs[r].issue);
  }
}
