// The approval exchange of internal/agent/codex/codex.go: a stored request, an operator who may
// decide it, two timers, cancellation and the exit of the agent's process, all racing.
module ApprovalExchange {
  import opened Domain
  import opened Text
  import opened Transactions
  import opened Invariant
  import opened LifecycleTheorems
  import opened ApprovalTheorems
  import opened ProjectStore

  // ---- The exchange.

  // The part of a codex process session that the exchange writes: what was sent on its standard input.
  class Session {
    var sent: seq<Decision>
    var closed: bool
    var processExited: bool

    constructor ()
      ensures sent == [] && !closed && !processExited
    {
      sent, closed, processExited := [], false, false;
    }
  }

  // Which of the select's cases fires next. A tick polls the store; the write of an answer may fail.
  datatype Event =
    | ContextDone | TurnTimer | ProcessExit(clean: bool) | ApprovalTimer | Tick(writeOk: bool)

  datatype Outcome =
    | Terminal(code: FailureCode)   // the turn ends with this failure
    | Continue                      // the request was answered
    | StoreError
    | Waiting                       // no case has fired that ends the wait

  const TURN_TIMEOUT := ReportedByRunner("turn_timeout")
  const APPROVAL_TIMEOUT := ReportedByRunner("approval_timeout")

  // approvalDecisionForStatus
  function DecisionFor(s: ApprovalStatus): Option<Decision> {
    match s
    case ApprovedOnce => Some(ApproveOnce)
    case ApprovedForRun => Some(ApproveForRun)
    case ApprovedForSession => Some(ApproveForSession)
    case Denied => Some(Deny)
    case ApprovalCancelled => Some(CancelRun)
    case _ => None
  }

  ghost predicate Pending(store: Store, a: ApprovalId)
    reads store
  {
    a in store.approvals && store.approvals[a].status.AwaitingDecision?
  }

  // markApprovalTimeoutIfPending and markApprovalCancelledIfPending
  method MarkIfPending(store: Store, a: ApprovalId, cancelled: bool)
    requires store.Valid() && a in store.approvals
    modifies store
    ensures store.Valid() && store.log == old(store.log) + [if cancelled then OpCancelApproval(a) else OpTimeout(a)]
    ensures a in store.approvals && store.approvals[a].status
      == if !old(Pending(store, a)) then old(store.approvals[a].status)
         else if cancelled then ApprovalCancelled else TimedOut
  {
    hide LegalLog, Replay;
    if cancelled {
      var _ := store.MarkApprovalCancelled(a);
    } else {
      var _ := store.MarkApprovalTimeout(a);
    }
    MarkingResolves(old(store.State()), a);
    ghost var op := if cancelled then OpCancelApproval(a) else OpTimeout(a);
    hide After;
    ReplayAppend(old(store.log), op);
  }

  lemma MarkingResolves(db: Db, a: ApprovalId)
    requires a in db.approvals
    ensures var pending, marked := db.approvals[a].status.AwaitingDecision?, db.approvals[a];
      && After(db, OpTimeout(a)).approvals
         == db.approvals[a := if pending then marked.(status := TimedOut) else marked]
      && After(db, OpCancelApproval(a)).approvals
         == db.approvals[a := if pending then marked.(status := ApprovalCancelled) else marked]
  {
    assert db.approvals[a := db.approvals[a]] == db.approvals;
  }

  // The answer the agent got to a request, if any.
  ghost predicate Answered(before: seq<Decision>, sent: seq<Decision>, d: Decision) {
    sent == before + [d]
  }

  lemma OneAnswer(before: seq<Decision>, sent: seq<Decision>, d: Decision)
    requires Answered(before, sent, d)
    ensures forall e :: Answered(before, sent, e) ==> e == d
  {
    assert sent[|before|] == d;
  }

  // Operation k decided the request so, after the first log if it was pending then.
  ghost predicate DecidedSince(log0: seq<Op>, log: seq<Op>, k: nat, a: ApprovalId, d: Decision) {
    && DecidedAt(log, k, a, d)
    && (a in Replay(log0).approvals && Replay(log0).approvals[a].status.AwaitingDecision? ==> |log0| <= k)
  }

  // What the agent was told was decided so.
  ghost predicate ToldAsDecided(before: seq<Decision>, sent: seq<Decision>, log0: seq<Op>, log: seq<Op>,
      a: ApprovalId) {
    exists d, k: nat :: Answered(before, sent, d) && DecidedSince(log0, log, k, a, d)
  }

  // A decision is read off the request, and what is read off a request was decided.
  lemma DecisionIsRead(log: seq<Op>, k: nat, a: ApprovalId, d: Decision)
    requires LegalLog(log) && DecidedAt(log, k, a, d)
    ensures a in Replay(log).approvals && DecisionFor(Replay(log).approvals[a].status) == Some(d)
  {
    hide LegalLog, Replay, DecidedAt;
    DecisionLasts(log, k, a, d);
  }

  lemma ReadDecisionWasMade(log0: seq<Op>, log: seq<Op>, a: ApprovalId, d: Decision)
    requires LegalLog(log) && log0 <= log && a in Replay(log).approvals && !d.CancelRun?
    requires DecisionFor(Replay(log).approvals[a].status) == Some(d)
    ensures exists k: nat :: DecidedSince(log0, log, k, a, d)
  {
    assert log[..|log0|] == log0;
    hide LegalLog, Replay, DecidedAt;
    var k, e := AnswerWasDecided(log, |log0|, a);
    assert d == e && DecidedSince(log0, log, k, a, d);
  }

  lemma DecisionsAreRead(log0: seq<Op>, log: seq<Op>, a: ApprovalId)
    requires LegalLog(log) && log0 <= log
    ensures forall k: nat, d :: DecidedAt(log0, k, a, d) ==>
      a in Replay(log).approvals && DecisionFor(Replay(log).approvals[a].status) == Some(d)
  {
    hide LegalLog, Replay, DecidedAt;
    forall k: nat, d | DecidedAt(log0, k, a, d)
      ensures a in Replay(log).approvals && DecisionFor(Replay(log).approvals[a].status) == Some(d)
    {
      DecidedAtLasts(log0, log, k, a, d);
      DecisionIsRead(log, k, a, d);
    }
  }

  // One pass of the select: the event fires after anything anybody else did meanwhile. What the agent
  // is told was decided, and a tick that finds a decision acts on it.
  method React(store: Store, session: Session, a: ApprovalId, event: Event) returns (outcome: Outcome)
    requires store.Valid() && a in store.approvals
    modifies store, session
    ensures store.Valid() && old(store.log) <= store.log && a in store.approvals
    ensures outcome != Waiting ==> !Pending(store, a)
    ensures outcome == Continue ==>
      event == Tick(true) && ToldAsDecided(old(session.sent), session.sent, old(store.log), store.log, a)
    ensures outcome != Continue ==> session.sent == old(session.sent)
    ensures outcome != StoreError
    ensures event == Tick(true) ==> forall k: nat, d :: DecidedAt(old(store.log), k, a, d) ==>
      if d.CancelRun? then outcome == Terminal(OperatorCancelled)
      else outcome == Continue && Answered(old(session.sent), session.sent, d)
    ensures event.ProcessExit? ==> session.closed && session.processExited && outcome == Terminal(CodexProtocolError)
    ensures event.ContextDone? ==> outcome == Terminal(OperatorCancelled)
    ensures event.TurnTimer? ==> outcome == Terminal(TURN_TIMEOUT)
    ensures event.ApprovalTimer? ==> outcome == Terminal(APPROVAL_TIMEOUT)
    ensures event.ContextDone? || event.ProcessExit? ==> EndsWith(store.log, OpCancelApproval(a))
    ensures event.TurnTimer? || event.ApprovalTimer? ==> EndsWith(store.log, OpTimeout(a))
    ensures event.Tick? && store.approvals[a].status.ApprovalCancelled? ==> outcome == Terminal(OperatorCancelled)
    ensures event.Tick? && store.approvals[a].status.TimedOut? ==> outcome == Terminal(APPROVAL_TIMEOUT)
  {
    hide LegalLog, Replay, DecidedAt, DecidedSince, ToldAsDecided;
    ghost var log0 := store.log;
    Interfere(store);
    RequestStays(log0, store.log, a);
    match event
    case ContextDone =>
      MarkIfPending(store, a, true);
      return Terminal(OperatorCancelled);
    case TurnTimer =>
      MarkIfPending(store, a, false);
      return Terminal(TURN_TIMEOUT);
    case ProcessExit(_) =>
      session.closed, session.processExited := true, true;
      MarkIfPending(store, a, true);
      return Terminal(CodexProtocolError);
    case ApprovalTimer =>
      MarkIfPending(store, a, false);
      return Terminal(APPROVAL_TIMEOUT);
    case Tick(writeOk) =>
      DecisionsAreRead(log0, store.log, a);
      outcome := ReactToStatus(store, session, a, writeOk, log0);
  }

  ghost predicate EndsWith(log: seq<Op>, op: Op) {
    log != [] && log[|log| - 1] == op
  }

  // The tick's poll of the request and what follows from it. Anybody may act between the poll and the
  // write of the answer.
  method ReactToStatus(store: Store, session: Session, a: ApprovalId, writeOk: bool, ghost log0: seq<Op>)
      returns (outcome: Outcome)
    requires store.Valid() && a in store.approvals && log0 <= store.log
    modifies store, session`sent
    ensures store.Valid() && old(store.log) <= store.log && a in store.approvals
    ensures store.approvals[a] == old(store.approvals[a])
         || (outcome == Waiting && store.approvals == old(store.approvals))
    ensures var status, decision := old(store.approvals[a].status), DecisionFor(old(store.approvals[a].status));
      if status.TimedOut? then outcome == Terminal(APPROVAL_TIMEOUT)
      else if decision.None? then outcome == Waiting
      else if decision.value.CancelRun? then outcome == Terminal(OperatorCancelled)
      else if !writeOk then outcome == Terminal(CodexProtocolError)
      else
        && outcome == Continue && Answered(old(session.sent), session.sent, decision.value)
        && ToldAsDecided(old(session.sent), session.sent, log0, store.log, a)
    ensures outcome != Continue ==> session.sent == old(session.sent)
  {
    hide LegalLog, Replay, DecidedAt, DecidedSince;
    var status := store.approvals[a].status;
    if status.TimedOut? {
      return Terminal(APPROVAL_TIMEOUT);
    }
    var decision := DecisionFor(status);
    if decision.None? {
      return Waiting;
    }
    if decision.value.CancelRun? {
      return Terminal(OperatorCancelled);
    }
    ghost var log1 := store.log;
    Interfere(store);
    RequestStays(log1, store.log, a);
    if !writeOk {
      return Terminal(CodexProtocolError);
    }
    ReadDecisionWasMade(log0, store.log, a, decision.value);
    session.sent := session.sent + [decision.value];
    assert Answered(old(session.sent), session.sent, decision.value);
    return Continue;
  }

  // waitForApprovalDecision, under any schedule of the select's events. The wait never ends with
  // the request still pending, answers at most once, and answers - positively or not - only what the
  // operator decided, while the request was pending and its run active.
  method WaitForApprovalDecision(store: Store, session: Session, a: ApprovalId, schedule: seq<Event>)
      returns (outcome: Outcome)
    requires store.Valid() && a in store.approvals
    modifies store, session
    ensures store.Valid() && old(store.log) <= store.log && a in store.approvals
    ensures outcome != Waiting ==> !Pending(store, a)
    ensures outcome != StoreError
    ensures outcome != Continue ==> session.sent == old(session.sent)
    ensures outcome == Continue ==> exists d :: Answered(old(session.sent), session.sent, d)
    ensures forall d :: Answered(old(session.sent), session.sent, d) ==>
      exists k: nat :: DecidedSince(old(store.log), store.log, k, a, d)
  {
    hide LegalLog, Replay, DecidedAt, DecidedSince;
    outcome := Waiting;
    var n := 0;
    ghost var log0 := store.log;
    while outcome == Waiting && n < |schedule|
      invariant store.Valid() && log0 <= store.log && a in store.approvals && n <= |schedule|
      invariant outcome != Waiting ==> !Pending(store, a)
      invariant outcome != StoreError
      invariant outcome == Continue ==> ToldAsDecided(old(session.sent), session.sent, log0, store.log, a)
      invariant outcome != Continue ==> session.sent == old(session.sent)
    {
      ghost var log1 := store.log;
      outcome := React(store, session, a, schedule[n]);
      if outcome == Continue {
        ToldEarlier(old(session.sent), session.sent, log0, log1, store.log, a);
      }
      n := n + 1;
    }
    if outcome == Continue {
      ghost var d, k: nat :| Answered(old(session.sent), session.sent, d) && DecidedSince(log0, store.log, k, a, d);
      OneAnswer(old(session.sent), session.sent, d);
    } else {
      assert forall d :: |old(session.sent) + [d]| != |session.sent|;
    }
  }

  lemma ToldEarlier(before: seq<Decision>, sent: seq<Decision>, log0: seq<Op>, log1: seq<Op>, log: seq<Op>,
      a: ApprovalId)
    requires LegalLog(log) && log0 <= log1 <= log && ToldAsDecided(before, sent, log1, log, a)
    ensures ToldAsDecided(before, sent, log0, log, a)
  {
    assert log[..|log0|] == log0;
    hide LegalLog, Replay, DecidedAt;
    var d, k: nat :| Answered(before, sent, d) && DecidedSince(log1, log, k, a, d);
    if a in Replay(log0).approvals && Replay(log0).approvals[a].status.AwaitingDecision? {
      DecidedLater(log, |log0|, k, a, d);
    }
    assert DecidedSince(log0, log, k, a, d);
  }

  // ---- Reuse.

  // The same run, issue and kind, and up to surrounding white space the same directory and the same
  // fingerprint, which is not blank. A command without a directory is like no other.
  predicate SameRequest(asked: ApprovalInput, input: ApprovalInput) {
    && asked.run == input.run && asked.issue == input.issue && asked.kind == input.kind
    && TrimSpace(asked.cwd) == TrimSpace(input.cwd)
    && TrimSpace(asked.fingerprint) == TrimSpace(input.fingerprint) && !Blank(input.fingerprint)
    && !(input.kind.Command? && Blank(input.cwd))
  }

  // Somebody asked the same before, and the operator approved that for the run.
  ghost predicate ApprovedBefore(
    log: seq<Op>, input: ApprovalInput, b: ApprovalId, j: nat, k: nat, asked: ApprovalInput)
  {
    j < k && AskedAt(log, j, b, asked) && SameRequest(asked, input) && DecidedAt(log, k, b, ApproveForRun)
  }

  ghost predicate Reuses(log: seq<Op>, input: ApprovalInput) {
    exists b, j: nat, k: nat, asked :: ApprovedBefore(log, input, b, j, k, asked)
  }

  // At this point of the log the request's run was active.
  ghost predicate WasActive(log: seq<Op>, k: nat, input: ApprovalInput) {
    k <= |log| && ActiveRun(Replay(log[..k]), input.issue, input.run)
  }

  lemma ReuseLasts(log: seq<Op>, log': seq<Op>, input: ApprovalInput)
    requires log <= log' && Reuses(log, input)
    ensures Reuses(log', input)
  {
    hide SameRequest;
    var b, j: nat, k: nat, asked :| ApprovedBefore(log, input, b, j, k, asked);
    assert log'[..j] == log[..j] && log'[..j + 1] == log[..j + 1];
    hide Replay;
    DecidedAtLasts(log, log', k, b, ApproveForRun);
    hide DecidedAt;
    assert ApprovedBefore(log', input, b, j, k, asked);
  }

  // What the store finds reusable was asked and approved for the run, and the other way round.
  lemma ReusableWasApproved(log: seq<Op>, b: ApprovalId, input: ApprovalInput)
    requires LegalLog(log) && Reusable(Replay(log), b, input) && !(input.kind.Command? && Blank(input.cwd))
    ensures Reuses(log, input)
  {
    ApprovedOnlyByOperator(log, b);
    var k: nat :| DecidedAt(log, k, b, ApproveForRun);
    hide LegalLog, TrimSpace;
    DecidedWasAsked(log, k, b);
    var j: nat, asked :| j < k && AskedAt(log, j, b, asked);
    AskedIsRecorded(log, j, b, asked);
    hide AskedAt, DecidedAt, Replay;
    assert SameRequest(asked, input);
    assert ApprovedBefore(log, input, b, j, k, asked);
  }

  lemma ApprovedIsReusable(log: seq<Op>, input: ApprovalInput)
    requires LegalLog(log) && Reuses(log, input)
    ensures exists b :: Reusable(Replay(log), b, input)
  {
    hide LegalLog, Replay, TrimSpace;
    var b, j: nat, k: nat, asked :| ApprovedBefore(log, input, b, j, k, asked);
    AskedIsRecorded(log, j, b, asked);
    DecisionLasts(log, k, b, ApproveForRun);
    hide AskedAt, DecidedAt;
    assert Reusable(Replay(log), b, input);
  }

  // The verdict of evaluateApprovalPolicy.
  datatype Verdict = PolicyDeny(code: FailureCode) | PolicyAllow | PolicyReview

  // tryApprovedForRunDecision. The store is read in a transaction of its own, so the run need be
  // active only then: it may have ended by the time the answer is written.
  method TryApprovedForRunDecision(store: Store, session: Session, input: ApprovalInput, permissions: bool,
      writeOk: bool)
    returns (res: Tx<bool>)
    requires store.Valid()
    modifies store, session`sent
    ensures store.Valid() && old(store.log) <= store.log
    ensures res == Commit(true) <==>
      && !permissions && writeOk && Reuses(old(store.log), input)
      && WasActive(store.log, |old(store.log)|, input)
    ensures res == Commit(true) ==> Answered(old(session.sent), session.sent, ApproveForRun)
    ensures res != Commit(true) ==> session.sent == old(session.sent)
  {
    hide LegalLog, Replay, SameRequest, Reuses, Reusable, TrimSpace;
    ghost var log0 := store.log;
    assert log0[..|log0|] == log0;
    if permissions {
      return Commit(false);
    }
    res := store.HasApprovedForRunApproval(input);
    ReuseIsFound(log0, input, res);
    if res != Commit(true) {
      return;
    }
    Interfere(store);
    assert store.log[..|log0|] == log0[..|log0|];
    if !writeOk {
      return Abort(Internal);
    }
    session.sent := session.sent + [ApproveForRun];
  }

  // What HasApprovedForRunApproval answers, in terms of the log.
  lemma ReuseIsFound(log: seq<Op>, input: ApprovalInput, res: Tx<bool>)
    requires LegalLog(log)
    requires var db := Replay(log);
      && (input.kind.Command? && Blank(input.cwd) ==> res == Commit(false))
      && (!(input.kind.Command? && Blank(input.cwd)) ==>
        res == if !RunExists(db, input.run) then Abort(NotFound)
               else if db.runs[input.run].issue != input.issue then Abort(InvalidRequest)
               else if !IsActive(db.runs[input.run].status) then Abort(InvalidStateTransition)
               else Commit(exists b :: Reusable(db, b, input)))
    ensures res == Commit(true) <==> Reuses(log, input) && ActiveRun(Replay(log), input.issue, input.run)
  {
    hide Replay, Reusable, TrimSpace, Reuses;
    if res == Commit(true) {
      var b :| Reusable(Replay(log), b, input);
      ReusableWasApproved(log, b, input);
    }
    if Reuses(log, input) && ActiveRun(Replay(log), input.issue, input.run) {
      ApprovedIsReusable(log, input);
      RunsHaveIssues(log, input.run);
      CommandsNeedADirectory(log, input);
    }
  }

  lemma CommandsNeedADirectory(log: seq<Op>, input: ApprovalInput)
    requires Reuses(log, input)
    ensures !(input.kind.Command? && Blank(input.cwd))
  {
    hide AskedAt, DecidedAt, TrimSpace;
  }

  // handleApprovalRequest. What policy denies is never answered; what policy leaves to review is
  // answered only by an operator: through this very request, decided after it was made, or by reusing
  // a request like it that was approved for the run.
  method HandleApprovalRequest(store: Store, session: Session, a: ApprovalId, input: ApprovalInput, verdict: Verdict,
                               permissions: bool, writeOk: bool, schedule: seq<Event>)
    returns (outcome: Outcome, asked: bool)
    requires store.Valid()
    modifies store, session
    ensures store.Valid() && old(store.log) <= store.log
    ensures session.sent == old(session.sent) || exists d :: Answered(old(session.sent), session.sent, d)
    ensures outcome != Continue ==> session.sent == old(session.sent)
    ensures verdict.PolicyDeny? ==>
      || outcome == StoreError
      || (outcome == Terminal(verdict.code) && a in store.approvals
          && store.approvals[a].status.AutoDenied? && Records(store.approvals[a], input))
    ensures verdict.PolicyAllow? ==>
      if writeOk then outcome == Continue && Answered(old(session.sent), session.sent, ApproveOnce)
      else outcome == Terminal(CodexProtocolError)
    ensures asked ==> a in store.approvals && Records(store.approvals[a], input)
    ensures asked && outcome != Waiting ==> !Pending(store, a)
    ensures !asked ==> outcome != Waiting
    ensures verdict.PolicyReview? ==> forall d :: Answered(old(session.sent), session.sent, d) ==>
      if asked then exists k: nat :: |old(store.log)| <= k && DecidedAt(store.log, k, a, d)
      else
        && d.ApproveForRun? && !permissions && Reuses(store.log, input)
        && exists k: nat :: |old(store.log)| <= k && WasActive(store.log, k, input)
  {
    hide LegalLog, Replay, DecidedAt, TrimSpace, SameRequest, Reuses;
    asked := false;
    Interfere(store);
    match verdict
    case PolicyDeny(code) =>
      RequestIsRecorded(store.log, a, input);
      var res := store.CreateAutoDeniedApprovalRequest(a, input);
      return if res.Success? then Terminal(code) else StoreError, false;
    case PolicyAllow =>
      if !writeOk {
        return Terminal(CodexProtocolError), false;
      }
      session.sent := session.sent + [ApproveOnce];
      assert Answered(old(session.sent), session.sent, ApproveOnce);
      return Continue, false;
    case PolicyReview =>
      ghost var log0 := store.log;
      var reused := TryApprovedForRunDecision(store, session, input, permissions, writeOk);
      if reused.Abort? {
        return Terminal(CodexProtocolError), false;
      }
      if reused.value {
        OneAnswer(old(session.sent), session.sent, ApproveForRun);
        ReuseLasts(log0, store.log, input);
        return Continue, false;
      }
      Interfere(store);
      ghost var log1 := store.log;
      var res := store.CreatePendingApprovalRequest(a, input);
      if res.Refused? {
        return StoreError, false;
      }
      RequestIsRecorded(log1, a, input);
      asked := true;
      ghost var log2 := store.log;
      outcome := WaitForApprovalDecision(store, session, a, schedule);
      RequestStays(log2, store.log, a);
  }

  lemma RequestIsRecorded(log: seq<Op>, a: ApprovalId, input: ApprovalInput)
    ensures Exec(Replay(log), OpRequestApproval(a, input)).Commit? ==>
      var db := Replay(log + [OpRequestApproval(a, input)]);
      a in db.approvals && db.approvals[a].status.AwaitingDecision? && Records(db.approvals[a], input)
    ensures Exec(Replay(log), OpAutoDeny(a, input)).Commit? ==>
      var db := Replay(log + [OpAutoDeny(a, input)]);
      a in db.approvals && db.approvals[a].status.AutoDenied? && Records(db.approvals[a], input)
  {
    ReplayAppend(log, OpRequestApproval(a, input));
    ReplayAppend(log, OpAutoDeny(a, input));
    hide Replay, TrimSpace;
  }
}
