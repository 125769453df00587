// What a transaction is good for: its effect as later transactions see it. Between a transaction and a
// later one that depends on it lies any stretch of a legal log.
module LifecycleEffects {
  import opened Domain
  import opened Text
  import opened Transactions
  import opened Invariant
  import opened LifecycleTheorems

  // Operation k of the log is this one, and went through.
  ghost predicate Committed(log: seq<Op>, k: nat, op: Op) {
    k < |log| && log[k] == op && Exec(Replay(log[..k]), op).Commit?
  }

  lemma StepAt(log: seq<Op>, k: nat)
    requires LegalLog(log) && k < |log|
    ensures Inv(Replay(log[..k])) && Legal(Replay(log[..k]), log[k])
    ensures Replay(log[..k + 1]) == After(Replay(log[..k]), log[k])
  {
    hide Legal, After, Inv;
    LegalPrefix(log, k);
    LogKeepsInvariant(log[..k]);
    ReplayPrefix(log, k);
    assert LegalAt(log, k);
  }

  // What every operation of a stretch keeps holds at its end if it held at its beginning.
  lemma {:induction false} StaysOver(log: seq<Op>, m: nat, n: nat, p: Db -> bool)
    requires m <= n <= |log| && p(Replay(log[..m]))
    requires forall k :: m <= k < n && p(Replay(log[..k])) ==> p(Replay(log[..k + 1]))
    ensures p(Replay(log[..n]))
    decreases n
  {
    hide Replay;
    if m < n {
      StaysOver(log, m, n - 1, p);
      assert p(Replay(log[..n - 1]));
      assert log[..n - 1 + 1] == log[..n];
    }
  }

  // ---- Who changes what of an issue's row.

  predicate Reopening(op: Op, i: IssueId) {
    op.OpTransition? && op.i == i && (op.target.Inbox? || op.target.Ready?)
  }

  // The changes of an issue's row that only certain operations make.
  ghost predicate RowChangesBy(x: Issue, y: Issue, op: Op, i: IssueId) {
    && (x.state.Done? || x.state.Cancelled? || x.state.Duplicate? ==> y.state == x.state || Reopening(op, i))
    && (x.state.Blocked? ==> y.state == x.state || (op.OpTransition? && op.i == i && op.target.Ready?))
    && (x.paused && !y.paused ==>
      || (op.OpSetPaused? && op.i == i && !op.paused) || Reopening(op, i) || (op.OpReview? && op.i == i))
    && (forall b :: b in x.blockers && b !in y.blockers ==> op == OpEditIssue(i, RemoveBlocker(b)))
    && (x.duplicateOf.Some? && y.duplicateOf != x.duplicateOf ==>
      op == OpEditIssue(i, RemoveDuplicate(x.duplicateOf.value)))
    && (y.fields != x.fields ==> op.OpEditIssue? && op.i == i && op.e.SetFields?)
  }

  ghost predicate SameColumns(x: Issue, y: Issue) {
    y.blockers == x.blockers && y.duplicateOf == x.duplicateOf && y.fields == x.fields
  }

  lemma EndingFindsItWorking(db: Db, r: RunId, code: FailureCode, status: RunStatus, now: Time)
    requires Inv(db) && Fail(db, r, code, status, now).Commit?
    ensures RunExists(db, r) && db.issues[db.runs[r].issue].state.Working? && !db.issues[db.runs[r].issue].paused
    ensures var db' := Fail(db, r, code, status, now).value;
      && db'.issues.Keys == db.issues.Keys
      && SameColumns(db.issues[db.runs[r].issue], db'.issues[db.runs[r].issue])
  {
    assert RunOk(db, r);
    hide Inv;
  }

  lemma EndingChangesRows(db: Db, op: Op, i: IssueId)
    requires Inv(db) && i in db.issues && Subject(db, op) == Some(i)
    requires op.OpFail? || op.OpBlock? || op.OpCancel? || op.OpReconcile?
    ensures i in After(db, op).issues && RowChangesBy(db.issues[i], After(db, op).issues[i], op, i)
  {
    assert RunOk(db, op.r);
    hide Inv, Blank, RevokeTokens, CancelPendingApprovals;
  }

  lemma RunningChangesRows(db: Db, op: Op, i: IssueId)
    requires Inv(db) && i in db.issues && Subject(db, op) == Some(i) && (op.OpComplete? || op.OpAdvance?)
    ensures i in After(db, op).issues && RowChangesBy(db.issues[i], After(db, op).issues[i], op, i)
  {
    assert RunOk(db, op.r);
    hide Inv, PacketExists, IsPacketOf;
  }

  lemma DecidingChangesRows(db: Db, op: Op, i: IssueId)
    requires Inv(db) && i in db.issues && Subject(db, op) == Some(i) && op.OpDecide?
    ensures i in After(db, op).issues && RowChangesBy(db.issues[i], After(db, op).issues[i], op, i)
  {
    var r := db.approvals[op.a].run;
    if Fail(db, r, OperatorCancelled, RunCancelled, op.now).Commit? {
      EndingFindsItWorking(db, r, OperatorCancelled, RunCancelled, op.now);
    }
    hide Inv, Fail;
  }

  lemma RefusalsGuard(issue: Issue, target: IssueState)
    requires TransitionRefusal(issue, target).None?
    ensures issue.state.Done? || issue.state.Cancelled? || issue.state.Duplicate? ==> target.Inbox? || target.Ready?
    ensures issue.state.Blocked? ==> target.Ready?
  {
    hide FieldsComplete;
  }

  lemma IdlingKeepsColumns(db: Db, i: IssueId, now: Time)
    requires Inv(db) && i in db.issues && Idled(db, i, now).Commit?
    ensures var db1 := Idled(db, i, now).value;
      && i in db1.issues && SameColumns(db.issues[i], db1.issues[i])
      && (db.issues[i].paused ==> db1.issues[i].paused)
  {
    var active := ActiveRunOf(db, i);
    if active.Some? {
      EndingFindsItWorking(db, active.value, IssueStateChanged, RunCancelled, now);
    }
    hide Inv, Fail, HasActiveRun, RevokeTokens;
  }

  lemma BodyChangesRows(db: Db, op: Op, i: IssueId)
    requires Inv(db) && i in db.issues && op.OpTransition? && op.i == i
    requires TransitionRefusal(db.issues[i], op.target).None?
    requires TransitionBody(db, i, op.target, op.duplicateOf, op.now).Commit?
    ensures var db' := TransitionBody(db, i, op.target, op.duplicateOf, op.now).value;
      i in db'.issues && RowChangesBy(db.issues[i], db'.issues[i], op, i)
  {
    RefusalsGuard(db.issues[i], op.target);
    if Idled(db, i, op.now).Commit? {
      IdlingKeepsColumns(db, i, op.now);
    }
    hide Inv, Cancel, TransitionRefusal, HasActiveRun;
  }

  lemma TransitionChangesRows(db: Db, op: Op, i: IssueId)
    requires Inv(db) && i in db.issues && op.OpTransition? && op.i == i
    ensures i in After(db, op).issues && RowChangesBy(db.issues[i], After(db, op).issues[i], op, i)
  {
    hide Inv, Blank, TransitionRefusal, TransitionBody, RowChangesBy;
    SameRowChangesNothing(db.issues[i], op, i);
    if TransitionRefusal(db.issues[i], op.target).None?
       && TransitionBody(db, i, op.target, op.duplicateOf, op.now).Commit? {
      BodyChangesRows(db, op, i);
    }
  }

  lemma WritingChangesRows(db: Db, op: Op, i: IssueId)
    requires Inv(db) && i in db.issues && Subject(db, op) == Some(i)
    requires op.OpCreateIssue? || op.OpEditIssue? || op.OpSetPaused? || op.OpReview? || op.OpClaim?
    ensures i in After(db, op).issues && RowChangesBy(db.issues[i], After(db, op).issues[i], op, i)
  {
    hide Inv, Blank, FieldsComplete, HasActiveRun, IsNewestPacket, ActiveRuns, MaxOf, AttemptsOf, Updated, TrimSpace;
  }

  lemma InsertingChangesRows(db: Db, op: Op, i: IssueId)
    requires i in db.issues && Subject(db, op) == Some(i)
    requires op.OpMintToken? || op.OpSubmitHandoff? || op.OpInsertPacket?
    ensures i in After(db, op).issues && RowChangesBy(db.issues[i], After(db, op).issues[i], op, i)
  {
    hide MaxOf, PacketExists, HandoffIdTaken;
  }

  // A terminal issue is left only by reopening it, a blocked one only towards Ready, a pause only by a
  // resume, a reopening or a review, a blocker or a duplicate link only by removing it.
  lemma OnlyTheseChangeRows(db: Db, op: Op, i: IssueId)
    requires Inv(db) && i in db.issues
    ensures i in After(db, op).issues && RowChangesBy(db.issues[i], After(db, op).issues[i], op, i)
  {
    hide After, RowChangesBy;
    if Subject(db, op) != Some(i) {
      EveryStepTouchesOneIssue(db, op);
      assert RowChangesBy(db.issues[i], db.issues[i], op, i) by {
        SameRowChangesNothing(db.issues[i], op, i);
      }
    } else if op.OpTransition? {
      TransitionChangesRows(db, op, i);
    } else if op.OpDecide? {
      DecidingChangesRows(db, op, i);
    } else if op.OpCreateIssue? || op.OpEditIssue? || op.OpSetPaused? || op.OpReview? || op.OpClaim? {
      WritingChangesRows(db, op, i);
    } else if op.OpMintToken? || op.OpSubmitHandoff? || op.OpInsertPacket? {
      InsertingChangesRows(db, op, i);
    } else if op.OpComplete? || op.OpAdvance? {
      RunningChangesRows(db, op, i);
    } else {
      EndingChangesRows(db, op, i);
    }
  }

  lemma SameRowChangesNothing(x: Issue, op: Op, i: IssueId)
    ensures RowChangesBy(x, x, op, i)
  {
  }

  // The issue's row before operation k and after it.
  lemma RowStep(log: seq<Op>, k: nat, i: IssueId)
    requires LegalLog(log) && k < |log| && i in Replay(log[..k]).issues
    ensures i in Replay(log[..k + 1]).issues
    ensures RowChangesBy(Replay(log[..k]).issues[i], Replay(log[..k + 1]).issues[i], log[k], i)
  {
    StepAt(log, k);
    hide Replay, Inv, After, RowChangesBy, Legal, LegalLog;
    OnlyTheseChangeRows(Replay(log[..k]), log[k], i);
  }

  // ---- Reviews.

  ghost predicate IsTerminalAt(db: Db, i: IssueId, s: IssueState) {
    StateIs(db, i, s) && (s.Done? || s.Cancelled? || s.Duplicate?)
  }

  // A terminal issue stays what it is until an operator reopens it.
  lemma TerminalUntilReopened(log: seq<Op>, m: nat, n: nat, i: IssueId, s: IssueState)
    requires LegalLog(log) && m <= n <= |log| && IsTerminalAt(Replay(log[..m]), i, s)
    requires forall k :: m <= k < n ==> !Reopening(log[k], i)
    ensures IsTerminalAt(Replay(log[..n]), i, s)
  {
    var p: Db -> bool := db => IsTerminalAt(db, i, s);
    forall k | m <= k < n && p(Replay(log[..k])) ensures p(Replay(log[..k + 1])) {
      RowStep(log, k, i);
    }
    hide Replay, LegalLog;
    StaysOver(log, m, n, p);
  }

  lemma ReviewEffect(db: Db, i: IssueId, accept: bool, reason: string)
    requires Inv(db) && Review(db, i, accept, reason).Commit?
    ensures var db' := Review(db, i, accept, reason).value;
      && i in db'.issues && SameColumns(db.issues[i], db'.issues[i]) && !db'.issues[i].paused
      && (if accept then db'.issues[i].state == Done && db'.issues[i].completed
          else db'.issues[i].state == Rework && !db'.issues[i].completed)
      && db'.runs == db.runs
  {
    hide Inv, Blank, HasActiveRun, IsNewestPacket;
  }

  lemma NotClaimed(db: Db, op: Op, i: IssueId)
    requires i in db.issues
    requires var x := db.issues[i]; x.paused || x.blockers != {} || !(x.state.Ready? || x.state.Rework?)
    ensures !Claims(db, op, i)
  {
    hide FieldsComplete, ActiveRuns, HasActiveRun, Claimed;
  }

  // An accepted issue is done, and no run is claimed for it until an operator reopens it.
  lemma AcceptedStaysDone(log: seq<Op>, m: nat, n: nat, i: IssueId, reason: string)
    requires LegalLog(log) && m < n <= |log|
    requires Committed(log, m, OpReview(i, true, reason))
    requires forall k :: m < k < n ==> !Reopening(log[k], i)
    ensures StateIs(Replay(log[..n]), i, Done) && Replay(log[..n]).issues[i].completed
    ensures n < |log| ==> !Claims(Replay(log[..n]), log[n], i)
  {
    StepAt(log, m);
    ReviewEffect(Replay(log[..m]), i, true, reason);
    assert StateIs(Replay(log[..m + 1]), i, Done);
    hide Replay, Inv, LegalLog, Review, Exec, Claims;
    TerminalUntilReopened(log, m + 1, n, i, Done);
    LegalPrefix(log, n);
    LogKeepsInvariant(log[..n]);
    NotDoneMeansNotCompleted(Replay(log[..n]), i);
    if n < |log| {
      NotClaimed(Replay(log[..n]), log[n], i);
    }
  }

  // An issue sent back can be claimed again, from Rework, as soon as it is complete, unblocked and
  // within the limit.
  lemma SentBackCanBeClaimed(log: seq<Op>, m: nat, i: IssueId, reason: string, r: RunId, maxConcurrent: int)
    requires LegalLog(log) && Committed(log, m, OpReview(i, false, reason))
    ensures var db, db' := Replay(log[..m]), Replay(log[..m + 1]);
      && StateIs(db', i, Rework) && !db'.issues[i].paused && !db'.issues[i].completed
      && var tx := Claim(db', i, r, maxConcurrent);
      && (tx.Commit? <==>
        && FieldsComplete(db.issues[i].fields) && db.issues[i].blockers == {} && r !in db.runs
        && |ActiveRuns(db)| < if maxConcurrent > 0 then maxConcurrent else 3)
      && (tx.Commit? ==> ActiveRun(tx.value, i, r) && tx.value.runs[r].source == Rework)
  {
    StepAt(log, m);
    ReviewEffect(Replay(log[..m]), i, false, reason);
    LegalPrefix(log, m + 1);
    ClaimSucceedsExactlyWhen(log[..m + 1], i, r, maxConcurrent);
    hide Replay, Inv, LegalLog, Review, FieldsComplete, MaxOf, AttemptsOf;
    assert ActiveRuns(Replay(log[..m + 1])) == ActiveRuns(Replay(log[..m]));
  }

  // ---- Pauses.

  ghost predicate Parked(db: Db, i: IssueId) {
    i in db.issues && db.issues[i].paused
  }

  // The operations that can end a pause.
  predicate Unpausing(op: Op, i: IssueId) {
    (op.OpSetPaused? && op.i == i && !op.paused) || Reopening(op, i) || (op.OpReview? && op.i == i)
  }

  lemma SetPausedEffect(db: Db, i: IssueId, reason: string, paused: bool)
    requires SetPaused(db, i, reason, paused).Commit?
    ensures var db' := SetPaused(db, i, reason, paused).value;
      && i in db.issues && db' == db.(issues := db'.issues) && i in db'.issues
      && db'.issues[i] == db.issues[i].(paused := paused)
  {
    hide Blank, HasActiveRun;
  }

  // A paused issue is not claimed before its dispatch is resumed, or it is reopened or reviewed.
  lemma PausedUntilReleased(log: seq<Op>, m: nat, n: nat, i: IssueId, reason: string)
    requires LegalLog(log) && m < n < |log|
    requires Committed(log, m, OpSetPaused(i, reason, true))
    requires Claims(Replay(log[..n]), log[n], i)
    ensures exists k :: m < k < n && Unpausing(log[k], i)
  {
    StepAt(log, m);
    SetPausedEffect(Replay(log[..m]), i, reason, true);
    assert Parked(Replay(log[..m + 1]), i);
    hide Replay, Exec, Claims, LegalLog;
    if forall k :: m < k < n ==> !Unpausing(log[k], i) {
      PauseStays(log, m + 1, n, i);
      NotClaimed(Replay(log[..n]), log[n], i);
    }
  }

  lemma PauseStays(log: seq<Op>, m: nat, n: nat, i: IssueId)
    requires LegalLog(log) && m <= n <= |log| && Parked(Replay(log[..m]), i)
    requires forall k :: m <= k < n ==> !Unpausing(log[k], i)
    ensures Parked(Replay(log[..n]), i)
  {
    hide Replay, LegalLog;
    var p: Db -> bool := db => Parked(db, i);
    forall k | m <= k < n && p(Replay(log[..k])) ensures p(Replay(log[..k + 1])) {
      RowStep(log, k, i);
    }
    StaysOver(log, m, n, p);
  }

  // A resumed issue can be claimed at once when it is in a dispatch state, complete, unblocked and within
  // the limit.
  lemma ResumedCanBeClaimed(log: seq<Op>, m: nat, i: IssueId, reason: string, r: RunId, maxConcurrent: int)
    requires LegalLog(log) && Committed(log, m, OpSetPaused(i, reason, false))
    ensures var db := Replay(log[..m]);
      Claim(Replay(log[..m + 1]), i, r, maxConcurrent).Commit? <==>
        && (StateIs(db, i, Ready) || StateIs(db, i, Rework))
        && FieldsComplete(db.issues[i].fields) && db.issues[i].blockers == {} && r !in db.runs
        && |ActiveRuns(db)| < if maxConcurrent > 0 then maxConcurrent else 3
  {
    StepAt(log, m);
    SetPausedEffect(Replay(log[..m]), i, reason, false);
    LegalPrefix(log, m + 1);
    ClaimSucceedsExactlyWhen(log[..m + 1], i, r, maxConcurrent);
    hide Replay, Inv, LegalLog, SetPaused, FieldsComplete, Claim;
    assert ActiveRuns(Replay(log[..m + 1])) == ActiveRuns(Replay(log[..m]));
  }

  // ---- Runs that end.

  // The operation ends run r and leaves this in its row.
  ghost predicate EndsAs(db: Db, op: Op, r: RunId, run: Run) {
    match op
    case OpFail(q, code, status, now) => q == r && run.status == status && run.code == Some(code)
        && run.endedAt == Some(now)
    case OpCancel(q, now) =>
      q == r && run.status == RunCancelled && run.code == Some(OperatorCancelled) && run.endedAt == Some(now)
    case OpReconcile(q, now) =>
      q == r && run.status == Failed && run.code == Some(DaemonRestartedInterrupted) && run.endedAt == Some(now)
    case OpDecide(a, d, now) =>
      && d.CancelRun? && a in db.approvals && db.approvals[a].run == r
      && run.status == RunCancelled && run.code == Some(OperatorCancelled) && run.endedAt == Some(now)
    case _ => false
  }

  // The operations that end run r and send its issue back.
  ghost predicate SendsBack(db: Db, op: Op, r: RunId) {
    || ((op.OpFail? || op.OpCancel? || op.OpReconcile?) && op.r == r)
    || (op.OpDecide? && op.d.CancelRun? && op.a in db.approvals && db.approvals[op.a].run == r)
  }

  lemma FailEffect(db: Db, r: RunId, code: FailureCode, status: RunStatus, now: Time)
    requires Inv(db) && Fail(db, r, code, status, now).Commit?
    ensures var db', i := Fail(db, r, code, status, now).value, db.runs[r].issue;
      && r in db'.runs && db'.runs[r] == db.runs[r].(status := status, code := Some(code), endedAt := Some(now))
      && i in db'.issues && db'.issues[i].state == db.runs[r].source && db'.issues[i].paused
  {
    EndedRunRestoresSource(db, r);
    hide Inv;
  }

  lemma SendingBackEffect(db: Db, op: Op, r: RunId)
    requires Inv(db) && r in db.runs && SendsBack(db, op, r) && Exec(db, op).Commit?
    ensures var db', i := After(db, op), db.runs[r].issue;
      && r in db'.runs && EndsAs(db, op, r, db'.runs[r])
      && i in db'.issues && db'.issues[i].state == db.runs[r].source && db'.issues[i].paused
  {
    hide Inv, Fail, RevokeTokens, CancelPendingApprovals;
    match op
    case OpFail(_, code, status, now) => FailEffect(db, r, code, status, now);
    case OpCancel(_, now) => FailEffect(db, r, OperatorCancelled, RunCancelled, now);
    case OpReconcile(_, now) => FailEffect(db, r, DaemonRestartedInterrupted, Failed, now);
    case OpDecide(_, _, now) => FailEffect(db, r, OperatorCancelled, RunCancelled, now);
  }

  lemma ClaimEffect(db: Db, i: IssueId, r: RunId, maxConcurrent: int)
    requires Claim(db, i, r, maxConcurrent).Commit?
    ensures var db' := Claim(db, i, r, maxConcurrent).value;
      && i in db.issues && r !in db.runs && i in db'.issues && r in db'.runs
      && db'.runs[r].issue == i && db'.runs[r].source == db.issues[i].state && db'.runs[r].status.Pending?
      && db'.issues[i] == db.issues[i].(state := Working, latestRun := Some(r))
  {
    hide FieldsComplete, ActiveRuns, HasActiveRun, MaxOf, AttemptsOf;
  }

  // Whatever happens in between, a run that is failed, cancelled or interrupted puts its issue back
  // where the claim found it, paused, and records why and when it ended.
  lemma ClaimIsUndone(log: seq<Op>, m: nat, n: nat, i: IssueId, r: RunId, maxConcurrent: int)
    requires LegalLog(log) && m < n && Committed(log, m, OpClaim(i, r, maxConcurrent))
    requires n < |log| && Committed(log, n, log[n]) && SendsBack(Replay(log[..n]), log[n], r)
    ensures var db, db' := Replay(log[..m]), Replay(log[..n + 1]);
      && i in db.issues && StateIs(db', i, db.issues[i].state) && db'.issues[i].paused
      && r in db'.runs && EndsAs(Replay(log[..n]), log[n], r, db'.runs[r])
  {
    StepAt(log, m);
    StepAt(log, n);
    LogEvolves(log, m + 1, n);
    hide Replay, LegalLog, Inv, Legal, Claim, SendsBack, EndsAs;
    ClaimEffect(Replay(log[..m]), i, r, maxConcurrent);
    SendingBackEffect(Replay(log[..n]), log[n], r);
  }

  lemma BlockEffect(db: Db, r: RunId, reason: string, now: Time)
    requires BlockByAgent(db, r, reason, now).Commit?
    ensures var db' := BlockByAgent(db, r, reason, now).value;
      && r in db.runs && r in db'.runs && StateIs(db', db.runs[r].issue, Blocked) && db'.issues[db.runs[r].issue].paused
      && db'.runs[r] == db.runs[r].(status := RunCancelled, code := Some(AgentBlocked), endedAt := Some(now))
  {
    hide Blank;
  }

  // An issue that its agent blocked is not claimed before an operator moves it to Ready.
  lemma BlockedUntilReady(log: seq<Op>, m: nat, n: nat, i: IssueId, r: RunId, reason: string, now: Time)
    requires LegalLog(log) && m < n < |log| && Committed(log, m, OpBlock(r, reason, now))
    requires r in Replay(log[..m]).runs && Replay(log[..m]).runs[r].issue == i
    ensures var db' := Replay(log[..m + 1]);
      && StateIs(db', i, Blocked) && db'.issues[i].paused && r in db'.runs
      && db'.runs[r].status == RunCancelled && db'.runs[r].code == Some(AgentBlocked)
          && db'.runs[r].endedAt == Some(now)
    ensures Claims(Replay(log[..n]), log[n], i) ==>
      exists k :: m < k < n && log[k].OpTransition? && log[k].i == i && log[k].target.Ready?
  {
    StepAt(log, m);
    BlockEffect(Replay(log[..m]), r, reason, now);
    hide Replay, Exec, Claims, LegalLog, BlockByAgent, Inv;
    if forall k :: m < k < n ==> !(log[k].OpTransition? && log[k].i == i && log[k].target.Ready?) {
      BlockStays(log, m + 1, n, i);
      NotClaimed(Replay(log[..n]), log[n], i);
    }
  }

  lemma BlockStays(log: seq<Op>, m: nat, n: nat, i: IssueId)
    requires LegalLog(log) && m <= n <= |log| && StateIs(Replay(log[..m]), i, Blocked)
    requires forall k :: m <= k < n ==> !(log[k].OpTransition? && log[k].i == i && log[k].target.Ready?)
    ensures StateIs(Replay(log[..n]), i, Blocked)
  {
    hide Replay, LegalLog;
    var p: Db -> bool := db => StateIs(db, i, Blocked);
    forall k | m <= k < n && p(Replay(log[..k])) ensures p(Replay(log[..k + 1])) {
      RowStep(log, k, i);
    }
    StaysOver(log, m, n, p);
  }

  // ---- Relations.

  lemma BlockerEffect(db: Db, i: IssueId, b: IssueId)
    ensures EditIssue(db, i, AddBlocker(b)).Commit? ==>
      i in db.issues && EditIssue(db, i, AddBlocker(b)).value
        == db.(issues := db.issues[i := db.issues[i].(blockers := db.issues[i].blockers + {b})])
    ensures EditIssue(db, i, RemoveBlocker(b)).Commit? ==>
      i in db.issues && EditIssue(db, i, RemoveBlocker(b)).value
        == db.(issues := db.issues[i := db.issues[i].(blockers := db.issues[i].blockers - {b})])
  {
  }

  ghost predicate BlockedBy(db: Db, i: IssueId, b: IssueId) {
    i in db.issues && b in db.issues[i].blockers
  }

  // A blocked issue is not claimed before that blocker is removed.
  lemma BlockedUntilUnblocked(log: seq<Op>, m: nat, n: nat, i: IssueId, b: IssueId)
    requires LegalLog(log) && m < n < |log| && Committed(log, m, OpEditIssue(i, AddBlocker(b)))
    requires Claims(Replay(log[..n]), log[n], i)
    ensures exists k :: m < k < n && log[k] == OpEditIssue(i, RemoveBlocker(b))
  {
    StepAt(log, m);
    BlockerEffect(Replay(log[..m]), i, b);
    assert BlockedBy(Replay(log[..m + 1]), i, b);
    hide Replay, Exec, Claims, LegalLog, Inv, EditIssue;
    if forall k :: m < k < n ==> log[k] != OpEditIssue(i, RemoveBlocker(b)) {
      BlockerStays(log, m + 1, n, i, b);
      NotClaimed(Replay(log[..n]), log[n], i);
    }
  }

  lemma BlockerStays(log: seq<Op>, m: nat, n: nat, i: IssueId, b: IssueId)
    requires LegalLog(log) && m <= n <= |log| && BlockedBy(Replay(log[..m]), i, b)
    requires forall k :: m <= k < n ==> log[k] != OpEditIssue(i, RemoveBlocker(b))
    ensures BlockedBy(Replay(log[..n]), i, b)
  {
    hide Replay, LegalLog;
    var p: Db -> bool := db => BlockedBy(db, i, b);
    forall k | m <= k < n && p(Replay(log[..k])) ensures p(Replay(log[..k + 1])) {
      RowStep(log, k, i);
    }
    StaysOver(log, m, n, p);
  }

  // Removing the last blocker lets the issue be claimed.
  lemma UnblockedCanBeClaimed(log: seq<Op>, m: nat, i: IssueId, b: IssueId, r: RunId, maxConcurrent: int)
    requires LegalLog(log) && Committed(log, m, OpEditIssue(i, RemoveBlocker(b)))
    ensures var db := Replay(log[..m]);
      Claim(Replay(log[..m + 1]), i, r, maxConcurrent).Commit? <==>
        && (StateIs(db, i, Ready) || StateIs(db, i, Rework)) && !db.issues[i].paused
        && FieldsComplete(db.issues[i].fields) && db.issues[i].blockers <= {b} && r !in db.runs
        && |ActiveRuns(db)| < if maxConcurrent > 0 then maxConcurrent else 3
  {
    StepAt(log, m);
    BlockerEffect(Replay(log[..m]), i, b);
    LegalPrefix(log, m + 1);
    ClaimSucceedsExactlyWhen(log[..m + 1], i, r, maxConcurrent);
    hide Replay, Inv, LegalLog, EditIssue, FieldsComplete, Claim;
    assert ActiveRuns(Replay(log[..m + 1])) == ActiveRuns(Replay(log[..m]));
  }

  ghost predicate DuplicateOf(db: Db, i: IssueId, c: IssueId) {
    i in db.issues && db.issues[i].duplicateOf == Some(c)
  }

  lemma TransitionEffect(
    db: Db, i: IssueId, target: IssueState, reason: string, duplicateOf: Option<IssueId>, now: Time)
    requires Inv(db) && Transition(db, i, target, reason, duplicateOf, now).Commit?
    ensures var db' := Transition(db, i, target, reason, duplicateOf, now).value;
      && i in db.issues && StateIs(db', i, target)
      && (target.Duplicate? && duplicateOf.Some? ==> DuplicateOf(db', i, duplicateOf.value))
      && db'.issues[i].blockers == db.issues[i].blockers && db'.issues[i].fields == db.issues[i].fields
      && db'.issues[i].paused == var x := db.issues[i];
           if x.state.Done? || x.state.Cancelled? || x.state.Duplicate? then false else x.paused || x.state.Working?
  {
    if Idled(db, i, now).Commit? {
      IdlingKeepsColumns(db, i, now);
    }
    RefusalsGuard(db.issues[i], target);
    NoActiveRunMeansNotWorking(db, i);
    IdlingPauses(db, i, now);
    hide Inv, Cancel, TransitionRefusal, HasActiveRun, Blank;
  }

  lemma IdlingPauses(db: Db, i: IssueId, now: Time)
    requires Inv(db) && i in db.issues
    ensures Idled(db, i, now).Commit? && i in Idled(db, i, now).value.issues
    ensures db.issues[i].state.Working? ==> Idled(db, i, now).value.issues[i].paused
    ensures !db.issues[i].state.Working? ==> Idled(db, i, now).value == db
  {
    NoActiveRunMeansNotWorking(db, i);
    var active := ActiveRunOf(db, i);
    if active.Some? {
      EndingSucceedsOnActive(db, active.value);
      FailEffect(db, active.value, IssueStateChanged, RunCancelled, now);
    }
    hide Inv, Fail, HasActiveRun, RevokeTokens;
  }

  lemma EndingSucceedsOnActive(db: Db, r: RunId)
    requires Inv(db) && r in db.runs && IsActive(db.runs[r].status)
    ensures forall code, status, now :: Fail(db, r, code, status, now).Commit?
  {
    assert RunOk(db, r);
  }

  // A duplicate is linked to one issue only: before it is linked to another the link is removed.
  lemma LinkedUntilUnlinked(log: seq<Op>, m: nat, n: nat, i: IssueId, c: IssueId, d: IssueId, now: Time, now': Time,
      reason: string, reason': string)
    requires LegalLog(log) && m < n && c != d
    requires Committed(log, m, OpTransition(i, Duplicate, reason, Some(c), now))
    requires Committed(log, n, OpTransition(i, Duplicate, reason', Some(d), now'))
    ensures exists k :: m < k < n && log[k] == OpEditIssue(i, RemoveDuplicate(c))
  {
    StepAt(log, m);
    StepAt(log, n);
    TransitionEffect(Replay(log[..m]), i, Duplicate, reason, Some(c), now);
    LegalPrefix(log, n);
    TransitionSucceedsExactlyWhen(log[..n], i, Duplicate, reason', Some(d), now');
    hide Replay, LegalLog, Inv, Transition, Blank, TransitionRefusal;
    if forall k :: m < k < n ==> log[k] != OpEditIssue(i, RemoveDuplicate(c)) {
      LinkStays(log, m + 1, n, i, c);
    }
  }

  lemma LinkStays(log: seq<Op>, m: nat, n: nat, i: IssueId, c: IssueId)
    requires LegalLog(log) && m <= n <= |log| && DuplicateOf(Replay(log[..m]), i, c)
    requires forall k :: m <= k < n ==> log[k] != OpEditIssue(i, RemoveDuplicate(c))
    ensures DuplicateOf(Replay(log[..n]), i, c)
  {
    hide Replay, LegalLog;
    var p: Db -> bool := db => DuplicateOf(db, i, c);
    forall k | m <= k < n && p(Replay(log[..k])) ensures p(Replay(log[..k + 1])) {
      RowStep(log, k, i);
    }
    StaysOver(log, m, n, p);
  }

  // And once it is removed the issue can be linked to any other.
  lemma UnlinkedCanBeLinked(log: seq<Op>, m: nat, i: IssueId, c: IssueId, d: IssueId)
    requires LegalLog(log) && Committed(log, m, OpEditIssue(i, RemoveDuplicate(c)))
    requires DuplicateOf(Replay(log[..m]), i, c) && d in Replay(log[..m]).issues && d != i
    ensures i in Replay(log[..m + 1]).issues && LinkAllowed(Replay(log[..m + 1]), i, Some(d))
  {
    StepAt(log, m);
    hide Replay, LegalLog, Inv;
  }

  // ---- Moves.

  // From where to where an operator can move an issue.
  predicate IsMove(from: IssueState, target: IssueState) {
    match from
    case Inbox => target.Ready? || target.Blocked? || target.Cancelled? || target.Duplicate?
    case Ready => target.Inbox? || target.Blocked? || target.Cancelled? || target.Duplicate?
    case Blocked => target.Ready?
    case Done => target.Inbox? || target.Ready?
    case Cancelled => target.Inbox? || target.Ready?
    case Duplicate => target.Inbox? || target.Ready?
    case _ => target.Inbox? || target.Ready? || target.Blocked? || target.Cancelled? || target.Duplicate?
  }

  lemma RefusalsAreTheseOnly(issue: Issue, target: IssueState)
    requires target.Inbox? || target.Ready? || target.Blocked? || target.Cancelled? || target.Duplicate?
    ensures TransitionRefusal(issue, target).None? <==>
      IsMove(issue.state, target) && (target.Ready? ==> FieldsComplete(issue.fields))
  {
    hide FieldsComplete;
  }

  // A move goes through exactly when it is one of these, has the reason it needs, finds the issue
  // complete if it makes it Ready, and asks for no second duplicate link.
  lemma MovesAreTheseOnly(
    log: seq<Op>, i: IssueId, target: IssueState, reason: string, duplicateOf: Option<IssueId>, now: Time)
    requires LegalLog(log)
    ensures var db := Replay(log);
      Transition(db, i, target, reason, duplicateOf, now).Commit? <==>
        && i in db.issues && IsMove(db.issues[i].state, target)
        && (target.Blocked? || target.Cancelled? || target.Duplicate? ==> !Blank(reason))
        && (target.Ready? ==> FieldsComplete(db.issues[i].fields))
        && (target.Duplicate? ==> LinkAllowed(db, i, duplicateOf))
  {
    TransitionSucceedsExactlyWhen(log, i, target, reason, duplicateOf, now);
    hide LegalLog, Replay, Transition, Blank, FieldsComplete, LinkAllowed, TransitionRefusal;
    var db := Replay(log);
    if i in db.issues && !target.Working? && !target.Rework? && !target.HumanReview? && !target.Done? {
      RefusalsAreTheseOnly(db.issues[i], target);
    }
  }

  // An issue made Ready can be claimed at once when it is unblocked and within the limit, unless it was
  // paused or running before. Reopening a terminal issue ends its pause.
  lemma ReadyCanBeClaimed(
    log: seq<Op>, m: nat, i: IssueId, reason: string, duplicateOf: Option<IssueId>, now: Time, r: RunId,
    maxConcurrent: int)
    requires LegalLog(log) && Committed(log, m, OpTransition(i, Ready, reason, duplicateOf, now))
    ensures var db, db' := Replay(log[..m]), Replay(log[..m + 1]);
      Claim(db', i, r, maxConcurrent).Commit? <==>
        && (StateIs(db, i, Done) || StateIs(db, i, Cancelled) || StateIs(db, i, Duplicate)
            || (!db.issues[i].paused && !StateIs(db, i, Working)))
        && db.issues[i].blockers == {} && r !in db'.runs
        && |ActiveRuns(db')| < if maxConcurrent > 0 then maxConcurrent else 3
  {
    StepAt(log, m);
    TransitionEffect(Replay(log[..m]), i, Ready, reason, duplicateOf, now);
    LegalPrefix(log, m);
    MovesAreTheseOnly(log[..m], i, Ready, reason, duplicateOf, now);
    LegalPrefix(log, m + 1);
    ClaimSucceedsExactlyWhen(log[..m + 1], i, r, maxConcurrent);
    hide Replay, Inv, LegalLog, Transition, FieldsComplete, Claim, ActiveRuns, Blank, LinkAllowed;
  }
}
