// Theorems about every database that a legal log of transactions can reach.
module LifecycleTheorems {
  import opened Domain
  import opened Text
  import opened Transactions
  import opened Invariant

  // The issue a transaction is about.
  ghost function Subject(db: Db, op: Op): Option<IssueId> {
    match op
    case OpCreateIssue(i, _) => Some(i)
    case OpEditIssue(i, _) => Some(i)
    case OpTransition(i, _, _, _, _) => Some(i)
    case OpSetPaused(i, _, _) => Some(i)
    case OpClaim(i, _, _) => Some(i)
    case OpSubmitHandoff(i, _, _, _) => Some(i)
    case OpInsertPacket(i, _, _, _) => Some(i)
    case OpReview(i, _, _) => Some(i)
    case OpRequestApproval(_, _) => None
    case OpAutoDeny(_, _) => None
    case OpTimeout(_) => None
    case OpCancelApproval(_) => None
    case OpDecide(a, _, _) => if a in db.approvals then IssueOf(db, db.approvals[a].run) else None
    case OpAdvance(r, _) => IssueOf(db, r)
    case OpComplete(r, _, _) => IssueOf(db, r)
    case OpFail(r, _, _, _) => IssueOf(db, r)
    case OpBlock(r, _, _) => IssueOf(db, r)
    case OpCancel(r, _) => IssueOf(db, r)
    case OpMintToken(r, _) => IssueOf(db, r)
    case OpReconcile(r, _) => IssueOf(db, r)
  }

  ghost function IssueOf(db: Db, r: RunId): Option<IssueId> {
    if r in db.runs then Some(db.runs[r].issue) else None
  }

  // Issues other than `s`, and their runs, are exactly as they were.
  ghost predicate OnlyTouches(db: Db, db': Db, s: Option<IssueId>) {
    && (forall i {:trigger db'.issues[i]} {:trigger db.issues[i]} :: i in db.issues && Some(i) != s ==>
      i in db'.issues && db'.issues[i] == db.issues[i])
    && (forall r {:trigger db'.runs[r]} {:trigger db.runs[r]} :: r in db.runs ==>
      r in db'.runs && db'.runs[r].issue == db.runs[r].issue
          && (Some(db.runs[r].issue) != s ==> db'.runs[r] == db.runs[r]))
    && (forall r {:trigger db'.runs[r]} :: r in db'.runs && r !in db.runs ==> Some(db'.runs[r].issue) == s)
  }

  // Rows come and go nowhere but in the table a transaction is for.
  ghost predicate SameTables(db: Db, db': Db) {
    && db'.runs.Keys == db.runs.Keys && db'.tokens.Keys == db.tokens.Keys
    && db'.handoffs == db.handoffs && db'.packets == db.packets && db'.approvals == db.approvals
  }

  ghost predicate Frame(db: Db, db': Db, op: Op) {
    && (op.OpClaim? || db'.runs.Keys == db.runs.Keys)
    && (op.OpMintToken? || db'.tokens.Keys == db.tokens.Keys)
    && (op.OpSubmitHandoff? || db'.handoffs == db.handoffs)
    && (op.OpInsertPacket? || db'.packets == db.packets)
    && (op.OpRequestApproval? || op.OpAutoDeny? || op.OpDecide? || op.OpTimeout? || op.OpCancelApproval?
        || op.OpReconcile?
        || db'.approvals == db.approvals)
  }

  lemma EndRunTouches(db: Db, r: RunId, code: FailureCode, status: RunStatus, now: Time, target: IssueState)
    requires RunExists(db, r)
    ensures var db' := EndRun(db, r, code, status, now, target);
      OnlyTouches(db, db', IssueOf(db, r)) && SameTables(db, db')
  {
  }

  lemma EndingTouches(db: Db, op: Op)
    requires op.OpFail? || op.OpBlock? || op.OpCancel? || op.OpReconcile?
    ensures OnlyTouches(db, After(db, op), Subject(db, op)) && Frame(db, After(db, op), op)
  {
    hide CreateIssue, EditIssue, SetPaused, Transition, Claim, Advance, Complete, MintToken, SubmitHandoff,
      InsertPacket,
      Review, InsertApproval, Decide, Resolve, Blank, EndRun, RestoredState;
    forall code, status, now, target | RunExists(db, op.r)
      ensures var db' := EndRun(db, op.r, code, status, now, target);
        OnlyTouches(db, db', IssueOf(db, op.r)) && SameTables(db, db')
    {
      EndRunTouches(db, op.r, code, status, now, target);
    }
  }

  lemma WritingTouches(db: Db, op: Op)
    requires op.OpCreateIssue? || op.OpEditIssue? || op.OpSetPaused? || op.OpReview?
    ensures OnlyTouches(db, After(db, op), Subject(db, op)) && Frame(db, After(db, op), op)
  {
    hide Transition, Claim, Advance, Complete, Fail, BlockByAgent, Cancel, MintToken, SubmitHandoff, InsertPacket,
      InsertApproval, Decide, Resolve, ReconcileRun, Blank, IsNewestPacket;
  }

  lemma InsertingTouches(db: Db, op: Op)
    requires op.OpMintToken? || op.OpSubmitHandoff? || op.OpInsertPacket? || op.OpRequestApproval? || op.OpAutoDeny?
          || op.OpTimeout? || op.OpCancelApproval?
    ensures OnlyTouches(db, After(db, op), Subject(db, op)) && Frame(db, After(db, op), op)
  {
    hide CreateIssue, EditIssue, SetPaused, Transition, Claim, Advance, Complete, Fail, BlockByAgent, Cancel, Review,
      Decide, ReconcileRun, MaxOf, PacketExists, HandoffIdTaken;
  }

  lemma RunningTouches(db: Db, op: Op)
    requires op.OpClaim? || op.OpAdvance? || op.OpComplete?
    ensures OnlyTouches(db, After(db, op), Subject(db, op)) && Frame(db, After(db, op), op)
  {
    hide CreateIssue, EditIssue, SetPaused, Transition, Fail, BlockByAgent, Cancel, MintToken, SubmitHandoff,
      InsertPacket,
      Review, InsertApproval, Decide, Resolve, ReconcileRun, MaxOf, AttemptsOf, ActiveRuns, HasActiveRun, PacketExists,
      FieldsComplete, EffectiveLimit;
  }

  lemma CancelTouches(db: Db, r: RunId, code: FailureCode, now: Time)
    ensures var tx := Cancel(db, r, code, now);
      tx.Commit? ==> OnlyTouches(db, tx.value, IssueOf(db, r)) && SameTables(db, tx.value)
  {
    hide EndRun, RestoredState;
    forall status, target | RunExists(db, r)
      ensures var db' := EndRun(db, r, code, status, now, target);
        OnlyTouches(db, db', IssueOf(db, r)) && SameTables(db, db')
    {
      EndRunTouches(db, r, code, status, now, target);
    }
  }

  lemma TransitionTouches(db: Db, i: IssueId, target: IssueState, reason: string, duplicateOf: Option<IssueId>,
      now: Time)
    ensures var tx := Transition(db, i, target, reason, duplicateOf, now);
      tx.Commit? ==> OnlyTouches(db, tx.value, Some(i)) && SameTables(db, tx.value)
  {
    hide Cancel, Blank, TransitionRefusal, Reopens;
    if Transition(db, i, target, reason, duplicateOf, now).Commit? && ActiveRunOf(db, i).Some? {
      CancelTouches(db, ActiveRunOf(db, i).value, IssueStateChanged, now);
    }
  }

  lemma DecideTouches(db: Db, a: ApprovalId, d: Decision, now: Time)
    requires a in db.approvals
    ensures var tx := Decide(db, a, d, now);
      tx.Commit? ==>
        OnlyTouches(db, tx.value, IssueOf(db, db.approvals[a].run)) && Frame(db, tx.value, OpDecide(a, d, now))
  {
    hide Cancel;
    CancelTouches(db, db.approvals[a].run, OperatorCancelled, now);
  }

  lemma EveryStepTouchesOneIssue(db: Db, op: Op)
    ensures OnlyTouches(db, After(db, op), Subject(db, op)) && Frame(db, After(db, op), op)
  {
    if op.OpTransition? {
      hide Transition;
      TransitionTouches(db, op.i, op.target, op.reason, op.duplicateOf, op.now);
    } else if op.OpDecide? {
      hide Decide;
      if op.a in db.approvals {
        DecideTouches(db, op.a, op.d, op.now);
      }
      assert op.a !in db.approvals ==> Decide(db, op.a, op.d, op.now).Abort?;
    } else {
      hide OnlyTouches, Frame, After, Subject;
      if op.OpFail? || op.OpBlock? || op.OpCancel? || op.OpReconcile? {
        EndingTouches(db, op);
      } else if op.OpClaim? || op.OpAdvance? || op.OpComplete? {
        RunningTouches(db, op);
      } else if op.OpCreateIssue? || op.OpEditIssue? || op.OpSetPaused? || op.OpReview? {
        WritingTouches(db, op);
      } else {
        InsertingTouches(db, op);
      }
    }
  }

  // ---- No automatic retry.

  // The operator resumes dispatch of the issue, or reopens it from a terminal state.
  ghost predicate Releases(db: Db, op: Op, i: IssueId) {
    && Exec(db, op).Commit?
    && ((op.OpSetPaused? && op.i == i && !op.paused)
        || (op.OpTransition? && op.i == i && Reopens(db.issues[i].state, op.target)))
  }

  ghost predicate Claims(db: Db, op: Op, i: IssueId) {
    op.OpClaim? && op.i == i && Exec(db, op).Commit?
  }

  // A run of the issue ends as failed, cancelled or without handoff.
  ghost predicate EndsBadly(db: Db, op: Op, i: IssueId) {
    exists r :: ActiveRun(db, i, r) && r in After(db, op).runs && BadEnd(After(db, op).runs[r].status)
  }

  ghost predicate BadEnd(s: RunStatus) {
    s.Failed? || s.RunCancelled? || s.CompletedWithoutHandoff?
  }

  // Nothing runs for the issue and nothing can be dispatched for it.
  ghost predicate Held(db: Db, i: IssueId) {
    && i in db.issues && db.issues[i].paused && !db.issues[i].state.HumanReview? && !HasActiveRun(db, i)
  }

  lemma TouchingOtherIssuesKeepsHeld(db: Db, db': Db, s: Option<IssueId>, i: IssueId)
    requires Held(db, i) && OnlyTouches(db, db', s) && s != Some(i)
    ensures Held(db', i)
  {
    forall r ensures !ActiveRun(db', i, r) {
      assert r in db.runs ==> !ActiveRun(db, i, r);
    }
  }

  lemma SameRunsKeepHeld(db: Db, db': Db, i: IssueId)
    requires Held(db, i) && db'.runs == db.runs && i in db'.issues
    requires db'.issues[i].paused && !db'.issues[i].state.HumanReview?
    ensures Held(db', i)
  {
    assert forall r :: ActiveRun(db', i, r) ==> ActiveRun(db, i, r);
  }

  lemma HeldRunOpsAbort(db: Db, op: Op, i: IssueId)
    requires Held(db, i) && Subject(db, op) == Some(i)
    requires op.OpFail? || op.OpBlock? || op.OpCancel? || op.OpReconcile? || op.OpAdvance? || op.OpComplete?
        || op.OpDecide?
    ensures After(db, op) == db
  {
    hide EndRun, WithReview, WithRun, RevokeTokens, CancelPendingApprovals, Resolve, Blank;
    var r := if op.OpDecide? then db.approvals[op.a].run else op.r;
    assert !ActiveRun(db, i, r);
  }

  lemma HeldIssueOpsKeep(db: Db, op: Op, i: IssueId)
    requires Held(db, i) && Subject(db, op) == Some(i) && !Releases(db, op, i)
    requires op.OpCreateIssue? || op.OpEditIssue? || op.OpSetPaused? || op.OpReview? || op.OpClaim? || op.OpTransition?
    ensures Held(After(db, op), i)
  {
    hide Cancel, Claimed, Blank, IsNewestPacket, ActiveRuns, TransitionRefusal;
    SameRunsKeepHeld(db, After(db, op), i);
  }

  lemma HeldInsertsKeep(db: Db, op: Op, i: IssueId)
    requires Held(db, i) && Subject(db, op) == Some(i)
    requires op.OpMintToken? || op.OpSubmitHandoff? || op.OpInsertPacket?
    ensures Held(After(db, op), i)
  {
    hide MaxOf, PacketExists, HandoffIdTaken;
    SameRunsKeepHeld(db, After(db, op), i);
  }

  lemma HeldStep(db: Db, op: Op, i: IssueId)
    requires Held(db, i) && !Releases(db, op, i)
    ensures Held(After(db, op), i) && !Claims(db, op, i)
  {
    assert !Claims(db, op, i) by {
      hide Claimed, ActiveRuns;
    }
    hide Held, After, Releases, Exec;
    if Subject(db, op) != Some(i) {
      EveryStepTouchesOneIssue(db, op);
      TouchingOtherIssuesKeepsHeld(db, After(db, op), Subject(db, op), i);
    } else if op.OpFail? || op.OpBlock? || op.OpCancel? || op.OpReconcile? || op.OpAdvance? || op.OpComplete?
        || op.OpDecide? {
      HeldRunOpsAbort(db, op, i);
    } else if op.OpMintToken? || op.OpSubmitHandoff? || op.OpInsertPacket? {
      HeldInsertsKeep(db, op, i);
    } else {
      HeldIssueOpsKeep(db, op, i);
    }
  }

  // Only the transactions that end a run can end one badly, and they hold its issue.
  lemma EndedRunLeavesNone(db: Db, r: RunId, code: FailureCode, status: RunStatus, now: Time, target: IssueState)
    requires Inv(db) && RunExists(db, r) && IsActive(db.runs[r].status) && !IsActive(status)
    ensures !HasActiveRun(EndRun(db, r, code, status, now, target), db.runs[r].issue)
  {
    var i, db' := db.runs[r].issue, EndRun(db, r, code, status, now, target);
    forall q ensures !ActiveRun(db', i, q) {
      if ActiveRun(db, i, q) {
        OnlyOneActiveRun(db, i, r, q);
      }
      hide Inv;
    }
  }

  lemma EndRunHolds(db: Db, r: RunId, code: FailureCode, status: RunStatus, now: Time)
    requires Inv(db) && RunExists(db, r) && IsActive(db.runs[r].status) && !IsActive(status)
    ensures Fail(db, r, code, status, now).Commit?
    ensures Held(Fail(db, r, code, status, now).value, db.runs[r].issue)
  {
    EndedRunRestoresSource(db, r);
    EndedRunLeavesNone(db, r, code, status, now, db.runs[r].source);
    hide Inv, HasActiveRun;
  }

  lemma BlockHolds(db: Db, r: RunId, reason: string, now: Time)
    requires Inv(db) && BlockByAgent(db, r, reason, now).Commit?
    ensures Held(BlockByAgent(db, r, reason, now).value, db.runs[r].issue)
  {
    hide PacketsInv, AttemptsDistinct, ReferencesInv, Blank;
    assert RunOk(db, r);
    var db' := BlockByAgent(db, r, reason, now).value;
    forall q ensures !ActiveRun(db', db.runs[r].issue, q) {
      assert ActiveRun(db', db.runs[r].issue, q) ==> RunOk(db, q);
    }
  }

  lemma CancelHolds(db: Db, r: RunId, code: FailureCode, now: Time)
    requires Inv(db) && Cancel(db, r, code, now).Commit?
    ensures Held(Cancel(db, r, code, now).value, db.runs[r].issue)
  {
    EndRunHolds(db, r, code, RunCancelled, now);
    hide Inv, Fail;
    var db1 := Fail(db, r, code, RunCancelled, now).value;
    SameRunsKeepHeld(db1, Cancel(db, r, code, now).value, db.runs[r].issue);
  }

  lemma BadEndHolds(db: Db, op: Op, i: IssueId)
    requires Inv(db) && Legal(db, op) && EndsBadly(db, op, i)
    ensures Held(After(db, op), i)
  {
    var r :| ActiveRun(db, i, r) && r in After(db, op).runs && BadEnd(After(db, op).runs[r].status);
    EveryStepTouchesOneIssue(db, op);
    assert Subject(db, op) == Some(i);
    if op.OpFail? || op.OpBlock? || op.OpCancel? || op.OpReconcile? {
      RunOpHolds(db, op, i, r);
    } else if op.OpDecide? {
      DecideHolds(db, op.a, op.d, op.now, i, r);
    } else if op.OpTransition? {
      TransitionHolds(db, op.i, op.target, op.reason, op.duplicateOf, op.now);
    } else {
      OtherOpsEndNothingBadly(db, op, r);
    }
  }

  lemma OnlyOneActiveRun(db: Db, i: IssueId, r: RunId, q: RunId)
    requires Inv(db) && ActiveRun(db, i, r) && ActiveRun(db, i, q)
    ensures r == q
  {
    assert RunOk(db, r) && RunOk(db, q);
  }

  lemma RunOpHolds(db: Db, op: Op, i: IssueId, r: RunId)
    requires Inv(db) && ActiveRun(db, i, r) && Subject(db, op) == Some(i)
    requires op.OpFail? || op.OpBlock? || op.OpCancel? || op.OpReconcile?
    requires Legal(db, op) && r in After(db, op).runs && BadEnd(After(db, op).runs[r].status)
    ensures Held(After(db, op), i)
  {
    hide Inv, Held, EndRun, Blank, RevokeTokens, CancelPendingApprovals;
    if op.OpFail? {
      if Exec(db, op).Commit? {
        EndRunHolds(db, op.r, op.code, op.status, op.now);
      }
    } else if op.OpBlock? {
      if Exec(db, op).Commit? {
        BlockHolds(db, op.r, op.reason, op.now);
      }
    } else if op.OpCancel? {
      if Exec(db, op).Commit? {
        CancelHolds(db, op.r, OperatorCancelled, op.now);
      }
    } else if Exec(db, op).Commit? {
      EndRunHolds(db, op.r, DaemonRestartedInterrupted, Failed, op.now);
      SameRunsHold(Fail(db, op.r, DaemonRestartedInterrupted, Failed, op.now).value, After(db, op), i);
    }
  }

  lemma SameRunsHold(db: Db, db': Db, i: IssueId)
    requires Held(db, i) && db'.runs == db.runs && db'.issues == db.issues
    ensures Held(db', i)
  {
    SameRunsKeepHeld(db, db', i);
  }

  lemma DecideHolds(db: Db, a: ApprovalId, d: Decision, now: Time, i: IssueId, r: RunId)
    requires Inv(db) && ActiveRun(db, i, r) && Subject(db, OpDecide(a, d, now)) == Some(i)
    requires var db' := After(db, OpDecide(a, d, now)); r in db'.runs && BadEnd(db'.runs[r].status)
    ensures Held(After(db, OpDecide(a, d, now)), i)
  {
    hide Inv, Held, Cancel;
    if Decide(db, a, d, now).Commit? && d.CancelRun? {
      var q := db.approvals[a].run;
      CancelHolds(db, q, OperatorCancelled, now);
      SameRunsHold(Cancel(db, q, OperatorCancelled, now).value, After(db, OpDecide(a, d, now)), i);
    }
  }

  lemma TransitionHolds(db: Db, i: IssueId, target: IssueState, reason: string, duplicateOf: Option<IssueId>, now: Time)
    requires Inv(db) && HasActiveRun(db, i) && Transition(db, i, target, reason, duplicateOf, now).Commit?
    ensures Held(Transition(db, i, target, reason, duplicateOf, now).value, i)
  {
    NoActiveRunMeansNotWorking(db, i);
    var r := ActiveRunOf(db, i).value;
    hide Inv, Cancel, HasActiveRun, Blank, ActiveRunOf;
    CancelHolds(db, r, IssueStateChanged, now);
    SameRunsKeepHeld(Cancel(db, r, IssueStateChanged, now).value,
        Transition(db, i, target, reason, duplicateOf, now).value, i);
  }

  lemma OtherOpsEndNothingBadly(db: Db, op: Op, r: RunId)
    requires r in db.runs && IsActive(db.runs[r].status)
    requires !(op.OpFail? || op.OpBlock? || op.OpCancel? || op.OpReconcile? || op.OpDecide? || op.OpTransition?)
    ensures r in After(db, op).runs && !BadEnd(After(db, op).runs[r].status)
  {
    hide Fail, BlockByAgent, Cancel, ReconcileRun, Decide, Transition, MaxOf, PacketExists, HandoffIdTaken,
      HasActiveRun,
      ActiveRuns, IsNewestPacket, Blank;
  }

  lemma {:induction false} StaysHeld(log: seq<Op>, m: nat, n: nat, i: IssueId)
    requires m <= n <= |log| && Held(Replay(log[..m]), i)
    requires forall k :: m <= k < n ==> !Releases(Replay(log[..k]), log[k], i)
    ensures Held(Replay(log[..n]), i)
    decreases n
  {
    hide Held, Releases, Replay;
    if m < n {
      StaysHeld(log, m, n - 1, i);
      ReplayPrefix(log, n - 1);
      HeldStep(Replay(log[..n - 1]), log[n - 1], i);
    }
  }

  // Between a run of an issue ending badly and the next claim of that issue, an operator
  // resumed its dispatch or reopened it.
  lemma NoAutomaticRetry(log: seq<Op>, m: nat, n: nat, i: IssueId)
    requires LegalLog(log) && m < n < |log|
    requires EndsBadly(Replay(log[..m]), log[m], i)
    requires Claims(Replay(log[..n]), log[n], i)
    ensures exists k :: m < k < n && Releases(Replay(log[..k]), log[k], i)
  {
    assert LegalAt(log, m);
    hide Releases, Claims, EndsBadly, LegalLog, Held;
    LegalPrefix(log, m);
    LogKeepsInvariant(log[..m]);
    BadEndHolds(Replay(log[..m]), log[m], i);
    ReplayPrefix(log, m);
    if forall k :: m < k < n ==> !Releases(Replay(log[..k]), log[k], i) {
      StaysHeld(log, m + 1, n, i);
      if !Releases(Replay(log[..n]), log[n], i) {
        HeldStep(Replay(log[..n]), log[n], i);
      } else {
        ClaimIsNoRelease(Replay(log[..n]), log[n], i);
      }
    }
  }

  lemma ClaimIsNoRelease(db: Db, op: Op, i: IssueId)
    requires Claims(db, op, i)
    ensures !Releases(db, op, i)
  {
  }

  // ---- Working, active runs and the concurrency limit.

  // In every reachable database an issue is Working exactly when it has exactly one active run,
  // no other issue has any, and an issue that runs is not paused.
  lemma WorkingMeansOneActiveRun(log: seq<Op>, i: IssueId)
    requires LegalLog(log) && i in Replay(log).issues
    ensures var db := Replay(log);
      var active := set r | r in db.runs && ActiveRun(db, i, r);
      && |active| == (if db.issues[i].state.Working? then 1 else 0)
      && (active != {} ==> !db.issues[i].paused)
    ensures forall r :: r in Replay(log).runs ==> IsDispatchState(Replay(log).runs[r].source)
  {
    hide LegalLog, Replay;
    LogKeepsInvariant(log);
    var db := Replay(log);
    forall r | r in db.runs
      ensures IsDispatchState(db.runs[r].source) && (ActiveRun(db, i, r) ==> !db.issues[i].paused)
    {
      assert RunOk(db, r);
    }
    NoActiveRunMeansNotWorking(db, i);
    var active := set r | r in db.runs && ActiveRun(db, i, r);
    if db.issues[i].state.Working? {
      var r :| ActiveRun(db, i, r);
      forall q | q in active ensures q == r {
        OnlyOneActiveRun(db, i, r, q);
      }
      assert active == {r};
    }
  }

  lemma ClaimAddsOne(db: Db, op: Op)
    requires op.OpClaim?
    ensures Claims(db, op, op.i) ==>
              && ActiveRuns(After(db, op)) == ActiveRuns(db) + {op.r}
              && |ActiveRuns(db)| < EffectiveLimit(op.maxConcurrent)
    ensures !Claims(db, op, op.i) ==> After(db, op) == db
  {
    hide MaxOf, AttemptsOf, FieldsComplete, EffectiveLimit;
  }

  lemma StepKeepsLimit(db: Db, op: Op, limit: nat)
    requires Inv(db) && Legal(db, op) && |ActiveRuns(db)| <= limit
    requires op.OpClaim? ==> EffectiveLimit(op.maxConcurrent) == limit
    ensures |ActiveRuns(After(db, op))| <= limit
  {
    var db' := After(db, op);
    StepKeeps(db, op);
    EveryStepTouchesOneIssue(db, op);
    hide Inv, Legal, OnlyTouches, OnlyEndsRuns, MaxOf;
    if op.OpClaim? {
      hide After, Claims, EffectiveLimit, ActiveRuns;
      ClaimAddsOne(db, op);
    } else {
      assert ActiveRuns(db') <= ActiveRuns(db) by {
        hide After, Claims;
      }
      SubsetIsNoLarger(ActiveRuns(db'), ActiveRuns(db));
    }
  }

  lemma {:induction false} SubsetIsNoLarger(a: set<RunId>, b: set<RunId>)
    requires a <= b
    ensures |a| <= |b|
  {
    assert |b| == |a| + |b - a| by {
      assert b == a + (b - a);
    }
  }

  // With one fixed limit, the active runs never exceed it.
  lemma {:induction false} ActiveRunsStayWithinLimit(log: seq<Op>, limit: nat)
    requires LegalLog(log)
    requires forall k :: 0 <= k < |log| && log[k].OpClaim? ==> EffectiveLimit(log[k].maxConcurrent) == limit
    ensures |ActiveRuns(Replay(log))| <= limit
  {
    if log == [] {
      assert ActiveRuns(EMPTY_DB) == {};
    } else {
      var k := |log| - 1;
      hide Legal, After, Inv, ActiveRuns;
      LegalPrefix(log, k);
      LogKeepsInvariant(log[..k]);
      ActiveRunsStayWithinLimit(log[..k], limit);
      assert LegalAt(log, k);
      StepKeepsLimit(Replay(log[..k]), log[k], limit);
    }
  }

  // ---- Guards that never fire.

  lemma IdleIssuesMeetNoActiveRun(db: Db, op: Op)
    requires Inv(db) && (op.OpClaim? || op.OpReview?)
    ensures Exec(db, op) != Abort(AlreadyRunning)
  {
    hide Inv, Blank, FieldsComplete, Claimed, ActiveRuns, IsNewestPacket, EffectiveLimit;
    if op.i in db.issues {
      NoActiveRunMeansNotWorking(db, op.i);
    }
  }

  lemma CompletionStartsFromWorking(db: Db, r: RunId, p: PacketId, now: Time)
    requires Inv(db) && Complete(db, r, p, now).Commit?
    ensures RunExists(db, r) && db.issues[db.runs[r].issue].state.Working?
  {
    EndedRunRestoresSource(db, r);
  }

  lemma DeadGuards(log: seq<Op>, op: Op)
    requires LegalLog(log)
    ensures op.OpClaim? ==> Exec(Replay(log), op) != Abort(AlreadyRunning)
    ensures op.OpReview? ==> Exec(Replay(log), op) != Abort(AlreadyRunning)
    ensures op.OpComplete? && Exec(Replay(log), op).Commit? ==>
        Replay(log).issues[Replay(log).runs[op.r].issue].state.Working?
    ensures forall r :: RunExists(Replay(log), r) && IsActive(Replay(log).runs[r].status) ==>
      RestoredState(Replay(log).issues[Replay(log).runs[r].issue].state, Replay(log).runs[r].source)
          == Replay(log).runs[r].source
  {
    LogKeepsInvariant(log);
    hide LegalLog, Replay, Inv, Claim, Review, Complete;
    var db := Replay(log);
    if op.OpClaim? || op.OpReview? {
      IdleIssuesMeetNoActiveRun(db, op);
    } else if op.OpComplete? && Exec(db, op).Commit? {
      CompletionStartsFromWorking(db, op.r, op.p, op.now);
    }
    forall r | RunExists(db, r) && IsActive(db.runs[r].status)
      ensures RestoredState(db.issues[db.runs[r].issue].state, db.runs[r].source) == db.runs[r].source
    {
      EndedRunRestoresSource(db, r);
    }
  }

  // ---- Review and provenance.

  lemma NewestPacketIsUnique(db: Db, i: IssueId, r: RunId, q: RunId)
    requires PacketsDistinct(db) && IsNewestPacket(db, i, r) && IsNewestPacket(db, i, q)
    ensures r == q
  {
    assert r != q ==> PacketsDiffer(db, r, q);
  }

  // In Human Review the operator can mark done or send to rework exactly when the issue's
  // newest packet came from a run that completed. (A stale worker may have added a newer one.)
  lemma ReviewSucceedsExactlyWhen(log: seq<Op>, i: IssueId, accept: bool, reason: string)
    requires LegalLog(log)
    ensures Review(Replay(log), i, accept, reason).Commit? <==>
      && !Blank(reason) && i in Replay(log).issues && Replay(log).issues[i].state.HumanReview?
      && exists r :: IsNewestPacket(Replay(log), i, r) && r in Replay(log).runs && Replay(log).runs[r].status.Completed?
  {
    LogKeepsInvariant(log);
    hide LegalLog, Replay, Blank;
    var db := Replay(log);
    if i in db.issues {
      NoActiveRunMeansNotWorking(db, i);
      assert LatestPacketOk(db, i);
    }
    forall r, q | IsNewestPacket(db, i, r) && IsNewestPacket(db, i, q) ensures r == q {
      NewestPacketIsUnique(db, i, r, q);
    }
    forall r | r in db.packets ensures db.packets[r].status.Generated? && RunExists(db, r) {
      assert PacketOk(db, r);
      assert RunOk(db, r);
    }
  }

  // An issue under or past review, or running again from Rework, was carried there by a run
  // that completed with its own generated packet and handoff.
  lemma ReviewHasProvenance(log: seq<Op>, i: IssueId)
    requires LegalLog(log) && i in Replay(log).issues
    ensures var issue := Replay(log).issues[i];
      issue.state.HumanReview? || issue.state.Rework? || issue.state.Done? ==> Reviewed(Replay(log), i)
    ensures forall r :: ActiveRun(Replay(log), i, r) && Replay(log).runs[r].source.Rework? ==> Reviewed(Replay(log), i)
  {
    LogKeepsInvariant(log);
    hide LegalLog, Replay;
    var db := Replay(log);
    assert IssueOk(db, i);
    forall r | ActiveRun(db, i, r) && db.runs[r].source.Rework? ensures Reviewed(db, i) {
      assert RunOk(db, r);
    }
  }

  ghost predicate StateIs(db: Db, i: IssueId, s: IssueState) {
    i in db.issues && db.issues[i].state == s
  }

  lemma EndingEntersSource(db: Db, op: Op, i: IssueId, s: IssueState)
    requires Inv(db) && !StateIs(db, i, s) && StateIs(After(db, op), i, s)
    requires op.OpFail? || op.OpBlock? || op.OpCancel? || op.OpReconcile?
    ensures !s.Done? && !s.HumanReview?
  {
    if RunExists(db, op.r) && IsActive(db.runs[op.r].status) {
      EndedRunRestoresSource(db, op.r);
    }
    hide Inv, Transition, Claim, Complete, InsertPacket, Review, Decide, Blank;
  }

  lemma CancelEntersSource(db: Db, r: RunId, code: FailureCode, now: Time, i: IssueId, s: IssueState)
    requires Inv(db) && Cancel(db, r, code, now).Commit? && !StateIs(db, i, s)
        && StateIs(Cancel(db, r, code, now).value, i, s)
    ensures !s.Done? && !s.HumanReview?
  {
    EndedRunRestoresSource(db, r);
    hide Inv;
  }

  lemma TransitionEnters(db: Db, op: Op, i: IssueId, s: IssueState)
    requires Inv(db) && op.OpTransition? && !StateIs(db, i, s) && StateIs(After(db, op), i, s)
    ensures !s.Done? && !s.HumanReview?
  {
    hide Inv, Cancel, Blank, TransitionRefusal, Reopens;
    TransitionTouches(db, op.i, op.target, op.reason, op.duplicateOf, op.now);
    if op.i != i {
      assert i !in db.issues;
      var active := ActiveRunOf(db, op.i);
      if active.Some? {
        hide HasActiveRun;
        CancelEntersSource(db, active.value, IssueStateChanged, op.now, i, s);
      }
    }
  }

  lemma DecideEnters(db: Db, op: Op, i: IssueId, s: IssueState)
    requires Inv(db) && op.OpDecide? && !StateIs(db, i, s) && StateIs(After(db, op), i, s)
    ensures !s.Done? && !s.HumanReview?
  {
    hide Inv, Cancel;
    CancelEntersSource(db, db.approvals[op.a].run, OperatorCancelled, op.now, i, s);
  }

  lemma OthersEnter(db: Db, op: Op, i: IssueId, s: IssueState)
    requires !StateIs(db, i, s) && StateIs(After(db, op), i, s)
    requires !(op.OpFail? || op.OpBlock? || op.OpCancel? || op.OpReconcile? || op.OpDecide? || op.OpTransition?)
    ensures s.Done? ==> op.OpReview? && op.i == i && op.accept && StateIs(db, i, HumanReview)
    ensures s.HumanReview? ==> op.OpComplete? && Exec(db, op).Commit? && db.runs[op.r].issue == i
  {
    hide Fail, BlockByAgent, Cancel, ReconcileRun, Decide, Transition, MaxOf, PacketExists, HandoffIdTaken,
      HasActiveRun,
      ActiveRuns, IsNewestPacket, Blank;
  }

  // Done is entered only from Human Review, by an operator, when the issue's newest packet is
  // the one it points at and belongs to a completed run; Human Review only by completing a run.
  lemma DoneIsReviewed(log: seq<Op>, op: Op, i: IssueId)
    requires LegalLog(log) && Legal(Replay(log), op)
    ensures !StateIs(Replay(log), i, Done) && StateIs(After(Replay(log), op), i, Done) ==>
      && op.OpReview? && op.i == i && StateIs(Replay(log), i, HumanReview)
      && exists r ::
           IsNewestPacket(Replay(log), i, r) && Replay(log).issues[i].latestPacket == Some(Replay(log).packets[r].id)
           && CompletedWithPacket(Replay(log), i, r)
    ensures !StateIs(Replay(log), i, HumanReview) && StateIs(After(Replay(log), op), i, HumanReview) ==>
      op.OpComplete? && Exec(Replay(log), op).Commit? && Replay(log).runs[op.r].issue == i
  {
    var db := Replay(log);
    forall s | (s == Done || s == HumanReview) && !StateIs(db, i, s) && StateIs(After(db, op), i, s)
      ensures s.Done? ==> op.OpReview? && op.i == i && op.accept && StateIs(db, i, HumanReview)
      ensures s.HumanReview? ==> op.OpComplete? && Exec(db, op).Commit? && db.runs[op.r].issue == i
    {
      LogKeepsInvariant(log);
      hide Inv, StateIs, After, Exec, Legal, LegalLog, Replay;
      if op.OpFail? || op.OpBlock? || op.OpCancel? || op.OpReconcile? {
        EndingEntersSource(db, op, i, s);
      } else if op.OpTransition? {
        TransitionEnters(db, op, i, s);
      } else if op.OpDecide? {
        DecideEnters(db, op, i, s);
      } else {
        OthersEnter(db, op, i, s);
      }
    }
    if op.OpReview? && op.i == i && !StateIs(db, i, Done) && StateIs(After(db, op), i, Done) {
      AcceptedReviewIsBacked(log, i, op.accept, op.reason);
    }
  }

  lemma AcceptedReviewIsBacked(log: seq<Op>, i: IssueId, accept: bool, reason: string)
    requires LegalLog(log) && Review(Replay(log), i, accept, reason).Commit?
    ensures exists r ::
      IsNewestPacket(Replay(log), i, r) && Replay(log).issues[i].latestPacket == Some(Replay(log).packets[r].id)
              && CompletedWithPacket(Replay(log), i, r)
  {
    LogKeepsInvariant(log);
    ReviewSucceedsExactlyWhen(log, i, accept, reason);
    hide LegalLog, Replay, Review;
    var db := Replay(log);
    var r :| IsNewestPacket(db, i, r) && r in db.runs && db.runs[r].status.Completed?;
    assert PacketOk(db, r) && LatestPacketOk(db, i);
    assert CompletedWithPacket(db, i, r);
  }

  // ---- When transactions go through. Under the invariant the checks for an active run, for a lost
  // row and for a changed state say nothing that the issue's and the run's own columns do not say.

  lemma ClaimSucceedsExactlyWhen(log: seq<Op>, i: IssueId, r: RunId, maxConcurrent: int)
    requires LegalLog(log)
    ensures var db := Replay(log);
      Claim(db, i, r, maxConcurrent).Commit? <==>
        && i in db.issues && IsDispatchState(db.issues[i].state) && FieldsComplete(db.issues[i].fields)
        && !db.issues[i].paused && db.issues[i].blockers == {}
        && |ActiveRuns(db)| < EffectiveLimit(maxConcurrent) && r !in db.runs
  {
    LogKeepsInvariant(log);
    if i in Replay(log).issues {
      NoActiveRunMeansNotWorking(Replay(log), i);
    }
    hide LegalLog, Replay, Inv, FieldsComplete, ActiveRuns, Claimed, HasActiveRun;
  }

  lemma PauseSucceedsExactlyWhen(log: seq<Op>, i: IssueId, reason: string, paused: bool)
    requires LegalLog(log)
    ensures var db := Replay(log);
      SetPaused(db, i, reason, paused).Commit? <==>
        !Blank(reason) && i in db.issues && !IsTerminalIssue(db.issues[i].state) && !db.issues[i].state.Working?
  {
    LogKeepsInvariant(log);
    if i in Replay(log).issues {
      NoActiveRunMeansNotWorking(Replay(log), i);
    }
    hide LegalLog, Replay, Inv, Blank, HasActiveRun;
  }

  // The link that a move to Duplicate may ask for.
  predicate LinkAllowed(db: Db, i: IssueId, duplicateOf: Option<IssueId>)
    requires i in db.issues
  {
    duplicateOf.Some? ==>
      && duplicateOf.value in db.issues && duplicateOf.value != i
      && (db.issues[i].duplicateOf.None? || db.issues[i].duplicateOf == duplicateOf)
  }

  ghost predicate TransitionAllowed(db: Db, i: IssueId, target: IssueState, reason: string,
      duplicateOf: Option<IssueId>) {
    && (target.Inbox? || target.Ready?
        || ((target.Blocked? || target.Cancelled? || target.Duplicate?) && !Blank(reason)))
    && i in db.issues && TransitionRefusal(db.issues[i], target).None?
    && (target.Duplicate? ==> LinkAllowed(db, i, duplicateOf))
  }

  // Cancelling the active run on the way never fails, nor does the guarded write at the end.
  lemma TransitionSucceedsExactlyWhen(
    log: seq<Op>, i: IssueId, target: IssueState, reason: string, duplicateOf: Option<IssueId>, now: Time)
    requires LegalLog(log)
    ensures var db, tx := Replay(log), Transition(Replay(log), i, target, reason, duplicateOf, now);
      && (tx.Commit? <==> TransitionAllowed(db, i, target, reason, duplicateOf))
      && (tx.Commit? ==> i in tx.value.issues && tx.value.issues[i].state == target && !HasActiveRun(tx.value, i))
  {
    LogKeepsInvariant(log);
    hide *;
    TransitionCommits(Replay(log), i, target, reason, duplicateOf, now);
  }

  lemma TransitionCommits(
    db: Db, i: IssueId, target: IssueState, reason: string, duplicateOf: Option<IssueId>, now: Time)
    requires Inv(db)
    ensures var tx := Transition(db, i, target, reason, duplicateOf, now);
      && (tx.Commit? <==> TransitionAllowed(db, i, target, reason, duplicateOf))
      && (tx.Commit? ==> i in tx.value.issues && tx.value.issues[i].state == target && !HasActiveRun(tx.value, i))
  {
    hide TransitionRefusal, Blank, TransitionBody, HasActiveRun, Inv, LinkAllowed;
    if i in db.issues && TransitionRefusal(db.issues[i], target).None? && !target.Working? {
      BodySucceedsExactlyWhen(db, i, target, duplicateOf, now);
    }
  }

  lemma BodySucceedsExactlyWhen(db: Db, i: IssueId, target: IssueState, duplicateOf: Option<IssueId>, now: Time)
    requires Inv(db) && i in db.issues && !target.Working?
    ensures var tx := TransitionBody(db, i, target, duplicateOf, now);
      && (tx.Commit? <==> (target.Duplicate? ==> LinkAllowed(db, i, duplicateOf)))
      && (tx.Commit? ==> i in tx.value.issues && tx.value.issues[i].state == target && !HasActiveRun(tx.value, i))
  {
    var active := ActiveRunOf(db, i);
    if active.Some? {
      ActiveRunEndsCleanly(db, i, active.value, now);
      var db1 := Cancel(db, active.value, IssueStateChanged, now).value;
      hide Inv, Cancel, HasActiveRun;
      var tx := TransitionBody(db, i, target, duplicateOf, now);
      assert tx.Commit? ==> tx.value.runs == db1.runs;
      if tx.Commit? {
        SameRunsAreAsActive(db1, tx.value, i);
      }
    } else {
      hide Inv, Cancel, HasActiveRun;
      var tx := TransitionBody(db, i, target, duplicateOf, now);
      if tx.Commit? {
        SameRunsAreAsActive(db, tx.value, i);
      }
    }
  }

  lemma SameRunsAreAsActive(db: Db, db': Db, i: IssueId)
    requires db'.runs == db.runs
    ensures HasActiveRun(db', i) <==> HasActiveRun(db, i)
  {
    assert forall r :: ActiveRun(db', i, r) <==> ActiveRun(db, i, r);
  }

  lemma ActiveRunEndsCleanly(db: Db, i: IssueId, r: RunId, now: Time)
    requires Inv(db) && ActiveRun(db, i, r)
    ensures var tx := Cancel(db, r, IssueStateChanged, now);
      && tx.Commit? && !HasActiveRun(tx.value, i) && tx.value.issues.Keys == db.issues.Keys
      && tx.value.issues[i].duplicateOf == db.issues[i].duplicateOf
  {
    CancelLeavesNoActiveRun(db, i, r, IssueStateChanged, now);
    assert RunOk(db, r);
    hide Inv, HasActiveRun;
  }

  // A run can be completed exactly while it is active and with the packet it generated.
  lemma CompleteSucceedsExactlyWhen(log: seq<Op>, r: RunId, p: PacketId, now: Time)
    requires LegalLog(log)
    ensures var db := Replay(log);
      Complete(db, r, p, now).Commit? <==>
        r in db.runs && IsActive(db.runs[r].status) && r in db.packets && db.packets[r].id == p
  {
    LogKeepsInvariant(log);
    var db := Replay(log);
    if r in db.runs {
      RunsHaveIssues(log, r);
    }
    assert r in db.packets ==> PacketOk(db, r);
    hide LegalLog, Replay, Inv, WithReview;
  }

  lemma RunsHaveIssues(log: seq<Op>, r: RunId)
    requires LegalLog(log) && r in Replay(log).runs
    ensures RunExists(Replay(log), r)
  {
    LogKeepsInvariant(log);
    assert RunOk(Replay(log), r);
  }

  // Ending a run - by failing, cancelling or the restart - goes through exactly while it is active.
  lemma EndingSucceedsExactlyWhen(log: seq<Op>, op: Op)
    requires LegalLog(log) && (op.OpFail? || op.OpCancel? || op.OpReconcile?)
    ensures Exec(Replay(log), op).Commit? <==> op.r in Replay(log).runs && IsActive(Replay(log).runs[op.r].status)
  {
    if op.r in Replay(log).runs {
      RunsHaveIssues(log, op.r);
    }
    hide LegalLog, Replay, EndRun, RevokeTokens, CancelPendingApprovals;
  }

  // A decision goes through exactly while its request is pending and its run active, cancel_run included.
  lemma DecideSucceedsExactlyWhen(log: seq<Op>, a: ApprovalId, d: Decision, now: Time)
    requires LegalLog(log)
    ensures var db := Replay(log);
      Decide(db, a, d, now).Commit? <==>
        && a in db.approvals && db.approvals[a].status.AwaitingDecision?
        && db.approvals[a].run in db.runs && IsActive(db.runs[db.approvals[a].run].status)
  {
    var db := Replay(log);
    if a in db.approvals && db.approvals[a].run in db.runs {
      RunsHaveIssues(log, db.approvals[a].run);
    }
    hide LegalLog, Replay, EndRun, RevokeTokens;
  }

  // ---- The fields of an issue.

  predicate Mentions(items: seq<string>, x: string) {
    exists k :: 0 <= k < |items| && TrimSpace(items[k]) == x
  }

  // What trimSlice keeps: every item, trimmed, unless it is blank, and none twice.
  lemma {:induction false} CleanedHolds(items: seq<string>)
    ensures forall x :: x in Cleaned(items) <==> x != "" && Mentions(items, x)
    ensures forall j, k :: 0 <= j < k < |Cleaned(items)| ==> Cleaned(items)[j] != Cleaned(items)[k]
  {
    hide TrimSpace;
    if items != [] {
      var n := |items| - 1;
      var before := items[..n];
      CleanedHolds(before);
      forall x ensures Mentions(items, x) <==> TrimSpace(items[n]) == x || Mentions(before, x) {
        if Mentions(items, x) {
          var k :| 0 <= k < |items| && TrimSpace(items[k]) == x;
          assert k < n ==> before[k] == items[k];
        }
        if Mentions(before, x) {
          var k :| 0 <= k < n && TrimSpace(before[k]) == x;
          assert items[k] == before[k];
        }
      }
    }
  }

  lemma NoCriterionIsBlank(items: seq<string>, k: nat)
    requires k < |Cleaned(items)|
    ensures !Blank(Cleaned(items)[k])
  {
    CleanedHolds(items);
    var c := Cleaned(items)[k];
    assert c in Cleaned(items);
    var j :| 0 <= j < |items| && TrimSpace(items[j]) == c;
    TrimNothing(c);
  }

  lemma NewFieldsAreTrimmed(given: Fields)
    ensures var fields := NewFields(given);
      && (Blank(fields.title) <==> fields.title == "") && (Blank(fields.description) <==> fields.description == "")
      && (fields.description != "" ==> fields.criteria != [] && !Blank(fields.criteria[0]))
  {
    var fields := NewFields(given);
    TrimNothing(fields.title);
    TrimNothing(fields.description);
    TrimNothing(DEFAULT_CRITERION);
    hide TrimSpace, IsSpace;
    if Cleaned(given.criteria) != [] {
      NoCriterionIsBlank(given.criteria, 0);
    }
  }

  // A new issue can be made Ready at once exactly when it has a description.
  lemma DescribedIssuesAreComplete(db: Db, i: IssueId, given: Fields)
    requires CreateIssue(db, i, given).Commit?
    ensures FieldsComplete(CreateIssue(db, i, given).value.issues[i].fields) <==> !Blank(given.description)
  {
    NewFieldsAreTrimmed(given);
    assert NewFields(given).description == TrimSpace(given.description);
    hide NewFields, TrimSpace;
  }
}
