// What every log of transactions says about approval requests.
module ApprovalTheorems {
  import opened Domain
  import opened Text
  import opened Transactions
  import opened Invariant
  import opened LifecycleTheorems

  // ---- Who decides.

  predicate IsApproved(s: ApprovalStatus) {
    s.ApprovedOnce? || s.ApprovedForRun? || s.ApprovedForSession?
  }

  predicate IsPositive(d: Decision) {
    d.ApproveOnce? || d.ApproveForRun? || d.ApproveForSession?
  }

  // Operation k decided approval a so, while it was pending and its run active.
  ghost predicate DecidedAt(log: seq<Op>, k: nat, a: ApprovalId, d: Decision) {
    && k < |log| && log[k].OpDecide? && log[k].a == a && log[k].d == d
    && Decidable(Replay(log[..k]), a)
  }

  ghost predicate Decidable(db: Db, a: ApprovalId) {
    && a in db.approvals && db.approvals[a].status.AwaitingDecision?
    && RunExists(db, db.approvals[a].run) && IsActive(db.runs[db.approvals[a].run].status)
  }

  ghost predicate ApprovedIn(db: Db, a: ApprovalId) {
    a in db.approvals && IsApproved(db.approvals[a].status)
  }

  // The request was approved or denied, which no timer, cancellation or policy does.
  ghost predicate AnsweredIn(db: Db, a: ApprovalId) {
    ApprovedIn(db, a) || (a in db.approvals && db.approvals[a].status.Denied?)
  }

  // The transaction approved or denied the request.
  ghost predicate Answers(db: Db, op: Op, a: ApprovalId) {
    && AnsweredIn(After(db, op), a)
    && !(a in db.approvals && db.approvals[a].status == After(db, op).approvals[a].status)
  }

  lemma ReconcileAnswersNothing(db: Db, r: RunId, now: Time, a: ApprovalId)
    ensures !Answers(db, OpReconcile(r, now), a)
  {
  }

  lemma DecideAnswers(db: Db, op: Op, a: ApprovalId)
    requires op.OpDecide? && Answers(db, op, a)
    ensures op.a == a && StatusOf(op.d) == After(db, op).approvals[a].status && Decidable(db, a)
  {
    if op.a in db.approvals && op.d.CancelRun? {
      CancelTouches(db, db.approvals[op.a].run, OperatorCancelled, op.now);
    }
    hide Cancel;
  }

  // Only an operator's decision on a pending request of an active run approves or denies anything.
  lemma OnlyDecisionsAnswer(db: Db, op: Op, a: ApprovalId)
    requires Answers(db, op, a)
    ensures op.OpDecide? && op.a == a && StatusOf(op.d) == After(db, op).approvals[a].status && Decidable(db, a)
  {
    EveryStepTouchesOneIssue(db, op);
    if op.OpDecide? {
      DecideAnswers(db, op, a);
    } else if op.OpReconcile? {
      ReconcileAnswersNothing(db, op.r, op.now, a);
    } else {
      hide Transition, Fail, BlockByAgent, Cancel, Claim, Complete, InsertPacket, Review, SubmitHandoff, TrimSpace,
        OnlyTouches;
    }
  }

  // Only an operator's positive decision approves, and approval for the run is given as such.
  lemma OnlyDecisionsApprove(db: Db, op: Op, a: ApprovalId)
    requires !ApprovedIn(db, a) && ApprovedIn(After(db, op), a)
    ensures op.OpDecide? && op.a == a && IsPositive(op.d) && Decidable(db, a)
    ensures op.d.ApproveForRun? <==> After(db, op).approvals[a].status.ApprovedForRun?
  {
    hide After, Decidable;
    OnlyDecisionsAnswer(db, op, a);
  }

  // What is approved or denied was decided so, by the decision that has this status.
  lemma {:induction false} AnsweredOnlyByOperator(log: seq<Op>, a: ApprovalId)
    requires LegalLog(log) && AnsweredIn(Replay(log), a)
    ensures exists k: nat, d {:trigger DecidedAt(log, k, a, d)} ::
      DecidedAt(log, k, a, d) && StatusOf(d) == Replay(log).approvals[a].status
  {
    hide After, LegalLog, Legal;
    if log != [] {
      var n := |log| - 1;
      var before := Replay(log[..n]);
      assert Replay(log) == After(before, log[n]);
      LegalPrefix(log, n);
      if AnsweredIn(before, a) {
        AnsweredOnlyByOperator(log[..n], a);
        var k: nat, d :| DecidedAt(log[..n], k, a, d) && StatusOf(d) == before.approvals[a].status;
        assert log[..n][..k] == log[..k];
        assert Replay(log).approvals[a] == before.approvals[a] by {
          LogKeepsInvariant(log[..n]);
          assert LegalAt(log, n) by {
            LegalityAt(log, n);
          }
          StepKeeps(before, log[n]);
        }
        assert DecidedAt(log, k, a, d);
      } else {
        assert Answers(before, log[n], a);
        OnlyDecisionsAnswer(before, log[n], a);
        assert DecidedAt(log, n, a, log[n].d);
      }
    }
  }

  // Every approved request was decided positively, and for the run if that is how it is approved.
  lemma ApprovedOnlyByOperator(log: seq<Op>, a: ApprovalId)
    requires LegalLog(log) && ApprovedIn(Replay(log), a)
    ensures exists k: nat, d :: DecidedAt(log, k, a, d) && IsPositive(d)
    ensures Replay(log).approvals[a].status.ApprovedForRun? ==> exists k: nat :: DecidedAt(log, k, a, ApproveForRun)
  {
    hide LegalLog, Replay, DecidedAt;
    AnsweredOnlyByOperator(log, a);
    var k: nat, d :| DecidedAt(log, k, a, d) && StatusOf(d) == Replay(log).approvals[a].status;
    assert IsPositive(d);
  }

  lemma LegalityAt(log: seq<Op>, k: nat)
    requires LegalLog(log) && k < |log|
    ensures LegalAt(log, k) && Legal(Replay(log[..k]), log[k])
  {
    assert LegalAt(log, k);
  }

  // A request that has been resolved is never resolved again.
  lemma ResolvedOnlyOnce(log: seq<Op>, m: nat, n: nat, a: ApprovalId)
    requires LegalLog(log) && m <= n <= |log|
    requires a in Replay(log[..m]).approvals && !Replay(log[..m]).approvals[a].status.AwaitingDecision?
    ensures a in Replay(log[..n]).approvals && Replay(log[..n]).approvals[a] == Replay(log[..m]).approvals[a]
  {
    hide LegalLog, Replay;
    LogEvolves(log, m, n);
  }

  // A request whose run has ended is never approved, even if it is still pending.
  lemma {:induction false} EndedRunsRequestsAreNeverApproved(log: seq<Op>, m: nat, n: nat, a: ApprovalId)
    requires LegalLog(log) && m <= n <= |log|
    requires a in Replay(log[..m]).approvals && !ApprovedIn(Replay(log[..m]), a)
    requires var db := Replay(log[..m]);
      db.approvals[a].run in db.runs && !IsActive(db.runs[db.approvals[a].run].status)
    ensures !ApprovedIn(Replay(log[..n]), a)
    decreases n
  {
    hide LegalLog, Replay, After, IsApproved;
    if m < n {
      EndedRunsRequestsAreNeverApproved(log, m, n - 1, a);
      LogEvolves(log, m, n - 1);
      ReplayPrefix(log, n - 1);
      EndedRequestStays(Replay(log[..m]), Replay(log[..n - 1]), a);
      hide Evolves;
      if ApprovedIn(Replay(log[..n]), a) {
        OnlyDecisionsApprove(Replay(log[..n - 1]), log[n - 1], a);
      }
    }
  }

  lemma EndedRequestStays(db: Db, db': Db, a: ApprovalId)
    requires Evolves(db, db') && a in db.approvals
    requires db.approvals[a].run in db.runs && !IsActive(db.runs[db.approvals[a].run].status)
    ensures a in db'.approvals && db'.approvals[a].run in db'.runs && !IsActive(db'.runs[db'.approvals[a].run].status)
  {
  }

  // A decision on a pending request of an active run takes effect: it approves exactly if it is
  // positive, denies exactly if it is a denial, and ends the run exactly if it cancels it.
  lemma DecisionTakes(db: Db, a: ApprovalId, d: Decision, now: Time)
    requires Decidable(db, a)
    ensures var db', r := After(db, OpDecide(a, d, now)), db.approvals[a].run;
      && a in db'.approvals && db'.approvals[a].status == StatusOf(d) && r in db'.runs
      && (ApprovedIn(db', a) <==> IsPositive(d))
      && (db'.approvals[a].status.ApprovedForRun? <==> d.ApproveForRun?)
      && (db'.approvals[a].status.Denied? <==> d.Deny?)
      && (if d.CancelRun? then db'.runs[r].status.RunCancelled? && db'.runs[r].code == Some(OperatorCancelled)
          else db' == db.(approvals := db'.approvals))
      && forall b :: b in db.approvals && b != a ==> b in db'.approvals && db'.approvals[b] == db.approvals[b]
  {
  }

  lemma DecidedMeansResolved(log: seq<Op>, k: nat, a: ApprovalId, d: Decision)
    requires DecidedAt(log, k, a, d)
    ensures var db := Replay(log[..k + 1]);
      a in db.approvals && !db.approvals[a].status.AwaitingDecision? && db.approvals[a].status == StatusOf(d)
  {
    ReplayPrefix(log, k);
    hide Replay;
    DecisionTakes(Replay(log[..k]), a, log[k].d, log[k].now);
    hide After;
  }

  // What was decided stays so.
  lemma DecisionLasts(log: seq<Op>, k: nat, a: ApprovalId, d: Decision)
    requires LegalLog(log) && DecidedAt(log, k, a, d)
    ensures a in Replay(log).approvals && Replay(log).approvals[a].status == StatusOf(d)
  {
    DecidedMeansResolved(log, k, a, d);
    assert log[..|log|] == log;
    hide LegalLog, Replay;
    ResolvedOnlyOnce(log, k + 1, |log|, a);
  }

  // A request is decided at most once.
  lemma DecidedOnlyOnce(log: seq<Op>, j: nat, k: nat, a: ApprovalId, c: Decision, d: Decision)
    requires LegalLog(log) && DecidedAt(log, j, a, c) && DecidedAt(log, k, a, d)
    ensures j == k && c == d
  {
    hide LegalLog, Replay;
    var m := if j < k then j else k;
    if j != k {
      DecidedMeansResolved(log, m, a, if j < k then c else d);
      ResolvedOnlyOnce(log, m + 1, if j < k then k else j, a);
      assert false;
    }
  }

  // A request that is pending now can only have been decided later.
  lemma DecidedLater(log: seq<Op>, m: nat, k: nat, a: ApprovalId, d: Decision)
    requires LegalLog(log) && m <= |log| && DecidedAt(log, k, a, d)
    requires a in Replay(log[..m]).approvals && Replay(log[..m]).approvals[a].status.AwaitingDecision?
    ensures m <= k
  {
    DecidedMeansResolved(log, k, a, d);
    hide Replay, LegalLog, DecidedAt;
    if k < m {
      ResolvedOnlyOnce(log, k + 1, m, a);
    }
  }

  lemma DecidedAtLasts(log: seq<Op>, log': seq<Op>, k: nat, a: ApprovalId, d: Decision)
    requires log <= log' && DecidedAt(log, k, a, d)
    ensures DecidedAt(log', k, a, d)
  {
    assert log'[..k] == log[..k];
  }

  // An approved or denied request was decided so, at an instant from `m` on if it was still pending then.
  lemma AnswerWasDecided(log: seq<Op>, m: nat, a: ApprovalId) returns (k: nat, d: Decision)
    requires LegalLog(log) && m <= |log| && AnsweredIn(Replay(log), a)
    ensures DecidedAt(log, k, a, d) && StatusOf(d) == Replay(log).approvals[a].status
    ensures ApprovedIn(Replay(log), a) <==> IsPositive(d)
    ensures Replay(log).approvals[a].status.Denied? <==> d.Deny?
    ensures a in Replay(log[..m]).approvals && Replay(log[..m]).approvals[a].status.AwaitingDecision? ==> m <= k
  {
    hide LegalLog, Replay, DecidedAt;
    AnsweredOnlyByOperator(log, a);
    k, d :| DecidedAt(log, k, a, d) && StatusOf(d) == Replay(log).approvals[a].status;
    if a in Replay(log[..m]).approvals && Replay(log[..m]).approvals[a].status.AwaitingDecision? {
      DecidedLater(log, m, k, a, d);
    }
  }

  // ---- What was asked.

  // Operation j recorded request b, which asks for this.
  ghost predicate AskedAt(log: seq<Op>, j: nat, b: ApprovalId, asked: ApprovalInput) {
    && j < |log| && log[j] == OpRequestApproval(b, asked)
    && b !in Replay(log[..j]).approvals && b in Replay(log[..j + 1]).approvals
  }

  // The stored request is the one that was asked.
  ghost predicate Records(stored: Approval, input: ApprovalInput) {
    && stored.run == input.run && stored.issue == input.issue && stored.kind == input.kind
    && stored.cwd == TrimSpace(input.cwd) && stored.fingerprint == TrimSpace(input.fingerprint)
  }

  lemma InsertRecords(db: Db, a: ApprovalId, input: ApprovalInput, status: ApprovalStatus)
    ensures var tx := InsertApproval(db, a, input, status);
      tx.Commit? ==>
        && a !in db.approvals && a in tx.value.approvals
        && Records(tx.value.approvals[a], input) && tx.value.approvals[a].status == status
  {
    hide TrimSpace;
  }

  lemma AskedIsRecorded(log: seq<Op>, j: nat, b: ApprovalId, asked: ApprovalInput)
    requires LegalLog(log) && AskedAt(log, j, b, asked)
    ensures b in Replay(log).approvals && Records(Replay(log).approvals[b], asked)
  {
    ReplayPrefix(log, j);
    hide LegalLog, Replay, After;
    AskingRecords(Replay(log[..j]), b, asked);
    hide Records;
    RequestStays(log[..j + 1], log, b);
    SameButStatus(Replay(log[..j + 1]).approvals[b], Replay(log).approvals[b], asked);
  }

  lemma AskingRecords(db: Db, b: ApprovalId, asked: ApprovalInput)
    requires b !in db.approvals && b in After(db, OpRequestApproval(b, asked)).approvals
    ensures Records(After(db, OpRequestApproval(b, asked)).approvals[b], asked)
  {
    InsertRecords(db, b, asked, AwaitingDecision);
    hide InsertApproval, Records;
  }

  lemma SameButStatus(x: Approval, y: Approval, asked: ApprovalInput)
    requires y == x.(status := y.status) && Records(x, asked)
    ensures Records(y, asked)
  {
    hide TrimSpace;
  }

  // Only a request for review makes a pending row.
  lemma PendingWasAsked(db: Db, op: Op, a: ApprovalId)
    requires a !in db.approvals && a in After(db, op).approvals
    ensures op.OpRequestApproval? || op.OpAutoDeny?
    ensures op.a == a && Records(After(db, op).approvals[a], op.input)
    ensures After(db, op).approvals[a].status.AwaitingDecision? <==> op.OpRequestApproval?
  {
    EveryStepTouchesOneIssue(db, op);
    if op.OpRequestApproval? {
      InsertRecords(db, op.a, op.input, AwaitingDecision);
      hide InsertApproval;
    } else if op.OpAutoDeny? {
      InsertRecords(db, op.a, op.input, AutoDenied);
      hide InsertApproval;
    } else {
      hide After, OnlyTouches;
      if op.OpDecide? || op.OpTimeout? || op.OpCancelApproval? || op.OpReconcile? {
        ResolvingMakesNoRequest(db, op);
      }
    }
  }

  // A request that was decided had been asked before.
  lemma {:induction false} DecidedWasAsked(log: seq<Op>, k: nat, a: ApprovalId)
    requires LegalLog(log) && k <= |log|
    requires a in Replay(log[..k]).approvals && Replay(log[..k]).approvals[a].status.AwaitingDecision?
    ensures exists j: nat, asked :: j < k && AskedAt(log, j, a, asked)
    decreases k
  {
    hide LegalLog, After;
    assert k > 0;
    ReplayPrefix(log, k - 1);
    assert log[..k - 1 + 1] == log[..k];
    if a in Replay(log[..k - 1]).approvals {
      LogEvolves(log, k - 1, k);
      DecidedWasAsked(log, k - 1, a);
    } else {
      PendingWasAsked(Replay(log[..k - 1]), log[k - 1], a);
      assert AskedAt(log, k - 1, a, log[k - 1].input);
    }
  }

  // Rows stay: what the log has seen requested is still there.
  lemma RequestStays(log: seq<Op>, log': seq<Op>, a: ApprovalId)
    requires LegalLog(log') && log <= log' && a in Replay(log).approvals
    ensures a in Replay(log').approvals
    ensures Replay(log').approvals[a] == Replay(log).approvals[a].(status := Replay(log').approvals[a].status)
    ensures !Replay(log).approvals[a].status.AwaitingDecision? ==> Replay(log').approvals[a] == Replay(log).approvals[a]
  {
    assert log'[..|log|] == log && log'[..|log'|] == log';
    hide LegalLog, Replay;
    LogEvolves(log', |log|, |log'|);
  }

  // ---- Requests that outlive their run.

  // The request is still pending although its run has ended.
  ghost predicate Orphaned(db: Db, a: ApprovalId) {
    && a in db.approvals && db.approvals[a].status.AwaitingDecision?
    && db.approvals[a].run in db.runs && !IsActive(db.runs[db.approvals[a].run].status)
  }

  ghost predicate Live(db: Db, a: ApprovalId) {
    && a in db.approvals && db.approvals[a].status.AwaitingDecision?
    && db.approvals[a].run in db.runs && IsActive(db.runs[db.approvals[a].run].status)
  }

  // The transactions that resolve a request whose run has ended.
  predicate GivesUp(op: Op, a: ApprovalId) {
    (op.OpTimeout? || op.OpCancelApproval?) && op.a == a
  }

  // The transaction ended the request's run without resolving the request.
  ghost predicate Orphans(db: Db, op: Op, a: ApprovalId) {
    && Live(db, a) && !op.OpReconcile? && !(op.OpDecide? && op.a == a)
    && db.approvals[a].run in After(db, op).runs && !IsActive(After(db, op).runs[db.approvals[a].run].status)
  }

  // Runs end only where a transaction is for runs.
  lemma ApprovalOpsEndNoRun(db: Db, op: Op)
    requires op.OpRequestApproval? || op.OpAutoDeny? || op.OpTimeout? || op.OpCancelApproval?
    ensures After(db, op).runs == db.runs
  {
    hide TrimSpace;
  }

  lemma ReconcileResolves(db: Db, r: RunId, now: Time, a: ApprovalId)
    requires Live(db, a)
    requires var db' := After(db, OpReconcile(r, now));
      db.approvals[a].run in db'.runs && !IsActive(db'.runs[db.approvals[a].run].status)
    ensures !Orphaned(After(db, OpReconcile(r, now)), a)
  {
  }

  lemma DecidingAnotherResolvesNothing(db: Db, b: ApprovalId, d: Decision, now: Time, a: ApprovalId)
    requires a in db.approvals && a != b
    ensures a in After(db, OpDecide(b, d, now)).approvals
        && After(db, OpDecide(b, d, now)).approvals[a] == db.approvals[a]
  {
    if b in db.approvals {
      CancelTouches(db, db.approvals[b].run, OperatorCancelled, now);
    }
    hide Cancel, OnlyTouches;
  }

  lemma DecidingResolves(db: Db, a: ApprovalId, d: Decision, now: Time)
    requires Live(db, a)
    requires var db' := After(db, OpDecide(a, d, now));
      db.approvals[a].run in db'.runs && !IsActive(db'.runs[db.approvals[a].run].status)
    ensures !Orphaned(After(db, OpDecide(a, d, now)), a)
  {
    hide Cancel;
  }

  // When its run ends, a pending request stays pending unless the restart ended the run or the
  // request was itself decided.
  lemma RequestOutlivesItsRunExactlyWhen(db: Db, op: Op, a: ApprovalId)
    requires Live(db, a)
    requires var db' := After(db, op);
      db.approvals[a].run in db'.runs && !IsActive(db'.runs[db.approvals[a].run].status)
    ensures Orphaned(After(db, op), a) <==> !op.OpReconcile? && !(op.OpDecide? && op.a == a)
  {
    EveryStepTouchesOneIssue(db, op);
    hide After, OnlyTouches;
    if op.OpReconcile? {
      ReconcileResolves(db, op.r, op.now, a);
    } else if op.OpDecide? && op.a == a {
      DecidingResolves(db, a, op.d, op.now);
    } else if op.OpDecide? {
      DecidingAnotherResolvesNothing(db, op.a, op.d, op.now, a);
    } else if op.OpRequestApproval? || op.OpAutoDeny? || op.OpTimeout? || op.OpCancelApproval? {
      ApprovalOpsEndNoRun(db, op);
    }
  }

  // A restart that finds the run active cancels its pending requests, and leaves every other request alone.
  lemma RestartCancelsRequests(db: Db, r: RunId, now: Time, a: ApprovalId)
    requires Exec(db, OpReconcile(r, now)).Commit? && a in db.approvals
    ensures var db' := After(db, OpReconcile(r, now));
      a in db'.approvals && db'.approvals[a]
        == if db.approvals[a].run == r && db.approvals[a].status.AwaitingDecision?
           then db.approvals[a].(status := ApprovalCancelled) else db.approvals[a]
  {
  }

  // A restart leaves the database alone when the run has ended.
  lemma RestartSkipsEndedRuns(db: Db, r: RunId, now: Time)
    ensures r in db.runs && !IsActive(db.runs[r].status) ==> After(db, OpReconcile(r, now)) == db
  {
  }

  // An orphaned request stays so until the runner gives it up; neither operator nor restart resolves it.
  lemma OrphanStaysExactlyUnless(db: Db, op: Op, a: ApprovalId)
    requires Inv(db) && Legal(db, op) && Orphaned(db, a)
    ensures Orphaned(After(db, op), a) <==> !GivesUp(op, a)
  {
    EveryStepTouchesOneIssue(db, op);
    StepKeeps(db, op);
    EndedRequestStays(db, After(db, op), a);
    hide After, OnlyTouches, Inv, Legal, Evolves, OnlyEndsRuns;
    if op.OpReconcile? {
      ReconcilingAnotherResolvesNothing(db, op.r, op.now, a);
    } else if op.OpDecide? && op.a == a {
      DecidingTooLateDoesNothing(db, a, op.d, op.now);
    } else if op.OpDecide? {
      DecidingAnotherResolvesNothing(db, op.a, op.d, op.now, a);
    } else if op.OpRequestApproval? || op.OpAutoDeny? || op.OpTimeout? || op.OpCancelApproval? {
      GivingUpResolves(db, op, a);
    }
  }

  lemma ReconcilingAnotherResolvesNothing(db: Db, r: RunId, now: Time, a: ApprovalId)
    requires Orphaned(db, a)
    ensures a in After(db, OpReconcile(r, now)).approvals
        && After(db, OpReconcile(r, now)).approvals[a] == db.approvals[a]
  {
  }

  lemma DecidingTooLateDoesNothing(db: Db, a: ApprovalId, d: Decision, now: Time)
    requires Orphaned(db, a)
    ensures After(db, OpDecide(a, d, now)) == db
  {
  }

  lemma GivingUpResolves(db: Db, op: Op, a: ApprovalId)
    requires Orphaned(db, a)
    requires op.OpRequestApproval? || op.OpAutoDeny? || op.OpTimeout? || op.OpCancelApproval?
    ensures After(db, op).runs == db.runs && a in After(db, op).approvals
    ensures if GivesUp(op, a) then !After(db, op).approvals[a].status.AwaitingDecision?
            else After(db, op).approvals[a] == db.approvals[a]
  {
    hide TrimSpace;
  }

  // Some operation orphaned the request, and nothing since has given it up.
  ghost predicate OrphanedSince(log: seq<Op>, k: nat, a: ApprovalId) {
    && k < |log| && Orphans(Replay(log[..k]), log[k], a)
    && forall m :: k < m < |log| ==> !GivesUp(log[m], a)
  }

  lemma ResolvingMakesNoRequest(db: Db, op: Op)
    requires op.OpDecide? || op.OpTimeout? || op.OpCancelApproval? || op.OpReconcile?
    ensures After(db, op).approvals.Keys == db.approvals.Keys
  {
    if op.OpDecide? && op.a in db.approvals {
      CancelTouches(db, db.approvals[op.a].run, OperatorCancelled, op.now);
    }
    hide Cancel, OnlyTouches;
  }

  lemma RequestingNeedsALiveRun(db: Db, op: Op, a: ApprovalId)
    requires (op.OpRequestApproval? || op.OpAutoDeny?) && a !in db.approvals && a in After(db, op).approvals
    ensures !Orphaned(After(db, op), a)
  {
    hide TrimSpace;
  }

  lemma NewRequestsAreLive(db: Db, op: Op, a: ApprovalId)
    requires a !in db.approvals && a in After(db, op).approvals
    ensures !Orphaned(After(db, op), a)
  {
    EveryStepTouchesOneIssue(db, op);
    hide After, OnlyTouches, Orphaned;
    if op.OpRequestApproval? || op.OpAutoDeny? {
      RequestingNeedsALiveRun(db, op, a);
    } else if op.OpDecide? || op.OpTimeout? || op.OpCancelApproval? || op.OpReconcile? {
      ResolvingMakesNoRequest(db, op);
    }
  }

  // A request becomes orphaned only by the end of its run.
  lemma FreshOrphan(db: Db, op: Op, a: ApprovalId)
    requires Inv(db) && Legal(db, op) && !Orphaned(db, a)
    ensures Orphaned(After(db, op), a) <==> Orphans(db, op, a)
  {
    StepKeeps(db, op);
    if a !in db.approvals {
      if a in After(db, op).approvals {
        NewRequestsAreLive(db, op, a);
      }
    } else {
      assert BelongsTo(db, db.approvals[a].run, db.approvals[a].issue);
      var db' := After(db, op);
      hide After, Legal, Inv;
      assert ApprovalEvolves(db.approvals[a], db'.approvals[a]);
      var r := db.approvals[a].run;
      if Live(db, a) && r in db'.runs && !IsActive(db'.runs[r].status) {
        RequestOutlivesItsRunExactlyWhen(db, op, a);
      }
    }
  }

  lemma OrphanedSinceExtends(log: seq<Op>, a: ApprovalId)
    requires log != []
    ensures var n := |log| - 1;
      (exists k: nat :: OrphanedSince(log, k, a)) <==>
        || ((exists k: nat :: OrphanedSince(log[..n], k, a)) && !GivesUp(log[n], a))
        || Orphans(Replay(log[..n]), log[n], a)
  {
    hide Orphans, Replay, GivesUp;
    var n := |log| - 1;
    var before := log[..n];
    forall k: nat | k < n ensures OrphanedSince(log, k, a) <==> OrphanedSince(before, k, a) && !GivesUp(log[n], a) {
      assert before[..k] == log[..k];
      assert forall m :: k < m < n ==> before[m] == log[m];
    }
    assert OrphanedSince(log, n, a) <==> Orphans(Replay(log[..n]), log[n], a);
    forall k: nat | OrphanedSince(log, k, a) ensures k < n || k == n {
    }
  }

  // A request is pending with its run over exactly when its run was ended by something other than
  // the restart or a decision of the request, and no timeout or cancellation has been recorded since.
  lemma {:induction false} OrphanedExactlyWhen(log: seq<Op>, a: ApprovalId)
    requires LegalLog(log)
    ensures Orphaned(Replay(log), a) <==> exists k: nat :: OrphanedSince(log, k, a)
  {
    if log != [] {
      var n := |log| - 1;
      var before := log[..n];
      LegalPrefix(log, n);
      LegalityAt(log, n);
      LogKeepsInvariant(before);
      OrphanedExactlyWhen(before, a);
      assert Replay(log) == After(Replay(before), log[n]);
      hide Replay, LegalLog, After, Legal, Inv;
      if Orphaned(Replay(before), a) {
        OrphanStaysExactlyUnless(Replay(before), log[n], a);
      } else {
        FreshOrphan(Replay(before), log[n], a);
      }
      OrphanedSinceExtends(log, a);
    }
  }
}
