// What holds over every behaviour of the protocol.
module ProtocolTheorems {
  import opened Domain
  import opened Transactions
  import opened Invariant
  import opened Protocol

  ghost predicate Behavior(ss: seq<Sys>, steps: seq<Step>) {
    && |ss| == |steps| + 1
    && ss[0] == Sys([], map[], {})
    && forall k {:trigger NextAt(ss, steps, k)} :: 0 <= k < |steps| ==> NextAt(ss, steps, k)
  }

  ghost predicate NextAt(ss: seq<Sys>, steps: seq<Step>, k: nat)
    requires k < |steps| < |ss|
  {
    Next(ss[k], steps[k], ss[k + 1])
  }

  lemma {:induction false} BehaviorKeepsInvariant(ss: seq<Sys>, steps: seq<Step>, n: nat)
    requires Behavior(ss, steps) && n < |ss|
    ensures SysInv(ss[n])
  {
    hide Next;
    if n > 0 {
      hide SysInv;
      BehaviorKeepsInvariant(ss, steps, n - 1);
      assert NextAt(ss, steps, n - 1);
      NextKeeps(ss[n - 1], steps[n - 1], ss[n]);
    }
  }

  // ---- Status only moves forward.

  function Rank(s: RunStatus): nat {
    match s
    case Pending => 0
    case PreparingWorkspace => 1
    case RenderingPrompt => 2
    case StartingAgent => 3
    case Running => 4
    case _ => 5
  }

  ghost predicate RunsMoveForward(db: Db, db': Db) {
    forall r {:trigger db.runs[r]} {:trigger db'.runs[r]} :: r in db.runs ==>
      && r in db'.runs && db'.runs[r].issue == db.runs[r].issue
      && Rank(db.runs[r].status) <= Rank(db'.runs[r].status)
      && (!IsActive(db.runs[r].status) ==> db'.runs[r] == db.runs[r])
  }

  lemma OpMovesForward(db: Db, op: Op)
    requires Inv(db) && Legal(db, op)
    requires op.OpAdvance? && op.r in db.runs ==>
      !IsActive(db.runs[op.r].status) || (IsActive(op.status) && Rank(db.runs[op.r].status) <= Rank(op.status))
    ensures RunsMoveForward(db, After(db, op))
  {
    StepKeeps(db, op);
    if op.OpAdvance? {
      hide Inv, Evolves, OnlyEndsRuns, Legal;
    } else {
      hide Inv, Evolves, Legal, After;
      assert forall s :: !IsActive(s) ==> Rank(s) == 5;
    }
  }

  lemma NextMovesForward(s: Sys, step: Step, s': Sys)
    requires SysInv(s) && Next(s, step, s')
    ensures RunsMoveForward(DbOf(s), DbOf(s'))
  {
    LogKeepsInvariant(s.log);
    var db := DbOf(s);
    if s'.log != s.log {
      var op := s'.log[|s.log|];
      assert s'.log == s.log + [op];
      ReplayAppend(s.log, op);
      match step
      case Work(r, luck) =>
        assert WorkerOk(db, r, s.workers[r]);
        WorkerStepIsLegal(db, r, s.workers[r], luck);
        hide LegalLog, Replay, Inv, After, Exec, RunsMoveForward;
        OpMovesForward(db, op);
      case AgentAct(call, _) =>
        assert CallOk(db, call);
        hide LegalLog, Replay, Inv, After, Exec, RunsMoveForward;
        OpMovesForward(db, op);
      case _ =>
        hide LegalLog, Replay, Inv, After, Exec, RunsMoveForward;
        OpMovesForward(db, op);
    }
  }

  lemma {:induction false} StatusOnlyMovesForward(ss: seq<Sys>, steps: seq<Step>, m: nat, n: nat)
    requires Behavior(ss, steps) && m <= n < |ss|
    ensures RunsMoveForward(DbOf(ss[m]), DbOf(ss[n]))
    decreases n
  {
    hide Next, SysInv, Replay;
    if m < n {
      StatusOnlyMovesForward(ss, steps, m, n - 1);
      BehaviorKeepsInvariant(ss, steps, n - 1);
      assert NextAt(ss, steps, n - 1);
      NextMovesForward(ss[n - 1], steps[n - 1], ss[n]);
    }
  }

  lemma RunningIsNotEnteredAgain(a: Db, b: Db, c: Db, r: RunId)
    requires RunsMoveForward(a, b) && RunsMoveForward(b, c)
    requires r in a.runs && a.runs[r].status.Running? && !b.runs[r].status.Running?
    ensures r in c.runs && !c.runs[r].status.Running?
  {
    assert !IsActive(b.runs[r].status) && c.runs[r] == b.runs[r];
  }

  // Once a run has left `running`, none of its tool tokens validates again, revoked or not.
  lemma TokensDieWithTheirRun(ss: seq<Sys>, steps: seq<Step>, j: nat, m: nat, n: nat, r: RunId, h: TokenHash,
      expired: bool)
    requires Behavior(ss, steps) && j <= m <= n < |ss|
    requires r in DbOf(ss[j]).runs && DbOf(ss[j]).runs[r].status.Running?
    requires r in DbOf(ss[m]).runs && !DbOf(ss[m]).runs[r].status.Running?
    requires h in DbOf(ss[n]).tokens && DbOf(ss[n]).tokens[h].run == r
    ensures !TokenValidates(DbOf(ss[n]), h, expired)
  {
    StatusOnlyMovesForward(ss, steps, j, m);
    StatusOnlyMovesForward(ss, steps, m, n);
    RunningIsNotEnteredAgain(DbOf(ss[j]), DbOf(ss[m]), DbOf(ss[n]), r);
    hide Behavior, Replay, RunsMoveForward;
  }

  // ---- Stale workers.

  // What a worker may still touch once its run is over: neither runs, nor any issue's state or pause flag.
  ghost predicate Harmless(db: Db, db': Db) {
    && db'.runs == db.runs
    && db'.issues.Keys == db.issues.Keys
    && forall i :: i in db.issues ==>
         db'.issues[i].state == db.issues[i].state && db'.issues[i].paused == db.issues[i].paused
  }

  lemma StaleStepIsHarmless(db: Db, r: RunId, pc: Pc, luck: Luck)
    requires r in db.runs && !IsActive(db.runs[r].status) && WorkerOp(r, pc, luck).Some?
    ensures Harmless(db, After(db, WorkerOp(r, pc, luck).value))
  {
    hide MaxOf, PacketExists, HandoffIdTaken;
  }

  // Once a run is over, no later step of its worker changes any issue's state or pause flag or
  // anything of any run, even while a newer worker holds the same issue.
  lemma StaleWorkersAreHarmless(ss: seq<Sys>, steps: seq<Step>, m: nat, n: nat, r: RunId, luck: Luck)
    requires Behavior(ss, steps) && m <= n < |steps| && steps[n] == Work(r, luck)
    requires r in DbOf(ss[m]).runs && !IsActive(DbOf(ss[m]).runs[r].status)
    ensures Harmless(DbOf(ss[n]), DbOf(ss[n + 1]))
  {
    StatusOnlyMovesForward(ss, steps, m, n);
    assert NextAt(ss, steps, n);
    var op := WorkerOp(r, ss[n].workers[r].pc, luck);
    if op.Some? {
      hide Replay, RunsMoveForward;
      ReplayAppend(ss[n].log, op.value);
      assert !IsActive(DbOf(ss[n]).runs[r].status) by {
        RunStaysEnded(DbOf(ss[m]), DbOf(ss[n]), r);
      }
      StaleStepIsHarmless(DbOf(ss[n]), r, ss[n].workers[r].pc, luck);
    }
  }

  lemma RunStaysEnded(db: Db, db': Db, r: RunId)
    requires RunsMoveForward(db, db') && r in db.runs && !IsActive(db.runs[r].status)
    ensures r in db'.runs && db'.runs[r] == db.runs[r]
  {
  }

  // ---- No orphan runs.

  // A worker that has returned leaves no active run behind, unless it was held, and no worker
  // takes more turns than its workflow allows.
  lemma NoOrphanRuns(ss: seq<Sys>, steps: seq<Step>, n: nat, r: RunId)
    requires Behavior(ss, steps) && n < |ss| && r in ss[n].workers
    ensures ss[n].workers[r].pc == Returned(false) ==> r in DbOf(ss[n]).runs && !IsActive(DbOf(ss[n]).runs[r].status)
    ensures ss[n].workers[r].turns <= ss[n].workers[r].wf.maxTurns
  {
    BehaviorKeepsInvariant(ss, steps, n);
    assert WorkerOk(DbOf(ss[n]), r, ss[n].workers[r]);
    TurnsAreBounded(ss[n].workers[r].pc, ss[n].workers[r].wf);
  }

  // CompleteRunWithReview never rejects the packet that the worker's own Generate returned: if
  // it refuses, the run had already ended.
  lemma OwnPacketIsNeverRejected(ss: seq<Sys>, steps: seq<Step>, n: nat, r: RunId, now: Time)
    requires Behavior(ss, steps) && n < |ss| && r in ss[n].workers && ss[n].workers[r].pc.Finish?
    ensures var tx := Complete(DbOf(ss[n]), r, ss[n].workers[r].pc.p, now);
      tx.Commit? || (tx == Abort(InvalidStateTransition) && !IsActive(DbOf(ss[n]).runs[r].status))
  {
    BehaviorKeepsInvariant(ss, steps, n);
    var db := DbOf(ss[n]);
    assert WorkerOk(db, r, ss[n].workers[r]);
    LogKeepsInvariant(ss[n].log);
    FinishingEndsRun(db, r, ss[n].workers[r].pc.p, now);
    assert RunOk(db, r);
    hide Inv, LegalLog, Replay, RunOk, WithReview;
  }

  // The first turn came back held.
  ghost predicate HeldAt(ss: seq<Sys>, steps: seq<Step>, k: nat, r: RunId) {
    && k < |steps| < |ss| && steps[k].Work? && steps[k].r == r
    && r in ss[k].workers && ss[k].workers[r].pc == Turn(0) && steps[k].luck.ok && steps[k].luck.result.TurnHeld?
  }

  lemma HeldStepIsFirstTurn(s: Sys, step: Step, s': Sys, r: RunId)
    requires SysInv(s) && Next(s, step, s') && r in s'.workers && s'.workers[r].pc == Returned(true)
    requires r in s.workers ==> s.workers[r].pc != Returned(true)
    ensures step.Work? && step.r == r && r in s.workers && s.workers[r].pc == Turn(0)
    ensures step.luck.ok && step.luck.result.TurnHeld?
  {
    assert step.Work? && step.r == r;
    assert WorkerOk(DbOf(s), r, s.workers[r]);
    hide Exec, Replay, LegalLog;
  }

  lemma {:induction false} HeldOnlyByFirstTurn(ss: seq<Sys>, steps: seq<Step>, n: nat, r: RunId)
    requires Behavior(ss, steps) && n < |ss| && r in ss[n].workers && ss[n].workers[r].pc == Returned(true)
    ensures exists k: nat :: k < n && HeldAt(ss, steps, k, r)
  {
    assert n > 0;
    assert NextAt(ss, steps, n - 1);
    BehaviorKeepsInvariant(ss, steps, n - 1);
    hide Next, SysInv;
    var s, step := ss[n - 1], steps[n - 1];
    if r in s.workers && s.workers[r].pc == Returned(true) {
      HeldOnlyByFirstTurn(ss, steps, n - 1, r);
      var k: nat :| k < n - 1 && HeldAt(ss, steps, k, r);
      assert k < n && HeldAt(ss, steps, k, r);
    } else {
      HeldStepIsFirstTurn(s, step, ss[n], r);
      assert HeldAt(ss, steps, n - 1, r);
    }
  }

  // ---- Workers come to an end.

  // How many more steps of its own a worker at `pc` can take.
  function StepsLeft(pc: Pc): nat {
    match pc
    case Load => 33
    case Check(next) => 1 + StepsLeft(next)
    case Update(_, next) => 1 + StepsLeft(next)
    case QueryAfterCreate => 29
    case Prepare(_) => 28
    case AfterCreate => 26
    case Render => 21
    case BeforeRun => 19
    case Mint => 15
    case Turn(n) => if n == 0 then 11 else 9
    case AfterRun(_) => 7
    case LoadHandoff => 5
    case Generate => 3
    case Package(_, _) => 2
    case Finish(_) => 1
    case HookFailed(_) => 3
    case Failing(_, _) => 1
    case Returned(_) => 0
  }

  lemma AdvanceRunSteps(to: RunStatus, next: Pc)
    ensures StepsLeft(AdvanceRun(to, next)) == 3 + StepsLeft(next)
  {
    assert StepsLeft(Update(to, Check(next))) == 2 + StepsLeft(next) by {
      assert StepsLeft(Check(next)) == 1 + StepsLeft(next);
    }
  }

  lemma SetupIsProgress(db: Db, r: RunId, wf: Workflow, pc: Pc, luck: Luck)
    requires r in db.runs && IsSetup(pc)
    ensures StepsLeft(WorkerNext(db, r, wf, pc, luck)) < StepsLeft(pc)
  {
    AdvanceRunSteps(PreparingWorkspace, QueryAfterCreate);
    AdvanceRunSteps(RenderingPrompt, Render);
    AdvanceRunSteps(StartingAgent, Mint);
    hide Exec, AdvanceRun;
    var next := WorkerNext(db, r, wf, pc, luck);
    if next.Check? {
      assert StepsLeft(next) == 1 + StepsLeft(next.next);
    }
  }

  lemma EveryStepIsProgress(db: Db, r: RunId, wf: Workflow, pc: Pc, luck: Luck)
    requires r in db.runs && !pc.Returned?
    ensures StepsLeft(WorkerNext(db, r, wf, pc, luck)) < StepsLeft(pc)
  {
    if IsSetup(pc) {
      hide WorkerNext, StepsLeft;
      SetupIsProgress(db, r, wf, pc, luck);
    } else {
      AdvanceRunSteps(Running, Turn(0));
      hide Exec, AdvanceRun;
      var next := WorkerNext(db, r, wf, pc, luck);
      if next.Check? {
        assert StepsLeft(next) == 1 + StepsLeft(next.next);
      }
    }
  }

  function WorkSteps(steps: seq<Step>, r: RunId): nat {
    if steps == [] then 0
    else WorkSteps(steps[..|steps| - 1], r) + if IsWorkOf(steps[|steps| - 1], r) then 1 else 0
  }

  ghost function Budget(s: Sys, r: RunId): nat {
    if r in s.workers then StepsLeft(s.workers[r].pc) else 0
  }

  predicate IsWorkOf(step: Step, r: RunId) {
    step.Work? && step.r == r
  }

  lemma NextSpendsBudget(s: Sys, step: Step, s': Sys, r: RunId)
    requires Next(s, step, s')
    ensures IsWorkOf(step, r) ==> Budget(s', r) < Budget(s, r) && r in DbOf(s).runs
    ensures !IsWorkOf(step, r) && r in DbOf(s).runs ==> Budget(s', r) <= Budget(s, r)
    ensures r !in DbOf(s).runs ==> Budget(s', r) <= 33 || Budget(s', r) <= Budget(s, r)
  {
    hide Replay, LegalLog;
    if IsWorkOf(step, r) {
      EveryStepIsProgress(DbOf(s), r, s.workers[r].wf, s.workers[r].pc, step.luck);
    }
    hide WorkerNext;
  }

  // No worker takes more than 33 steps in any behaviour, whatever the others do.
  lemma {:induction false} WorkersTakeBoundedlyManySteps(ss: seq<Sys>, steps: seq<Step>, n: nat, r: RunId)
    requires Behavior(ss, steps) && n < |ss|
    ensures WorkSteps(steps[..n], r) + Budget(ss[n], r) <= 33
    ensures r !in DbOf(ss[n]).runs ==> WorkSteps(steps[..n], r) == 0
  {
    if n > 0 {
      WorkersTakeBoundedlyManySteps(ss, steps, n - 1, r);
      assert steps[..n][..n - 1] == steps[..n - 1];
      assert NextAt(ss, steps, n - 1);
      StatusOnlyMovesForward(ss, steps, n - 1, n);
      hide Behavior, Replay, LegalLog, Next, Budget;
      NextSpendsBudget(ss[n - 1], steps[n - 1], ss[n], r);
    }
  }
}
