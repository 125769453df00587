// The run lifecycle as a concurrent protocol: workers that take one store call per step,
// agents, operators, restarts and crashes, interleaved arbitrarily.
module Protocol {
  import opened Domain
  import opened Transactions
  import opened Invariant

  datatype Workflow = Workflow(maxConcurrent: int, continuations: int, maxTurns: int)

  // The bounds of hardValidate that the worker relies on.
  predicate HardValid(wf: Workflow) {
    0 <= wf.continuations <= 1 && wf.maxTurns == 1 + wf.continuations
  }

  datatype TurnResult =
    | TurnSucceeded | TurnMissingHandoff | TurnFailed(code: Option<FailureCode>) | TurnHeld

  // Where a worker is: the next store call or outside action of runWorker. `Check(next)` is
  // runIsActive, after which the worker returns or goes on at `next`.
  datatype Pc =
    | Load
    | Check(next: Pc)
    | Update(to: RunStatus, next: Pc)
    | QueryAfterCreate
    | Prepare(runHook: bool)
    | AfterCreate
    | Render
    | BeforeRun
    | Mint
    | Turn(n: nat)
    | AfterRun(result: TurnResult)
    | LoadHandoff
    | Generate
    | Package(issue: IssueId, handoff: HandoffId)
    | Finish(p: PacketId)
    | HookFailed(code: FailureCode)
    | Failing(code: FailureCode, status: RunStatus)
    | Returned(held: bool)

  // advanceRun: check, update, check again.
  function AdvanceRun(to: RunStatus, next: Pc): Pc {
    Check(Update(to, Check(next)))
  }

  // What the outside world answers at a step: whether it went well, what a turn returned, and
  // the fresh ids and the time.
  datatype Luck = Luck(ok: bool, flag: bool, result: TurnResult, h: TokenHash, p: PacketId, now: Time)

  // The transaction a worker attempts at a step, if any.
  function WorkerOp(r: RunId, pc: Pc, luck: Luck): Option<Op> {
    match pc
    case Update(to, _) => Some(OpAdvance(r, to))
    case Mint => Some(OpMintToken(r, luck.h))
    case Package(issue, handoff) => if luck.ok then Some(OpInsertPacket(issue, r, handoff, luck.p)) else None
    case Finish(p) => Some(OpComplete(r, p, luck.now))
    case Failing(code, status) => Some(OpFail(r, code, status, luck.now))
    case _ => None
  }

  function Classify(result: TurnResult): Pc {
    match result
    case TurnFailed(code) => Failing(if code.Some? then code.value else CodexProtocolError, Failed)
    case TurnMissingHandoff => Failing(MissingHandoff, CompletedWithoutHandoff)
    case _ => LoadHandoff
  }

  function AfterTurn(n: nat, wf: Workflow, luck: Luck): Pc {
    if !luck.ok then Failing(ToolGatewayFailed, Failed)
    else if n == 0 && luck.result.TurnHeld? then Returned(true)
    else if n == 0 && luck.result.TurnMissingHandoff? && wf.continuations > 0 then Check(Turn(1))
    else Check(AfterRun(luck.result))
  }

  // Where the worker goes next, given the database before its step.
  ghost function WorkerNext(db: Db, r: RunId, wf: Workflow, pc: Pc, luck: Luck): Pc
    requires r in db.runs && !pc.Returned?
  {
    var done := WorkerOp(r, pc, luck).Some? && Exec(db, WorkerOp(r, pc, luck).value).Commit?;
    match pc
    case Load => AdvanceRun(PreparingWorkspace, QueryAfterCreate)
    case Check(next) => if IsActive(db.runs[r].status) then next else Returned(false)
    case Update(_, next) => if done then next else Returned(false)
    case QueryAfterCreate => if luck.ok then Prepare(luck.flag) else Failing(AfterCreateFailed, Failed)
    case Prepare(runHook) =>
      if !luck.ok then Failing(WorkspacePrepareFailed, Failed)
      else Check(if runHook then AfterCreate else AdvanceRun(RenderingPrompt, Render))
    case AfterCreate => if luck.ok then Check(AdvanceRun(RenderingPrompt, Render)) else HookFailed(AfterCreateFailed)
    case Render => if luck.ok then Check(BeforeRun) else Failing(PromptRenderFailed, Failed)
    case BeforeRun => if luck.ok then AdvanceRun(StartingAgent, Mint) else HookFailed(BeforeRunFailed)
    case Mint => if done then AdvanceRun(Running, Turn(0)) else Failing(ToolGatewayFailed, Failed)
    case Turn(n) => AfterTurn(n, wf, luck)
    case AfterRun(result) => Check(Classify(result))
    case LoadHandoff => if r in db.handoffs then Check(Generate) else Failing(MissingHandoff, CompletedWithoutHandoff)
    case Generate =>
      if luck.ok && r in db.handoffs then Package(db.runs[r].issue, db.handoffs[r].id)
      else Failing(ReviewPacketFailed, Failed)
    case Package(_, _) => if done then Finish(luck.p) else Failing(ReviewPacketFailed, Failed)
    case Finish(_) => Returned(false)
    case HookFailed(code) => Check(Failing(code, Failed))
    case Failing(_, _) => Returned(false)
  }

  datatype Worker = Worker(pc: Pc, turns: nat, wf: Workflow)

  // The worker after a step.
  ghost function Stepped(db: Db, r: RunId, w: Worker, luck: Luck): Worker
    requires r in db.runs && !w.pc.Returned?
  {
    Worker(WorkerNext(db, r, w.wf, w.pc, luck), if w.pc.Turn? then w.turns + 1 else w.turns, w.wf)
  }

  // A tool call whose token the gateway has validated and whose effect is still to come.
  datatype Call = Call(run: RunId, issue: IssueId)

  datatype Sys = Sys(log: seq<Op>, workers: map<RunId, Worker>, calls: set<Call>)

  ghost function DbOf(s: Sys): Db {
    Replay(s.log)
  }

  datatype Step =
    | Dispatch(i: IssueId, r: RunId, wf: Workflow)
    | Work(r: RunId, luck: Luck)
    | AgentCall(h: TokenHash, expired: bool)
    | AgentAct(call: Call, op: Op)
    | Environment(op: Op)
    | Crash(dead: set<RunId>, dropped: set<Call>)

  // The transactions of operators, of the codex runner's approval handling, and of the reconciler.
  predicate EnvironmentOp(op: Op) {
    || op.OpCreateIssue? || op.OpEditIssue? || op.OpTransition? || op.OpSetPaused? || op.OpCancel? || op.OpReview?
    || op.OpRequestApproval? || op.OpAutoDeny? || op.OpDecide? || op.OpTimeout? || op.OpCancelApproval?
        || op.OpReconcile?
  }

  predicate AgentOp(call: Call, op: Op) {
    || (op.OpSubmitHandoff? && op.r == call.run && op.i == call.issue)
    || (op.OpBlock? && op.r == call.run)
  }

  ghost predicate WorkStep(s: Sys, r: RunId, luck: Luck, s': Sys) {
    && r in s.workers && r in DbOf(s).runs && !s.workers[r].pc.Returned?
    && var w := s.workers[r];
    var op := WorkerOp(r, w.pc, luck);
    s' == Sys(if op.Some? then s.log + [op.value] else s.log, s.workers[r := Stepped(DbOf(s), r, w, luck)], s.calls)
  }

  ghost predicate DispatchStep(s: Sys, i: IssueId, r: RunId, wf: Workflow, s': Sys) {
    var op := OpClaim(i, r, wf.maxConcurrent);
    && HardValid(wf)
    && s' == Sys(s.log + [op],
                 if Exec(DbOf(s), op).Commit? then s.workers[r := Worker(Load, 0, wf)] else s.workers,
                 s.calls)
  }

  ghost predicate CallStep(s: Sys, h: TokenHash, expired: bool, s': Sys) {
    && TokenValidates(DbOf(s), h, expired)
    && var token := DbOf(s).tokens[h];
    s' == s.(calls := s.calls + {Call(token.run, token.issue)})
  }

  ghost predicate Next(s: Sys, step: Step, s': Sys) {
    match step
    case Dispatch(i, r, wf) => DispatchStep(s, i, r, wf, s')
    case Work(r, luck) => WorkStep(s, r, luck, s')
    case AgentCall(h, expired) => CallStep(s, h, expired, s')
    case AgentAct(call, op) => call in s.calls && AgentOp(call, op) && s' == s.(log := s.log + [op])
    case Environment(op) => EnvironmentOp(op) && s' == s.(log := s.log + [op])
    case Crash(dead, dropped) => s' == Sys(s.log, s.workers - dead, s.calls - dropped)
  }

  // ---- The invariant.

  function StatusBefore(to: RunStatus): RunStatus {
    match to
    case PreparingWorkspace => Pending
    case RenderingPrompt => PreparingWorkspace
    case StartingAgent => RenderingPrompt
    case _ => StartingAgent
  }

  // The status an active run has while its worker is at `pc`, where only one is possible.
  function StatusAt(pc: Pc): Option<RunStatus> {
    match pc
    case Load => Some(Pending)
    case Check(next) => StatusAt(next)
    case Update(to, _) => Some(StatusBefore(to))
    case QueryAfterCreate => Some(PreparingWorkspace)
    case Prepare(_) => Some(PreparingWorkspace)
    case AfterCreate => Some(PreparingWorkspace)
    case Render => Some(RenderingPrompt)
    case BeforeRun => Some(RenderingPrompt)
    case Mint => Some(StartingAgent)
    case HookFailed(_) => None
    case Failing(_, _) => None
    case _ => Some(Running)
  }

  predicate WellFormed(pc: Pc) {
    match pc
    case Check(next) => WellFormed(next) && !next.Returned?
    case Update(to, next) =>
      && (to.PreparingWorkspace? || to.RenderingPrompt? || to.StartingAgent? || to.Running?)
      && StatusAt(next) == Some(to) && WellFormed(next) && !next.Returned?
    case Failing(_, status) => status.Failed? || status.CompletedWithoutHandoff?
    case Turn(n) => n <= 1
    case _ => true
  }

  // How many turns a worker at `pc` can have taken.
  function TurnsAt(pc: Pc, wf: Workflow): int {
    match pc
    case Check(next) => TurnsAt(next, wf)
    case Update(_, next) => TurnsAt(next, wf)
    case Load => 0
    case QueryAfterCreate => 0
    case Prepare(_) => 0
    case AfterCreate => 0
    case Render => 0
    case BeforeRun => 0
    case Mint => 0
    case Turn(n) => if n <= wf.continuations then n else -1
    case _ => wf.maxTurns
  }

  ghost predicate WorkerOk(db: Db, r: RunId, w: Worker) {
    && r in db.runs && HardValid(w.wf) && WellFormed(w.pc) && w.turns <= TurnsAt(w.pc, w.wf)
    && (IsActive(db.runs[r].status) ==>
      w.pc != Returned(false) && (StatusAt(w.pc).Some? ==> db.runs[r].status == StatusAt(w.pc).value))
    && HoldsFacts(db, r, w.pc)
  }

  ghost predicate HoldsFacts(db: Db, r: RunId, pc: Pc)
    requires r in db.runs
  {
    match pc
    case Check(next) => HoldsFacts(db, r, next)
    case Update(_, next) => HoldsFacts(db, r, next)
    case Package(issue, handoff) => db.runs[r].issue == issue && r in db.handoffs && db.handoffs[r].id == handoff
    case Finish(p) => r in db.packets && db.packets[r].id == p
    case _ => true
  }

  ghost predicate CallOk(db: Db, c: Call) {
    c.run in db.runs && db.runs[c.run].issue == c.issue
  }

  ghost predicate SysInv(s: Sys) {
    && LegalLog(s.log)
    && (forall r {:trigger s.workers[r]} :: r in s.workers ==> WorkerOk(DbOf(s), r, s.workers[r]))
    && (forall c {:trigger CallOk(DbOf(s), c)} :: c in s.calls ==> CallOk(DbOf(s), c))
  }

  // What a worker can count on across somebody else's transaction.
  ghost predicate LeavesRun(db: Db, db': Db, r: RunId)
    requires r in db.runs
  {
    && r in db'.runs && db'.runs[r].issue == db.runs[r].issue
    && (db'.runs[r] == db.runs[r] || !IsActive(db'.runs[r].status))
    && (r in db.handoffs ==> r in db'.handoffs && db'.handoffs[r] == db.handoffs[r])
    && (r in db.packets ==> r in db'.packets && db'.packets[r] == db.packets[r])
  }

  lemma {:induction false} FactsLast(db: Db, db': Db, r: RunId, pc: Pc)
    requires r in db.runs && LeavesRun(db, db', r) && HoldsFacts(db, r, pc)
    ensures HoldsFacts(db', r, pc)
  {
    if pc.Check? || pc.Update? {
      FactsLast(db, db', r, pc.next);
    }
  }

  lemma WorkerUndisturbed(db: Db, db': Db, r: RunId, w: Worker)
    requires WorkerOk(db, r, w) && LeavesRun(db, db', r)
    ensures WorkerOk(db', r, w)
  {
    FactsLast(db, db', r, w.pc);
  }

  // A transaction leaves every run alone but the one that UpdateRunStatus advances.
  lemma StepLeavesRuns(db: Db, op: Op, r: RunId)
    requires Inv(db) && Legal(db, op) && r in db.runs
    requires op.OpAdvance? ==> op.r != r
    ensures LeavesRun(db, After(db, op), r)
  {
    StepKeeps(db, op);
    if op.OpAdvance? {
      hide Inv, Evolves;
      assert After(db, op).runs[r] == db.runs[r];
      assert After(db, op).handoffs == db.handoffs && After(db, op).packets == db.packets;
    } else {
      hide Inv, Legal, After;
    }
  }

  // Anybody's transaction, as long as it is legal and not another worker's own.
  lemma LogStepKeeps(s: Sys, op: Op)
    requires SysInv(s) && Legal(DbOf(s), op) && !op.OpAdvance?
    ensures SysInv(s.(log := s.log + [op]))
  {
    LogKeepsInvariant(s.log);
    LegalAppend(s.log, op);
    ReplayAppend(s.log, op);
    hide Legal, LegalLog, Replay, After, Inv, WorkerOk;
    var s' := s.(log := s.log + [op]);
    forall r | r in s.workers ensures WorkerOk(DbOf(s'), r, s.workers[r]) {
      WorkerIsOfARun(s, r);
      StepLeavesRuns(DbOf(s), op, r);
      WorkerUndisturbed(DbOf(s), DbOf(s'), r, s.workers[r]);
    }
    forall c | c in s'.calls ensures CallOk(DbOf(s'), c) {
      assert CallOk(DbOf(s), c);
      StepLeavesRuns(DbOf(s), op, c.run);
    }
  }

  lemma WorkerIsOfARun(s: Sys, r: RunId)
    requires SysInv(s) && r in s.workers
    ensures r in DbOf(s).runs
  {
  }

  lemma NewWorkerIsOk(db: Db, i: IssueId, r: RunId, wf: Workflow)
    requires HardValid(wf) && Claim(db, i, r, wf.maxConcurrent).Commit?
    ensures r !in db.runs && WorkerOk(Claim(db, i, r, wf.maxConcurrent).value, r, Worker(Load, 0, wf))
  {
    hide FieldsComplete, AttemptsOf, ActiveRuns, MaxOf, EffectiveLimit;
  }

  lemma DispatchKeeps(s: Sys, i: IssueId, r: RunId, wf: Workflow, s': Sys)
    requires SysInv(s) && DispatchStep(s, i, r, wf, s')
    ensures SysInv(s')
  {
    var op := OpClaim(i, r, wf.maxConcurrent);
    LogStepKeeps(s, op);
    ReplayAppend(s.log, op);
    if Exec(DbOf(s), op).Commit? {
      NewWorkerIsOk(DbOf(s), i, r, wf);
    }
    assert Exec(DbOf(s), op) == Claim(DbOf(s), i, r, wf.maxConcurrent);
    hide LegalLog, Replay, Inv, Exec, Claim, WorkerOk;
    var s1 := s.(log := s.log + [op]);
    forall c | c in s'.calls ensures CallOk(DbOf(s'), c) {
      assert CallOk(DbOf(s1), c);
    }
    forall q | q in s'.workers ensures WorkerOk(DbOf(s'), q, s'.workers[q]) {
      assert q in s.workers && s'.workers[q] == s.workers[q] ==> WorkerOk(DbOf(s1), q, s1.workers[q]);
    }
  }

  lemma CallKeeps(s: Sys, h: TokenHash, expired: bool, s': Sys)
    requires SysInv(s) && CallStep(s, h, expired, s')
    ensures SysInv(s')
  {
    LogKeepsInvariant(s.log);
    hide LegalLog, Replay, WorkerOk;
    var db := DbOf(s);
    assert CallOk(db, Call(db.tokens[h].run, db.tokens[h].issue)) by {
      assert ReferencesInv(db);
    }
  }

  // ---- A worker's own step.

  lemma {:induction false} AdvanceFacts(db: Db, db': Db, r: RunId, pc: Pc)
    requires r in db.runs && r in db'.runs && db'.runs[r].issue == db.runs[r].issue
    requires db'.handoffs == db.handoffs && db'.packets == db.packets && HoldsFacts(db, r, pc)
    ensures HoldsFacts(db', r, pc)
  {
    if pc.Check? || pc.Update? {
      AdvanceFacts(db, db', r, pc.next);
    }
  }

  // The shape of advanceRun's three calls.
  lemma AdvanceRunShape(db: Db, r: RunId, wf: Workflow, to: RunStatus, next: Pc)
    requires r in db.runs && WellFormed(next) && !next.Returned? && StatusAt(next) == Some(to)
    requires to.PreparingWorkspace? || to.RenderingPrompt? || to.StartingAgent? || to.Running?
    requires HoldsFacts(db, r, next)
    ensures var pc := AdvanceRun(to, next);
      WellFormed(pc) && StatusAt(pc) == Some(StatusBefore(to)) && TurnsAt(pc, wf) == TurnsAt(next, wf)
          && HoldsFacts(db, r, pc)
  {
    assert WellFormed(Check(next)) && HoldsFacts(db, r, Check(next)) && TurnsAt(Check(next), wf) == TurnsAt(next, wf);
    assert WellFormed(Update(to, Check(next))) && HoldsFacts(db, r, Update(to, Check(next)))
      && TurnsAt(Update(to, Check(next)), wf) == TurnsAt(next, wf);
  }

  lemma {:induction false} TurnsAreBounded(pc: Pc, wf: Workflow)
    requires HardValid(wf)
    ensures TurnsAt(pc, wf) <= wf.maxTurns
  {
    if pc.Check? || pc.Update? {
      TurnsAreBounded(pc.next, wf);
    }
  }

  predicate IsSetup(pc: Pc) {
    pc.Load? || pc.QueryAfterCreate? || pc.Prepare? || pc.AfterCreate? || pc.Render? || pc.BeforeRun?
  }

  // Steps that write nothing.
  lemma SetupKeeps(db: Db, r: RunId, w: Worker, luck: Luck)
    requires WorkerOk(db, r, w) && IsSetup(w.pc)
    ensures WorkerOk(db, r, Stepped(db, r, w, luck))
  {
    AdvanceRunShape(db, r, w.wf, PreparingWorkspace, QueryAfterCreate);
    AdvanceRunShape(db, r, w.wf, RenderingPrompt, Render);
    AdvanceRunShape(db, r, w.wf, StartingAgent, Mint);
    hide Exec, AdvanceRun;
    var w' := Stepped(db, r, w, luck);
    if w'.pc.Check? {
      assert WorkerOk(db, r, w'.(pc := w'.pc.next));
    }
  }

  lemma QuietStepKeeps(db: Db, r: RunId, w: Worker, luck: Luck)
    requires WorkerOk(db, r, w) && !w.pc.Returned? && !IsSetup(w.pc) && WorkerOp(r, w.pc, luck).None?
    ensures WorkerOk(db, r, Stepped(db, r, w, luck))
  {
    TurnsAreBounded(w.pc, w.wf);
    hide Exec;
    var w' := Stepped(db, r, w, luck);
    if !w.pc.Check? && w'.pc.Check? {
      assert WorkerOk(db, r, w'.(pc := w'.pc.next));
    }
  }

  lemma UpdateKeeps(db: Db, r: RunId, w: Worker, luck: Luck)
    requires Inv(db) && WorkerOk(db, r, w) && w.pc.Update?
    ensures WorkerOk(After(db, OpAdvance(r, w.pc.to)), r, w.(pc := WorkerNext(db, r, w.wf, w.pc, luck)))
  {
    assert RunOk(db, r);
    hide Inv, RunOk;
    TurnsAreBounded(w.pc, w.wf);
    AdvanceFacts(db, After(db, OpAdvance(r, w.pc.to)), r, w.pc.next);
  }

  lemma MintKeeps(db: Db, r: RunId, w: Worker, luck: Luck)
    requires Inv(db) && WorkerOk(db, r, w) && w.pc.Mint?
    ensures WorkerOk(After(db, OpMintToken(r, luck.h)), r, w.(pc := WorkerNext(db, r, w.wf, w.pc, luck)))
  {
    AdvanceRunShape(After(db, OpMintToken(r, luck.h)), r, w.wf, Running, Turn(0));
    hide Inv;
  }

  lemma PackageKeeps(db: Db, r: RunId, w: Worker, luck: Luck)
    requires Inv(db) && WorkerOk(db, r, w) && w.pc.Package? && luck.ok
    ensures WorkerOk(After(db, OpInsertPacket(w.pc.issue, r, w.pc.handoff, luck.p)), r,
                     w.(pc := WorkerNext(db, r, w.wf, w.pc, luck)))
  {
    hide Inv, MaxOf, PacketExists, HandoffIdTaken;
  }

  // Whatever FailRun and CompleteRunWithReview answer, the run is over afterwards: they refuse
  // only a run that has already ended.
  lemma FailingEndsRun(db: Db, r: RunId, code: FailureCode, status: RunStatus, now: Time)
    requires Inv(db) && r in db.runs && !IsActive(status)
    ensures var db' := After(db, OpFail(r, code, status, now)); r in db'.runs && !IsActive(db'.runs[r].status)
  {
    assert RunOk(db, r);
  }

  lemma FinishingEndsRun(db: Db, r: RunId, p: PacketId, now: Time)
    requires Inv(db) && r in db.runs && r in db.packets && db.packets[r].id == p
    ensures IsActive(db.runs[r].status) ==> Complete(db, r, p, now).Commit?
    ensures var db' := After(db, OpComplete(r, p, now)); r in db'.runs && !IsActive(db'.runs[r].status)
  {
    assert RunOk(db, r) && PacketOk(db, r);
  }

  lemma WorkerStepIsLegal(db: Db, r: RunId, w: Worker, luck: Luck)
    requires WorkerOk(db, r, w)
    ensures WorkerOp(r, w.pc, luck).Some? ==> Legal(db, WorkerOp(r, w.pc, luck).value)
  {
  }

  lemma OwnStepKeeps(db: Db, r: RunId, w: Worker, luck: Luck)
    requires Inv(db) && WorkerOk(db, r, w) && !w.pc.Returned?
    ensures var op := WorkerOp(r, w.pc, luck);
      WorkerOk(if op.Some? then After(db, op.value) else db, r,
               Stepped(db, r, w, luck))
  {
    hide Inv, After;
    match w.pc
    case Update(_, _) => UpdateKeeps(db, r, w, luck);
    case Mint => MintKeeps(db, r, w, luck);
    case Package(_, _) =>
      if luck.ok {
        PackageKeeps(db, r, w, luck);
      } else {
        QuietStepKeeps(db, r, w, luck);
      }
    case Finish(p) => FinishingEndsRun(db, r, p, luck.now);
    case Failing(code, status) => FailingEndsRun(db, r, code, status, luck.now);
    case _ =>
      if IsSetup(w.pc) {
        SetupKeeps(db, r, w, luck);
      } else {
        QuietStepKeeps(db, r, w, luck);
      }
  }

  lemma WorkKeeps(s: Sys, r: RunId, luck: Luck, s': Sys)
    requires SysInv(s) && WorkStep(s, r, luck, s')
    ensures SysInv(s')
  {
    var db, w := DbOf(s), s.workers[r];
    var op := WorkerOp(r, w.pc, luck);
    assert WorkerOk(db, r, w);
    LogKeepsInvariant(s.log);
    WorkerStepIsLegal(db, r, w, luck);
    OwnStepKeeps(db, r, w, luck);
    if op.Some? {
      ReplayAppend(s.log, op.value);
      LegalAppend(s.log, op.value);
      hide Legal, LegalLog, Replay, After, Inv, WorkerOk, WorkerNext, WorkerOp;
      forall q | q in s'.workers ensures WorkerOk(DbOf(s'), q, s'.workers[q]) {
        if q != r {
          WorkerIsOfARun(s, q);
          WorkerOpIsAboutItsRun(r, w.pc, luck);
          StepLeavesRuns(db, op.value, q);
          WorkerUndisturbed(db, DbOf(s'), q, s.workers[q]);
        }
      }
      forall c | c in s'.calls ensures CallOk(DbOf(s'), c) {
        assert CallOk(db, c);
        StepKeeps(db, op.value);
      }
    }
  }

  lemma WorkerOpIsAboutItsRun(r: RunId, pc: Pc, luck: Luck)
    ensures var op := WorkerOp(r, pc, luck); op.Some? && op.value.OpAdvance? ==> op.value.r == r
  {
  }

  // The protocol keeps its invariant under every interleaving.
  lemma NextKeeps(s: Sys, step: Step, s': Sys)
    requires SysInv(s) && Next(s, step, s')
    ensures SysInv(s')
  {
    match step
    case Dispatch(i, r, wf) => DispatchKeeps(s, i, r, wf, s');
    case Work(r, luck) => WorkKeeps(s, r, luck, s');
    case AgentCall(h, expired) => CallKeeps(s, h, expired, s');
    case AgentAct(call, op) =>
      assert CallOk(DbOf(s), call);
      LogStepKeeps(s, op);
    case Environment(op) => LogStepKeeps(s, op);
    case Crash(_, _) =>
      forall c | c in s'.calls ensures CallOk(DbOf(s'), c) {
        assert CallOk(DbOf(s), c);
      }
  }
}
