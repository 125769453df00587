// What becomes of a run whose worker nobody disturbs, as one decision on the answers that the outside
// world gives, from the first to the last.
module WorkerFates {
  import opened Domain
  import opened Transactions
  import opened Invariant
  import opened LifecycleTheorems
  import opened Protocol
  import opened ProtocolTheorems
  import opened ProtocolScenarios

  // What a turn comes to, and the handoff its agent submits during it, if any.
  datatype TurnAnswer = TurnAnswer(ok: bool, result: TurnResult, handoff: Option<(HandoffId, nat)>)

  // The answers to everything the worker asks the world. `h` and `p` are the fresh token and packet.
  datatype Answers = Answers(
    queryOk: bool, runHook: bool, prepareOk: bool, afterCreateOk: bool, renderOk: bool, beforeRunOk: bool,
    first: TurnAnswer, second: TurnAnswer, generateOk: bool, packageOk: bool,
    h: TokenHash, p: PacketId, now: Time)

  datatype Fate =
    | KeepsRunning
    | Ends(status: RunStatus, code: Option<FailureCode>)

  // ---- The decision.

  // The first thing that goes wrong decides.
  function FateOf(a: Answers, continuations: int): Fate {
    if !a.queryOk then Ends(Failed, Some(AfterCreateFailed))
    else if !a.prepareOk then Ends(Failed, Some(WorkspacePrepareFailed))
    else if a.runHook && !a.afterCreateOk then Ends(Failed, Some(AfterCreateFailed))
    else if !a.renderOk then Ends(Failed, Some(PromptRenderFailed))
    else if !a.beforeRunOk then Ends(Failed, Some(BeforeRunFailed))
    else FateFromTurns(a, continuations)
  }

  // A second turn is taken exactly when the first one misses its handoff and a continuation is allowed.
  function FateFromTurns(a: Answers, continuations: int): Fate {
    if !a.first.ok then Ends(Failed, Some(ToolGatewayFailed))
    else if a.first.result.TurnHeld? then KeepsRunning
    else if a.first.result.TurnMissingHandoff? && continuations > 0 then
      if !a.second.ok then Ends(Failed, Some(ToolGatewayFailed))
      else FateOfResult(a, a.second.result, a.first.handoff.Some? || a.second.handoff.Some?)
    else FateOfResult(a, a.first.result, a.first.handoff.Some?)
  }

  function FateOfResult(a: Answers, result: TurnResult, handed: bool): Fate {
    if result.TurnFailed? then Ends(Failed, if result.code.Some? then result.code else Some(CodexProtocolError))
    else if result.TurnMissingHandoff? || !handed then Ends(CompletedWithoutHandoff, Some(MissingHandoff))
    else if !a.generateOk || !a.packageOk then Ends(Failed, Some(ReviewPacketFailed))
    else Ends(Completed, None)
  }

  // ---- The worker, alone.

  datatype End = End(db: Db, pc: Pc, turns: nat)

  function LuckAt(a: Answers, pc: Pc): Luck {
    match pc
    case QueryAfterCreate => Luck(a.queryOk, a.runHook, TurnSucceeded, a.h, a.p, a.now)
    case Prepare(_) => Luck(a.prepareOk, false, TurnSucceeded, a.h, a.p, a.now)
    case AfterCreate => Luck(a.afterCreateOk, false, TurnSucceeded, a.h, a.p, a.now)
    case Render => Luck(a.renderOk, false, TurnSucceeded, a.h, a.p, a.now)
    case BeforeRun => Luck(a.beforeRunOk, false, TurnSucceeded, a.h, a.p, a.now)
    case Turn(n) =>
      var turn := if n == 0 then a.first else a.second;
      Luck(turn.ok, false, turn.result, a.h, a.p, a.now)
    case Generate => Luck(a.generateOk, false, TurnSucceeded, a.h, a.p, a.now)
    case Package(_, _) => Luck(a.packageOk, false, TurnSucceeded, a.h, a.p, a.now)
    case _ => Luck(true, false, TurnSucceeded, a.h, a.p, a.now)
  }

  // The database after the worker's step, and after what its agent did meanwhile.
  ghost function DbAfter(db: Db, r: RunId, pc: Pc, a: Answers): (db': Db)
    requires r in db.runs
    ensures r in db'.runs
  {
    if pc.Turn? then
      var turn := if pc.n == 0 then a.first else a.second;
      if turn.handoff.Some? then
        RunsStay(db, OpSubmitHandoff(db.runs[r].issue, r, turn.handoff.value.0, turn.handoff.value.1));
        After(db, OpSubmitHandoff(db.runs[r].issue, r, turn.handoff.value.0, turn.handoff.value.1))
      else db
    else
      var op := WorkerOp(r, pc, LuckAt(a, pc));
      if op.Some? then
        RunsStay(db, op.value);
        After(db, op.value)
      else db
  }

  lemma RunsStay(db: Db, op: Op)
    ensures forall r :: r in db.runs ==> r in After(db, op).runs
  {
    hide After;
    EveryStepTouchesOneIssue(db, op);
  }

  ghost function Alone(db: Db, r: RunId, wf: Workflow, pc: Pc, turns: nat, a: Answers): End
    requires r in db.runs
    decreases StepsLeft(pc)
  {
    if pc.Returned? then End(db, pc, turns)
    else
      EveryStepIsProgress(db, r, wf, pc, LuckAt(a, pc));
      Alone(DbAfter(db, r, pc, a), r, wf, WorkerNext(db, r, wf, pc, LuckAt(a, pc)),
            if pc.Turn? then turns + 1 else turns, a)
  }

  // ---- What the decision promises of the end.

  ghost predicate MeetsFate(e: End, r: RunId, fate: Fate) {
    && e.pc.Returned? && r in e.db.runs
    && match fate
       case KeepsRunning => e.pc == Returned(true) && e.db.runs[r].status.Running?
       case Ends(status, code) =>
         && e.pc == Returned(false) && e.db.runs[r].status == status && e.db.runs[r].code == code
         && (status.Completed? ==> StateIs(e.db, e.db.runs[r].issue, HumanReview))
  }

  // What the worker finds at any of its steps: its run active, nothing packaged yet, a fresh packet id.
  ghost predicate Sound(db: Db, r: RunId, a: Answers) {
    RunExists(db, r) && IsActive(db.runs[r].status) && r !in db.packets && !PacketExists(db, a.p)
  }

  lemma WithStatusStaysSound(db: Db, r: RunId, status: RunStatus, a: Answers)
    requires Sound(db, r, a) && IsActive(status)
    ensures Sound(WithStatus(db, r, status), r, a)
  {
    assert PacketExists(WithStatus(db, r, status), a.p) ==> PacketExists(db, a.p);
  }

  // ---- Stage by stage, from the last to the first.

  // The worker's next step, spelled out once.
  lemma OneStep(db: Db, r: RunId, wf: Workflow, pc: Pc, turns: nat, a: Answers)
    requires r in db.runs && !pc.Returned?
    ensures Alone(db, r, wf, pc, turns, a)
         == Alone(DbAfter(db, r, pc, a), r, wf, WorkerNext(db, r, wf, pc, LuckAt(a, pc)),
                  if pc.Turn? then turns + 1 else turns, a)
  {
    hide DbAfter, WorkerNext;
  }

  // A step without a store call.
  lemma QuietStep(db: Db, r: RunId, wf: Workflow, pc: Pc, turns: nat, a: Answers)
    requires r in db.runs && !pc.Returned? && !pc.Turn? && WorkerOp(r, pc, LuckAt(a, pc)).None?
    ensures Alone(db, r, wf, pc, turns, a) == Alone(db, r, wf, WorkerNext(db, r, wf, pc, LuckAt(a, pc)), turns, a)
  {
    OneStep(db, r, wf, pc, turns, a);
    hide Alone, WorkerNext;
  }

  lemma Fails(db: Db, r: RunId, wf: Workflow, turns: nat, a: Answers, code: FailureCode, status: RunStatus)
    requires Sound(db, r, a) && !status.Completed?
    ensures MeetsFate(Alone(db, r, wf, Failing(code, status), turns, a), r, Ends(status, Some(code)))
  {
    hide PacketExists;
    var e := Alone(db, r, wf, Failing(code, status), turns, a);
    assert e == Alone(DbAfter(db, r, Failing(code, status), a), r, wf, Returned(false), turns, a);
  }

  lemma CheckPasses(db: Db, r: RunId, wf: Workflow, next: Pc, turns: nat, a: Answers)
    requires r in db.runs && IsActive(db.runs[r].status)
    ensures Alone(db, r, wf, Check(next), turns, a) == Alone(db, r, wf, next, turns, a)
  {
    hide Alone, Exec;
    QuietStep(db, r, wf, Check(next), turns, a);
  }

  lemma HookFails(db: Db, r: RunId, wf: Workflow, turns: nat, a: Answers, code: FailureCode)
    requires Sound(db, r, a)
    ensures MeetsFate(Alone(db, r, wf, HookFailed(code), turns, a), r, Ends(Failed, Some(code)))
  {
    assert Alone(db, r, wf, HookFailed(code), turns, a) == Alone(db, r, wf, Check(Failing(code, Failed)), turns, a);
    hide Alone, MeetsFate, WorkerNext, PacketExists;
    CheckPasses(db, r, wf, Failing(code, Failed), turns, a);
    Fails(db, r, wf, turns, a, code, Failed);
  }

  lemma Advances3(db: Db, r: RunId, wf: Workflow, to: RunStatus, next: Pc, turns: nat, a: Answers)
    requires Sound(db, r, a) && IsActive(to)
    ensures Alone(db, r, wf, AdvanceRun(to, next), turns, a) == Alone(WithStatus(db, r, to), r, wf, next, turns, a)
  {
    CheckPasses(db, r, wf, Update(to, Check(next)), turns, a);
    UpdateGoesOn(db, r, wf, to, Check(next), turns, a);
    CheckPasses(WithStatus(db, r, to), r, wf, next, turns, a);
  }

  lemma UpdateGoesOn(db: Db, r: RunId, wf: Workflow, to: RunStatus, next: Pc, turns: nat, a: Answers)
    requires RunExists(db, r) && IsActive(db.runs[r].status) && IsActive(to)
    ensures Alone(db, r, wf, Update(to, next), turns, a) == Alone(WithStatus(db, r, to), r, wf, next, turns, a)
  {
    AdvanceEffect(db, r, to);
    hide Alone, Exec, After;
    OneStep(db, r, wf, Update(to, next), turns, a);
  }

  lemma AdvanceEffect(db: Db, r: RunId, to: RunStatus)
    requires RunExists(db, r) && IsActive(db.runs[r].status) && IsActive(to)
    ensures Exec(db, OpAdvance(r, to)) == Commit(WithStatus(db, r, to))
    ensures After(db, OpAdvance(r, to)) == WithStatus(db, r, to)
  {
  }

  lemma PackageEffect(db: Db, r: RunId, a: Answers)
    requires Sound(db, r, a) && r in db.handoffs
    ensures var op := OpInsertPacket(db.runs[r].issue, r, db.handoffs[r].id, a.p);
      && Exec(db, op).Commit? && RunExists(After(db, op), r) && After(db, op).runs == db.runs
      && Exec(After(db, op), OpComplete(r, a.p, a.now)).Commit?
      && var db' := After(After(db, op), OpComplete(r, a.p, a.now));
      && r in db'.runs && db'.runs[r].status.Completed? && db'.runs[r].code.None?
          && db'.runs[r].issue == db.runs[r].issue
      && StateIs(db', db.runs[r].issue, HumanReview)
  {
    hide MaxOf;
    assert HandoffIdTaken(db, db.handoffs[r].id);
    var packaged := After(db, OpInsertPacket(db.runs[r].issue, r, db.handoffs[r].id, a.p));
    assert r in packaged.packets && packaged.packets[r].id == a.p;
    assert PacketExists(packaged, a.p);
  }

  lemma Packages(db: Db, r: RunId, wf: Workflow, turns: nat, a: Answers)
    requires Sound(db, r, a) && r in db.handoffs
    ensures MeetsFate(Alone(db, r, wf, Package(db.runs[r].issue, db.handoffs[r].id), turns, a), r,
                      if a.packageOk then Ends(Completed, None) else Ends(Failed, Some(ReviewPacketFailed)))
  {
    var pc := Package(db.runs[r].issue, db.handoffs[r].id);
    OneStep(db, r, wf, pc, turns, a);
    if a.packageOk {
      PackageEffect(db, r, a);
      var db1 := After(db, OpInsertPacket(db.runs[r].issue, r, db.handoffs[r].id, a.p));
      OneStep(db1, r, wf, Finish(a.p), turns, a);
      hide InsertPacket, Complete, PacketExists;
    } else {
      hide MeetsFate, Alone;
      Fails(db, r, wf, turns, a, ReviewPacketFailed, Failed);
    }
  }

  lemma Finishes(db: Db, r: RunId, wf: Workflow, turns: nat, a: Answers, result: TurnResult)
    requires Sound(db, r, a)
    ensures MeetsFate(Alone(db, r, wf, Check(AfterRun(result)), turns, a), r, FateOfResult(a, result, r in db.handoffs))
  {
    hide Alone, MeetsFate, PacketExists, Exec;
    CheckPasses(db, r, wf, AfterRun(result), turns, a);
    QuietStep(db, r, wf, AfterRun(result), turns, a);
    CheckPasses(db, r, wf, Classify(result), turns, a);
    match result
    case TurnFailed(code) => Fails(db, r, wf, turns, a, if code.Some? then code.value else CodexProtocolError, Failed);
    case TurnMissingHandoff => Fails(db, r, wf, turns, a, MissingHandoff, CompletedWithoutHandoff);
    case _ =>
      QuietStep(db, r, wf, LoadHandoff, turns, a);
      if r in db.handoffs {
        CheckPasses(db, r, wf, Generate, turns, a);
        QuietStep(db, r, wf, Generate, turns, a);
        if a.generateOk {
          Packages(db, r, wf, turns, a);
        } else {
          Fails(db, r, wf, turns, a, ReviewPacketFailed, Failed);
        }
      } else {
        Fails(db, r, wf, turns, a, MissingHandoff, CompletedWithoutHandoff);
      }
  }

  // The handoff ids that the two turns submit are fresh and differ.
  ghost predicate FreshHandoffs(db: Db, a: Answers) {
    && (a.first.handoff.Some? ==> !HandoffIdTaken(db, a.first.handoff.value.0))
    && (a.second.handoff.Some? ==> !HandoffIdTaken(db, a.second.handoff.value.0))
    && (a.first.handoff.Some? && a.second.handoff.Some? ==> a.first.handoff.value.0 != a.second.handoff.value.0)
  }

  // A turn with a handoff leaves one, and nothing else changes.
  lemma TurnHandsOver(db: Db, r: RunId, n: nat, a: Answers)
    requires Sound(db, r, a) && n <= 1
    requires var turn := if n == 0 then a.first else a.second;
      turn.handoff.Some? && r !in db.handoffs ==> !HandoffIdTaken(db, turn.handoff.value.0)
    ensures var db', turn := DbAfter(db, r, Turn(n), a), if n == 0 then a.first else a.second;
      && db' == db.(handoffs := db'.handoffs) && Sound(db', r, a)
      && (r in db'.handoffs <==> r in db.handoffs || turn.handoff.Some?)
  {
    var db' := DbAfter(db, r, Turn(n), a);
    assert PacketExists(db', a.p) ==> PacketExists(db, a.p);
    hide HandoffIdTaken, PacketExists;
  }

  lemma SecondTurn(db: Db, r: RunId, wf: Workflow, a: Answers, turns: nat)
    requires Sound(db, r, a) && db.runs[r].status.Running?
    requires a.second.handoff.Some? && r !in db.handoffs ==> !HandoffIdTaken(db, a.second.handoff.value.0)
    ensures var e := Alone(db, r, wf, Turn(1), turns, a);
      MeetsFate(e, r, if !a.second.ok then Ends(Failed, Some(ToolGatewayFailed))
                      else FateOfResult(a, a.second.result, r in db.handoffs || a.second.handoff.Some?))
  {
    OneStep(db, r, wf, Turn(1), turns, a);
    TurnHandsOver(db, r, 1, a);
    var db' := DbAfter(db, r, Turn(1), a);
    hide Alone, MeetsFate, DbAfter, Sound, HandoffIdTaken;
    if a.second.ok {
      Finishes(db', r, wf, turns + 1, a, a.second.result);
    } else {
      Fails(db', r, wf, turns + 1, a, ToolGatewayFailed, Failed);
    }
  }

  lemma SecondIsFreshToo(db: Db, r: RunId, a: Answers)
    requires Sound(db, r, a) && r !in db.handoffs && FreshHandoffs(db, a)
    ensures var db' := DbAfter(db, r, Turn(0), a);
      a.second.handoff.Some? && r !in db'.handoffs ==> !HandoffIdTaken(db', a.second.handoff.value.0)
  {
    hide PacketExists;
  }

  lemma FirstTurn(db: Db, r: RunId, wf: Workflow, a: Answers)
    requires Sound(db, r, a) && db.runs[r].status.Running? && r !in db.handoffs && FreshHandoffs(db, a)
    ensures MeetsFate(Alone(db, r, wf, Turn(0), 0, a), r, FateFromTurns(a, wf.continuations))
  {
    OneStep(db, r, wf, Turn(0), 0, a);
    TurnHandsOver(db, r, 0, a);
    SecondIsFreshToo(db, r, a);
    var db' := DbAfter(db, r, Turn(0), a);
    hide DbAfter, Sound, HandoffIdTaken, FreshHandoffs, FateOfResult;
    if !a.first.ok {
      hide Alone, MeetsFate;
      Fails(db', r, wf, 1, a, ToolGatewayFailed, Failed);
    } else if a.first.result.TurnHeld? {
      assert Alone(db', r, wf, Returned(true), 1, a) == End(db', Returned(true), 1);
      hide Alone;
    } else if a.first.result.TurnMissingHandoff? && wf.continuations > 0 {
      hide Alone, MeetsFate;
      RunIsActive(db', r, a);
      CheckPasses(db', r, wf, Turn(1), 1, a);
      SecondTurn(db', r, wf, a, 1);
    } else {
      hide Alone, MeetsFate;
      Finishes(db', r, wf, 1, a, a.first.result);
    }
  }

  lemma RunIsActive(db: Db, r: RunId, a: Answers)
    requires Sound(db, r, a)
    ensures r in db.runs && IsActive(db.runs[r].status)
  {
    hide PacketExists;
  }

  lemma MintEffect(db: Db, r: RunId, a: Answers)
    requires Sound(db, r, a) && db.runs[r].status.StartingAgent? && a.h !in db.tokens
    requires r !in db.handoffs && FreshHandoffs(db, a)
    ensures var db' := DbAfter(db, r, Mint, a);
      && Sound(db', r, a) && r !in db'.handoffs && FreshHandoffs(db', a)
      && db' == db.(tokens := db'.tokens) && Exec(db, OpMintToken(r, a.h)).Commit?
  {
    var db' := DbAfter(db, r, Mint, a);
    assert PacketExists(db', a.p) ==> PacketExists(db, a.p);
    hide PacketExists;
  }

  lemma StartsAgent(db: Db, r: RunId, wf: Workflow, a: Answers)
    requires Sound(db, r, a) && a.h !in db.tokens && r !in db.handoffs && FreshHandoffs(db, a)
    ensures MeetsFate(Alone(db, r, wf, AdvanceRun(StartingAgent, Mint), 0, a), r, FateFromTurns(a, wf.continuations))
  {
    Advances3(db, r, wf, StartingAgent, Mint, 0, a);
    WithStatusStaysSound(db, r, StartingAgent, a);
    var db1 := WithStatus(db, r, StartingAgent);
    FreshAfterStatus(db, r, StartingAgent, a);
    MintEffect(db1, r, a);
    OneStep(db1, r, wf, Mint, 0, a);
    var db2 := DbAfter(db1, r, Mint, a);
    FreshAfterStatus(db2, r, Running, a);
    hide Alone, MeetsFate, AdvanceRun, DbAfter, FateFromTurns, FreshHandoffs;
    Advances3(db2, r, wf, Running, Turn(0), 0, a);
    WithStatusStaysSound(db2, r, Running, a);
    hide Sound, PacketExists;
    FirstTurn(WithStatus(db2, r, Running), r, wf, a);
  }

  lemma FreshAfterStatus(db: Db, r: RunId, status: RunStatus, a: Answers)
    requires r in db.runs && FreshHandoffs(db, a)
    ensures FreshHandoffs(WithStatus(db, r, status), a)
  {
  }

  lemma Starts(db: Db, r: RunId, wf: Workflow, a: Answers)
    requires Sound(db, r, a) && a.h !in db.tokens && r !in db.handoffs && FreshHandoffs(db, a)
    ensures MeetsFate(Alone(db, r, wf, BeforeRun, 0, a), r,
      if !a.beforeRunOk then Ends(Failed, Some(BeforeRunFailed)) else FateFromTurns(a, wf.continuations))
  {
    RunIsActive(db, r, a);
    hide Alone, MeetsFate, FateFromTurns, FreshHandoffs, Sound, Exec;
    QuietStep(db, r, wf, BeforeRun, 0, a);
    if a.beforeRunOk {
      StartsAgent(db, r, wf, a);
    } else {
      HookFails(db, r, wf, 0, a, BeforeRunFailed);
    }
  }

  lemma Renders(db: Db, r: RunId, wf: Workflow, a: Answers)
    requires Sound(db, r, a) && a.h !in db.tokens && r !in db.handoffs && FreshHandoffs(db, a)
    ensures MeetsFate(Alone(db, r, wf, Render, 0, a), r,
      if !a.renderOk then Ends(Failed, Some(PromptRenderFailed))
      else if !a.beforeRunOk then Ends(Failed, Some(BeforeRunFailed))
      else FateFromTurns(a, wf.continuations))
  {
    RunIsActive(db, r, a);
    hide Alone, MeetsFate, FateFromTurns, FreshHandoffs, Sound, Exec;
    QuietStep(db, r, wf, Render, 0, a);
    if a.renderOk {
      CheckPasses(db, r, wf, BeforeRun, 0, a);
      Starts(db, r, wf, a);
    } else {
      Fails(db, r, wf, 0, a, PromptRenderFailed, Failed);
    }
  }

  lemma RendersAndStarts(db: Db, r: RunId, wf: Workflow, a: Answers)
    requires Sound(db, r, a) && a.h !in db.tokens && r !in db.handoffs && FreshHandoffs(db, a)
    ensures MeetsFate(Alone(db, r, wf, AdvanceRun(RenderingPrompt, Render), 0, a), r,
      if !a.renderOk then Ends(Failed, Some(PromptRenderFailed))
      else if !a.beforeRunOk then Ends(Failed, Some(BeforeRunFailed))
      else FateFromTurns(a, wf.continuations))
  {
    Advances3(db, r, wf, RenderingPrompt, Render, 0, a);
    WithStatusStaysSound(db, r, RenderingPrompt, a);
    FreshAfterStatus(db, r, RenderingPrompt, a);
    hide Alone, MeetsFate, AdvanceRun, FateFromTurns, FreshHandoffs, Sound;
    Renders(WithStatus(db, r, RenderingPrompt), r, wf, a);
  }

  lemma HookRuns(db: Db, r: RunId, wf: Workflow, a: Answers)
    requires Sound(db, r, a) && a.h !in db.tokens && r !in db.handoffs && FreshHandoffs(db, a)
    ensures MeetsFate(Alone(db, r, wf, AfterCreate, 0, a), r,
      if !a.afterCreateOk then Ends(Failed, Some(AfterCreateFailed))
      else if !a.renderOk then Ends(Failed, Some(PromptRenderFailed))
      else if !a.beforeRunOk then Ends(Failed, Some(BeforeRunFailed))
      else FateFromTurns(a, wf.continuations))
  {
    RunIsActive(db, r, a);
    hide Alone, MeetsFate, AdvanceRun, FateFromTurns, FreshHandoffs, Sound, Exec;
    QuietStep(db, r, wf, AfterCreate, 0, a);
    if a.afterCreateOk {
      CheckPasses(db, r, wf, AdvanceRun(RenderingPrompt, Render), 0, a);
      RendersAndStarts(db, r, wf, a);
    } else {
      HookFails(db, r, wf, 0, a, AfterCreateFailed);
    }
  }

  lemma Prepared(db: Db, r: RunId, wf: Workflow, a: Answers)
    requires Sound(db, r, a) && a.h !in db.tokens && r !in db.handoffs && FreshHandoffs(db, a) && a.queryOk
        && a.prepareOk
    ensures MeetsFate(Alone(db, r, wf,
        Check(if a.runHook then AfterCreate else AdvanceRun(RenderingPrompt, Render)), 0, a),
                      r, FateOf(a, wf.continuations))
  {
    RunIsActive(db, r, a);
    hide Alone, MeetsFate, AdvanceRun, FateFromTurns, FreshHandoffs, Sound;
    if a.runHook {
      CheckPasses(db, r, wf, AfterCreate, 0, a);
      HookRuns(db, r, wf, a);
    } else {
      CheckPasses(db, r, wf, AdvanceRun(RenderingPrompt, Render), 0, a);
      RendersAndStarts(db, r, wf, a);
    }
  }

  lemma Prepares(db: Db, r: RunId, wf: Workflow, a: Answers)
    requires Sound(db, r, a) && a.h !in db.tokens && r !in db.handoffs && FreshHandoffs(db, a)
    ensures MeetsFate(Alone(db, r, wf, QueryAfterCreate, 0, a), r, FateOf(a, wf.continuations))
  {
    RunIsActive(db, r, a);
    hide Alone, MeetsFate, FateFromTurns, FreshHandoffs, Sound, Exec;
    QuietStep(db, r, wf, QueryAfterCreate, 0, a);
    if !a.queryOk {
      Fails(db, r, wf, 0, a, AfterCreateFailed, Failed);
    } else {
      QuietStep(db, r, wf, Prepare(a.runHook), 0, a);
      if a.prepareOk {
        hide FateOf;
        Prepared(db, r, wf, a);
      } else {
        Fails(db, r, wf, 0, a, WorkspacePrepareFailed, Failed);
      }
    }
  }

  // A claimed run whose worker nobody disturbs ends as the answers say.
  lemma UndisturbedRunsMeetTheirFate(db: Db, r: RunId, wf: Workflow, a: Answers)
    requires Inv(db) && r in db.runs && db.runs[r].status.Pending? && r !in db.handoffs
    requires a.h !in db.tokens && !PacketExists(db, a.p) && FreshHandoffs(db, a)
    ensures MeetsFate(Alone(db, r, wf, Load, 0, a), r, FateOf(a, wf.continuations))
  {
    assert RunOk(db, r);
    assert r in db.packets ==> PacketOk(db, r);
    hide Inv, PacketExists;
    OneStep(db, r, wf, Load, 0, a);
    Advances3(db, r, wf, PreparingWorkspace, QueryAfterCreate, 0, a);
    WithStatusStaysSound(db, r, PreparingWorkspace, a);
    FreshAfterStatus(db, r, PreparingWorkspace, a);
    hide Alone, MeetsFate, AdvanceRun, FateOf, FreshHandoffs, Sound;
    Prepares(WithStatus(db, r, PreparingWorkspace), r, wf, a);
  }
}
