// How to build behaviours of the protocol step by step: what a worker can be led to do.
module ProtocolScenarios {
  import opened Domain
  import opened Transactions
  import opened Invariant
  import opened Protocol
  import opened ProtocolTheorems

  const WORKFLOW := Workflow(1, 0, 1)

  // Some behaviour ends in this state.
  ghost predicate Reachable(s: Sys) {
    exists ss, steps {:trigger Behavior(ss, steps)} :: Behavior(ss, steps) && ss[|steps|] == s
  }

  lemma HistoryOf(s: Sys) returns (ss: seq<Sys>, steps: seq<Step>)
    requires Reachable(s)
    ensures Behavior(ss, steps) && |ss| == |steps| + 1 && ss[|steps|] == s
  {
    ss, steps :| Behavior(ss, steps) && ss[|steps|] == s;
  }

  lemma NothingHasHappened()
    ensures Reachable(Sys([], map[], {}))
  {
    assert Behavior([Sys([], map[], {})], []);
  }

  lemma Extends(ss: seq<Sys>, steps: seq<Step>, step: Step, s': Sys)
    requires Behavior(ss, steps) && Next(ss[|steps|], step, s')
    ensures Behavior(ss + [s'], steps + [step])
  {
    hide Next;
    var ss', steps' := ss + [s'], steps + [step];
    forall k | 0 <= k < |steps'| ensures NextAt(ss', steps', k) {
      assert k < |steps| ==> NextAt(ss, steps, k);
    }
  }

  lemma OneStepMore(s: Sys, step: Step, s': Sys)
    requires Reachable(s) && Next(s, step, s')
    ensures Reachable(s')
  {
    var ss, steps :| Behavior(ss, steps) && ss[|steps|] == s;
    Extends(ss, steps, step, s');
  }

  type Workers = map<RunId, Worker>

  // The state is reachable, holds this database, and worker r is at `pc` while the others wait.
  ghost predicate IsAt(s: Sys, db: Db, others: Workers, r: RunId, pc: Pc, turns: nat) {
    Reachable(s) && DbOf(s) == db && s.workers == others[r := Worker(pc, turns, WORKFLOW)]
  }

  lemma Works(s: Sys, db: Db, others: Workers, r: RunId, pc: Pc, turns: nat, luck: Luck) returns (s': Sys)
    requires IsAt(s, db, others, r, pc, turns) && r in db.runs && !pc.Returned?
    ensures IsAt(s', if WorkerOp(r, pc, luck).Some? then After(db, WorkerOp(r, pc, luck).value) else db,
                 others, r, WorkerNext(db, r, WORKFLOW, pc, luck), if pc.Turn? then turns + 1 else turns)
  {
    hide WorkerOp, WorkerNext, Replay, After;
    var op := WorkerOp(r, pc, luck);
    s' := Sys(if op.Some? then s.log + [op.value] else s.log,
              s.workers[r := Stepped(db, r, s.workers[r], luck)], s.calls);
    assert Next(s, Work(r, luck), s');
    OneStepMore(s, Work(r, luck), s');
    if op.Some? {
      ReplayAppend(s.log, op.value);
    }
  }

  // A step at which everything goes well.
  function Lucky(flag: bool, h: TokenHash, p: PacketId, now: Time): Luck {
    Luck(true, flag, TurnSucceeded, h, p, now)
  }

  const WELL := Lucky(false, 0, 0, 0)

  ghost function WithStatus(db: Db, r: RunId, status: RunStatus): Db
    requires r in db.runs
  {
    WithRun(db, r, db.runs[r].(status := status))
  }

  lemma StatusIsSet(db: Db, r: RunId, status: RunStatus)
    requires RunExists(db, r)
    ensures RunExists(WithStatus(db, r, status), r) && WithStatus(db, r, status).runs[r].status == status
  {
  }

  lemma Advances(s: Sys, db: Db, others: Workers, r: RunId, to: RunStatus, next: Pc, turns: nat) returns (s': Sys)
    requires IsAt(s, db, others, r, AdvanceRun(to, next), turns) && RunExists(db, r)
    requires IsActive(db.runs[r].status) && IsActive(to)
    ensures IsAt(s', WithStatus(db, r, to), others, r, next, turns)
  {
    hide IsAt;
    s' := Works(s, db, others, r, AdvanceRun(to, next), turns, WELL);
    s' := Works(s', db, others, r, Update(to, Check(next)), turns, WELL);
    s' := Works(s', WithStatus(db, r, to), others, r, Check(next), turns, WELL);
  }

  lemma StatusIsOverwritten(db: Db, r: RunId, a: RunStatus, b: RunStatus)
    requires r in db.runs
    ensures WithStatus(WithStatus(db, r, a), r, b) == WithStatus(db, r, b)
  {
  }

  // A claimed run, as far as the workspace is prepared.
  lemma GetsItsWorkspace(s: Sys, db: Db, others: Workers, r: RunId) returns (s': Sys)
    requires IsAt(s, db, others, r, Load, 0) && RunExists(db, r) && db.runs[r].status.Pending?
    ensures IsAt(s', WithStatus(db, r, PreparingWorkspace), others, r, AdvanceRun(RenderingPrompt, Render), 0)
  {
    StatusIsSet(db, r, PreparingWorkspace);
    hide IsAt, After, AdvanceRun, WithStatus;
    var preparing := WithStatus(db, r, PreparingWorkspace);
    s' := Works(s, db, others, r, Load, 0, WELL);
    s' := Advances(s', db, others, r, PreparingWorkspace, QueryAfterCreate, 0);
    s' := PreparesIt(s', preparing, others, r);
  }

  lemma PreparesIt(s: Sys, preparing: Db, others: Workers, r: RunId) returns (s': Sys)
    requires IsAt(s, preparing, others, r, QueryAfterCreate, 0)
    requires RunExists(preparing, r) && IsActive(preparing.runs[r].status)
    ensures IsAt(s', preparing, others, r, AdvanceRun(RenderingPrompt, Render), 0)
  {
    hide IsAt, After, AdvanceRun;
    s' := Works(s, preparing, others, r, QueryAfterCreate, 0, WELL);
    s' := Works(s', preparing, others, r, Prepare(false), 0, WELL);
    s' := Works(s', preparing, others, r, Check(AdvanceRun(RenderingPrompt, Render)), 0, WELL);
  }

  lemma RendersItsPrompt(s: Sys, db: Db, others: Workers, r: RunId) returns (s': Sys)
    requires IsAt(s, db, others, r, AdvanceRun(RenderingPrompt, Render), 0) && RunExists(db, r)
        && IsActive(db.runs[r].status)
    ensures IsAt(s', WithStatus(db, r, RenderingPrompt), others, r, BeforeRun, 0)
  {
    StatusIsSet(db, r, RenderingPrompt);
    hide IsAt, After, AdvanceRun, WithStatus;
    var rendering := WithStatus(db, r, RenderingPrompt);
    s' := Advances(s, db, others, r, RenderingPrompt, Render, 0);
    s' := Works(s', rendering, others, r, Render, 0, WELL);
    s' := Works(s', rendering, others, r, Check(BeforeRun), 0, WELL);
  }

  lemma ReachesItsAgent(s: Sys, db: Db, others: Workers, r: RunId) returns (s': Sys)
    requires IsAt(s, db, others, r, BeforeRun, 0) && RunExists(db, r) && IsActive(db.runs[r].status)
    ensures IsAt(s', WithStatus(db, r, StartingAgent), others, r, Mint, 0)
  {
    hide IsAt, After, WithStatus;
    s' := Works(s, db, others, r, BeforeRun, 0, WELL);
    hide AdvanceRun;
    s' := Advances(s', db, others, r, StartingAgent, Mint, 0);
  }

  // The database once run r is running with token h.
  ghost function WithAgent(db: Db, r: RunId, h: TokenHash): Db
    requires r in db.runs
  {
    var running := WithStatus(db, r, Running);
    running.(tokens := running.tokens[h := Token(r, db.runs[r].issue, false)])
  }

  // A claimed run can be brought as far as its agent's first turn.
  lemma StartsItsAgent(s: Sys, db: Db, others: Workers, r: RunId, h: TokenHash) returns (s': Sys)
    requires IsAt(s, db, others, r, Load, 0) && RunExists(db, r) && db.runs[r].status.Pending? && h !in db.tokens
    ensures IsAt(s', WithAgent(db, r, h), others, r, Turn(0), 0)
  {
    hide IsAt, AdvanceRun;
    StatusIsOverwritten(db, r, PreparingWorkspace, RenderingPrompt);
    StatusIsOverwritten(db, r, RenderingPrompt, StartingAgent);
    s' := GetsItsWorkspace(s, db, others, r);
    s' := RendersItsPrompt(s', WithStatus(db, r, PreparingWorkspace), others, r);
    s' := ReachesItsAgent(s', WithStatus(db, r, RenderingPrompt), others, r);
    var starting := WithStatus(db, r, StartingAgent);
    var minted := starting.(tokens := starting.tokens[h := Token(r, db.runs[r].issue, false)]);
    s' := Works(s', starting, others, r, Mint, 0, Lucky(false, h, 0, 0));
    hide After;
    s' := Advances(s', minted, others, r, Running, Turn(0), 0);
    assert WithStatus(minted, r, Running) == WithAgent(db, r, h);
  }

  lemma Environs(s: Sys, op: Op) returns (s': Sys)
    requires Reachable(s) && EnvironmentOp(op)
    ensures Reachable(s') && DbOf(s') == After(DbOf(s), op) && s'.workers == s.workers && s'.calls == s.calls
  {
    hide Reachable, Replay, After;
    s' := s.(log := s.log + [op]);
    assert Next(s, Environment(op), s');
    OneStepMore(s, Environment(op), s');
    ReplayAppend(s.log, op);
  }

  lemma Dispatches(s: Sys, db: Db, i: IssueId, r: RunId) returns (s': Sys)
    requires Reachable(s) && DbOf(s) == db && Exec(db, OpClaim(i, r, 1)).Commit?
    ensures IsAt(s', After(db, OpClaim(i, r, 1)), s.workers, r, Load, 0)
  {
    hide Reachable, Replay, After, Exec;
    var op := OpClaim(i, r, 1);
    s' := Sys(s.log + [op], s.workers[r := Worker(Load, 0, WORKFLOW)], s.calls);
    assert Next(s, Dispatch(i, r, WORKFLOW), s');
    OneStepMore(s, Dispatch(i, r, WORKFLOW), s');
    ReplayAppend(s.log, op);
  }

  ghost function WithHandoff(db: Db, r: RunId, id: HandoffId, hash: nat): Db
    requires r in db.runs
  {
    db.(handoffs := db.handoffs[r := Handoff(id, db.runs[r].issue, hash)])
  }

  // The agent of a running run hands over through the gateway, with its token.
  lemma AgentHandsOver(s: Sys, db: Db, r: RunId, h: TokenHash, id: HandoffId, hash: nat) returns (s': Sys)
    requires Reachable(s) && DbOf(s) == db && RunExists(db, r) && db.runs[r].status.Running?
    requires h in db.tokens && db.tokens[h] == Token(r, db.runs[r].issue, false)
    requires r !in db.handoffs && !HandoffIdTaken(db, id)
    ensures Reachable(s') && DbOf(s') == WithHandoff(db, r, id, hash) && s'.workers == s.workers
  {
    hide Reachable, Replay, HandoffIdTaken;
    var call, op := Call(r, db.runs[r].issue), OpSubmitHandoff(db.runs[r].issue, r, id, hash);
    var called := s.(calls := s.calls + {call});
    assert Next(s, AgentCall(h, false), called);
    OneStepMore(s, AgentCall(h, false), called);
    s' := called.(log := called.log + [op]);
    assert Next(called, AgentAct(call, op), s');
    OneStepMore(called, AgentAct(call, op), s');
    ReplayAppend(called.log, op);
  }

  // After a turn that ends well with a handoff, the worker gets as far as past its last look at its run.
  lemma GetsPastItsLastLook(s: Sys, db: Db, others: Workers, r: RunId) returns (s': Sys)
    requires IsAt(s, db, others, r, Turn(0), 0) && r in db.runs && db.runs[r].status.Running? && r in db.handoffs
    ensures IsAt(s', db, others, r, Package(db.runs[r].issue, db.handoffs[r].id), 1)
  {
    hide IsAt, After;
    s' := Works(s, db, others, r, Turn(0), 0, WELL);
    s' := Works(s', db, others, r, Check(AfterRun(TurnSucceeded)), 1, WELL);
    s' := Works(s', db, others, r, AfterRun(TurnSucceeded), 1, WELL);
    s' := Works(s', db, others, r, Check(LoadHandoff), 1, WELL);
    s' := Works(s', db, others, r, LoadHandoff, 1, WELL);
    s' := Works(s', db, others, r, Check(Generate), 1, WELL);
    s' := Works(s', db, others, r, Generate, 1, WELL);
  }
}
