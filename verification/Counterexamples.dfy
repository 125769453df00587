// Claims about the run lifecycle that look right and are not, each refuted by a behaviour of the
// protocol, with the exact condition under which it holds.
module LifecycleCounterexamples {
  import opened Domain
  import opened Text
  import opened Sequences
  import opened Transactions
  import opened Invariant
  import opened LifecycleTheorems
  import opened ApprovalTheorems
  import opened Protocol
  import opened ProtocolTheorems
  import opened ProtocolScenarios

  // ---- The rows of one issue that is claimed first by run 1 and then by run 2.

  const GIVEN := Fields("title", "text", 1, [])

  function InboxIssue(): Issue {
    Issue(Inbox, false, false, NewFields(GIVEN), {}, None, None, None)
  }

  ghost function Project(issue: Issue, runs: map<RunId, Run>, tokens: map<TokenHash, Token>,
                         handoffs: map<RunId, Handoff>, packets: map<RunId, Packet>): Db
  {
    Db(map[0 := issue], runs, tokens, handoffs, packets, map[])
  }

  const FIRST := Run(0, 1, Pending, Ready, None, None)
  const CANCELLED := Run(0, 1, RunCancelled, Ready, Some(OperatorCancelled), Some(0))
  const SECOND := Run(0, 2, Pending, Ready, None, None)
  const COMPLETED := Run(0, 2, Completed, Ready, None, Some(0))

  const FIRST_TOKEN := Token(1, 0, false)
  const REVOKED := Token(1, 0, true)
  const SECOND_TOKEN := Token(2, 0, false)

  const OLD_HANDOFF := Handoff(10, 0, 7)
  const NEW_HANDOFF := Handoff(20, 0, 8)
  const NEW_PACKET := Packet(200, 0, 20, 1, Generated)
  const OLD_PACKET := Packet(100, 0, 10, 2, Generated)

  // ---- The databases on the way.

  ghost function Created(): Db {
    Project(InboxIssue(), map[], map[], map[], map[])
  }

  ghost function Readied(): Db {
    Project(InboxIssue().(state := Ready), map[], map[], map[], map[])
  }

  ghost function FirstClaimed(): Db {
    Project(InboxIssue().(state := Working, latestRun := Some(1)), map[1 := FIRST], map[], map[], map[])
  }

  ghost function FirstRunning(): Db {
    WithAgent(FirstClaimed(), 1, 11)
  }

  ghost function FirstHandedOver(): Db {
    WithHandoff(FirstRunning(), 1, 10, 7)
  }

  ghost function FirstCancelled(): Db {
    Project(InboxIssue().(state := Ready, paused := true, latestRun := Some(1)), map[1 := CANCELLED],
            map[11 := REVOKED], map[1 := OLD_HANDOFF], map[])
  }

  ghost function Resumed(): Db {
    Project(InboxIssue().(state := Ready, latestRun := Some(1)), map[1 := CANCELLED],
            map[11 := REVOKED], map[1 := OLD_HANDOFF], map[])
  }

  ghost function SecondClaimed(): Db {
    Project(InboxIssue().(state := Working, latestRun := Some(2)), map[1 := CANCELLED, 2 := SECOND],
            map[11 := REVOKED], map[1 := OLD_HANDOFF], map[])
  }

  ghost function SecondHandedOver(): Db {
    WithHandoff(WithAgent(SecondClaimed(), 2, 12), 2, 20, 8)
  }

  ghost function WithPackets(latest: PacketId, packets: map<RunId, Packet>): Db {
    SecondHandedOver().(
      issues := map[0 := InboxIssue().(state := Working, latestRun := Some(2), latestPacket := Some(latest))],
      packets := packets)
  }

  ghost function BothPackaged(): Db {
    WithPackets(100, map[2 := NEW_PACKET, 1 := OLD_PACKET])
  }

  ghost function Stuck(): Db {
    WithReview(BothPackaged(), 2, 200, 0)
  }

  // ---- What each transaction does on the way.

  lemma Creates()
    ensures After(EMPTY_DB, OpCreateIssue(0, GIVEN)) == Created() && FieldsComplete(NewFields(GIVEN))
  {
    TrimNothing("title");
    TrimNothing("text");
    hide TrimSpace, FieldsComplete;
    assert CreateIssue(EMPTY_DB, 0, GIVEN).Commit?;
    DescribedIssuesAreComplete(EMPTY_DB, 0, GIVEN);
  }

  lemma Readies()
    ensures After(Created(), OpTransition(0, Ready, "", None, 0)) == Readied()
  {
    Creates();
    hide FieldsComplete, NewFields, TrimSpace;
    assert ActiveRunOf(Created(), 0).None?;
  }

  lemma FirstIsClaimed()
    ensures Exec(Readied(), OpClaim(0, 1, 1)) == Commit(FirstClaimed())
  {
    Creates();
    hide FieldsComplete, NewFields;
    assert AttemptsOf(Readied(), 0) == {} && ActiveRuns(Readied()) == {};
    assert Claimed(Readied(), 0, 1) == FirstClaimed();
  }

  lemma FirstIsCancelled()
    ensures After(FirstHandedOver(), OpCancel(1, 0)) == FirstCancelled()
  {
    hide NewFields;
  }

  lemma DispatchResumes()
    ensures After(FirstCancelled(), OpSetPaused(0, "go", false)) == Resumed()
  {
    hide NewFields, TrimSpace;
    assert !Blank("go") by {
      TrimNothing("go");
    }
    assert !HasActiveRun(FirstCancelled(), 0);
  }

  lemma SecondIsClaimed()
    ensures Exec(Resumed(), OpClaim(0, 2, 1)) == Commit(SecondClaimed())
  {
    Creates();
    hide FieldsComplete, NewFields;
    assert AttemptsOf(Resumed(), 0) == {1} by {
      assert Resumed().runs[1].attempt == 1;
    }
    assert ActiveRuns(Resumed()) == {} && !HasActiveRun(Resumed(), 0);
    assert Claimed(Resumed(), 0, 2) == SecondClaimed();
  }

  lemma SecondPackages()
    ensures 2 in SecondHandedOver().runs && Exec(SecondHandedOver(), OpInsertPacket(0, 2, 20, 200)).Commit?
    ensures After(SecondHandedOver(), OpInsertPacket(0, 2, 20, 200)) == WithPackets(200, map[2 := NEW_PACKET])
  {
    hide NewFields;
    assert PacketNumbersOf(SecondHandedOver(), 0) == {} && SecondHandedOver().handoffs[2].id == 20;
  }

  lemma FirstPackagesToo()
    ensures var db := WithPackets(200, map[2 := NEW_PACKET]);
      && 1 in db.runs && Exec(db, OpInsertPacket(0, 1, 10, 100)).Commit?
      && After(db, OpInsertPacket(0, 1, 10, 100)) == BothPackaged()
  {
    hide NewFields;
    var db := WithPackets(200, map[2 := NEW_PACKET]);
    assert PacketNumbersOf(db, 0) == {1} by {
      assert db.packets[2].no == 1;
    }
    assert db.handoffs[1].id == 10;
  }

  lemma SecondCompletes()
    ensures After(BothPackaged(), OpComplete(2, 200, 0)) == Stuck()
  {
    hide NewFields;
    assert BothPackaged().packets[2].id == 200;
  }

  // ---- A behaviour in which an issue is stuck in Human Review.

  lemma FirstIsDispatched() returns (s: Sys)
    ensures IsAt(s, FirstClaimed(), map[], 1, Load, 0)
  {
    NothingHasHappened();
    s := Sys([], map[], {});
    Creates();
    Readies();
    FirstIsClaimed();
    hide Created, Readied, FirstClaimed, Reachable;
    s := Environs(s, OpCreateIssue(0, GIVEN));
    s := Environs(s, OpTransition(0, Ready, "", None, 0));
    s := Dispatches(s, Readied(), 0, 1);
  }

  lemma FirstStarts() returns (s: Sys)
    ensures IsAt(s, FirstRunning(), map[], 1, Turn(0), 0)
  {
    hide IsAt, NewFields, WithAgent;
    s := FirstIsDispatched();
    s := StartsItsAgent(s, FirstClaimed(), map[], 1, 11);
  }

  // The first run's worker is past its last look at its run, with its packet still to insert.
  lemma FirstRunGetsThere() returns (s: Sys)
    ensures IsAt(s, FirstHandedOver(), map[], 1, Package(0, 10), 1)
  {
    hide Reachable, NewFields;
    s := FirstStarts();
    s := AgentHandsOver(s, FirstRunning(), 1, 11, 10, 7);
    s := GetsPastItsLastLook(s, FirstHandedOver(), map[], 1);
  }

  // The operator cancels it and resumes dispatch, and the second run's worker gets as far.
  lemma SecondRunGetsThere() returns (s: Sys)
    ensures IsAt(s, SecondHandedOver(), map[1 := Worker(Package(0, 10), 1, WORKFLOW)], 2, Package(0, 20), 1)
  {
    FirstIsCancelled();
    DispatchResumes();
    SecondIsClaimed();
    hide FirstHandedOver, FirstCancelled, Resumed, SecondClaimed, Reachable;
    s := FirstRunGetsThere();
    s := Environs(s, OpCancel(1, 0));
    s := Environs(s, OpSetPaused(0, "go", false));
    s := Dispatches(s, Resumed(), 0, 2);
    s := SecondAgentWorks(s, map[1 := Worker(Package(0, 10), 1, WORKFLOW)]);
  }

  lemma SecondAgentWorks(s: Sys, others: Workers) returns (s': Sys)
    requires IsAt(s, SecondClaimed(), others, 2, Load, 0)
    ensures IsAt(s', SecondHandedOver(), others, 2, Package(0, 20), 1)
  {
    hide Reachable, NewFields;
    s' := StartsItsAgent(s, SecondClaimed(), others, 2, 12);
    s' := AgentHandsOver(s', WithAgent(SecondClaimed(), 2, 12), 2, 12, 20, 8);
    s' := GetsPastItsLastLook(s', SecondHandedOver(), others, 2);
  }

  // The same state, seen from another worker.
  lemma SeenFrom(s: Sys, db: Db, r: RunId, w: Worker, q: RunId, pc: Pc, turns: nat)
    requires IsAt(s, db, map[q := Worker(pc, turns, WORKFLOW)], r, w.pc, w.turns) && w.wf == WORKFLOW && r != q
    ensures IsAt(s, db, map[r := w], q, pc, turns)
  {
    hide Reachable, Replay;
  }

  // Both workers insert their packets, the stale one last.
  lemma BothWorkersPackage() returns (s: Sys)
    ensures IsAt(s, BothPackaged(), map[1 := Worker(Finish(100), 1, WORKFLOW)], 2, Finish(200), 1)
  {
    SecondPackages();
    FirstPackagesToo();
    hide IsAt, After, SecondHandedOver, WithPackets, NewFields;
    s := SecondRunGetsThere();
    s := Inserts(s, SecondHandedOver(), map[1 := Worker(Package(0, 10), 1, WORKFLOW)], 2, 20, 200);
    SeenFrom(s, WithPackets(200, map[2 := NEW_PACKET]), 2, Worker(Finish(200), 1, WORKFLOW), 1, Package(0, 10), 1);
    s := Inserts(s, WithPackets(200, map[2 := NEW_PACKET]), map[2 := Worker(Finish(200), 1, WORKFLOW)], 1, 10, 100);
    SeenFrom(s, BothPackaged(), 1, Worker(Finish(100), 1, WORKFLOW), 2, Finish(200), 1);
  }

  lemma Inserts(s: Sys, db: Db, others: Workers, r: RunId, handoff: HandoffId, p: PacketId) returns (s': Sys)
    requires IsAt(s, db, others, r, Package(0, handoff), 1) && r in db.runs
    requires Exec(db, OpInsertPacket(0, r, handoff, p)).Commit?
    ensures IsAt(s', After(db, OpInsertPacket(0, r, handoff, p)), others, r, Finish(p), 1)
  {
    hide IsAt, After, Exec;
    s' := Works(s, db, others, r, Package(0, handoff), 1, Lucky(false, 0, p, 0));
  }

  // The second run completes.
  lemma ReviewGetsStuck() returns (s: Sys)
    ensures Reachable(s) && DbOf(s) == Stuck()
  {
    SecondCompletes();
    hide Reachable, After, Stuck;
    s := BothWorkersPackage();
    s := Works(s, BothPackaged(), map[1 := Worker(Finish(100), 1, WORKFLOW)], 2, Finish(200), 1, WELL);
  }

  lemma StuckMeansStuck(log: seq<Op>, accept: bool, reason: string)
    requires LegalLog(log) && Replay(log) == Stuck()
    ensures StateIs(Replay(log), 0, HumanReview) && !Review(Replay(log), 0, accept, reason).Commit?
  {
    LogKeepsInvariant(log);
    ReviewSucceedsExactlyWhen(log, 0, accept, reason);
    hide LegalLog, Replay, Review, NewFields;
    assert IsNewestPacket(Stuck(), 0, 1);
    forall r | IsNewestPacket(Stuck(), 0, r) ensures r == 1 {
      NewestPacketIsUnique(Stuck(), 0, r, 1);
    }
  }

  // An issue can sit in Human Review with every attempt to accept it or send it to rework refused:
  // the newest packet came from a run that was cancelled, inserted by its worker after the completing
  // run's own. ReviewSucceedsExactlyWhen gives the exact condition under which a review goes through.
  lemma HumanReviewCanBeStuck()
    ensures exists ss, steps {:trigger Behavior(ss, steps)} ::
      && Behavior(ss, steps) && StateIs(DbOf(ss[|steps|]), 0, HumanReview)
      && forall accept, reason {:trigger Review(DbOf(ss[|steps|]), 0, accept, reason)} ::
           !Review(DbOf(ss[|steps|]), 0, accept, reason).Commit?
  {
    hide Behavior, Reachable, Stuck, Replay;
    var s := ReviewGetsStuck();
    var ss, steps := HistoryOf(s);
    BehaviorKeepsInvariant(ss, steps, |steps|);
    forall accept, reason ensures StateIs(DbOf(s), 0, HumanReview) && !Review(DbOf(s), 0, accept, reason).Commit? {
      StuckMeansStuck(s.log, accept, reason);
    }
    assert StateIs(DbOf(s), 0, HumanReview) by {
      StuckMeansStuck(s.log, true, "");
    }
  }

  // ---- A behaviour in which a request outlives its run.

  const REQUEST := ApprovalInput(1, 0, Command, "/work", "make")

  ghost function Asked(): Db {
    FirstRunning().(approvals :=
        map[5 := Approval(1, 0, Command, TrimSpace("/work"), TrimSpace("make"), AwaitingDecision)])
  }

  lemma FirstAsks() returns (s: Sys)
    ensures Reachable(s) && DbOf(s) == Asked()
  {
    hide TrimSpace, NewFields, Reachable, WithAgent;
    assert After(FirstRunning(), OpRequestApproval(5, REQUEST)) == Asked() by {
      FirstIsRunning();
    }
    hide After, FirstRunning, Asked;
    s := FirstStarts();
    s := Environs(s, OpRequestApproval(5, REQUEST));
  }

  lemma FirstIsRunning()
    ensures var db := FirstRunning();
      && RunExists(db, 1) && db.runs[1].issue == 0 && IsActive(db.runs[1].status) && db.approvals == map[]
  {
    hide NewFields;
  }

  lemma CancellingOrphans()
    ensures var db := After(Asked(), OpCancel(1, 0)); Orphaned(db, 5) && db.approvals[5].run == 1
  {
    hide TrimSpace, NewFields;
  }

  lemma EnvironsOn(ss: seq<Sys>, steps: seq<Step>, op: Op) returns (s': Sys)
    requires Behavior(ss, steps) && EnvironmentOp(op)
    ensures |ss| == |steps| + 1 && DbOf(s') == After(DbOf(ss[|steps|]), op)
    ensures Behavior(ss + [s'], steps + [Environment(op)])
  {
    var s := ss[|steps|];
    s' := s.(log := s.log + [op]);
    Extends(ss, steps, Environment(op), s');
    hide Replay, After, Behavior;
    ReplayAppend(s.log, op);
  }

  lemma CancelAndRestart(ss: seq<Sys>, steps: seq<Step>) returns (s1: Sys, s2: Sys)
    requires Behavior(ss, steps) && DbOf(ss[|steps|]) == Asked()
    ensures EndsOrphaned(ss + [s1] + [s2], steps + [Environment(OpCancel(1, 0))] + [Environment(OpReconcile(1, 0))])
  {
    CancellingOrphans();
    RestartSkipsEndedRuns(After(Asked(), OpCancel(1, 0)), 1, 0);
    hide Asked, After, Replay, Behavior;
    s1 := EnvironsOn(ss, steps, OpCancel(1, 0));
    s2 := EnvironsOn(ss + [s1], steps + [Environment(OpCancel(1, 0))], OpReconcile(1, 0));
    hide Orphaned, DbOf;
    TwoMore(ss, s1, s2);
    TwoMore(steps, Environment(OpCancel(1, 0)), Environment(OpReconcile(1, 0)));
  }

  // The last two steps cancelled run 1 and restarted over it, and its request is still pending.
  ghost predicate EndsOrphaned(ss: seq<Sys>, steps: seq<Step>) {
    && Behavior(ss, steps) && |steps| >= 2
    && steps[|steps| - 2] == Environment(OpCancel(1, 0)) && steps[|steps| - 1] == Environment(OpReconcile(1, 0))
    && Orphaned(DbOf(ss[|steps|]), 5)
  }

  // A request whose run was cancelled can be pending still after the restart has looked for the run.
  // OrphanedExactlyWhen gives the exact condition, over every log.
  lemma RequestsCanOutliveTheirRun()
    ensures exists ss, steps :: EndsOrphaned(ss, steps)
  {
    hide Asked, Behavior, Reachable, Replay, EndsOrphaned;
    var s := FirstAsks();
    var ss, steps := HistoryOf(s);
    var s1, s2 := CancelAndRestart(ss, steps);
  }
}
