// What the transactions of a run's work are good for: tokens, packets, completion, the numbers of runs
// and packets, and the fields of issues.
module WorkEffects {
  import opened Domain
  import opened Text
  import opened Transactions
  import opened Invariant
  import opened LifecycleTheorems
  import opened LifecycleEffects

  // ---- Tokens.

  // A token is revoked only with the end of its run.
  ghost predicate RevokedOk(db: Db, h: TokenHash) {
    h in db.tokens && db.tokens[h].revoked ==>
      db.tokens[h].run in db.runs && !IsActive(db.runs[db.tokens[h].run].status)
  }

  lemma CancelRevokes(db: Db, r: RunId, code: FailureCode, now: Time, h: TokenHash)
    requires Cancel(db, r, code, now).Commit? && RevokedOk(db, h)
    ensures var db' := Cancel(db, r, code, now).value;
      && RevokedOk(db', h) && db'.tokens.Keys == db.tokens.Keys
      && (h in db.tokens && db.tokens[h].run == r ==> db'.tokens[h].revoked)
      && (h in db.tokens && db.tokens[h].run != r ==> db'.tokens[h] == db.tokens[h])
  {
  }

  lemma EndingRevokes(db: Db, op: Op, h: TokenHash)
    requires RevokedOk(db, h) && (op.OpFail? || op.OpBlock? || op.OpCancel? || op.OpReconcile?)
    ensures RevokedOk(After(db, op), h)
  {
    hide Blank, CancelPendingApprovals;
    if op.OpCancel? && Exec(db, op).Commit? {
      CancelRevokes(db, op.r, OperatorCancelled, op.now, h);
    }
  }

  lemma OthersLeaveTokens(db: Db, op: Op)
    requires !(op.OpFail? || op.OpBlock? || op.OpCancel? || op.OpReconcile? || op.OpTransition? || op.OpDecide?)
    ensures After(db, op).tokens == db.tokens
         || (op.OpMintToken? && op.h !in db.tokens && op.h in After(db, op).tokens
             && After(db, op).tokens == db.tokens[op.h := After(db, op).tokens[op.h]]
             && !After(db, op).tokens[op.h].revoked)
  {
    hide MaxOf, AttemptsOf, PacketExists, HandoffIdTaken, FieldsComplete, Blank, IsNewestPacket, HasActiveRun,
      ActiveRuns,
      Edited;
  }

  lemma OthersRevokeNothing(db: Db, op: Op, h: TokenHash)
    requires RevokedOk(db, h) && Evolves(db, After(db, op))
    requires !(op.OpFail? || op.OpBlock? || op.OpCancel? || op.OpReconcile? || op.OpTransition? || op.OpDecide?)
    ensures RevokedOk(After(db, op), h)
  {
    OthersLeaveTokens(db, op);
    assert forall r :: r in db.runs ==> r in After(db, op).runs && RunEvolves(db.runs[r], After(db, op).runs[r]);
    hide After, Evolves;
  }

  lemma TransitionRevokes(db: Db, op: Op, h: TokenHash)
    requires op.OpTransition? && RevokedOk(db, h)
    ensures RevokedOk(After(db, op), h)
  {
    hide Cancel, RevokedOk, Blank, TransitionRefusal, HasActiveRun;
    if op.i in db.issues && ActiveRunOf(db, op.i).Some?
       && Cancel(db, ActiveRunOf(db, op.i).value, IssueStateChanged, op.now).Commit? {
      CancelRevokes(db, ActiveRunOf(db, op.i).value, IssueStateChanged, op.now, h);
    }
    SameTokensAndRuns(h);
  }

  lemma DecideRevokes(db: Db, op: Op, h: TokenHash)
    requires op.OpDecide? && RevokedOk(db, h)
    ensures RevokedOk(After(db, op), h)
  {
    hide Cancel, RevokedOk;
    if op.a in db.approvals && Cancel(db, db.approvals[op.a].run, OperatorCancelled, op.now).Commit? {
      CancelRevokes(db, db.approvals[op.a].run, OperatorCancelled, op.now, h);
    }
    SameTokensAndRuns(h);
  }

  lemma StepRevokes(db: Db, op: Op, h: TokenHash)
    requires Inv(db) && Legal(db, op) && RevokedOk(db, h)
    ensures RevokedOk(After(db, op), h)
  {
    StepKeeps(db, op);
    hide Inv, Legal, Evolves, OnlyEndsRuns, After, RevokedOk;
    if op.OpTransition? {
      TransitionRevokes(db, op, h);
    } else if op.OpDecide? {
      DecideRevokes(db, op, h);
    } else if op.OpFail? || op.OpBlock? || op.OpCancel? || op.OpReconcile? {
      EndingRevokes(db, op, h);
    } else {
      OthersRevokeNothing(db, op, h);
    }
  }

  lemma SameTokensAndRuns(h: TokenHash)
    ensures forall db: Db, db': Db {:trigger RevokedOk(db, h), RevokedOk(db', h)} ::
      db'.tokens == db.tokens && db'.runs == db.runs && RevokedOk(db, h) ==> RevokedOk(db', h)
  {
  }

  lemma {:induction false} RevokedMeansEnded(log: seq<Op>, h: TokenHash)
    requires LegalLog(log)
    ensures RevokedOk(Replay(log), h)
  {
    if log != [] {
      var n := |log| - 1;
      LegalPrefix(log, n);
      RevokedMeansEnded(log[..n], h);
      StepAt(log, n);
      assert log[..n + 1] == log;
      hide Replay, LegalLog, Inv, After, Legal, RevokedOk;
      StepRevokes(Replay(log[..n]), log[n], h);
    }
  }

  // The operations that cancel run r.
  ghost predicate CancelsRun(db: Db, op: Op, r: RunId) {
    || ((op.OpCancel? || op.OpBlock?) && op.r == r)
    || (op.OpDecide? && op.d.CancelRun? && op.a in db.approvals && db.approvals[op.a].run == r)
    || (op.OpTransition? && ActiveRun(db, op.i, r))
  }

  lemma BlockRevokes(db: Db, r: RunId, reason: string, now: Time, h: TokenHash)
    requires BlockByAgent(db, r, reason, now).Commit? && h in db.tokens
    ensures var db' := BlockByAgent(db, r, reason, now).value;
      h in db'.tokens && db'.tokens[h] == if db.tokens[h].run == r then db.tokens[h].(revoked := true) else db.tokens[h]
  {
    hide Blank;
  }

  lemma CancelRevokesAll(db: Db, r: RunId, code: FailureCode, now: Time, h: TokenHash)
    requires Cancel(db, r, code, now).Commit? && h in db.tokens
    ensures var db' := Cancel(db, r, code, now).value;
      h in db'.tokens && db'.tokens[h] == if db.tokens[h].run == r then db.tokens[h].(revoked := true) else db.tokens[h]
  {
  }

  lemma TransitionRevokesAll(db: Db, op: Op, r: RunId, h: TokenHash)
    requires Inv(db) && op.OpTransition? && ActiveRun(db, op.i, r) && Exec(db, op).Commit? && h in db.tokens
    ensures var db' := After(db, op);
      h in db'.tokens && db'.tokens[h] == if db.tokens[h].run == r then db.tokens[h].(revoked := true) else db.tokens[h]
  {
    var active := ActiveRunOf(db, op.i).value;
    OnlyOneActiveRun(db, op.i, r, active);
    hide Inv, Cancel, Blank, TransitionRefusal, HasActiveRun;
    if Cancel(db, active, IssueStateChanged, op.now).Commit? {
      CancelRevokesAll(db, active, IssueStateChanged, op.now, h);
    }
  }

  // Cancelling a run, by whatever operation, revokes its tokens and no others.
  lemma CancelledRunsTokensAreRevoked(log: seq<Op>, m: nat, r: RunId, h: TokenHash)
    requires LegalLog(log) && m < |log| && Committed(log, m, log[m]) && CancelsRun(Replay(log[..m]), log[m], r)
    requires h in Replay(log[..m]).tokens
    ensures var db, db' := Replay(log[..m]), Replay(log[..m + 1]);
      h in db'.tokens && db'.tokens[h] == if db.tokens[h].run == r then db.tokens[h].(revoked := true) else db.tokens[h]
  {
    StepAt(log, m);
    hide Replay, LegalLog, Inv, Legal, Cancel, BlockByAgent, Transition;
    var db, op := Replay(log[..m]), log[m];
    match op
    case OpBlock(_, reason, now) => BlockRevokes(db, r, reason, now, h);
    case OpCancel(_, now) => CancelRevokesAll(db, r, OperatorCancelled, now, h);
    case OpDecide(_, _, now) => CancelRevokesAll(db, r, OperatorCancelled, now, h);
    case OpTransition(_, _, _, _, _) => TransitionRevokesAll(db, op, r, h);
  }

  lemma MintEffect(db: Db, r: RunId, h: TokenHash)
    requires MintToken(db, r, h).Commit?
    ensures var db' := MintToken(db, r, h).value;
      && h in db'.tokens && r in db'.runs && db'.tokens[h] == Token(r, db'.runs[r].issue, false)
  {
  }

  // From its minting on, a token that has not expired validates exactly while its run is running.
  lemma TokenValidatesWhileRunning(log: seq<Op>, m: nat, n: nat, r: RunId, h: TokenHash)
    requires LegalLog(log) && m < n <= |log| && Committed(log, m, OpMintToken(r, h))
    ensures var db := Replay(log[..n]);
      && h in db.tokens && db.tokens[h].run == r && r in db.runs && db.tokens[h].issue == db.runs[r].issue
      && (TokenValidates(db, h, false) <==> db.runs[r].status.Running?)
      && !TokenValidates(db, h, true)
  {
    StepAt(log, m);
    MintEffect(Replay(log[..m]), r, h);
    LogEvolves(log, m + 1, n);
    LegalPrefix(log, n);
    RevokedMeansEnded(log[..n], h);
    hide Replay, LegalLog, MintToken, Inv;
  }

  // ---- Packets and completion.

  lemma PacketEffect(db: Db, i: IssueId, r: RunId, handoff: HandoffId, p: PacketId)
    requires InsertPacket(db, i, r, handoff, p).Commit?
    ensures var db' := InsertPacket(db, i, r, handoff, p).value;
      && IsNewestPacket(db', i, r) && db'.packets[r].id == p && db'.packets[r].handoff == handoff
      && i in db'.issues && db'.issues[i].latestPacket == Some(p)
      && PacketNumbersOf(db', i) == PacketNumbersOf(db, i) + {MaxOf(PacketNumbersOf(db, i)) + 1}
  {
    hide PacketExists, HandoffIdTaken, MaxOf;
    var db' := InsertPacket(db, i, r, handoff, p).value;
    forall q | q in db'.packets && db'.packets[q].issue == i && q != r
      ensures db'.packets[q].no <= MaxOf(PacketNumbersOf(db, i))
    {
      assert db.packets[q].no in PacketNumbersOf(db, i);
    }
    forall x ensures x in PacketNumbersOf(db', i) <==>
      x in PacketNumbersOf(db, i) || x == MaxOf(PacketNumbersOf(db, i)) + 1
    {
      if x in PacketNumbersOf(db, i) {
        var q :| q in db.packets && db.packets[q].issue == i && db.packets[q].no == x;
        assert q in db'.packets && db'.packets[q] == db.packets[q];
      }
      assert r in db'.packets && db'.packets[r].no == MaxOf(PacketNumbersOf(db, i)) + 1;
    }
  }

  // A packet that is inserted is the newest of its issue, and the one the issue points at.
  lemma InsertedIsNewest(log: seq<Op>, m: nat, i: IssueId, r: RunId, handoff: HandoffId, p: PacketId)
    requires LegalLog(log) && Committed(log, m, OpInsertPacket(i, r, handoff, p))
    ensures var db' := Replay(log[..m + 1]);
      && IsNewestPacket(db', i, r) && db'.packets[r].id == p && db'.packets[r].handoff == handoff
      && i in db'.issues && db'.issues[i].latestPacket == Some(p)
  {
    StepAt(log, m);
    hide Replay, LegalLog, Inv, InsertPacket, IsNewestPacket, Legal;
    PacketEffect(Replay(log[..m]), i, r, handoff, p);
  }

  lemma CompleteEffect(db: Db, r: RunId, p: PacketId, now: Time)
    requires Complete(db, r, p, now).Commit?
    ensures var db' := Complete(db, r, p, now).value;
      && r in db.runs && db.runs[r].issue in db.issues && r in db.packets && IsActive(db.runs[r].status)
      && db' == db.(runs := db'.runs, issues := db'.issues)
      && db'.runs == db.runs[r := db.runs[r].(status := Completed, code := None, endedAt := Some(now))]
      && StateIs(db', db.runs[r].issue, HumanReview) && !db'.issues[db.runs[r].issue].paused
      && db'.issues[db.runs[r].issue].latestPacket == Some(p)
  {
    hide PacketExists;
  }

  // A completed run can be reviewed at once, unless a newer packet is in the way - which is then one
  // of a run that did not complete.
  lemma CompletedCanBeReviewed(
    log: seq<Op>, m: nat, r: RunId, p: PacketId, now: Time, accept: bool, reason: string)
    requires LegalLog(log) && Committed(log, m, OpComplete(r, p, now))
    ensures var db' := Replay(log[..m + 1]);
      && r in db'.runs && var i := db'.runs[r].issue;
      && db'.runs[r].status.Completed? && db'.runs[r].code.None? && db'.runs[r].endedAt == Some(now)
      && StateIs(db', i, HumanReview) && !db'.issues[i].paused
      && (Review(db', i, accept, reason).Commit? <==> !Blank(reason) && IsNewestPacket(db', i, r))
  {
    StepAt(log, m);
    var db, db' := Replay(log[..m]), Replay(log[..m + 1]);
    CompleteEffect(db, r, p, now);
    LegalPrefix(log, m + 1);
    ReviewSucceedsExactlyWhen(log[..m + 1], db.runs[r].issue, accept, reason);
    hide Replay, LegalLog, Complete, Review, Blank, Legal;
    CompletedIsNewestOfThem(db, db', r);
  }

  lemma CompletedIsNewestOfThem(db: Db, db': Db, r: RunId)
    requires Inv(db) && r in db.runs && r in db.packets && IsActive(db.runs[r].status)
    requires db'.packets == db.packets
    requires r in db'.runs && db'.runs == db.runs[r := db'.runs[r]] && db'.runs[r].status.Completed?
    ensures forall q ::
      IsNewestPacket(db', db.runs[r].issue, q) && q in db'.runs && db'.runs[q].status.Completed? ==> q == r
  {
    assert PacketOk(db, r);
    forall q | IsNewestPacket(db', db.runs[r].issue, q) && q in db'.runs && db'.runs[q].status.Completed?
      ensures q == r
    {
      assert PacketIsNewer(db, q, r);
    }
  }

  // ---- Numbers.

  ghost predicate Counts(numbers: set<nat>, n: nat) {
    forall x :: x in numbers <==> 1 <= x <= n
  }

  ghost function RunsOf(db: Db, i: IssueId): set<RunId> {
    set r | r in db.runs && db.runs[r].issue == i
  }

  ghost function PacketsOf(db: Db, i: IssueId): set<RunId> {
    set r | r in db.packets && db.packets[r].issue == i
  }

  lemma MaxOfCounts(numbers: set<nat>, n: nat)
    requires Counts(numbers, n)
    ensures MaxOf(numbers) == n && Counts(numbers + {n + 1}, n + 1)
  {
    assert n > 0 ==> n in numbers;
    assert numbers == {} ==> n == 0;
    var m := MaxOf(numbers);
    assert numbers != {} ==> m in numbers;
  }

  lemma ClaimCounts(db: Db, i: IssueId, r: RunId, j: IssueId)
    requires i in db.issues && r !in db.runs
    ensures var db' := Claimed(db, i, r);
      && AttemptsOf(db', j) == AttemptsOf(db, j) + (if j == i then {MaxOf(AttemptsOf(db, i)) + 1} else {})
      && RunsOf(db', j) == RunsOf(db, j) + if j == i then {r} else {}
  {
    hide MaxOf;
    var db' := Claimed(db, i, r);
    forall x ensures x in AttemptsOf(db', j) <==>
      x in AttemptsOf(db, j) || (j == i && x == MaxOf(AttemptsOf(db, i)) + 1)
    {
      if x in AttemptsOf(db, j) {
        var q :| q in db.runs && db.runs[q].issue == j && db.runs[q].attempt == x;
        assert q in db'.runs && db'.runs[q] == db.runs[q];
      }
      assert r in db'.runs && db'.runs[r].attempt == MaxOf(AttemptsOf(db, i)) + 1;
    }
  }

  lemma SameRunsCountAlike(db: Db, db': Db, j: IssueId)
    requires Evolves(db, db') && db'.runs.Keys == db.runs.Keys
    ensures AttemptsOf(db', j) == AttemptsOf(db, j) && RunsOf(db', j) == RunsOf(db, j)
  {
    assert forall q :: q in db.runs ==> RunEvolves(db.runs[q], db'.runs[q]);
    forall x ensures x in AttemptsOf(db', j) <==> x in AttemptsOf(db, j) {
      if x in AttemptsOf(db, j) {
        var q :| q in db.runs && db.runs[q].issue == j && db.runs[q].attempt == x;
        assert q in db'.runs;
      }
    }
  }

  ghost predicate AttemptsCount(db: Db, j: IssueId) {
    Counts(AttemptsOf(db, j), |RunsOf(db, j)|)
  }

  lemma ClaimCommits(db: Db, op: Op)
    requires op.OpClaim?
    ensures Exec(db, op).Commit? ==> op.i in db.issues && op.r !in db.runs && After(db, op) == Claimed(db, op.i, op.r)
    ensures Exec(db, op).Abort? ==> After(db, op) == db
  {
    hide FieldsComplete, ActiveRuns, HasActiveRun, Claimed;
  }

  lemma ClaimCountsAttempts(db: Db, i: IssueId, r: RunId, j: IssueId)
    requires i in db.issues && r !in db.runs && AttemptsCount(db, j)
    ensures AttemptsCount(Claimed(db, i, r), j)
  {
    ClaimCounts(db, i, r, j);
    MaxOfCounts(AttemptsOf(db, j), |RunsOf(db, j)|);
    RunsOfAreRuns(db, j);
    hide Counts, MaxOf, AttemptsOf, RunsOf, Claimed;
    NothingMore(AttemptsOf(db, j), RunsOf(db, j));
  }

  lemma NothingMore(a: set<nat>, b: set<RunId>)
    ensures a + {} == a && b + {} == b
  {
  }

  lemma StepCountsAttempts(db: Db, op: Op, j: IssueId)
    requires Inv(db) && Legal(db, op) && AttemptsCount(db, j)
    ensures AttemptsCount(After(db, op), j)
  {
    StepKeeps(db, op);
    EveryStepTouchesOneIssue(db, op);
    hide Inv, Legal, OnlyTouches, OnlyEndsRuns, Counts, AttemptsOf, RunsOf, After, Exec;
    if op.OpClaim? {
      hide Evolves, AttemptsCount;
      ClaimCommits(db, op);
      if Exec(db, op).Commit? {
        ClaimCountsAttempts(db, op.i, op.r, j);
      }
    } else {
      SameRunsCountAlike(db, After(db, op), j);
    }
  }

  lemma RunsOfAreRuns(db: Db, j: IssueId)
    ensures RunsOf(db, j) <= db.runs.Keys
  {
  }

  // The runs of an issue are its attempts 1, 2, 3 and so on, without gaps.
  lemma {:induction false} AttemptsAreCounted(log: seq<Op>, j: IssueId)
    requires LegalLog(log)
    ensures AttemptsCount(Replay(log), j)
  {
    if log == [] {
      assert AttemptsOf(EMPTY_DB, j) == {} && RunsOf(EMPTY_DB, j) == {};
    } else {
      var n := |log| - 1;
      LegalPrefix(log, n);
      AttemptsAreCounted(log[..n], j);
      StepAt(log, n);
      assert log[..n + 1] == log;
      hide Replay, LegalLog, Inv, After, Legal, AttemptsCount;
      StepCountsAttempts(Replay(log[..n]), log[n], j);
    }
  }

  ghost predicate PacketsCount(db: Db, j: IssueId) {
    Counts(PacketNumbersOf(db, j), |PacketsOf(db, j)|)
  }

  lemma PacketsOfGrow(db: Db, i: IssueId, r: RunId, handoff: HandoffId, p: PacketId)
    requires InsertPacket(db, i, r, handoff, p).Commit?
    ensures PacketsOf(InsertPacket(db, i, r, handoff, p).value, i) == PacketsOf(db, i) + {r} && r !in PacketsOf(db, i)
  {
    hide PacketExists, HandoffIdTaken, MaxOf;
  }

  lemma InsertCountsPackets(db: Db, i: IssueId, r: RunId, handoff: HandoffId, p: PacketId)
    requires InsertPacket(db, i, r, handoff, p).Commit? && PacketsCount(db, i)
    ensures PacketsCount(InsertPacket(db, i, r, handoff, p).value, i)
  {
    PacketEffect(db, i, r, handoff, p);
    PacketsOfGrow(db, i, r, handoff, p);
    MaxOfCounts(PacketNumbersOf(db, i), |PacketsOf(db, i)|);
    hide InsertPacket, PacketNumbersOf, PacketsOf, Counts, IsNewestPacket;
  }

  lemma SamePacketsCountAlike(db: Db, db': Db, j: IssueId)
    requires db'.packets == db.packets
    ensures PacketNumbersOf(db', j) == PacketNumbersOf(db, j) && PacketsOf(db', j) == PacketsOf(db, j)
  {
  }

  lemma StepCountsPackets(db: Db, op: Op, j: IssueId)
    requires Inv(db) && Legal(db, op) && PacketsCount(db, j)
    ensures PacketsCount(After(db, op), j)
  {
    EveryStepTouchesOneIssue(db, op);
    hide Inv, Legal, OnlyTouches, Counts, PacketNumbersOf, PacketsOf, InsertPacket;
    if op.OpInsertPacket? && InsertPacket(db, op.i, op.r, op.handoff, op.p).Commit? && op.i == j {
      hide PacketsCount;
      InsertCountsPackets(db, op.i, op.r, op.handoff, op.p);
    } else if op.OpInsertPacket? {
      OtherPacketsCountAlike(db, op, j);
    } else {
      hide After;
      SamePacketsCountAlike(db, After(db, op), j);
    }
  }

  lemma OtherPacketsCountAlike(db: Db, op: Op, j: IssueId)
    requires op.OpInsertPacket? && (op.i != j || Exec(db, op).Abort?)
    ensures PacketNumbersOf(After(db, op), j) == PacketNumbersOf(db, j)
        && PacketsOf(After(db, op), j) == PacketsOf(db, j)
  {
    hide PacketExists, HandoffIdTaken, MaxOf;
    var db' := After(db, op);
    forall x ensures x in PacketNumbersOf(db', j) <==> x in PacketNumbersOf(db, j) {
      if x in PacketNumbersOf(db, j) {
        var q :| q in db.packets && db.packets[q].issue == j && db.packets[q].no == x;
        assert q in db'.packets && db'.packets[q] == db.packets[q];
      }
    }
  }

  // So are the packets of an issue.
  lemma {:induction false} PacketsAreCounted(log: seq<Op>, j: IssueId)
    requires LegalLog(log)
    ensures PacketsCount(Replay(log), j)
  {
    if log == [] {
      assert PacketNumbersOf(EMPTY_DB, j) == {} && PacketsOf(EMPTY_DB, j) == {};
    } else {
      var n := |log| - 1;
      LegalPrefix(log, n);
      PacketsAreCounted(log[..n], j);
      StepAt(log, n);
      assert log[..n + 1] == log;
      hide Replay, LegalLog, Inv, After, Legal, PacketsCount;
      StepCountsPackets(Replay(log[..n]), log[n], j);
    }
  }

  // ---- Fields.

  lemma CreateEffect(db: Db, i: IssueId, given: Fields)
    requires CreateIssue(db, i, given).Commit?
    ensures var db' := CreateIssue(db, i, given).value;
      && StateIs(db', i, Inbox) && !db'.issues[i].paused && db'.issues[i].blockers == {}
          && db'.issues[i].duplicateOf.None?
      && db'.issues[i].fields.title == TrimSpace(given.title) && db'.issues[i].fields.title != ""
      && db'.issues[i].fields.description == TrimSpace(given.description)
      && db'.issues[i].fields.priority == (if given.priority == 0 then 3 else given.priority)
      && 1 <= db'.issues[i].fields.priority <= 5
      && forall c :: c in db'.issues[i].fields.criteria && (exists d :: d in given.criteria && !Blank(d)) ==>
           Mentions(given.criteria, c)
  {
    CleanedHolds(given.criteria);
    hide TrimSpace;
    if d :| d in given.criteria && !Blank(d) {
      var k :| 0 <= k < |given.criteria| && given.criteria[k] == d;
      assert Mentions(given.criteria, TrimSpace(d));
      assert TrimSpace(d) in Cleaned(given.criteria);
    }
  }

  // A new issue is in Inbox with the fields that were given, and can be made Ready exactly when it was
  // described.
  lemma CreatedCanBeReadied(log: seq<Op>, m: nat, i: IssueId, given: Fields, reason: string, now: Time)
    requires LegalLog(log) && Committed(log, m, OpCreateIssue(i, given))
    ensures var db' := Replay(log[..m + 1]);
      && StateIs(db', i, Inbox) && !db'.issues[i].paused && db'.issues[i].blockers == {}
          && db'.issues[i].duplicateOf.None?
      && db'.issues[i].fields.title == TrimSpace(given.title)
      && db'.issues[i].fields.description == TrimSpace(given.description)
      && db'.issues[i].fields.priority == (if given.priority == 0 then 3 else given.priority)
      && (Transition(db', i, Ready, reason, None, now).Commit? <==> !Blank(given.description))
  {
    StepAt(log, m);
    var db := Replay(log[..m]);
    CreateEffect(db, i, given);
    DescribedIssuesAreComplete(db, i, given);
    LegalPrefix(log, m + 1);
    MovesAreTheseOnly(log[..m + 1], i, Ready, reason, None, now);
    hide Replay, LegalLog, Inv, Legal, CreateIssue, Transition, FieldsComplete, TrimSpace, Mentions;
  }

  // Every issue has a title and a priority in range: no edit takes them away.
  ghost predicate Described(db: Db, i: IssueId) {
    i in db.issues ==> !Blank(db.issues[i].fields.title) && 1 <= db.issues[i].fields.priority <= 5
  }

  lemma EditDescribes(db: Db, i: IssueId, e: Edit)
    requires Described(db, i) && EditIssue(db, i, e).Commit?
    ensures Described(EditIssue(db, i, e).value, i)
  {
    if e.SetFields? && e.title.Some? {
      TrimNothing(TrimSpace(e.title.value));
    }
    hide TrimSpace;
  }

  lemma CreateDescribes(db: Db, i: IssueId, given: Fields)
    requires CreateIssue(db, i, given).Commit?
    ensures Described(CreateIssue(db, i, given).value, i)
  {
    CreateEffect(db, i, given);
    TrimNothing(TrimSpace(given.title));
    hide TrimSpace, NewFields, CreateIssue, Mentions;
  }

  lemma StepDescribes(db: Db, op: Op, i: IssueId)
    requires Inv(db) && Described(db, i)
    ensures Described(After(db, op), i)
  {
    if op.OpCreateIssue? && op.i == i && Exec(db, op).Commit? {
      CreateDescribes(db, i, op.given);
      hide CreateIssue, Described;
    } else if op.OpEditIssue? && op.i == i && Exec(db, op).Commit? {
      EditDescribes(db, i, op.e);
      hide EditIssue, Described;
    } else if i in db.issues {
      OnlyTheseChangeRows(db, op, i);
      hide TrimSpace;
      if op.OpEditIssue? && op.i == i {
        assert After(db, op) == db;
      }
      hide After;
    } else {
      OnlyCreateAdds(db, op);
      hide CreateIssue;
      if op.OpCreateIssue? && op.i == i {
        assert After(db, op) == db;
      }
      hide After;
    }
  }

  lemma CancelAddsNothing(db: Db, r: RunId, code: FailureCode, now: Time)
    ensures Cancel(db, r, code, now).Commit? ==> Cancel(db, r, code, now).value.issues.Keys == db.issues.Keys
  {
  }

  lemma EndingAddsNothing(db: Db, op: Op)
    requires op.OpFail? || op.OpBlock? || op.OpCancel? || op.OpReconcile?
    ensures After(db, op).issues.Keys == db.issues.Keys
  {
    hide Blank, RevokeTokens, CancelPendingApprovals;
  }

  lemma TransitionAddsNothing(db: Db, op: Op)
    requires op.OpTransition?
    ensures After(db, op).issues.Keys == db.issues.Keys
  {
    if op.i in db.issues && ActiveRunOf(db, op.i).Some? {
      CancelAddsNothing(db, ActiveRunOf(db, op.i).value, IssueStateChanged, op.now);
    }
    hide Cancel, Blank, TransitionRefusal, HasActiveRun, ActiveRunOf, Reopens;
  }

  lemma WritingAddsNothing(db: Db, op: Op)
    requires op.OpEditIssue? || op.OpSetPaused? || op.OpReview? || op.OpClaim? || op.OpInsertPacket? || op.OpComplete?
    ensures After(db, op).issues.Keys == db.issues.Keys
  {
    hide MaxOf, AttemptsOf, PacketExists, HandoffIdTaken, HasActiveRun, ActiveRuns, IsNewestPacket, Blank,
      FieldsComplete,
      IsPacketOf, Updated, TrimSpace;
  }

  lemma SideOpsAddNothing(db: Db, op: Op)
    requires op.OpAdvance? || op.OpMintToken? || op.OpSubmitHandoff? || op.OpRequestApproval? || op.OpAutoDeny?
          || op.OpDecide? || op.OpTimeout? || op.OpCancelApproval?
    ensures After(db, op).issues.Keys == db.issues.Keys
  {
    if op.OpDecide? && op.a in db.approvals {
      CancelAddsNothing(db, db.approvals[op.a].run, OperatorCancelled, op.now);
    }
    hide Cancel, HandoffIdTaken, TrimSpace;
  }

  lemma OnlyCreateAdds(db: Db, op: Op)
    ensures After(db, op).issues.Keys <= db.issues.Keys + if op.OpCreateIssue? then {op.i} else {}
  {
    hide NewFields;
    if !op.OpCreateIssue? {
      hide After;
      if op.OpFail? || op.OpBlock? || op.OpCancel? || op.OpReconcile? {
        EndingAddsNothing(db, op);
      } else if op.OpTransition? {
        TransitionAddsNothing(db, op);
      } else if op.OpEditIssue? || op.OpSetPaused? || op.OpReview? || op.OpClaim? || op.OpInsertPacket?
          || op.OpComplete? {
        WritingAddsNothing(db, op);
      } else {
        SideOpsAddNothing(db, op);
      }
    }
  }

  lemma {:induction false} EveryIssueIsDescribed(log: seq<Op>, i: IssueId)
    requires LegalLog(log)
    ensures Described(Replay(log), i)
  {
    if log != [] {
      var n := |log| - 1;
      LegalPrefix(log, n);
      EveryIssueIsDescribed(log[..n], i);
      StepAt(log, n);
      assert log[..n + 1] == log;
      hide Replay, LegalLog, Inv, After, Legal, Described;
      StepDescribes(Replay(log[..n]), log[n], i);
    }
  }

  ghost predicate SomeCriterion(criteria: seq<string>) {
    exists c :: c in criteria && !Blank(c)
  }

  lemma SomeHasAPlace(criteria: seq<string>)
    ensures (exists k :: 0 <= k < |criteria| && !Blank(criteria[k])) <==> SomeCriterion(criteria)
  {
    hide TrimSpace;
    if k :| 0 <= k < |criteria| && !Blank(criteria[k]) {
      assert criteria[k] in criteria;
    }
  }

  lemma CleanedSome(criteria: seq<string>)
    ensures SomeCriterion(Cleaned(criteria)) <==> SomeCriterion(criteria)
  {
    CleanedHolds(criteria);
    if SomeCriterion(Cleaned(criteria)) {
      var c :| c in Cleaned(criteria) && !Blank(c);
      var j :| 0 <= j < |criteria| && TrimSpace(criteria[j]) == c;
      hide TrimSpace;
      assert criteria[j] in criteria;
    }
    if SomeCriterion(criteria) {
      var c :| c in criteria && !Blank(c);
      TrimNothing(TrimSpace(c));
      hide TrimSpace;
      var k :| 0 <= k < |criteria| && criteria[k] == c;
      assert Mentions(criteria, TrimSpace(c));
      assert TrimSpace(c) in Cleaned(criteria);
    }
  }

  // What an edit gives replaces what was there, and the issue is complete afterwards exactly when it has
  // a description and some criterion that is not blank, the new ones or, if none are given, the old.
  lemma EditDecidesCompleteness(
    log: seq<Op>, m: nat, i: IssueId, title: Option<string>, description: Option<string>,
    criteria: Option<seq<string>>, priority: Option<int>)
    requires LegalLog(log) && Committed(log, m, OpEditIssue(i, SetFields(title, description, criteria, priority)))
    ensures i in Replay(log[..m]).issues && i in Replay(log[..m + 1]).issues
    ensures var x, y := Replay(log[..m]).issues[i].fields, Replay(log[..m + 1]).issues[i].fields;
      && y.title == (if title.Some? then TrimSpace(title.value) else x.title)
      && y.description == (if description.Some? then TrimSpace(description.value) else x.description)
      && y.priority == (if priority.Some? then priority.value else x.priority)
      && (FieldsComplete(y) <==>
        && !Blank(if description.Some? then description.value else x.description)
        && SomeCriterion(if criteria.Some? then criteria.value else x.criteria))
  {
    StepAt(log, m);
    var db := Replay(log[..m]);
    assert EditIssue(db, i, SetFields(title, description, criteria, priority)).Commit?;
    LegalPrefix(log, m + 1);
    EveryIssueIsDescribed(log[..m + 1], i);
    hide Replay, LegalLog, Inv, Legal;
    EditedCompleteness(db.issues[i].fields, title, description, criteria, priority);
  }

  lemma EditedCompleteness(x: Fields, title: Option<string>, description: Option<string>,
                           criteria: Option<seq<string>>, priority: Option<int>)
    ensures var y := Updated(x, SetFields(title, description, criteria, priority));
      !Blank(y.title) && 1 <= y.priority <= 5 ==>
        (FieldsComplete(y) <==>
          && !Blank(if description.Some? then description.value else x.description)
          && SomeCriterion(if criteria.Some? then criteria.value else x.criteria))
  {
    if description.Some? {
      TrimNothing(TrimSpace(description.value));
    }
    if criteria.Some? {
      CleanedSome(criteria.value);
    }
    SomeHasAPlace(Updated(x, SetFields(title, description, criteria, priority)).criteria);
    hide TrimSpace, Cleaned, SomeCriterion;
  }
}
