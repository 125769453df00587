// The inductive invariant of the project database and the two-state relation that every
// transaction respects. Neither is stated by any one function of the store.
module Invariant {
  import opened Domain
  import opened Transactions

  ghost predicate RunOk(db: Db, r: RunId)
    requires r in db.runs
  {
    var run := db.runs[r];
    && run.issue in db.issues
    && IsDispatchState(run.source)
    && (IsActive(run.status) ==>
      && db.issues[run.issue].state.Working?
      && !db.issues[run.issue].paused
      && db.issues[run.issue].latestRun == Some(r)
      && run.code.None? && run.endedAt.None?)
    && (!IsActive(run.status) ==> run.endedAt.Some? && (run.code.None? <==> run.status.Completed?))
    && (run.status.Completed? ==> r in db.packets)
  }

  ghost predicate CompletedWithPacket(db: Db, i: IssueId, r: RunId) {
    && r in db.runs && db.runs[r].issue == i && db.runs[r].status.Completed?
    && r in db.packets && db.packets[r].issue == i && db.packets[r].status.Generated?
    && r in db.handoffs && db.handoffs[r].issue == i && db.handoffs[r].id == db.packets[r].handoff
  }

  // Some run of the issue completed with its own generated packet and handoff.
  ghost predicate Reviewed(db: Db, i: IssueId) {
    exists r :: CompletedWithPacket(db, i, r)
  }

  ghost predicate NeedsReview(db: Db, i: IssueId)
    requires i in db.issues
  {
    var issue := db.issues[i];
    || issue.state.HumanReview? || issue.state.Rework? || issue.state.Done?
    || (issue.state.Working? && issue.latestRun.Some? && issue.latestRun.value in db.runs
        && db.runs[issue.latestRun.value].source.Rework?)
  }

  ghost predicate IssueOk(db: Db, i: IssueId)
    requires i in db.issues
  {
    var issue := db.issues[i];
    && (issue.state.Working? ==> issue.latestRun.Some? && ActiveRun(db, i, issue.latestRun.value))
    && (issue.completed <==> issue.state.Done?)
    && (NeedsReview(db, i) ==> Reviewed(db, i))
  }

  ghost predicate PacketOk(db: Db, r: RunId)
    requires r in db.packets
  {
    var packet := db.packets[r];
    && r in db.runs && db.runs[r].issue == packet.issue
    && r in db.handoffs && db.handoffs[r].id == packet.handoff
    && packet.status.Generated?
  }

  ghost predicate PacketsDiffer(db: Db, r: RunId, q: RunId)
    requires r in db.packets && q in db.packets
  {
    && db.packets[r].id != db.packets[q].id
    && !(db.packets[r].issue == db.packets[q].issue && db.packets[r].no == db.packets[q].no)
  }

  ghost predicate PacketsDistinct(db: Db) {
    forall r, q {:trigger PacketsDiffer(db, r, q)} :: r in db.packets && q in db.packets && r != q ==>
        PacketsDiffer(db, r, q)
  }

  ghost predicate AttemptsDiffer(db: Db, r: RunId, q: RunId)
    requires r in db.runs && q in db.runs
  {
    !(db.runs[r].issue == db.runs[q].issue && db.runs[r].attempt == db.runs[q].attempt)
  }

  ghost predicate AttemptsDistinct(db: Db) {
    forall r, q {:trigger AttemptsDiffer(db, r, q)} :: r in db.runs && q in db.runs && r != q ==>
        AttemptsDiffer(db, r, q)
  }

  // A run that is still active has packaged its work after every run of its issue that completed.
  ghost predicate PacketIsNewer(db: Db, q: RunId, r: RunId)
    requires q in db.packets && r in db.packets
  {
    && q in db.runs && r in db.runs
    && (db.packets[r].issue == db.packets[q].issue && IsActive(db.runs[r].status) && db.runs[q].status.Completed? ==>
      db.packets[q].no < db.packets[r].no)
  }

  // An issue points at its newest packet, except when that packet came from a run that did not complete.
  ghost predicate LatestPacketOk(db: Db, i: IssueId)
    requires i in db.issues
  {
    forall r :: IsNewestPacket(db, i, r) && r in db.runs && db.runs[r].status.Completed? ==>
      db.issues[i].latestPacket == Some(db.packets[r].id)
  }

  ghost predicate PacketsInv(db: Db) {
    && (forall r {:trigger PacketOk(db, r)} :: r in db.packets ==> PacketOk(db, r))
    && PacketsDistinct(db)
    && (forall q, r {:trigger PacketIsNewer(db, q, r)} :: q in db.packets && r in db.packets ==>
        PacketIsNewer(db, q, r))
    && (forall i {:trigger LatestPacketOk(db, i)} :: i in db.issues ==> LatestPacketOk(db, i))
  }

  ghost predicate BelongsTo(db: Db, r: RunId, i: IssueId) {
    r in db.runs && db.runs[r].issue == i
  }

  ghost predicate ReferencesInv(db: Db) {
    && (forall r {:trigger db.handoffs[r]} :: r in db.handoffs ==> BelongsTo(db, r, db.handoffs[r].issue))
    && (forall h {:trigger db.tokens[h]} :: h in db.tokens ==> BelongsTo(db, db.tokens[h].run, db.tokens[h].issue))
    && (forall a {:trigger db.approvals[a]} :: a in db.approvals ==>
        BelongsTo(db, db.approvals[a].run, db.approvals[a].issue))
  }

  ghost predicate LifecycleInv(db: Db) {
    && (forall r {:trigger RunOk(db, r)} :: r in db.runs ==> RunOk(db, r))
    && (forall i {:trigger IssueOk(db, i)} :: i in db.issues ==> IssueOk(db, i))
  }

  ghost predicate Inv(db: Db) {
    LifecycleInv(db) && AttemptsDistinct(db) && PacketsInv(db) && ReferencesInv(db)
  }

  // What no transaction may do: rows are never removed, a run keeps its issue, attempt and
  // source state, a run that has ended and an approval that is resolved are frozen, handoffs
  // and packets are immutable, and a revoked token stays revoked.
  ghost predicate Evolves(db: Db, db': Db) {
    && db.issues.Keys <= db'.issues.Keys
    && (forall r :: r in db.runs ==> r in db'.runs && RunEvolves(db.runs[r], db'.runs[r]))
    && (forall r :: r in db.handoffs ==> r in db'.handoffs && db'.handoffs[r] == db.handoffs[r])
    && (forall r :: r in db.packets ==> r in db'.packets && db'.packets[r] == db.packets[r])
    && (forall h :: h in db.tokens ==> h in db'.tokens && TokenEvolves(db.tokens[h], db'.tokens[h]))
    && (forall a :: a in db.approvals ==> a in db'.approvals && ApprovalEvolves(db.approvals[a], db'.approvals[a]))
  }

  ghost predicate TokenEvolves(token: Token, token': Token) {
    token' == token || token' == token.(revoked := true)
  }

  ghost predicate ApprovalEvolves(approval: Approval, approval': Approval) {
    && approval' == approval.(status := approval'.status)
    && (approval' == approval || approval.status.AwaitingDecision?)
  }

  ghost predicate RunEvolves(run: Run, run': Run) {
    && run'.issue == run.issue && run'.attempt == run.attempt && run'.source == run.source
    && (!IsActive(run.status) ==> run' == run)
  }

  // Stronger: the only thing that happened to existing runs is that some ended.
  ghost predicate OnlyEndsRuns(db: Db, db': Db) {
    forall r :: r in db.runs ==> r in db'.runs && (db'.runs[r] == db.runs[r] || !IsActive(db'.runs[r].status))
  }

  // What a transaction other than UpdateRunStatus is shown to do.
  ghost predicate Keeps(db: Db, db': Db) {
    Inv(db') && Evolves(db, db') && OnlyEndsRuns(db, db')
  }

  lemma EvolvesTransitive(a: Db, b: Db, c: Db)
    requires Evolves(a, b) && Evolves(b, c)
    ensures Evolves(a, c)
  {
  }

  // Callers of the store fail runs only as failed or completed without handoff, and pass the
  // issue and handoff that belong to the run.
  ghost predicate Legal(db: Db, op: Op) {
    match op
    case OpFail(_, _, status, _) => status.Failed? || status.CompletedWithoutHandoff?
    case OpSubmitHandoff(i, r, _, _) => r in db.runs ==> db.runs[r].issue == i
    case OpInsertPacket(i, r, handoff, _) =>
      r in db.runs ==> db.runs[r].issue == i && r in db.handoffs && db.handoffs[r].id == handoff
    case _ => true
  }

  // ---- One lemma per kind of change.

  lemma StillReviewed(db: Db, db': Db, i: IssueId)
    requires Evolves(db, db')
    ensures Reviewed(db, i) ==> Reviewed(db', i)
  {
    if Reviewed(db, i) {
      var r :| CompletedWithPacket(db, i, r);
      assert CompletedWithPacket(db', i, r);
    }
  }

  lemma AlwaysStillReviewed(db: Db, db': Db)
    requires Evolves(db, db')
    ensures forall i :: Reviewed(db, i) ==> Reviewed(db', i)
  {
    forall i ensures Reviewed(db, i) ==> Reviewed(db', i) {
      StillReviewed(db, db', i);
    }
  }

  // Nothing about packets moves when no packet is written, no run completes and no issue changes
  // the packet it refers to.
  ghost predicate LeavesPackets(db: Db, db': Db) {
    && db'.packets == db.packets
    && (forall r :: r in db.packets && r in db.runs ==>
      r in db'.runs
      && (IsActive(db'.runs[r].status) ==> IsActive(db.runs[r].status))
      && (db'.runs[r].status.Completed? ==> db.runs[r].status.Completed?))
    && (forall i :: i in db'.issues ==>
      if i in db.issues then db'.issues[i].latestPacket == db.issues[i].latestPacket
      else forall r :: r in db.packets ==> db.packets[r].issue != i)
  }

  lemma LeavingPacketsKeeps(db: Db, db': Db)
    requires PacketsInv(db) && Evolves(db, db') && LeavesPackets(db, db')
    ensures PacketsInv(db')
  {
    forall r | r in db'.packets ensures PacketOk(db', r) {
      assert PacketOk(db, r);
    }
    forall r, q | r in db'.packets && q in db'.packets && r != q ensures PacketsDiffer(db', r, q) {
      assert PacketsDiffer(db, r, q);
    }
    forall q, r | q in db'.packets && r in db'.packets ensures PacketIsNewer(db', q, r) {
      assert PacketOk(db, q) && PacketOk(db, r) && PacketIsNewer(db, q, r);
    }
    forall i | i in db'.issues ensures LatestPacketOk(db', i) {
      forall r | IsNewestPacket(db', i, r) && r in db'.runs && db'.runs[r].status.Completed?
        ensures db'.issues[i].latestPacket == Some(db'.packets[r].id)
      {
        assert PacketOk(db, r) && IsNewestPacket(db, i, r) && LatestPacketOk(db, i);
      }
    }
  }

  lemma SameRunsKeepAttempts(db: Db, db': Db)
    requires AttemptsDistinct(db) && Evolves(db, db') && db'.runs.Keys == db.runs.Keys
    ensures AttemptsDistinct(db')
  {
    forall r, q | r in db'.runs && q in db'.runs && r != q ensures AttemptsDiffer(db', r, q) {
      assert AttemptsDiffer(db, r, q);
    }
  }

  lemma EndRunEvolves(db: Db, r: RunId, code: FailureCode, status: RunStatus, now: Time, target: IssueState)
    requires RunExists(db, r) && IsActive(db.runs[r].status)
    requires !IsActive(status) && !status.Completed?
    ensures var db' := EndRun(db, r, code, status, now, target);
      Evolves(db, db') && OnlyEndsRuns(db, db') && LeavesPackets(db, db')
  {
  }

  lemma EndRunKeepsLifecycle(db: Db, r: RunId, code: FailureCode, status: RunStatus, now: Time, target: IssueState)
    requires LifecycleInv(db) && RunExists(db, r) && IsActive(db.runs[r].status)
    requires !IsActive(status) && !status.Completed?
    requires target == db.runs[r].source || target.Blocked?
    requires Evolves(db, EndRun(db, r, code, status, now, target))
    ensures LifecycleInv(EndRun(db, r, code, status, now, target))
  {
    hide Evolves;
    var db' := EndRun(db, r, code, status, now, target);
    assert RunOk(db, r);
    AlwaysStillReviewed(db, db');
    forall q | q in db'.runs ensures RunOk(db', q) {
      assert RunOk(db, q);
    }
    forall i | i in db'.issues ensures IssueOk(db', i) {
      assert IssueOk(db, i);
    }
  }

  // The frame shared by every transaction that writes no packet and starts no run.
  lemma OrdinaryStepKeeps(db: Db, db': Db)
    requires Inv(db) && Evolves(db, db') && LeavesPackets(db, db') && db'.runs.Keys == db.runs.Keys
    requires LifecycleInv(db') && ReferencesInv(db')
    ensures Inv(db')
  {
    hide Evolves, LeavesPackets, LifecycleInv, ReferencesInv, PacketsInv;
    LeavingPacketsKeeps(db, db');
    SameRunsKeepAttempts(db, db');
  }

  lemma EndRunKeeps(db: Db, r: RunId, code: FailureCode, status: RunStatus, now: Time, target: IssueState)
    requires Inv(db) && RunExists(db, r) && IsActive(db.runs[r].status)
    requires !IsActive(status) && !status.Completed?
    requires target == db.runs[r].source || target.Blocked?
    ensures var db' := EndRun(db, r, code, status, now, target);
      Inv(db') && Evolves(db, db') && OnlyEndsRuns(db, db')
  {
    hide Evolves, LeavesPackets, LifecycleInv, PacketsInv;
    EndRunEvolves(db, r, code, status, now, target);
    EndRunKeepsLifecycle(db, r, code, status, now, target);
    OrdinaryStepKeeps(db, EndRun(db, r, code, status, now, target));
  }

  // Only tokens, handoffs and approvals change.
  lemma SideTablesKeep(db: Db, db': Db)
    requires Inv(db) && Evolves(db, db') && ReferencesInv(db')
    requires db'.issues == db.issues && db'.runs == db.runs && db'.packets == db.packets
    ensures Inv(db') && OnlyEndsRuns(db, db')
  {
    hide Evolves, PacketsInv, ReferencesInv;
    AlwaysStillReviewed(db, db');
    forall r | r in db'.runs ensures RunOk(db', r) {
      assert RunOk(db, r);
    }
    forall i | i in db'.issues ensures IssueOk(db', i) {
      assert IssueOk(db, i);
    }
    OrdinaryStepKeeps(db, db');
  }

  // One existing issue is rewritten without touching the run and packet it refers to or its being Working.
  ghost predicate MildRewrite(db: Db, i: IssueId, issue: Issue) {
    && i in db.issues
    && issue.latestRun == db.issues[i].latestRun && issue.latestPacket == db.issues[i].latestPacket
    && (issue.state.Working? <==> db.issues[i].state.Working?)
    && (issue.state.Working? ==> issue.paused == db.issues[i].paused)
  }

  lemma RewriteEvolves(db: Db, i: IssueId, issue: Issue)
    requires MildRewrite(db, i, issue)
    ensures var db' := WithIssue(db, i, issue);
      Evolves(db, db') && OnlyEndsRuns(db, db') && LeavesPackets(db, db')
  {
  }

  lemma IssueWriteKeeps(db: Db, i: IssueId, issue: Issue)
    requires Inv(db) && MildRewrite(db, i, issue)
    requires IssueOk(WithIssue(db, i, issue), i)
    ensures var db' := WithIssue(db, i, issue); Inv(db') && Evolves(db, db') && OnlyEndsRuns(db, db')
  {
    hide Evolves, PacketsInv, LeavesPackets;
    var db' := WithIssue(db, i, issue);
    RewriteEvolves(db, i, issue);
    AlwaysStillReviewed(db, db');
    forall r | r in db'.runs ensures RunOk(db', r) {
      assert RunOk(db, r);
    }
    forall j | j in db'.issues ensures IssueOk(db', j) {
      assert IssueOk(db, j);
    }
    OrdinaryStepKeeps(db, db');
  }

  lemma CreateIssueEvolves(db: Db, i: IssueId, given: Fields)
    requires Inv(db) && CreateIssue(db, i, given).Commit?
    ensures var db' := CreateIssue(db, i, given).value;
      Evolves(db, db') && OnlyEndsRuns(db, db') && LeavesPackets(db, db')
  {
    hide NewFields;
    forall r | r in db.packets ensures db.packets[r].issue != i {
      assert PacketOk(db, r) && RunOk(db, r);
    }
  }

  lemma CreateIssueKeeps(db: Db, i: IssueId, given: Fields)
    requires Inv(db)
    ensures var tx := CreateIssue(db, i, given); tx.Commit? ==> Keeps(db, tx.value)
  {
    hide Evolves, PacketsInv, LeavesPackets, NewFields;
    if CreateIssue(db, i, given).Commit? {
      var db' := CreateIssue(db, i, given).value;
      CreateIssueEvolves(db, i, given);
      AlwaysStillReviewed(db, db');
      forall r | r in db'.runs ensures RunOk(db', r) {
        assert RunOk(db, r);
      }
      forall j | j in db'.issues ensures IssueOk(db', j) {
        assert j != i ==> IssueOk(db, j);
      }
      OrdinaryStepKeeps(db, db');
    }
  }

  lemma AdvanceEvolves(db: Db, r: RunId, status: RunStatus)
    requires RunExists(db, r) && IsActive(db.runs[r].status) && IsActive(status)
    ensures var db' := WithRun(db, r, db.runs[r].(status := status)); Evolves(db, db') && LeavesPackets(db, db')
  {
  }

  lemma AdvanceKeeps(db: Db, r: RunId, status: RunStatus)
    requires Inv(db)
    ensures var tx := Advance(db, r, status); tx.Commit? ==> Inv(tx.value) && Evolves(db, tx.value)
  {
    hide Evolves, PacketsInv, LeavesPackets;
    if Advance(db, r, status).Commit? {
      var db' := WithRun(db, r, db.runs[r].(status := status));
      AdvanceEvolves(db, r, status);
      AlwaysStillReviewed(db, db');
      forall q | q in db'.runs ensures RunOk(db', q) {
        assert RunOk(db, q);
      }
      forall i | i in db'.issues ensures IssueOk(db', i) {
        assert IssueOk(db, i);
      }
      OrdinaryStepKeeps(db, db');
    }
  }

  lemma ClaimedEvolves(db: Db, i: IssueId, r: RunId)
    requires i in db.issues && r !in db.runs && r !in db.packets
    ensures var db' := Claimed(db, i, r); Evolves(db, db') && OnlyEndsRuns(db, db') && LeavesPackets(db, db')
  {
  }

  lemma ClaimedKeepsLifecycle(db: Db, i: IssueId, r: RunId)
    requires LifecycleInv(db) && i in db.issues && r !in db.runs
    requires IsDispatchState(db.issues[i].state) && !db.issues[i].paused
    requires Evolves(db, Claimed(db, i, r))
    ensures LifecycleInv(Claimed(db, i, r))
  {
    hide Evolves, MaxOf;
    var db' := Claimed(db, i, r);
    assert IssueOk(db, i);
    AlwaysStillReviewed(db, db');
    forall q | q in db'.runs ensures RunOk(db', q) {
      assert q != r ==> RunOk(db, q);
    }
    forall j | j in db'.issues ensures IssueOk(db', j) {
      assert IssueOk(db, j);
    }
  }

  lemma ClaimedKeepsAttempts(db: Db, i: IssueId, r: RunId)
    requires AttemptsDistinct(db) && i in db.issues && r !in db.runs
    ensures AttemptsDistinct(Claimed(db, i, r))
  {
    hide MaxOf;
    var db' := Claimed(db, i, r);
    forall p, q | p in db'.runs && q in db'.runs && p != q ensures AttemptsDiffer(db', p, q) {
      if p != r && q != r {
        assert AttemptsDiffer(db, p, q);
      } else {
        var x := if p == r then q else p;
        assert db.runs[x].issue == i ==> db.runs[x].attempt in AttemptsOf(db, i);
      }
    }
  }

  lemma ClaimKeeps(db: Db, i: IssueId, r: RunId, maxConcurrent: int)
    requires Inv(db)
    ensures var tx := Claim(db, i, r, maxConcurrent); tx.Commit? ==> Keeps(db, tx.value)
  {
    if Claim(db, i, r, maxConcurrent).Commit? {
      assert r !in db.packets by {
        assert r in db.packets ==> PacketOk(db, r);
      }
      ClaimedEvolves(db, i, r);
      hide Evolves, LeavesPackets, LifecycleInv, PacketsInv, ReferencesInv, Claimed;
      ClaimedKeepsLifecycle(db, i, r);
      ClaimedKeepsAttempts(db, i, r);
      LeavingPacketsKeeps(db, Claimed(db, i, r));
      StillReferences(db, Claimed(db, i, r));
    }
  }

  lemma StillReferences(db: Db, db': Db)
    requires ReferencesInv(db) && Evolves(db, db')
    requires db'.handoffs.Keys == db.handoffs.Keys && db'.tokens.Keys == db.tokens.Keys
        && db'.approvals.Keys == db.approvals.Keys
    ensures ReferencesInv(db')
  {
  }

  lemma ReviewEvolves(db: Db, r: RunId, p: PacketId, now: Time)
    requires RunExists(db, r) && IsActive(db.runs[r].status)
    ensures var db' := WithReview(db, r, p, now); Evolves(db, db') && OnlyEndsRuns(db, db')
  {
  }

  lemma ReviewKeepsLifecycle(db: Db, r: RunId, p: PacketId, now: Time)
    requires LifecycleInv(db) && RunExists(db, r) && IsActive(db.runs[r].status)
    requires r in db.packets && PacketOk(db, r) && ReferencesInv(db)
    requires Evolves(db, WithReview(db, r, p, now))
    ensures LifecycleInv(WithReview(db, r, p, now))
  {
    hide Evolves;
    var db' := WithReview(db, r, p, now);
    assert RunOk(db, r);
    AlwaysStillReviewed(db, db');
    forall q | q in db'.runs ensures RunOk(db', q) {
      assert RunOk(db, q);
    }
    assert CompletedWithPacket(db', db.runs[r].issue, r);
    forall i | i in db'.issues ensures IssueOk(db', i) {
      assert IssueOk(db, i);
    }
  }

  lemma ReviewKeepsPackets(db: Db, r: RunId, now: Time)
    requires Inv(db) && RunExists(db, r) && IsActive(db.runs[r].status) && r in db.packets
    ensures PacketsInv(WithReview(db, r, db.packets[r].id, now))
  {
    hide ReferencesInv, IssueOk;
    var db' := WithReview(db, r, db.packets[r].id, now);
    var i := db.runs[r].issue;
    assert RunOk(db, r);
    forall q | q in db'.packets ensures PacketOk(db', q) {
      assert PacketOk(db, q);
    }
    forall p, q | p in db'.packets && q in db'.packets && p != q ensures PacketsDiffer(db', p, q) {
      assert PacketsDiffer(db, p, q);
    }
    forall q, x | q in db'.packets && x in db'.packets ensures PacketIsNewer(db', q, x) {
      assert PacketOk(db, q) && PacketOk(db, x) && PacketIsNewer(db, q, x) && RunOk(db, x);
    }
    forall j | j in db'.issues ensures LatestPacketOk(db', j) {
      forall q | IsNewestPacket(db', j, q) && q in db'.runs && db'.runs[q].status.Completed?
        ensures db'.issues[j].latestPacket == Some(db'.packets[q].id)
      {
        assert IsNewestPacket(db, j, q) && LatestPacketOk(db, j) && PacketIsNewer(db, q, r) && PacketOk(db, r);
      }
    }
  }

  lemma CompleteKeeps(db: Db, r: RunId, p: PacketId, now: Time)
    requires Inv(db)
    ensures var tx := Complete(db, r, p, now); tx.Commit? ==> Keeps(db, tx.value)
  {
    if Complete(db, r, p, now).Commit? {
      assert PacketOk(db, r);
      ReviewEvolves(db, r, p, now);
      hide Evolves, LifecycleInv, PacketsInv;
      ReviewKeepsLifecycle(db, r, p, now);
      ReviewKeepsPackets(db, r, now);
      SameRunsKeepAttempts(db, WithReview(db, r, p, now));
      StillReferences(db, WithReview(db, r, p, now));
    }
  }

  ghost predicate PacketIsFor(db: Db, i: IssueId, r: RunId, handoff: HandoffId) {
    && i in db.issues && r in db.runs && db.runs[r].issue == i
    && r in db.handoffs && db.handoffs[r].id == handoff && r !in db.packets
  }

  lemma PacketEvolves(db: Db, i: IssueId, r: RunId, handoff: HandoffId, p: PacketId)
    requires PacketIsFor(db, i, r, handoff)
    ensures var db' := WithPacket(db, i, r, handoff, p); Evolves(db, db') && OnlyEndsRuns(db, db')
  {
    hide MaxOf;
  }

  lemma PacketKeepsLifecycle(db: Db, i: IssueId, r: RunId, handoff: HandoffId, p: PacketId)
    requires LifecycleInv(db) && PacketIsFor(db, i, r, handoff)
    requires Evolves(db, WithPacket(db, i, r, handoff, p))
    ensures LifecycleInv(WithPacket(db, i, r, handoff, p))
  {
    hide Evolves, MaxOf;
    var db' := WithPacket(db, i, r, handoff, p);
    AlwaysStillReviewed(db, db');
    forall q | q in db'.runs ensures RunOk(db', q) {
      assert RunOk(db, q);
    }
    forall j | j in db'.issues ensures IssueOk(db', j) {
      assert IssueOk(db, j);
    }
  }

  lemma NewNumberIsHighest(db: Db, i: IssueId, r: RunId, handoff: HandoffId, p: PacketId, q: RunId)
    requires PacketIsFor(db, i, r, handoff) && q in db.packets && db.packets[q].issue == i
    ensures db.packets[q].no < WithPacket(db, i, r, handoff, p).packets[r].no
  {
    hide MaxOf;
    assert db.packets[q].no in PacketNumbersOf(db, i);
  }

  lemma PacketKeepsPackets(db: Db, i: IssueId, r: RunId, handoff: HandoffId, p: PacketId)
    requires Inv(db) && PacketIsFor(db, i, r, handoff) && !PacketExists(db, p)
    ensures PacketsInv(WithPacket(db, i, r, handoff, p))
  {
    hide ReferencesInv, IssueOk, MaxOf;
    var db' := WithPacket(db, i, r, handoff, p);
    assert RunOk(db, r);
    forall q | q in db'.packets && q != r ensures db'.packets[q].issue == i ==> db'.packets[q].no < db'.packets[r].no {
      if db.packets[q].issue == i {
        NewNumberIsHighest(db, i, r, handoff, p, q);
      }
    }
    forall q | q in db'.packets ensures PacketOk(db', q) {
      assert q != r ==> PacketOk(db, q);
    }
    forall x, q | x in db'.packets && q in db'.packets && x != q ensures PacketsDiffer(db', x, q) {
      assert x != r && q != r ==> PacketsDiffer(db, x, q);
    }
    forall q, x | q in db'.packets && x in db'.packets ensures PacketIsNewer(db', q, x) {
      assert q != r ==> PacketOk(db, q);
      assert x != r ==> PacketOk(db, x);
      assert x != r && q != r ==> PacketIsNewer(db, q, x);
    }
    forall j | j in db'.issues ensures LatestPacketOk(db', j) {
      forall q | IsNewestPacket(db', j, q) && q in db'.runs && db'.runs[q].status.Completed?
        ensures db'.issues[j].latestPacket == Some(db'.packets[q].id)
      {
        if j != i {
          forall x | x in db.packets && db.packets[x].issue == j ensures db.packets[x].no <= db.packets[q].no {
            assert db'.packets[x] == db.packets[x];
          }
          assert IsNewestPacket(db, j, q) && LatestPacketOk(db, j);
        }
      }
    }
  }

  lemma InsertPacketKeeps(db: Db, i: IssueId, r: RunId, handoff: HandoffId, p: PacketId)
    requires Inv(db) && Legal(db, OpInsertPacket(i, r, handoff, p))
    ensures var tx := InsertPacket(db, i, r, handoff, p); tx.Commit? ==> Keeps(db, tx.value)
  {
    if InsertPacket(db, i, r, handoff, p).Commit? {
      PacketEvolves(db, i, r, handoff, p);
      hide Evolves, LifecycleInv, PacketsInv, MaxOf;
      PacketKeepsLifecycle(db, i, r, handoff, p);
      PacketKeepsPackets(db, i, r, handoff, p);
      SameRunsKeepAttempts(db, WithPacket(db, i, r, handoff, p));
      StillReferences(db, WithPacket(db, i, r, handoff, p));
    }
  }

  // ---- The transactions.

  lemma KeepsTransitive(a: Db, b: Db, c: Db)
    requires Keeps(a, b) && Keeps(b, c)
    ensures Keeps(a, c)
  {
    hide Inv;
  }

  // Under the invariant the guard on terminal and Blocked issues never fires.
  lemma EndedRunRestoresSource(db: Db, r: RunId)
    requires Inv(db) && RunExists(db, r) && IsActive(db.runs[r].status)
    ensures db.issues[db.runs[r].issue].state.Working?
    ensures RestoredState(db.issues[db.runs[r].issue].state, db.runs[r].source) == db.runs[r].source
    ensures IsDispatchState(db.runs[r].source)
  {
    assert RunOk(db, r);
  }

  lemma FailKeeps(db: Db, r: RunId, code: FailureCode, status: RunStatus, now: Time)
    requires Inv(db) && !IsActive(status) && !status.Completed?
    ensures var tx := Fail(db, r, code, status, now); tx.Commit? ==> Keeps(db, tx.value)
  {
    if Fail(db, r, code, status, now).Commit? {
      EndedRunRestoresSource(db, r);
      hide Inv, Evolves, OnlyEndsRuns, EndRun;
      EndRunKeeps(db, r, code, status, now, db.runs[r].source);
    }
  }

  lemma RevokeKeeps(db: Db, r: RunId)
    requires Inv(db)
    ensures Keeps(db, db.(tokens := RevokeTokens(db.tokens, r)))
  {
    hide LifecycleInv, PacketsInv, AttemptsDistinct;
    SideTablesKeep(db, db.(tokens := RevokeTokens(db.tokens, r)));
  }

  lemma CancelKeeps(db: Db, r: RunId, code: FailureCode, now: Time)
    requires Inv(db)
    ensures var tx := Cancel(db, r, code, now); tx.Commit? ==> Keeps(db, tx.value)
  {
    hide Inv, Evolves, OnlyEndsRuns, Fail;
    FailKeeps(db, r, code, RunCancelled, now);
    var tx := Fail(db, r, code, RunCancelled, now);
    if tx.Commit? {
      RevokeKeeps(tx.value, r);
      KeepsTransitive(db, tx.value, tx.value.(tokens := RevokeTokens(tx.value.tokens, r)));
    }
  }

  lemma BlockKeeps(db: Db, r: RunId, reason: string, now: Time)
    requires Inv(db)
    ensures var tx := BlockByAgent(db, r, reason, now); tx.Commit? ==> Keeps(db, tx.value)
  {
    hide Inv, Evolves, OnlyEndsRuns, EndRun;
    if BlockByAgent(db, r, reason, now).Commit? {
      var db1 := EndRun(db, r, AgentBlocked, RunCancelled, now, Blocked);
      EndRunKeeps(db, r, AgentBlocked, RunCancelled, now, Blocked);
      RevokeKeeps(db1, r);
      KeepsTransitive(db, db1, db1.(tokens := RevokeTokens(db1.tokens, r)));
    }
  }

  lemma CancellingApprovalsKeeps(db: Db, r: RunId)
    requires Inv(db)
    ensures Keeps(db, db.(approvals := CancelPendingApprovals(db.approvals, r)))
  {
    var db' := db.(approvals := CancelPendingApprovals(db.approvals, r));
    assert Evolves(db, db');
    hide LifecycleInv, PacketsInv, AttemptsDistinct, Evolves;
    assert ReferencesInv(db');
    SideTablesKeep(db, db');
  }

  lemma ReconcileKeeps(db: Db, r: RunId, now: Time)
    requires Inv(db)
    ensures var tx := ReconcileRun(db, r, now); tx.Commit? ==> Keeps(db, tx.value)
  {
    FailKeeps(db, r, DaemonRestartedInterrupted, Failed, now);
    hide Inv, Evolves, OnlyEndsRuns, Fail, CancelPendingApprovals;
    var tx := Fail(db, r, DaemonRestartedInterrupted, Failed, now);
    if tx.Commit? {
      CancellingApprovalsKeeps(tx.value, r);
      KeepsTransitive(db, tx.value, tx.value.(approvals := CancelPendingApprovals(tx.value.approvals, r)));
    }
  }

  lemma ResolveKeeps(db: Db, a: ApprovalId, status: ApprovalStatus)
    requires Inv(db)
    ensures var tx := Resolve(db, a, status); tx.Commit? ==> Keeps(db, tx.value)
  {
    hide LifecycleInv, PacketsInv, AttemptsDistinct;
    if Resolve(db, a, status).Commit? {
      SideTablesKeep(db, Resolve(db, a, status).value);
    }
  }

  lemma DecideKeeps(db: Db, a: ApprovalId, d: Decision, now: Time)
    requires Inv(db)
    ensures var tx := Decide(db, a, d, now); tx.Commit? ==> Keeps(db, tx.value)
  {
    hide Inv, Evolves, OnlyEndsRuns, Cancel, Resolve;
    if Decide(db, a, d, now).Commit? {
      var r := db.approvals[a].run;
      CancelKeeps(db, r, OperatorCancelled, now);
      var db1 := if d.CancelRun? then Cancel(db, r, OperatorCancelled, now).value else db;
      ResolveKeeps(db1, a, StatusOf(d));
      if d.CancelRun? {
        KeepsTransitive(db, db1, Decide(db, a, d, now).value);
      }
    }
  }

  lemma MintTokenKeeps(db: Db, r: RunId, h: TokenHash)
    requires Inv(db)
    ensures var tx := MintToken(db, r, h); tx.Commit? ==> Keeps(db, tx.value)
  {
    hide LifecycleInv, PacketsInv, AttemptsDistinct;
    if MintToken(db, r, h).Commit? {
      SideTablesKeep(db, MintToken(db, r, h).value);
    }
  }

  lemma SubmitHandoffKeeps(db: Db, i: IssueId, r: RunId, id: HandoffId, hash: nat)
    requires Inv(db) && (r in db.runs ==> db.runs[r].issue == i)
    ensures var tx := SubmitHandoff(db, i, r, id, hash); tx.Commit? ==> Keeps(db, tx.value)
  {
    hide LifecycleInv, PacketsInv, AttemptsDistinct, HandoffIdTaken;
    if SubmitHandoff(db, i, r, id, hash).Commit? {
      SideTablesKeep(db, SubmitHandoff(db, i, r, id, hash).value);
    }
  }

  lemma InsertApprovalKeeps(db: Db, a: ApprovalId, input: ApprovalInput, status: ApprovalStatus)
    requires Inv(db)
    ensures var tx := InsertApproval(db, a, input, status); tx.Commit? ==> Keeps(db, tx.value)
  {
    hide LifecycleInv, PacketsInv, AttemptsDistinct;
    if InsertApproval(db, a, input, status).Commit? {
      SideTablesKeep(db, InsertApproval(db, a, input, status).value);
    }
  }

  lemma EditKeeps(db: Db, i: IssueId, issue: Issue)
    requires Inv(db) && i in db.issues
    requires issue
        == db.issues[i].(fields := issue.fields, blockers := issue.blockers, duplicateOf := issue.duplicateOf)
    ensures Keeps(db, WithIssue(db, i, issue))
  {
    hide PacketsInv, AttemptsDistinct, ReferencesInv;
    assert IssueOk(db, i);
    assert Reviewed(db, i) ==> Reviewed(WithIssue(db, i, issue), i) by {
      RewriteEvolves(db, i, issue);
      StillReviewed(db, WithIssue(db, i, issue), i);
    }
    IssueWriteKeeps(db, i, issue);
  }

  lemma EditIssueKeeps(db: Db, i: IssueId, e: Edit)
    requires Inv(db)
    ensures var tx := EditIssue(db, i, e); tx.Commit? ==> Keeps(db, tx.value)
  {
    hide Inv, Keeps, Updated;
    if EditIssue(db, i, e).Commit? {
      EditKeeps(db, i, Edited(db, i, e).value);
    }
  }

  lemma SetPausedKeeps(db: Db, i: IssueId, reason: string, paused: bool)
    requires Inv(db)
    ensures var tx := SetPaused(db, i, reason, paused); tx.Commit? ==> Keeps(db, tx.value)
  {
    hide PacketsInv, AttemptsDistinct, ReferencesInv;
    if SetPaused(db, i, reason, paused).Commit? {
      var issue := db.issues[i].(paused := paused);
      assert IssueOk(db, i);
      RewriteEvolves(db, i, issue);
      StillReviewed(db, WithIssue(db, i, issue), i);
      IssueWriteKeeps(db, i, issue);
    }
  }

  lemma ReviewKeeps(db: Db, i: IssueId, accept: bool, reason: string)
    requires Inv(db)
    ensures var tx := Review(db, i, accept, reason); tx.Commit? ==> Keeps(db, tx.value)
  {
    hide PacketsInv, AttemptsDistinct, ReferencesInv;
    if Review(db, i, accept, reason).Commit? {
      var issue := db.issues[i].(state := if accept then Done else Rework, completed := accept, paused := false);
      assert IssueOk(db, i);
      RewriteEvolves(db, i, issue);
      StillReviewed(db, WithIssue(db, i, issue), i);
      IssueWriteKeeps(db, i, issue);
    }
  }

  lemma NoActiveRunMeansNotWorking(db: Db, i: IssueId)
    requires Inv(db) && i in db.issues
    ensures HasActiveRun(db, i) <==> db.issues[i].state.Working?
  {
    assert IssueOk(db, i);
    forall r | ActiveRun(db, i, r) ensures db.issues[i].state.Working? {
      assert RunOk(db, r);
    }
  }

  lemma LinkDuplicateKeeps(db: Db, i: IssueId, target: IssueState, duplicateOf: Option<IssueId>)
    requires Inv(db) && i in db.issues
    ensures var tx := LinkDuplicate(db, i, target, duplicateOf);
      tx.Commit? ==> Keeps(db, tx.value) && i in tx.value.issues && tx.value.issues[i].state == db.issues[i].state
  {
    hide Inv;
    EditKeeps(db, i, db.issues[i].(duplicateOf := duplicateOf));
  }

  // Cancelling the issue's only active run leaves it without one.
  lemma CancelLeavesNoActiveRun(db: Db, i: IssueId, r: RunId, code: FailureCode, now: Time)
    requires Inv(db) && ActiveRun(db, i, r)
    ensures var tx := Cancel(db, r, code, now);
      tx.Commit? && i in tx.value.issues && tx.value.issues[i].state == db.runs[r].source && !HasActiveRun(tx.value, i)
  {
    hide PacketsInv, AttemptsDistinct, ReferencesInv;
    assert RunOk(db, r);
    var db' := Cancel(db, r, code, now).value;
    forall q ensures !ActiveRun(db', i, q) {
      assert ActiveRun(db', i, q) ==> RunOk(db, q);
    }
  }

  // The final write of a transition, on an issue that has no active run.
  lemma TransitionWriteKeeps(db: Db, i: IssueId, issue: Issue)
    requires Inv(db) && i in db.issues && !HasActiveRun(db, i)
    requires issue.latestRun == db.issues[i].latestRun && issue.latestPacket == db.issues[i].latestPacket
    requires issue.state.Inbox? || issue.state.Ready? || issue.state.Blocked? || issue.state.Cancelled?
        || issue.state.Duplicate?
    requires !issue.completed
    ensures Keeps(db, WithIssue(db, i, issue))
  {
    NoActiveRunMeansNotWorking(db, i);
    hide Inv;
    IssueWriteKeeps(db, i, issue);
  }

  lemma NotDoneMeansNotCompleted(db: Db, i: IssueId)
    requires Inv(db) && i in db.issues
    ensures db.issues[i].completed <==> db.issues[i].state.Done?
  {
    assert IssueOk(db, i);
  }

  lemma KeepsReflexive(db: Db)
    requires Inv(db)
    ensures Keeps(db, db)
  {
    hide Inv;
  }

  // The database of a transition after its cancel of the active run.
  ghost function Idled(db: Db, i: IssueId, now: Time): Tx<Db> {
    var active := ActiveRunOf(db, i);
    if active.Some? then Cancel(db, active.value, IssueStateChanged, now) else Commit(db)
  }

  lemma IdlingKeeps(db: Db, i: IssueId, now: Time)
    requires Inv(db) && i in db.issues
    ensures var tx := Idled(db, i, now);
      tx.Commit? && Keeps(db, tx.value) && i in tx.value.issues && !HasActiveRun(tx.value, i)
    ensures ActiveRunOf(db, i).None? ==> Idled(db, i, now).value == db
  {
    hide Inv, Evolves, OnlyEndsRuns, Cancel, HasActiveRun, Keeps;
    var active := ActiveRunOf(db, i);
    if active.Some? {
      CancelKeeps(db, active.value, IssueStateChanged, now);
      CancelLeavesNoActiveRun(db, i, active.value, IssueStateChanged, now);
    } else {
      KeepsReflexive(db);
    }
  }

  lemma TransitionBodyKeeps(db: Db, i: IssueId, target: IssueState, duplicateOf: Option<IssueId>, now: Time)
    requires Inv(db) && i in db.issues && TransitionRefusal(db.issues[i], target).None?
    requires !(target.HumanReview? || target.Rework? || target.Done? || target.Working?)
    requires TransitionBody(db, i, target, duplicateOf, now).Commit?
    ensures Keeps(db, TransitionBody(db, i, target, duplicateOf, now).value)
  {
    IdlingKeeps(db, i, now);
    assert IssueOk(db, i);
    NoActiveRunMeansNotWorking(db, i);
    var db1 := Idled(db, i, now).value;
    hide Inv, Evolves, OnlyEndsRuns, Cancel, HasActiveRun, LinkDuplicate, Keeps;
    KeepsInv(db, db1);
    LinkDuplicateKeeps(db1, i, target, duplicateOf);
    var db2 := LinkDuplicate(db1, i, target, duplicateOf).value;
    KeepsInv(db1, db2);
    NoActiveRunMeansNotWorking(db1, i);
    NoActiveRunMeansNotWorking(db2, i);
    NotDoneMeansNotCompleted(db2, i);
    var issue := db2.issues[i];
    var reset := if Reopens(db.issues[i].state, target) then issue.(completed := false, paused := false) else issue;
    TransitionWriteKeeps(db2, i, reset.(state := target));
    KeepsTransitive(db1, db2, WithIssue(db2, i, reset.(state := target)));
    KeepsTransitive(db, db1, WithIssue(db2, i, reset.(state := target)));
  }

  lemma KeepsInv(db: Db, db': Db)
    requires Keeps(db, db')
    ensures Inv(db')
  {
  }

  lemma TransitionKeeps(db: Db, i: IssueId, target: IssueState, reason: string, duplicateOf: Option<IssueId>, now: Time)
    requires Inv(db)
    ensures var tx := Transition(db, i, target, reason, duplicateOf, now); tx.Commit? ==> Keeps(db, tx.value)
  {
    hide Inv, Keeps, TransitionBody, TransitionRefusal;
    if Transition(db, i, target, reason, duplicateOf, now).Commit? {
      TransitionBodyKeeps(db, i, target, duplicateOf, now);
    }
  }

  // Every legal transaction keeps the invariant, and apart from UpdateRunStatus nothing
  // happens to an existing run but its end.
  lemma StepKeeps(db: Db, op: Op)
    requires Inv(db) && Legal(db, op)
    ensures Inv(After(db, op)) && Evolves(db, After(db, op))
    ensures !op.OpAdvance? ==> OnlyEndsRuns(db, After(db, op))
  {
    KeepsReflexive(db);
    hide Inv, Evolves, OnlyEndsRuns, CreateIssue, EditIssue, SetPaused, Transition, Claim, Advance, Complete, Fail,
      BlockByAgent, Cancel, MintToken, SubmitHandoff, InsertPacket, Review, InsertApproval, Decide, Resolve,
          ReconcileRun;
    match op
    case OpCreateIssue(i, given) => CreateIssueKeeps(db, i, given);
    case OpEditIssue(i, e) => EditIssueKeeps(db, i, e);
    case OpTransition(i, target, reason, duplicateOf, now) => TransitionKeeps(db, i, target, reason, duplicateOf, now);
    case OpSetPaused(i, reason, paused) => SetPausedKeeps(db, i, reason, paused);
    case OpClaim(i, r, maxConcurrent) => ClaimKeeps(db, i, r, maxConcurrent);
    case OpAdvance(r, status) => AdvanceKeeps(db, r, status);
    case OpComplete(r, p, now) => CompleteKeeps(db, r, p, now);
    case OpFail(r, code, status, now) => FailKeeps(db, r, code, status, now);
    case OpBlock(r, reason, now) => BlockKeeps(db, r, reason, now);
    case OpCancel(r, now) => CancelKeeps(db, r, OperatorCancelled, now);
    case OpMintToken(r, h) => MintTokenKeeps(db, r, h);
    case OpSubmitHandoff(i, r, id, hash) => SubmitHandoffKeeps(db, i, r, id, hash);
    case OpInsertPacket(i, r, handoff, p) => InsertPacketKeeps(db, i, r, handoff, p);
    case OpReview(i, accept, reason) => ReviewKeeps(db, i, accept, reason);
    case OpRequestApproval(a, input) => InsertApprovalKeeps(db, a, input, AwaitingDecision);
    case OpAutoDeny(a, input) => InsertApprovalKeeps(db, a, input, AutoDenied);
    case OpDecide(a, d, now) => DecideKeeps(db, a, d, now);
    case OpTimeout(a) => ResolveKeeps(db, a, TimedOut);
    case OpCancelApproval(a) => ResolveKeeps(db, a, ApprovalCancelled);
    case OpReconcile(r, now) => ReconcileKeeps(db, r, now);
  }

  // ---- Whole logs.

  ghost predicate LegalLog(log: seq<Op>) {
    forall k {:trigger LegalAt(log, k)} :: 0 <= k < |log| ==> LegalAt(log, k)
  }

  ghost predicate LegalAt(log: seq<Op>, k: nat)
    requires k < |log|
  {
    Legal(Replay(log[..k]), log[k])
  }

  lemma LegalPrefix(log: seq<Op>, n: nat)
    requires LegalLog(log) && n <= |log|
    ensures LegalLog(log[..n])
  {
    forall k | 0 <= k < n ensures LegalAt(log[..n], k) {
      assert LegalAt(log, k);
      assert log[..n][..k] == log[..k];
    }
  }

  lemma ReplayAppend(log: seq<Op>, op: Op)
    ensures Replay(log + [op]) == After(Replay(log), op)
  {
    assert (log + [op])[..|log|] == log;
  }

  lemma LegalAppend(log: seq<Op>, op: Op)
    requires LegalLog(log) && Legal(Replay(log), op)
    ensures LegalLog(log + [op])
  {
    hide Legal, Replay;
    forall k | 0 <= k < |log| + 1 ensures LegalAt(log + [op], k) {
      assert k < |log| ==> LegalAt(log, k);
      assert (log + [op])[..k] == log[..k];
      assert log[..|log|] == log;
    }
  }

  // The invariant holds after every legal log of transactions, in any interleaving.
  lemma {:induction false} LogKeepsInvariant(log: seq<Op>)
    requires LegalLog(log)
    ensures Inv(Replay(log))
  {
    hide Legal, After, Evolves;
    if log == [] {
    } else {
      var k := |log| - 1;
      LegalPrefix(log, k);
      LogKeepsInvariant(log[..k]);
      assert LegalAt(log, k);
      hide Inv;
      StepKeeps(Replay(log[..k]), log[k]);
    }
  }

  lemma {:induction false} LogEvolves(log: seq<Op>, m: nat, n: nat)
    requires LegalLog(log) && m <= n <= |log|
    ensures Evolves(Replay(log[..m]), Replay(log[..n]))
    decreases n
  {
    hide Legal, After, Inv;
    if m == n {
    } else {
      hide Evolves;
      LogEvolves(log, m, n - 1);
      ReplayPrefix(log, n - 1);
      LegalPrefix(log, n - 1);
      LogKeepsInvariant(log[..n - 1]);
      assert LegalAt(log, n - 1);
      StepKeeps(Replay(log[..n - 1]), log[n - 1]);
      EvolvesTransitive(Replay(log[..m]), Replay(log[..n - 1]), Replay(log[..n]));
    }
  }
}
