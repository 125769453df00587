// The project database as an object. Each method is one transaction of internal/store/store.go;
// an error after a partial write rolls the tables back. The ghost log ties every object to the
// logs that the theorems are about.
module ProjectStore {
  import opened Domain
  import opened Text
  import opened Transactions
  import opened Invariant
  import opened LifecycleTheorems

  datatype Result = Success | Refused(error: ErrorCode)

  datatype HandoffResult = Received(id: HandoffId) | HandoffConflict | HandoffError

  // The method reported what the transaction did.
  ghost predicate Reports(r: Result, tx: Tx<Db>) {
    match tx
    case Commit(_) => r.Success?
    case Abort(e) => r == Refused(e)
  }

  // approvalRequestMatchesInput, on a stored request whose fields are trimmed or absent.
  predicate RequestMatches(stored: Approval, input: ApprovalInput) {
    var cwd := TrimSpace(input.cwd);
    var fingerprint := TrimSpace(input.fingerprint);
    && (stored.cwd != "" || cwd != "" ==> stored.cwd != "" && cwd != "" && stored.cwd == cwd)
    && stored.fingerprint != "" && fingerprint != "" && stored.fingerprint == fingerprint
  }

  // A request of the same run, issue and kind, approved for the run, with the same working
  // directory and the same fingerprint, which is not blank.
  ghost predicate Reusable(db: Db, b: ApprovalId, input: ApprovalInput) {
    && b in db.approvals
    && db.approvals[b].run == input.run && db.approvals[b].issue == input.issue
    && db.approvals[b].kind == input.kind && db.approvals[b].status.ApprovedForRun?
    && db.approvals[b].cwd == TrimSpace(input.cwd)
    && db.approvals[b].fingerprint == TrimSpace(input.fingerprint) && db.approvals[b].fingerprint != ""
  }

  method Maximum(s: set<nat>) returns (m: nat)
    ensures m == MaxOf(s)
  {
    m := 0;
    var rest := s;
    while rest != {}
      invariant rest <= s
      invariant forall x :: x in s && x !in rest ==> x <= m
      invariant m in s || (m == 0 && rest == s)
      decreases rest
    {
      var x :| x in rest;
      if m < x {
        m := x;
      }
      rest := rest - {x};
    }
  }

  // trimSlice
  method TrimSlice(items: seq<string>) returns (out: seq<string>)
    ensures out == Cleaned(items)
  {
    out := [];
    for k := 0 to |items|
      invariant out == Cleaned(items[..k])
    {
      assert items[..k + 1][..k] == items[..k];
      var item := TrimSpace(items[k]);
      if item != "" && item !in out {
        out := out + [item];
      }
    }
    assert items[..|items|] == items;
  }

  class Store {
    var issues: map<IssueId, Issue>
    var runs: map<RunId, Run>
    var tokens: map<TokenHash, Token>
    var handoffs: map<RunId, Handoff>
    var packets: map<RunId, Packet>
    var approvals: map<ApprovalId, Approval>
    ghost var log: seq<Op>

    function State(): Db
      reads this
    {
      Db(issues, runs, tokens, handoffs, packets, approvals)
    }

    ghost predicate Valid()
      reads this
    {
      LegalLog(log) && State() == Replay(log)
    }

    constructor ()
      ensures Valid() && log == []
    {
      issues, runs, tokens, handoffs, packets, approvals := map[], map[], map[], map[], map[], map[];
      log := [];
    }

    method Rollback(undo: Db)
      modifies this
      ensures State() == undo && log == old(log)
    {
      issues, runs, tokens, handoffs, packets, approvals :=
        undo.issues, undo.runs, undo.tokens, undo.handoffs, undo.packets, undo.approvals;
    }

    // Closes a transaction: the log gains the operation that the tables now reflect.
    ghost method Record(op: Op)
      requires LegalLog(log) && Legal(Replay(log), op) && State() == After(Replay(log), op)
      modifies this`log
      ensures Valid() && log == old(log) + [op]
    {
      hide Legal, After;
      LegalAppend(log, op);
      ReplayAppend(log, op);
      log := log + [op];
    }

    method ActiveRunID(i: IssueId) returns (active: Option<RunId>)
      ensures active.Some? <==> HasActiveRun(State(), i)
      ensures active.Some? ==> ActiveRun(State(), i, active.value)
      ensures Inv(State()) ==> active == ActiveRunOf(State(), i)
    {
      var rows := set r | r in runs && runs[r].issue == i && IsActive(runs[r].status);
      if rows == {} {
        assert forall r :: ActiveRun(State(), i, r) ==> r in rows;
        return None;
      }
      var r :| r in rows;
      assert ActiveRun(State(), i, r);
      if Inv(State()) {
        OnlyOneActiveRun(State(), i, r, ActiveRunOf(State(), i).value);
      }
      return Some(r);
    }

    // createIssueInTx
    method CreateIssue(i: IssueId, given: Fields) returns (r: Result)
      requires Valid()
      modifies this
      ensures Valid() && log == old(log) + [OpCreateIssue(i, given)]
      ensures Reports(r, Exec(old(State()), OpCreateIssue(i, given)))
    {
      hide LegalLog, Replay, TrimSpace, Cleaned;
      var title := TrimSpace(given.title);
      var priority := if given.priority == 0 then DEFAULT_PRIORITY else given.priority;
      if title == "" || !PriorityInRange(priority) {
        r := Refused(InvalidRequest);
      } else {
        var description := TrimSpace(given.description);
        var criteria := TrimSlice(given.criteria);
        if criteria == [] && description != "" {
          criteria := [DEFAULT_CRITERION];
        }
        if i in issues {
          r := Refused(Internal);
        } else {
          var fields := Fields(title, description, priority, criteria);
          issues := issues[i := Issue(Inbox, false, false, fields, {}, None, None, None)];
          r := Success;
        }
      }
      Record(OpCreateIssue(i, given));
    }

    // UpdateIssue, AddBlocker, RemoveBlocker and RemoveDuplicate
    method EditIssue(i: IssueId, e: Edit) returns (r: Result)
      requires Valid()
      modifies this
      ensures Valid() && log == old(log) + [OpEditIssue(i, e)]
      ensures Reports(r, Exec(old(State()), OpEditIssue(i, e)))
    {
      hide LegalLog, Replay, TrimSpace, Cleaned;
      if i !in issues {
        r := Refused(NotFound);
      } else {
        var issue := issues[i];
        r := Success;
        match e {
          case SetFields(title, description, criteria, priority) =>
            if title.Some? && TrimSpace(title.value) == "" {
              r := Refused(InvalidRequest);
            } else if priority.Some? && !PriorityInRange(priority.value) {
              r := Refused(InvalidRequest);
            } else {
              if title.Some? {
                issue := issue.(fields := issue.fields.(title := TrimSpace(title.value)));
              }
              if description.Some? {
                issue := issue.(fields := issue.fields.(description := TrimSpace(description.value)));
              }
              if criteria.Some? {
                var cleaned := TrimSlice(criteria.value);
                issue := issue.(fields := issue.fields.(criteria := cleaned));
              }
              if priority.Some? {
                issue := issue.(fields := issue.fields.(priority := priority.value));
              }
            }
          case AddBlocker(b) =>
            if b !in issues {
              r := Refused(NotFound);
            } else if b == i {
              r := Refused(InvalidRequest);
            } else {
              issue := issue.(blockers := issue.blockers + {b});
            }
          case RemoveBlocker(b) =>
            if b !in issues {
              r := Refused(NotFound);
            } else {
              issue := issue.(blockers := issue.blockers - {b});
            }
          case RemoveDuplicate(c) =>
            if c !in issues {
              r := Refused(NotFound);
            } else if issue.duplicateOf == Some(c) {
              issue := issue.(duplicateOf := None);
            }
        }
        if r.Success? {
          issues := issues[i := issue];
        }
      }
      Record(OpEditIssue(i, e));
    }

    // failRunInTx
    method FailRunInTx(r: RunId, code: FailureCode, status: RunStatus, now: Time) returns (res: Result)
      modifies this
      ensures log == old(log) && Reports(res, Fail(old(State()), r, code, status, now))
      ensures State() == (if res.Success? then Fail(old(State()), r, code, status, now).value else old(State()))
    {
      if r !in runs || runs[r].issue !in issues {
        return Refused(NotFound);
      }
      var run := runs[r];
      if !IsActive(run.status) {
        return Refused(InvalidStateTransition);
      }
      runs := runs[r := run.(status := status, code := Some(code), endedAt := Some(now))];
      var current := issues[run.issue].state;
      var target := current;
      if !IsTerminalIssue(current) && !current.Blocked? {
        target := run.source;
      }
      issues := issues[run.issue := issues[run.issue].(state := target, paused := true)];
      return Success;
    }

    method RevokeTokensInTx(r: RunId)
      modifies this`tokens
      ensures tokens == RevokeTokens(old(tokens), r)
    {
      tokens := map h | h in tokens :: if tokens[h].run == r then tokens[h].(revoked := true) else tokens[h];
    }

    // cancelRunInTx
    method CancelRunInTx(r: RunId, code: FailureCode, now: Time) returns (res: Result)
      modifies this
      ensures log == old(log) && Reports(res, Cancel(old(State()), r, code, now))
      ensures State() == (if res.Success? then Cancel(old(State()), r, code, now).value else old(State()))
    {
      hide Fail;
      res := FailRunInTx(r, code, RunCancelled, now);
      if res.Success? {
        RevokeTokensInTx(r);
      }
    }

    method FailRun(r: RunId, code: FailureCode, status: RunStatus, now: Time) returns (res: Result)
      requires Valid() && (status.Failed? || status.CompletedWithoutHandoff?)
      modifies this
      ensures Valid() && log == old(log) + [OpFail(r, code, status, now)]
      ensures Reports(res, Exec(old(State()), OpFail(r, code, status, now)))
    {
      hide LegalLog, Replay, Fail;
      res := FailRunInTx(r, code, status, now);
      Record(OpFail(r, code, status, now));
    }

    method CancelRun(r: RunId, now: Time) returns (res: Result)
      requires Valid()
      modifies this
      ensures Valid() && log == old(log) + [OpCancel(r, now)]
      ensures Reports(res, Exec(old(State()), OpCancel(r, now)))
    {
      hide LegalLog, Replay, Cancel;
      res := CancelRunInTx(r, OperatorCancelled, now);
      Record(OpCancel(r, now));
    }

    method BlockRunByAgent(r: RunId, reason: string, now: Time) returns (res: Result)
      requires Valid()
      modifies this
      ensures Valid() && log == old(log) + [OpBlock(r, reason, now)]
      ensures Reports(res, Exec(old(State()), OpBlock(r, reason, now)))
    {
      hide LegalLog, Replay, TrimSpace;
      if TrimSpace(reason) == "" {
        res := Refused(InvalidRequest);
      } else if r !in runs || runs[r].issue !in issues {
        res := Refused(NotFound);
      } else if !IsActive(runs[r].status) {
        res := Refused(InvalidStateTransition);
      } else {
        var run := runs[r];
        runs := runs[r := run.(status := RunCancelled, code := Some(AgentBlocked), endedAt := Some(now))];
        RevokeTokensInTx(r);
        issues := issues[run.issue := issues[run.issue].(state := Blocked, paused := true)];
        res := Success;
      }
      Record(OpBlock(r, reason, now));
    }

    method LinkDuplicateInTx(i: IssueId, duplicateOf: Option<IssueId>) returns (res: Result)
      requires i in issues
      modifies this
      ensures log == old(log) && Reports(res, LinkDuplicate(old(State()), i, Duplicate, duplicateOf))
      ensures res.Success? ==> State() == LinkDuplicate(old(State()), i, Duplicate, duplicateOf).value
    {
      if duplicateOf.None? {
        return Success;
      }
      var canonical := duplicateOf.value;
      if canonical !in issues {
        return Refused(NotFound);
      }
      if canonical == i {
        return Refused(InvalidRequest);
      }
      var existing := issues[i].duplicateOf;
      if existing.Some? && existing.value != canonical {
        return Refused(InvalidStateTransition);
      }
      if existing.None? {
        issues := issues[i := issues[i].(duplicateOf := Some(canonical))];
      }
      return Success;
    }

    // The last writes of TransitionIssue, the second guarded by the state the issue is expected in.
    method MoveIssueInTx(i: IssueId, from: IssueState, expected: IssueState, target: IssueState) returns (res: Result)
      requires i in issues
      modifies this`issues
      ensures log == old(log)
      ensures res == if old(issues)[i].state == expected then Success else Refused(InvalidStateTransition)
      ensures var issue := old(issues)[i];
        var reset := if Reopens(from, target) then issue.(completed := false, paused := false) else issue;
        res.Success? ==> State() == WithIssue(old(State()), i, reset.(state := target))
    {
      if IsTerminalIssue(from) && (target.Inbox? || target.Ready?) {
        issues := issues[i := issues[i].(completed := false, paused := false)];
      }
      if issues[i].state != expected {
        return Refused(InvalidStateTransition);
      }
      issues := issues[i := issues[i].(state := target)];
      return Success;
    }

    // The body of TransitionIssue's transaction, which may write and then fail.
    method TransitionInTx(i: IssueId, target: IssueState, duplicateOf: Option<IssueId>, now: Time) returns (res: Result)
      requires Inv(State()) && i in issues && TransitionRefusal(issues[i], target).None?
      modifies this
      ensures log == old(log) && Reports(res, TransitionBody(old(State()), i, target, duplicateOf, now))
      ensures res.Success? ==> State() == TransitionBody(old(State()), i, target, duplicateOf, now).value
    {
      hide Cancel, LinkDuplicate, Inv;
      ghost var db := State();
      var from := issues[i].state;
      var expected := from;
      var active := ActiveRunID(i);
      if active.Some? {
        CancelSucceeds(db, i, active.value, IssueStateChanged, now);
        res := CancelRunInTx(active.value, IssueStateChanged, now);
        if res.Refused? {
          return;
        }
        expected := issues[i].state;
      }
      ghost var db1 := State();
      LinkKeepsState(db1, i, target, duplicateOf);
      if target.Duplicate? && duplicateOf.Some? {
        res := LinkDuplicateInTx(i, duplicateOf);
        if res.Refused? {
          return;
        }
      }
      res := MoveIssueInTx(i, from, expected, target);
    }

    method TransitionIssue(i: IssueId, target: IssueState, reason: string, duplicateOf: Option<IssueId>, now: Time)
        returns (res: Result)
      requires Valid()
      modifies this
      ensures Valid() && log == old(log) + [OpTransition(i, target, reason, duplicateOf, now)]
      ensures Reports(res, Exec(old(State()), OpTransition(i, target, reason, duplicateOf, now)))
    {
      LogKeepsInvariant(log);
      hide LegalLog, Replay, TrimSpace, Inv, TransitionBody;
      var undo := State();
      if target.HumanReview? || target.Rework? || target.Done? || target.Working? {
        res := Refused(InvalidStateTransition);
      } else if (target.Blocked? || target.Cancelled? || target.Duplicate?) && TrimSpace(reason) == "" {
        res := Refused(InvalidRequest);
      } else if i !in issues {
        res := Refused(NotFound);
      } else if issues[i].state == target && !target.Duplicate? {
        res := Refused(InvalidStateTransition);
      } else if target.Ready? && !FieldsComplete(issues[i].fields) {
        res := Refused(InvalidRequest);
      } else if issues[i].state.Blocked? && !target.Ready? {
        res := Refused(InvalidStateTransition);
      } else if IsTerminalIssue(issues[i].state) && !(target.Inbox? || target.Ready?) {
        res := Refused(InvalidStateTransition);
      } else {
        res := TransitionInTx(i, target, duplicateOf, now);
        if res.Refused? {
          Rollback(undo);
        }
      }
      Record(OpTransition(i, target, reason, duplicateOf, now));
    }

    // DispatchPause and DispatchResume: the flag is written between two looks for an active run.
    method SetDispatchPaused(i: IssueId, reason: string, paused: bool) returns (res: Result)
      requires Valid()
      modifies this
      ensures Valid() && log == old(log) + [OpSetPaused(i, reason, paused)]
      ensures Reports(res, Exec(old(State()), OpSetPaused(i, reason, paused)))
    {
      hide LegalLog, Replay, TrimSpace, Inv;
      var undo := State();
      if TrimSpace(reason) == "" {
        res := Refused(InvalidRequest);
      } else if i !in issues {
        res := Refused(NotFound);
      } else if IsTerminalIssue(issues[i].state) {
        res := Refused(InvalidStateTransition);
      } else {
        var active := ActiveRunID(i);
        if active.None? {
          issues := issues[i := issues[i].(paused := paused)];
          SameRunsAreAsActive(undo, State(), i);
          active := ActiveRunID(i);
        }
        res := if active.Some? then Refused(AlreadyRunning) else Success;
        if res.Refused? {
          Rollback(undo);
        }
      }
      Record(OpSetPaused(i, reason, paused));
    }

    method InsertRun(i: IssueId, r: RunId)
      requires i in issues
      modifies this`runs, this`issues
      ensures State() == Claimed(old(State()), i, r)
    {
      hide MaxOf;
      var attempts := set q | q in runs && runs[q].issue == i :: runs[q].attempt;
      var last := Maximum(attempts);
      var source := issues[i].state;
      runs := runs[r := Run(i, last + 1, Pending, source, None, None)];
      issues := issues[i := issues[i].(state := Working, latestRun := Some(r))];
    }

    method ClaimRun(i: IssueId, r: RunId, maxConcurrent: int) returns (res: Result)
      requires Valid()
      modifies this
      ensures Valid() && log == old(log) + [OpClaim(i, r, maxConcurrent)]
      ensures Reports(res, Exec(old(State()), OpClaim(i, r, maxConcurrent)))
    {
      LogKeepsInvariant(log);
      hide LegalLog, Replay, Claimed, FieldsComplete, ActiveRuns, Inv;
      var limit := if maxConcurrent <= 0 then DEFAULT_MAX_CONCURRENT else maxConcurrent;
      if i !in issues {
        res := Refused(NotFound);
      } else if !IsDispatchState(issues[i].state) {
        res := Refused(InvalidStateTransition);
      } else if !FieldsComplete(issues[i].fields) {
        res := Refused(InvalidRequest);
      } else if issues[i].paused {
        res := Refused(DispatchPaused);
      } else if issues[i].blockers != {} {
        res := Refused(HasBlockers);
      } else {
        var active := ActiveRunID(i);
        var total := |ActiveRuns(State())|;
        if active.Some? {
          res := Refused(AlreadyRunning);
        } else if total >= limit {
          res := Refused(ConcurrencyLimitReached);
        } else if r in runs {
          res := Refused(Internal);
        } else {
          InsertRun(i, r);
          res := Success;
        }
      }
      hide Inv;
      Record(OpClaim(i, r, maxConcurrent));
    }

    method UpdateRunStatus(r: RunId, status: RunStatus) returns (res: Result)
      requires Valid()
      modifies this
      ensures Valid() && log == old(log) + [OpAdvance(r, status)]
      ensures Reports(res, Exec(old(State()), OpAdvance(r, status)))
    {
      hide LegalLog, Replay;
      if r !in runs || runs[r].issue !in issues {
        res := Refused(NotFound);
      } else if !IsActive(runs[r].status) || !IsActive(status) {
        res := Refused(InvalidStateTransition);
      } else {
        runs := runs[r := runs[r].(status := status)];
        res := Success;
      }
      Record(OpAdvance(r, status));
    }

    method CompleteRunWithReview(r: RunId, p: PacketId, now: Time) returns (res: Result)
      requires Valid()
      modifies this
      ensures Valid() && log == old(log) + [OpComplete(r, p, now)]
      ensures Reports(res, Exec(old(State()), OpComplete(r, p, now)))
    {
      LogKeepsInvariant(log);
      hide LegalLog, Replay;
      if r !in runs || runs[r].issue !in issues {
        res := Refused(NotFound);
      } else if !IsActive(runs[r].status) {
        res := Refused(InvalidStateTransition);
      } else {
        var rows := set q | q in packets && packets[q].id == p;
        if rows == {} {
          assert forall q :: q in packets && packets[q].id == p ==> q in rows;
          res := Refused(ReviewPacketRequired);
        } else {
          var q :| q in rows;
          assert r in packets && r != q ==> PacketsDiffer(State(), r, q);
          if packets[q].issue != runs[r].issue || q != r {
            res := Refused(InvalidRequest);
          } else if !packets[q].status.Generated? {
            res := Refused(InvalidStateTransition);
          } else {
            var run := runs[r];
            runs := runs[r := run.(status := Completed, code := None, endedAt := Some(now))];
            issues := issues[run.issue :=
              issues[run.issue].(state := HumanReview, paused := false, latestPacket := Some(p))];
            res := Success;
          }
        }
      }
      hide Inv;
      Record(OpComplete(r, p, now));
    }

    method CreateToolToken(r: RunId, h: TokenHash) returns (res: Result)
      requires Valid()
      modifies this
      ensures Valid() && log == old(log) + [OpMintToken(r, h)]
      ensures Reports(res, Exec(old(State()), OpMintToken(r, h)))
    {
      hide LegalLog, Replay;
      if r !in runs || runs[r].issue !in issues {
        res := Refused(NotFound);
      } else if !runs[r].status.StartingAgent? && !runs[r].status.Running? {
        res := Refused(InvalidStateTransition);
      } else if h in tokens {
        res := Refused(Internal);
      } else {
        tokens := tokens[h := Token(r, runs[r].issue, false)];
        res := Success;
      }
      Record(OpMintToken(r, h));
    }

    // ValidateToolTokenWithScope, with the verdicts on the token's expiry and on its scope. The run and
    // issue it answers belong together.
    method ValidateToolToken(h: TokenHash, expired: bool, scopeParses: bool) returns (owner: Option<(RunId, IssueId)>)
      requires Valid()
      ensures owner.Some? <==> TokenValidates(State(), h, expired) && scopeParses
      ensures owner.Some? ==> var (r, i) := owner.value; r == tokens[h].run && ActiveRun(State(), i, r)
    {
      LogKeepsInvariant(log);
      hide LegalLog, Replay, LifecycleInv, PacketsInv, AttemptsDistinct;
      if h !in tokens || tokens[h].run !in runs || tokens[h].revoked || expired {
        return None;
      }
      if !runs[tokens[h].run].status.Running? || !scopeParses {
        return None;
      }
      assert BelongsTo(State(), State().tokens[h].run, State().tokens[h].issue);
      return Some((tokens[h].run, tokens[h].issue));
    }

    method InsertHandoff(i: IssueId, r: RunId, id: HandoffId, hash: nat) returns (res: HandoffResult)
      requires Valid() && (r in runs ==> runs[r].issue == i)
      modifies this
      ensures Valid()
      ensures r in old(handoffs) ==>
        && State() == old(State()) && log == old(log)
        && res == if old(handoffs)[r].hash == hash then Received(old(handoffs)[r].id) else HandoffConflict
      ensures r !in old(handoffs) ==>
        && log == old(log) + [OpSubmitHandoff(i, r, id, hash)]
        && res == if SubmitHandoff(old(State()), i, r, id, hash).Commit? then Received(id) else HandoffError
    {
      hide LegalLog, Replay;
      if r in handoffs {
        return if handoffs[r].hash == hash then Received(handoffs[r].id) else HandoffConflict;
      }
      var taken := set q | q in handoffs && handoffs[q].id == id;
      if HandoffIdTaken(State(), id) {
        ghost var q :| q in handoffs && handoffs[q].id == id;
        assert q in taken;
      }
      if i !in issues || r !in runs || taken != {} {
        res := HandoffError;
      } else {
        handoffs := handoffs[r := Handoff(id, i, hash)];
        res := Received(id);
      }
      Record(OpSubmitHandoff(i, r, id, hash));
    }

    method InsertReviewPacket(i: IssueId, r: RunId, handoff: HandoffId, p: PacketId) returns (res: Result)
      requires Valid() && Legal(State(), OpInsertPacket(i, r, handoff, p))
      modifies this
      ensures Valid() && log == old(log) + [OpInsertPacket(i, r, handoff, p)]
      ensures Reports(res, Exec(old(State()), OpInsertPacket(i, r, handoff, p)))
    {
      hide LegalLog, Replay, MaxOf;
      var owners := set q | q in handoffs && handoffs[q].id == handoff;
      var twins := set q | q in packets && packets[q].id == p;
      if HandoffIdTaken(State(), handoff) {
        ghost var q :| q in handoffs && handoffs[q].id == handoff;
        assert q in owners;
      }
      if PacketExists(State(), p) {
        ghost var q :| q in packets && packets[q].id == p;
        assert q in twins;
      }
      if i !in issues || r !in runs || owners == {} || r in packets || twins != {} {
        res := Refused(Internal);
      } else {
        var numbers := set q | q in packets && packets[q].issue == i :: packets[q].no;
        var last := Maximum(numbers);
        packets := packets[r := Packet(p, i, handoff, last + 1, Generated)];
        issues := issues[i := issues[i].(latestPacket := Some(p))];
        res := Success;
      }
      Record(OpInsertPacket(i, r, handoff, p));
    }

    // The newest packet of an issue, found by its number.
    method NewestPacket(i: IssueId) returns (newest: Option<RunId>)
      ensures newest.Some? ==> IsNewestPacket(State(), i, newest.value)
      ensures newest.None? ==> !exists r :: IsNewestPacket(State(), i, r)
    {
      newest := None;
      var rest := set r | r in packets && packets[r].issue == i;
      while rest != {}
        invariant forall r :: r in rest ==> r in packets && packets[r].issue == i
        invariant newest.Some? ==> newest.value in packets && packets[newest.value].issue == i
        invariant forall r :: r in packets && packets[r].issue == i && r !in rest ==>
          newest.Some? && packets[r].no <= packets[newest.value].no
        decreases rest
      {
        var r :| r in rest;
        if newest.None? || packets[newest.value].no < packets[r].no {
          newest := Some(r);
        }
        rest := rest - {r};
      }
    }

    // MarkDone (accept) and SendToRework.
    method ReviewAction(i: IssueId, accept: bool, reason: string) returns (res: Result)
      requires Valid()
      modifies this
      ensures Valid() && log == old(log) + [OpReview(i, accept, reason)]
      ensures Reports(res, Exec(old(State()), OpReview(i, accept, reason)))
    {
      LogKeepsInvariant(log);
      hide LegalLog, Replay, TrimSpace;
      if TrimSpace(reason) == "" {
        res := Refused(InvalidRequest);
      } else if i !in issues {
        res := Refused(NotFound);
      } else if !issues[i].state.HumanReview? {
        res := Refused(InvalidStateTransition);
      } else {
        var active := ActiveRunID(i);
        var newest := NewestPacket(i);
        if active.Some? {
          res := Refused(AlreadyRunning);
        } else if newest.None? {
          res := Refused(ReviewPacketRequired);
        } else {
          var r := newest.value;
          forall q | IsNewestPacket(State(), i, q) ensures q == r {
            NewestPacketIsUnique(State(), i, q, r);
          }
          if issues[i].latestPacket != Some(packets[r].id) || !packets[r].status.Generated? {
            res := Refused(ReviewPacketRequired);
          } else if r !in runs || runs[r].issue !in issues {
            res := Refused(NotFound);
          } else if !runs[r].status.Completed? {
            res := Refused(ReviewPacketRequired);
          } else {
            issues := issues[i :=
              issues[i].(state := if accept then Done else Rework, completed := accept, paused := false)];
            res := Success;
          }
        }
      }
      hide Inv;
      Record(OpReview(i, accept, reason));
    }

    method InsertApprovalInTx(a: ApprovalId, input: ApprovalInput, status: ApprovalStatus) returns (res: Result)
      modifies this
      ensures log == old(log) && Reports(res, InsertApproval(old(State()), a, input, status))
      ensures State() == (if res.Success? then InsertApproval(old(State()), a, input, status).value else old(State()))
    {
      hide TrimSpace;
      if input.run !in runs || runs[input.run].issue !in issues {
        return Refused(NotFound);
      }
      if runs[input.run].issue != input.issue {
        return Refused(InvalidRequest);
      }
      if !IsActive(runs[input.run].status) {
        return Refused(InvalidStateTransition);
      }
      if a in approvals {
        return Refused(Internal);
      }
      approvals := approvals[a := Approval(input.run, input.issue, input.kind,
                                           TrimSpace(input.cwd), TrimSpace(input.fingerprint), status)];
      return Success;
    }

    method CreatePendingApprovalRequest(a: ApprovalId, input: ApprovalInput) returns (res: Result)
      requires Valid()
      modifies this
      ensures Valid() && log == old(log) + [OpRequestApproval(a, input)]
      ensures Reports(res, Exec(old(State()), OpRequestApproval(a, input)))
    {
      hide LegalLog, Replay, InsertApproval;
      res := InsertApprovalInTx(a, input, AwaitingDecision);
      Record(OpRequestApproval(a, input));
    }

    method CreateAutoDeniedApprovalRequest(a: ApprovalId, input: ApprovalInput) returns (res: Result)
      requires Valid()
      modifies this
      ensures Valid() && log == old(log) + [OpAutoDeny(a, input)]
      ensures Reports(res, Exec(old(State()), OpAutoDeny(a, input)))
    {
      hide LegalLog, Replay, InsertApproval;
      res := InsertApprovalInTx(a, input, AutoDenied);
      Record(OpAutoDeny(a, input));
    }

    // The reads of one transaction. A command without a working directory never matches.
    method HasApprovedForRunApproval(input: ApprovalInput) returns (res: Tx<bool>)
      ensures input.kind.Command? && Blank(input.cwd) ==> res == Commit(false)
      ensures !(input.kind.Command? && Blank(input.cwd)) ==>
        res == if !RunExists(State(), input.run) then Abort(NotFound)
               else if runs[input.run].issue != input.issue then Abort(InvalidRequest)
               else if !IsActive(runs[input.run].status) then Abort(InvalidStateTransition)
               else Commit(exists b :: Reusable(State(), b, input))
    {
      hide TrimSpace;
      if input.kind.Command? && TrimSpace(input.cwd) == "" {
        return Commit(false);
      }
      if input.run !in runs || runs[input.run].issue !in issues {
        return Abort(NotFound);
      }
      if runs[input.run].issue != input.issue {
        return Abort(InvalidRequest);
      }
      if !IsActive(runs[input.run].status) {
        return Abort(InvalidStateTransition);
      }
      var rows := set b | b in approvals && approvals[b].run == input.run && approvals[b].issue == input.issue
                                         && approvals[b].kind == input.kind && approvals[b].status.ApprovedForRun?;
      while rows != {}
        invariant forall b :: b in rows ==>
          && b in approvals && approvals[b].run == input.run && approvals[b].issue == input.issue
          && approvals[b].kind == input.kind && approvals[b].status.ApprovedForRun?
        invariant forall b :: Reusable(State(), b, input) ==> b in rows
        decreases rows
      {
        var b :| b in rows;
        if RequestMatches(approvals[b], input) {
          assert Reusable(State(), b, input);
          return Commit(true);
        }
        rows := rows - {b};
      }
      return Commit(false);
    }

    method ResolveInTx(a: ApprovalId, status: ApprovalStatus) returns (res: Result)
      modifies this
      ensures log == old(log) && Reports(res, Resolve(old(State()), a, status))
      ensures State() == (if res.Success? then Resolve(old(State()), a, status).value else old(State()))
    {
      if a !in approvals || !approvals[a].status.AwaitingDecision? {
        return Refused(ApprovalNotPending);
      }
      approvals := approvals[a := approvals[a].(status := status)];
      return Success;
    }

    method DecideApproval(a: ApprovalId, d: Decision, now: Time) returns (res: Result)
      requires Valid()
      modifies this
      ensures Valid() && log == old(log) + [OpDecide(a, d, now)]
      ensures Reports(res, Exec(old(State()), OpDecide(a, d, now)))
    {
      hide LegalLog, Replay, Cancel, Resolve;
      var undo := State();
      if a !in approvals {
        res := Refused(NotFound);
      } else if !approvals[a].status.AwaitingDecision? {
        res := Refused(ApprovalNotPending);
      } else {
        var r := approvals[a].run;
        if d.CancelRun? {
          res := CancelRunInTx(r, OperatorCancelled, now);
        } else if r !in runs || runs[r].issue !in issues {
          res := Refused(NotFound);
        } else if !IsActive(runs[r].status) {
          res := Refused(InvalidStateTransition);
        } else {
          res := Success;
        }
        if res.Success? {
          res := ResolveInTx(a, StatusOf(d));
        }
        if res.Refused? {
          Rollback(undo);
        }
      }
      Record(OpDecide(a, d, now));
    }

    method MarkApprovalTimeout(a: ApprovalId) returns (res: Result)
      requires Valid()
      modifies this
      ensures Valid() && log == old(log) + [OpTimeout(a)]
      ensures Reports(res, Exec(old(State()), OpTimeout(a)))
    {
      hide LegalLog, Replay, Resolve;
      res := ResolveInTx(a, TimedOut);
      Record(OpTimeout(a));
    }

    method MarkApprovalCancelled(a: ApprovalId) returns (res: Result)
      requires Valid()
      modifies this
      ensures Valid() && log == old(log) + [OpCancelApproval(a)]
      ensures Reports(res, Exec(old(State()), OpCancelApproval(a)))
    {
      hide LegalLog, Replay, Resolve;
      res := ResolveInTx(a, ApprovalCancelled);
      Record(OpCancelApproval(a));
    }

    // The transaction of one iteration of ReconcileStaleActiveRuns.
    method ReconcileOne(r: RunId, now: Time) returns (res: Result)
      requires Valid()
      modifies this
      ensures Valid() && log == old(log) + [OpReconcile(r, now)]
      ensures Reports(res, Exec(old(State()), OpReconcile(r, now)))
      ensures State() == After(old(State()), OpReconcile(r, now))
    {
      hide LegalLog, Replay, Fail;
      res := FailRunInTx(r, DaemonRestartedInterrupted, Failed, now);
      if res.Success? {
        approvals := map a | a in approvals ::
          if approvals[a].run == r && approvals[a].status.AwaitingDecision?
          then approvals[a].(status := ApprovalCancelled) else approvals[a];
      }
      Record(OpReconcile(r, now));
    }

    // The restart: the rows are read once, then each run is failed in a transaction of its own.
    // Alone with the database it meets no error, leaves nothing running or Working, puts every
    // interrupted issue back where it was, paused, and leaves pending only approvals of runs that
    // had ended before.
    method ReconcileStaleActiveRuns(now: Time) returns (failed: set<RunId>)
      requires Valid()
      modifies this
      ensures Valid() && failed == {}
      ensures ActiveRuns(State()) == {}
      ensures forall i :: i in issues ==> !issues[i].state.Working?
      ensures forall r :: r in ActiveRuns(old(State())) ==> Interrupted(old(State()), State(), r)
      ensures forall a :: a in approvals && approvals[a].status.AwaitingDecision? ==>
        a in old(approvals) && approvals[a].run in old(runs) && !IsActive(old(runs)[approvals[a].run].status)
    {
      hide LegalLog, Replay;
      LogKeepsInvariant(log);
      ghost var db0 := State();
      var rest := ActiveRuns(State());
      failed := {};
      ReconcileStarts(db0);
      hide Midway, ActiveRuns, Inv;
      while rest != {}
        invariant Valid() && failed == {} && Inv(State()) && Midway(db0, State(), rest)
        decreases rest
      {
        var r :| r in rest;
        ReconcileStep(db0, State(), rest, r, now);
        var res := ReconcileOne(r, now);
        if res.Refused? {
          failed := failed + {r};
        }
        LogKeepsInvariant(log);
        rest := rest - {r};
      }
      ReconcileEnds(db0, State());
    }
  }

  // Everybody else: any number of transactions, by anybody, may have been attempted meanwhile.
  method Interfere(store: Store)
    requires store.Valid()
    modifies store
    ensures store.Valid() && old(store.log) <= store.log
  {
  }

  // A run that the restart found active: failed, its issue back in its source state and paused.
  ghost predicate Interrupted(db: Db, db': Db, r: RunId) {
    && r in db.runs && r in db'.runs
    && db'.runs[r] == db.runs[r].(status := Failed, code := db'.runs[r].code, endedAt := db'.runs[r].endedAt)
    && db'.runs[r].code == Some(DaemonRestartedInterrupted)
    && db.runs[r].issue in db'.issues
    && db'.issues[db.runs[r].issue].state == db.runs[r].source && db'.issues[db.runs[r].issue].paused
  }

  // What is still pending was pending before, for runs that are still to be failed or had ended.
  ghost predicate PendingAreOld(db: Db, db': Db, rest: set<RunId>) {
    forall a :: a in db'.approvals && db'.approvals[a].status.AwaitingDecision? ==>
      && a in db.approvals && db'.approvals[a] == db.approvals[a] && db.approvals[a].run in db.runs
      && (db.approvals[a].run in rest || !IsActive(db.runs[db.approvals[a].run].status))
  }

  lemma ReconcileOneEffect(db: Db, r: RunId, now: Time)
    requires Inv(db) && r in ActiveRuns(db)
    ensures ReconcileRun(db, r, now).Commit?
    ensures var db' := After(db, OpReconcile(r, now));
      && ActiveRuns(db') == ActiveRuns(db) - {r}
      && Interrupted(db, db', r)
      && (forall q :: q in db.runs && q != r ==> q in db'.runs && db'.runs[q] == db.runs[q])
      && (forall i :: i in db.issues && i != db.runs[r].issue ==> i in db'.issues && db'.issues[i] == db.issues[i])
      && db'.approvals == CancelPendingApprovals(db.approvals, r)
      && db.issues.Keys <= db'.issues.Keys && db.issues[db.runs[r].issue].state.Working?
  {
    assert RunOk(db, r);
    hide PacketsInv, AttemptsDistinct, ReferencesInv;
  }

  lemma InterruptedLasts(db0: Db, db: Db, db': Db, r: RunId, q: RunId)
    requires Interrupted(db0, db, q) && IsDispatchState(db0.runs[q].source) && r != q && r in db.runs
    requires db.runs[r].issue in db.issues && db.issues[db.runs[r].issue].state.Working?
    requires q in db'.runs && db'.runs[q] == db.runs[q]
    requires forall i :: i in db.issues && i != db.runs[r].issue ==> i in db'.issues && db'.issues[i] == db.issues[i]
    requires db.runs[q].issue in db.issues
    ensures Interrupted(db0, db', q)
  {
  }

  // The restart loop's state when `rest` is still to be failed.
  ghost predicate Midway(db0: Db, db: Db, rest: set<RunId>) {
    && ActiveRuns(db) == rest && rest <= ActiveRuns(db0)
    && (forall r {:trigger MidwayRun(db0, db, rest, r)} :: r in ActiveRuns(db0) ==> MidwayRun(db0, db, rest, r))
    && PendingAreOld(db0, db, rest)
  }

  ghost predicate MidwayRun(db0: Db, db: Db, rest: set<RunId>, r: RunId) {
    && r in db0.runs && IsDispatchState(db0.runs[r].source)
    && if r in rest then r in db.runs && db.runs[r] == db0.runs[r] else Interrupted(db0, db, r)
  }

  lemma ReconcileStarts(db0: Db)
    requires Inv(db0)
    ensures Midway(db0, db0, ActiveRuns(db0))
  {
    forall r | r in ActiveRuns(db0) ensures MidwayRun(db0, db0, ActiveRuns(db0), r) {
      assert RunOk(db0, r);
    }
    forall a | a in db0.approvals ensures db0.approvals[a].run in db0.runs {
      assert BelongsTo(db0, db0.approvals[a].run, db0.approvals[a].issue);
    }
  }

  lemma ReconcileStep(db0: Db, db: Db, rest: set<RunId>, r: RunId, now: Time)
    requires Inv(db) && Midway(db0, db, rest) && r in rest
    ensures ReconcileRun(db, r, now).Commit?
    ensures Midway(db0, After(db, OpReconcile(r, now)), rest - {r})
  {
    var db' := After(db, OpReconcile(r, now));
    assert RunOk(db, r);
    ReconcileOneEffect(db, r, now);
    assert MidwayRun(db0, db, rest, r);
    hide Inv, After, ReconcileRun;
    forall q | q in ActiveRuns(db0) ensures MidwayRun(db0, db', rest - {r}, q) {
      assert MidwayRun(db0, db, rest, q);
      if q !in rest {
        InterruptedLasts(db0, db, db', r, q);
      }
    }
    assert PendingAreOld(db0, db', rest - {r});
  }

  lemma ReconcileEnds(db0: Db, db: Db)
    requires Inv(db) && Midway(db0, db, {})
    ensures ActiveRuns(db) == {}
    ensures forall i :: i in db.issues ==> !db.issues[i].state.Working?
    ensures forall r :: r in ActiveRuns(db0) ==> Interrupted(db0, db, r)
    ensures forall a :: a in db.approvals && db.approvals[a].status.AwaitingDecision? ==>
      a in db0.approvals && db.approvals[a].run in db0.runs && !IsActive(db0.runs[db.approvals[a].run].status)
  {
    hide Inv;
    forall i | i in db.issues ensures !db.issues[i].state.Working? {
      NoActiveRunMeansNotWorking(db, i);
      assert forall r :: ActiveRun(db, i, r) ==> r in ActiveRuns(db);
    }
    forall r | r in ActiveRuns(db0) ensures Interrupted(db0, db, r) {
      assert MidwayRun(db0, db, {}, r);
    }
  }

  lemma CancelSucceeds(db: Db, i: IssueId, r: RunId, code: FailureCode, now: Time)
    requires Inv(db) && ActiveRun(db, i, r)
    ensures Cancel(db, r, code, now).Commit? && i in Cancel(db, r, code, now).value.issues
  {
    assert RunOk(db, r);
  }

  lemma LinkKeepsState(db: Db, i: IssueId, target: IssueState, duplicateOf: Option<IssueId>)
    requires i in db.issues
    ensures var tx := LinkDuplicate(db, i, target, duplicateOf);
      && (tx.Commit? ==> i in tx.value.issues && tx.value.issues[i].state == db.issues[i].state)
      && (!target.Duplicate? || duplicateOf.None? ==> tx == Commit(db))
  {
  }
}
