// What a refusal tells the caller: each error code that a transaction can answer, and what is then true
// of the database.
module Refusals {
  import opened Domain
  import opened Text
  import opened Transactions
  import opened Invariant
  import opened LifecycleTheorems
  import opened LifecycleEffects

  ghost predicate RunIsActive(db: Db, r: RunId) {
    r in db.runs && IsActive(db.runs[r].status)
  }

  // A claim names the first thing in its way: what it names is there, and what it would have named before
  // is not.
  ghost predicate ClaimIsRefusedFor(db: Db, i: IssueId, r: RunId, maxConcurrent: int, e: ErrorCode) {
    match e
    case NotFound => i !in db.issues
    case InvalidStateTransition => i in db.issues && !StateIs(db, i, Ready) && !StateIs(db, i, Rework)
    case InvalidRequest =>
      (StateIs(db, i, Ready) || StateIs(db, i, Rework)) && !FieldsComplete(db.issues[i].fields)
    case DispatchPaused =>
      (StateIs(db, i, Ready) || StateIs(db, i, Rework)) && FieldsComplete(db.issues[i].fields) && db.issues[i].paused
    case HasBlockers => i in db.issues && !db.issues[i].paused && db.issues[i].blockers != {}
    case ConcurrencyLimitReached =>
      && i in db.issues && !db.issues[i].paused && db.issues[i].blockers == {}
      && |ActiveRuns(db)| >= if maxConcurrent > 0 then maxConcurrent else 3
    case Internal => r in db.runs
    case _ => false
  }

  lemma ClaimRefusalNames(db: Db, i: IssueId, r: RunId, maxConcurrent: int)
    requires HasActiveRun(db, i) ==> i in db.issues ==> db.issues[i].state.Working?
    ensures var tx := Claim(db, i, r, maxConcurrent);
      tx.Abort? ==> ClaimIsRefusedFor(db, i, r, maxConcurrent, tx.error)
  {
    hide FieldsComplete, ActiveRuns, Claimed, HasActiveRun;
  }

  lemma ClaimRefusals(log: seq<Op>, i: IssueId, r: RunId, maxConcurrent: int)
    requires LegalLog(log)
    ensures var tx := Claim(Replay(log), i, r, maxConcurrent);
      tx.Abort? ==> ClaimIsRefusedFor(Replay(log), i, r, maxConcurrent, tx.error)
  {
    LogKeepsInvariant(log);
    hide LegalLog, Replay, Inv, Claim, ClaimIsRefusedFor, HasActiveRun;
    if i in Replay(log).issues {
      NoActiveRunMeansNotWorking(Replay(log), i);
    }
    ClaimRefusalNames(Replay(log), i, r, maxConcurrent);
  }

  // A move is refused as a request if a reason is missing, an issue is made Ready incomplete or linked to
  // itself, as not found if one of the issues is, and as a transition if the move does not exist or asks
  // for a second link.
  ghost predicate MoveIsRefusedFor(
    db: Db, i: IssueId, target: IssueState, reason: string, duplicateOf: Option<IssueId>, e: ErrorCode)
  {
    match e
    case NotFound =>
      || i !in db.issues
      || (target.Duplicate? && duplicateOf.Some? && duplicateOf.value !in db.issues)
    case InvalidRequest =>
      || ((target.Blocked? || target.Cancelled? || target.Duplicate?) && Blank(reason))
      || (target.Ready? && i in db.issues && !FieldsComplete(db.issues[i].fields))
      || (target.Duplicate? && duplicateOf == Some(i))
    case InvalidStateTransition =>
      || target.HumanReview? || target.Rework? || target.Done? || target.Working?
      || (i in db.issues && !IsMove(db.issues[i].state, target))
      || (target.Duplicate? && i in db.issues && db.issues[i].duplicateOf.Some?
          && db.issues[i].duplicateOf != duplicateOf)
    case _ => false
  }

  lemma BodyRefusals(
    db: Db, i: IssueId, target: IssueState, reason: string, duplicateOf: Option<IssueId>, now: Time)
    requires Inv(db) && i in db.issues
    ensures var tx := TransitionBody(db, i, target, duplicateOf, now);
      tx.Abort? ==> MoveIsRefusedFor(db, i, target, reason, duplicateOf, tx.error)
  {
    IdlingPauses(db, i, now);
    IdlingKeepsColumns(db, i, now);
    IdlingKeys(db, i, now);
    hide Inv, Cancel, HasActiveRun, FieldsComplete, Blank, ActiveRunOf;
  }

  lemma IdlingKeys(db: Db, i: IssueId, now: Time)
    ensures Idled(db, i, now).Commit? ==> Idled(db, i, now).value.issues.Keys == db.issues.Keys
  {
    hide HasActiveRun, RevokeTokens;
  }

  lemma RefusalNames(db: Db, i: IssueId, target: IssueState, reason: string, duplicateOf: Option<IssueId>)
    requires i in db.issues && TransitionRefusal(db.issues[i], target).Some?
    requires target.Inbox? || target.Ready? || target.Blocked? || target.Cancelled? || target.Duplicate?
    ensures MoveIsRefusedFor(db, i, target, reason, duplicateOf, TransitionRefusal(db.issues[i], target).value)
  {
    hide FieldsComplete, Blank;
  }

  lemma MoveRefusals(
    log: seq<Op>, i: IssueId, target: IssueState, reason: string, duplicateOf: Option<IssueId>, now: Time)
    requires LegalLog(log)
    ensures var tx := Transition(Replay(log), i, target, reason, duplicateOf, now);
      tx.Abort? ==> MoveIsRefusedFor(Replay(log), i, target, reason, duplicateOf, tx.error)
  {
    LogKeepsInvariant(log);
    hide LegalLog, Replay, Inv, TransitionRefusal, TransitionBody, Blank, FieldsComplete;
    var db := Replay(log);
    if i in db.issues && !target.HumanReview? && !target.Rework? && !target.Done? && !target.Working? {
      BodyRefusals(db, i, target, reason, duplicateOf, now);
      if TransitionRefusal(db.issues[i], target).Some? {
        RefusalNames(db, i, target, reason, duplicateOf);
      }
    }
  }

  // Pausing, resuming and reviewing.
  lemma PauseRefusals(log: seq<Op>, i: IssueId, reason: string, paused: bool)
    requires LegalLog(log)
    ensures var db, tx := Replay(log), SetPaused(Replay(log), i, reason, paused);
      tx.Abort? ==>
        match tx.error
        case InvalidRequest => Blank(reason)
        case NotFound => i !in db.issues
        case InvalidStateTransition => StateIs(db, i, Done) || StateIs(db, i, Cancelled) || StateIs(db, i, Duplicate)
        case AlreadyRunning => StateIs(db, i, Working)
        case _ => false
  {
    LogKeepsInvariant(log);
    if i in Replay(log).issues {
      NoActiveRunMeansNotWorking(Replay(log), i);
    }
    hide LegalLog, Replay, Inv, Blank, HasActiveRun;
  }

  lemma ReviewRefusals(log: seq<Op>, i: IssueId, accept: bool, reason: string)
    requires LegalLog(log)
    ensures var db, tx := Replay(log), Review(Replay(log), i, accept, reason);
      tx.Abort? ==>
        match tx.error
        case InvalidRequest => Blank(reason)
        case NotFound => i !in db.issues
        case InvalidStateTransition => i in db.issues && !StateIs(db, i, HumanReview)
        case ReviewPacketRequired =>
          StateIs(db, i, HumanReview)
          && !exists r :: IsNewestPacket(db, i, r) && r in db.runs && db.runs[r].status.Completed?
        case _ => false
  {
    ReviewSucceedsExactlyWhen(log, i, accept, reason);
    LogKeepsInvariant(log);
    var db := Replay(log);
    if i in db.issues {
      NoActiveRunMeansNotWorking(db, i);
    }
    forall r | r in db.packets ensures RunExists(db, r) {
      assert PacketOk(db, r);
      assert RunOk(db, r);
    }
    hide LegalLog, Replay, Inv, Blank, HasActiveRun;
  }

  // Operations on runs: a run that is not there, one that has ended, a packet that is missing or another's.
  lemma RunRefusals(log: seq<Op>, op: Op)
    requires LegalLog(log) && (op.OpFail? || op.OpCancel? || op.OpReconcile? || op.OpAdvance? || op.OpComplete?)
    ensures var db, tx := Replay(log), Exec(Replay(log), op);
      tx.Abort? ==>
        match tx.error
        case NotFound => op.r !in db.runs
        case InvalidStateTransition =>
          op.r in db.runs && (!IsActive(db.runs[op.r].status) || (op.OpAdvance? && !IsActive(op.status)))
        case ReviewPacketRequired =>
          op.OpComplete? && RunIsActive(db, op.r) && !exists q :: q in db.packets && db.packets[q].id == op.p
        case InvalidRequest =>
          op.OpComplete? && RunIsActive(db, op.r) && !(op.r in db.packets && db.packets[op.r].id == op.p)
        case _ => false
  {
    LogKeepsInvariant(log);
    var db := Replay(log);
    if op.r in db.runs {
      RunsHaveIssues(log, op.r);
    }
    assert op.r in db.packets ==> PacketOk(db, op.r);
    hide LegalLog, Replay, Inv, EndRun, RevokeTokens, CancelPendingApprovals, WithReview;
  }

  // Requests and decisions.
  lemma ApprovalRefusals(log: seq<Op>, op: Op)
    requires LegalLog(log) && (op.OpDecide? || op.OpTimeout? || op.OpCancelApproval?)
    ensures var db, tx := Replay(log), Exec(Replay(log), op);
      tx.Abort? ==>
        match tx.error
        case NotFound => op.OpDecide? && op.a !in db.approvals
        case ApprovalNotPending => op.a in db.approvals ==> !db.approvals[op.a].status.AwaitingDecision?
        case InvalidStateTransition =>
          op.OpDecide? && op.a in db.approvals && !RunIsActive(db, db.approvals[op.a].run)
        case _ => false
  {
    LogKeepsInvariant(log);
    var db := Replay(log);
    if op.a in db.approvals {
      assert BelongsTo(db, db.approvals[op.a].run, db.approvals[op.a].issue);
      RunsHaveIssues(log, db.approvals[op.a].run);
    }
    hide LegalLog, Replay, Inv, EndRun, RevokeTokens;
  }

  lemma RequestRefusals(log: seq<Op>, a: ApprovalId, input: ApprovalInput, status: ApprovalStatus)
    requires LegalLog(log)
    ensures var db, tx := Replay(log), InsertApproval(Replay(log), a, input, status);
      tx.Abort? ==>
        match tx.error
        case NotFound => input.run !in db.runs
        case InvalidRequest => input.run in db.runs && db.runs[input.run].issue != input.issue
        case InvalidStateTransition => input.run in db.runs && !IsActive(db.runs[input.run].status)
        case Internal => a in db.approvals
        case _ => false
  {
    var db := Replay(log);
    if input.run in db.runs {
      RunsHaveIssues(log, input.run);
    }
    hide LegalLog, Replay, TrimSpace;
  }

  // ---- When the other transactions go through.

  lemma MintSucceedsExactlyWhen(log: seq<Op>, r: RunId, h: TokenHash)
    requires LegalLog(log)
    ensures var db := Replay(log);
      MintToken(db, r, h).Commit? <==>
        && r in db.runs && (db.runs[r].status.StartingAgent? || db.runs[r].status.Running?) && h !in db.tokens
  {
    if r in Replay(log).runs {
      RunsHaveIssues(log, r);
    }
    hide LegalLog, Replay;
  }

  lemma AdvanceSucceedsExactlyWhen(log: seq<Op>, r: RunId, status: RunStatus)
    requires LegalLog(log)
    ensures var db, tx := Replay(log), Advance(Replay(log), r, status);
      && (tx.Commit? <==> RunIsActive(db, r) && IsActive(status))
      && (tx.Commit? ==> tx.value == db.(runs := db.runs[r := db.runs[r].(status := status)]))
  {
    if r in Replay(log).runs {
      RunsHaveIssues(log, r);
    }
    hide LegalLog, Replay;
  }

  lemma BlockSucceedsExactlyWhen(log: seq<Op>, r: RunId, reason: string, now: Time)
    requires LegalLog(log)
    ensures BlockByAgent(Replay(log), r, reason, now).Commit? <==> !Blank(reason) && RunIsActive(Replay(log), r)
  {
    if r in Replay(log).runs {
      RunsHaveIssues(log, r);
    }
    hide LegalLog, Replay, Blank, EndRun, RevokeTokens;
  }

  // A run has one handoff and one packet, the packet only after the handoff.
  lemma HandoffSucceedsExactlyWhen(log: seq<Op>, r: RunId, id: HandoffId, hash: nat)
    requires LegalLog(log) && r in Replay(log).runs
    ensures var db, tx := Replay(log), SubmitHandoff(Replay(log), Replay(log).runs[r].issue, r, id, hash);
      && (tx.Commit? <==> r !in db.handoffs && !exists q :: q in db.handoffs && db.handoffs[q].id == id)
      && (tx.Commit? ==>
        tx.value == db.(handoffs := db.handoffs[r := Handoff(id, db.runs[r].issue, hash)]))
  {
    RunsHaveIssues(log, r);
    hide LegalLog, Replay;
  }

  lemma PacketSucceedsExactlyWhen(log: seq<Op>, r: RunId, handoff: HandoffId, p: PacketId)
    requires LegalLog(log) && r in Replay(log).runs
    ensures var db := Replay(log);
      InsertPacket(db, db.runs[r].issue, r, handoff, p).Commit? <==>
        && (exists q :: q in db.handoffs && db.handoffs[q].id == handoff)
        && r !in db.packets && !exists q :: q in db.packets && db.packets[q].id == p
  {
    RunsHaveIssues(log, r);
    hide LegalLog, Replay, WithPacket;
  }

  // A request is recorded for an active run of its issue, and resolved once.
  lemma RequestSucceedsExactlyWhen(log: seq<Op>, a: ApprovalId, input: ApprovalInput, status: ApprovalStatus)
    requires LegalLog(log)
    ensures var db := Replay(log);
      InsertApproval(db, a, input, status).Commit? <==>
        ActiveRun(db, input.issue, input.run) && a !in db.approvals
  {
    if input.run in Replay(log).runs {
      RunsHaveIssues(log, input.run);
    }
    hide LegalLog, Replay, TrimSpace;
  }

  // An issue is made of a title and a priority in range; an edit takes neither away, and relates the issue
  // only to others that exist.
  lemma CreateSucceedsExactlyWhen(db: Db, i: IssueId, given: Fields)
    ensures CreateIssue(db, i, given).Commit? <==>
      !Blank(given.title) && 0 <= given.priority <= 5 && i !in db.issues
  {
    hide TrimSpace, Cleaned;
  }

  lemma EditSucceedsExactlyWhen(db: Db, i: IssueId, e: Edit)
    ensures EditIssue(db, i, e).Commit? <==>
      && i in db.issues
      && match e
         case SetFields(title, _, _, priority) =>
           && (title.Some? ==> !Blank(title.value))
           && (priority.Some? ==> 1 <= priority.value <= 5)
         case AddBlocker(b) => b in db.issues && b != i
         case RemoveBlocker(b) => b in db.issues
         case RemoveDuplicate(c) => c in db.issues
  {
    hide TrimSpace, Cleaned;
  }
}
