// What each transaction of internal/store/store.go does to the database, as a function from
// the old contents to the new ones. Checks are made in the order the store makes them.
module Transactions {
  import opened Domain
  import opened Text

  const DEFAULT_MAX_CONCURRENT := 3

  ghost function MaxOf(s: set<nat>): (m: nat)
    ensures forall x :: x in s ==> x <= m
    ensures s != {} ==> m in s
    ensures s == {} ==> m == 0
  {
    if s == {} then 0
    else
      var x :| x in s;
      var m := MaxOf(s - {x});
      assert s == {x} + (s - {x});
      if m < x then x else m
  }

  ghost function AttemptsOf(db: Db, i: IssueId): set<nat> {
    set r | r in db.runs && db.runs[r].issue == i :: db.runs[r].attempt
  }

  ghost function PacketNumbersOf(db: Db, i: IssueId): set<nat> {
    set r | r in db.packets && db.packets[r].issue == i :: db.packets[r].no
  }

  ghost function ActiveRunOf(db: Db, i: IssueId): (o: Option<RunId>)
    ensures o.Some? <==> HasActiveRun(db, i)
    ensures o.Some? ==> ActiveRun(db, i, o.value)
  {
    if HasActiveRun(db, i) then var r :| ActiveRun(db, i, r); Some(r) else None
  }

  // The run whose packet has the highest number among the issue's packets.
  ghost predicate IsNewestPacket(db: Db, i: IssueId, r: RunId) {
    && r in db.packets && db.packets[r].issue == i
    && forall q :: q in db.packets && db.packets[q].issue == i ==> db.packets[q].no <= db.packets[r].no
  }

  ghost predicate RunExists(db: Db, r: RunId) {
    r in db.runs && db.runs[r].issue in db.issues
  }

  ghost function WithIssue(db: Db, i: IssueId, issue: Issue): Db {
    db.(issues := db.issues[i := issue])
  }

  ghost function WithRun(db: Db, r: RunId, run: Run): Db {
    db.(runs := db.runs[r := run])
  }

  ghost function RevokeTokens(tokens: map<TokenHash, Token>, r: RunId): map<TokenHash, Token> {
    map h | h in tokens :: if tokens[h].run == r then tokens[h].(revoked := true) else tokens[h]
  }

  // trimSlice: trimmed, without blanks and repetitions, in the order of first appearance.
  function Cleaned(items: seq<string>): seq<string> {
    if items == [] then []
    else
      var n := |items| - 1;
      var before, item := Cleaned(items[..n]), TrimSpace(items[n]);
      if item == "" || item in before then before else before + [item]
  }

  const DEFAULT_CRITERION := "Task is complete and reviewable."
  const DEFAULT_PRIORITY := 3

  // The fields of a new issue. A described issue without criteria gets one.
  function NewFields(given: Fields): Fields {
    var description, criteria := TrimSpace(given.description), Cleaned(given.criteria);
    Fields(TrimSpace(given.title), description, if given.priority == 0 then DEFAULT_PRIORITY else given.priority,
           if criteria == [] && description != "" then [DEFAULT_CRITERION] else criteria)
  }

  ghost function CreateIssue(db: Db, i: IssueId, given: Fields): Tx<Db> {
    var fields := NewFields(given);
    if fields.title == "" || !PriorityInRange(fields.priority) then Abort(InvalidRequest)
    else if i in db.issues then Abort(Internal)
    else Commit(WithIssue(db, i, Issue(Inbox, false, false, fields, {}, None, None, None)))
  }

  function Updated(f: Fields, e: Edit): Fields
    requires e.SetFields?
  {
    Fields(if e.title.Some? then TrimSpace(e.title.value) else f.title,
           if e.description.Some? then TrimSpace(e.description.value) else f.description,
           if e.priority.Some? then e.priority.value else f.priority,
           if e.criteria.Some? then Cleaned(e.criteria.value) else f.criteria)
  }

  // The issue after UpdateIssue, AddBlocker, RemoveBlocker or RemoveDuplicate.
  ghost function Edited(db: Db, i: IssueId, e: Edit): Tx<Issue>
    requires i in db.issues
  {
    var issue := db.issues[i];
    match e
    case SetFields(title, _, _, priority) =>
      if (title.Some? && Blank(title.value)) || (priority.Some? && !PriorityInRange(priority.value))
      then Abort(InvalidRequest)
      else Commit(issue.(fields := Updated(issue.fields, e)))
    case AddBlocker(b) =>
      if b !in db.issues then Abort(NotFound)
      else if b == i then Abort(InvalidRequest)
      else Commit(issue.(blockers := issue.blockers + {b}))
    case RemoveBlocker(b) =>
      if b !in db.issues then Abort(NotFound) else Commit(issue.(blockers := issue.blockers - {b}))
    case RemoveDuplicate(c) =>
      if c !in db.issues then Abort(NotFound)
      else Commit(issue.(duplicateOf := if issue.duplicateOf == Some(c) then None else issue.duplicateOf))
  }

  ghost function EditIssue(db: Db, i: IssueId, e: Edit): Tx<Db> {
    if i !in db.issues then Abort(NotFound)
    else
      var issue :- Edited(db, i, e);
      Commit(WithIssue(db, i, issue))
  }

  // The state an issue returns to when its run ends without a review packet.
  ghost function RestoredState(current: IssueState, source: IssueState): IssueState {
    if IsTerminalIssue(current) || current.Blocked? then current else source
  }

  // The run ends and its issue goes to `target`, paused.
  ghost function EndRun(db: Db, r: RunId, code: FailureCode, status: RunStatus, now: Time, target: IssueState): Db
    requires RunExists(db, r)
  {
    var run := db.runs[r];
    WithIssue(WithRun(db, r, run.(status := status, code := Some(code), endedAt := Some(now))),
              run.issue, db.issues[run.issue].(state := target, paused := true))
  }

  ghost function Fail(db: Db, r: RunId, code: FailureCode, status: RunStatus, now: Time): Tx<Db> {
    if !RunExists(db, r) then Abort(NotFound)
    else if !IsActive(db.runs[r].status) then Abort(InvalidStateTransition)
    else
      var target := RestoredState(db.issues[db.runs[r].issue].state, db.runs[r].source);
      Commit(EndRun(db, r, code, status, now, target))
  }

  ghost function Cancel(db: Db, r: RunId, code: FailureCode, now: Time): Tx<Db> {
    var db1 :- Fail(db, r, code, RunCancelled, now);
    Commit(db1.(tokens := RevokeTokens(db1.tokens, r)))
  }

  ghost function BlockByAgent(db: Db, r: RunId, reason: string, now: Time): Tx<Db> {
    if Blank(reason) then Abort(InvalidRequest)
    else if !RunExists(db, r) then Abort(NotFound)
    else if !IsActive(db.runs[r].status) then Abort(InvalidStateTransition)
    else
      var db1 := EndRun(db, r, AgentBlocked, RunCancelled, now, Blocked);
      Commit(db1.(tokens := RevokeTokens(db1.tokens, r)))
  }

  ghost function LinkDuplicate(db: Db, i: IssueId, target: IssueState, duplicateOf: Option<IssueId>): Tx<Db>
    requires i in db.issues
  {
    if !target.Duplicate? || duplicateOf.None? then Commit(db)
    else if duplicateOf.value !in db.issues then Abort(NotFound)
    else if duplicateOf.value == i then Abort(InvalidRequest)
    else if db.issues[i].duplicateOf.Some? && db.issues[i].duplicateOf != duplicateOf then Abort(InvalidStateTransition)
    else Commit(WithIssue(db, i, db.issues[i].(duplicateOf := duplicateOf)))
  }

  ghost predicate Reopens(from: IssueState, target: IssueState) {
    IsTerminalIssue(from) && (target.Inbox? || target.Ready?)
  }

  ghost function TransitionRefusal(issue: Issue, target: IssueState): Option<ErrorCode> {
    if issue.state == target && !target.Duplicate? then Some(InvalidStateTransition)
    else if target.Ready? && !FieldsComplete(issue.fields) then Some(InvalidRequest)
    else if issue.state.Blocked? && !target.Ready? then Some(InvalidStateTransition)
    else if IsTerminalIssue(issue.state) && !Reopens(issue.state, target) then Some(InvalidStateTransition)
    else None
  }

  // The writes of a transition: cancel the active run, link the duplicate, move the issue.
  ghost function TransitionBody(db: Db, i: IssueId, target: IssueState, duplicateOf: Option<IssueId>, now: Time): Tx<Db>
    requires i in db.issues
  {
    var from := db.issues[i].state;
    var active := ActiveRunOf(db, i);
    var db1 :- if active.Some? then Cancel(db, active.value, IssueStateChanged, now) else Commit(db);
    var db2 :- LinkDuplicate(db1, i, target, duplicateOf);
    var issue := db2.issues[i];
    var reset := if Reopens(from, target) then issue.(completed := false, paused := false) else issue;
    Commit(WithIssue(db2, i, reset.(state := target)))
  }

  ghost function Transition(db: Db, i: IssueId, target: IssueState, reason: string, duplicateOf: Option<IssueId>,
      now: Time): Tx<Db> {
    if target.HumanReview? || target.Rework? || target.Done? || target.Working? then Abort(InvalidStateTransition)
    else if (target.Blocked? || target.Cancelled? || target.Duplicate?) && Blank(reason) then Abort(InvalidRequest)
    else if i !in db.issues then Abort(NotFound)
    else if TransitionRefusal(db.issues[i], target).Some? then Abort(TransitionRefusal(db.issues[i], target).value)
    else TransitionBody(db, i, target, duplicateOf, now)
  }

  // DispatchPause and DispatchResume differ only in the flag they write.
  ghost function SetPaused(db: Db, i: IssueId, reason: string, paused: bool): Tx<Db> {
    if Blank(reason) then Abort(InvalidRequest)
    else if i !in db.issues then Abort(NotFound)
    else if IsTerminalIssue(db.issues[i].state) then Abort(InvalidStateTransition)
    else if HasActiveRun(db, i) then Abort(AlreadyRunning)
    else Commit(WithIssue(db, i, db.issues[i].(paused := paused)))
  }

  function EffectiveLimit(maxConcurrent: int): nat {
    if maxConcurrent <= 0 then DEFAULT_MAX_CONCURRENT else maxConcurrent
  }

  ghost function Claimed(db: Db, i: IssueId, r: RunId): Db
    requires i in db.issues
  {
    var issue := db.issues[i];
    WithIssue(WithRun(db, r, Run(i, MaxOf(AttemptsOf(db, i)) + 1, Pending, issue.state, None, None)),
              i, issue.(state := Working, latestRun := Some(r)))
  }

  ghost function Claim(db: Db, i: IssueId, r: RunId, maxConcurrent: int): Tx<Db> {
    if i !in db.issues then Abort(NotFound)
    else if !IsDispatchState(db.issues[i].state) then Abort(InvalidStateTransition)
    else if !FieldsComplete(db.issues[i].fields) then Abort(InvalidRequest)
    else if db.issues[i].paused then Abort(DispatchPaused)
    else if db.issues[i].blockers != {} then Abort(HasBlockers)
    else if HasActiveRun(db, i) then Abort(AlreadyRunning)
    else if |ActiveRuns(db)| >= EffectiveLimit(maxConcurrent) then Abort(ConcurrencyLimitReached)
    else if r in db.runs then Abort(Internal)
    else Commit(Claimed(db, i, r))
  }

  ghost function Advance(db: Db, r: RunId, status: RunStatus): Tx<Db> {
    if !RunExists(db, r) then Abort(NotFound)
    else if !IsActive(db.runs[r].status) then Abort(InvalidStateTransition)
    else if !IsActive(status) then Abort(InvalidStateTransition)
    else Commit(WithRun(db, r, db.runs[r].(status := status)))
  }

  ghost predicate PacketExists(db: Db, p: PacketId) {
    exists q :: q in db.packets && db.packets[q].id == p
  }

  ghost predicate IsPacketOf(db: Db, r: RunId, p: PacketId)
    requires r in db.runs
  {
    r in db.packets && db.packets[r].id == p && db.packets[r].issue == db.runs[r].issue
  }

  ghost function WithReview(db: Db, r: RunId, p: PacketId, now: Time): Db
    requires RunExists(db, r)
  {
    var run := db.runs[r];
    WithIssue(WithRun(db, r, run.(status := Completed, code := None, endedAt := Some(now))),
              run.issue, db.issues[run.issue].(state := HumanReview, paused := false, latestPacket := Some(p)))
  }

  ghost function Complete(db: Db, r: RunId, p: PacketId, now: Time): Tx<Db> {
    if !RunExists(db, r) then Abort(NotFound)
    else if !IsActive(db.runs[r].status) then Abort(InvalidStateTransition)
    else if !PacketExists(db, p) then Abort(ReviewPacketRequired)
    else if !IsPacketOf(db, r, p) then Abort(InvalidRequest)
    else if !db.packets[r].status.Generated? then Abort(InvalidStateTransition)
    else Commit(WithReview(db, r, p, now))
  }

  ghost function MintToken(db: Db, r: RunId, h: TokenHash): Tx<Db> {
    if !RunExists(db, r) then Abort(NotFound)
    else if !(db.runs[r].status.StartingAgent? || db.runs[r].status.Running?) then Abort(InvalidStateTransition)
    else if h in db.tokens then Abort(Internal)
    else Commit(db.(tokens := db.tokens[h := Token(r, db.runs[r].issue, false)]))
  }

  // ValidateToolTokenWithScope; expiry is decided by the clock and so given.
  ghost predicate TokenValidates(db: Db, h: TokenHash, expired: bool) {
    && h in db.tokens && db.tokens[h].run in db.runs
    && !db.tokens[h].revoked && !expired
    && db.runs[db.tokens[h].run].status.Running?
  }

  ghost predicate HandoffIdTaken(db: Db, id: HandoffId) {
    exists q :: q in db.handoffs && db.handoffs[q].id == id
  }

  // The insert of InsertHandoff; the read before it only decides whether to reach the insert.
  ghost function SubmitHandoff(db: Db, i: IssueId, r: RunId, id: HandoffId, hash: nat): Tx<Db> {
    if i !in db.issues || r !in db.runs || r in db.handoffs || HandoffIdTaken(db, id) then Abort(Internal)
    else Commit(db.(handoffs := db.handoffs[r := Handoff(id, i, hash)]))
  }

  ghost function WithPacket(db: Db, i: IssueId, r: RunId, handoff: HandoffId, p: PacketId): Db
    requires i in db.issues
  {
    var no := MaxOf(PacketNumbersOf(db, i)) + 1;
    WithIssue(db.(packets := db.packets[r := Packet(p, i, handoff, no, Generated)]),
              i, db.issues[i].(latestPacket := Some(p)))
  }

  ghost function InsertPacket(db: Db, i: IssueId, r: RunId, handoff: HandoffId, p: PacketId): Tx<Db> {
    if i !in db.issues || r !in db.runs || !HandoffIdTaken(db, handoff) then Abort(Internal)
    else if r in db.packets || PacketExists(db, p) then Abort(Internal)
    else Commit(WithPacket(db, i, r, handoff, p))
  }

  // MarkDone (accept) and SendToRework.
  ghost function Review(db: Db, i: IssueId, accept: bool, reason: string): Tx<Db> {
    if Blank(reason) then Abort(InvalidRequest)
    else if i !in db.issues then Abort(NotFound)
    else if !db.issues[i].state.HumanReview? then Abort(InvalidStateTransition)
    else if HasActiveRun(db, i) then Abort(AlreadyRunning)
    else if !exists r :: IsNewestPacket(db, i, r) then Abort(ReviewPacketRequired)
    else
      var r :| IsNewestPacket(db, i, r);
      if db.issues[i].latestPacket != Some(db.packets[r].id) then Abort(ReviewPacketRequired)
      else if !db.packets[r].status.Generated? then Abort(ReviewPacketRequired)
      else if !RunExists(db, r) then Abort(NotFound)
      else if !db.runs[r].status.Completed? then Abort(ReviewPacketRequired)
      else Commit(WithIssue(db, i, db.issues[i].(
                   state := if accept then Done else Rework, completed := accept, paused := false)))
  }

  ghost function InsertApproval(db: Db, a: ApprovalId, input: ApprovalInput, status: ApprovalStatus): Tx<Db> {
    if !RunExists(db, input.run) then Abort(NotFound)
    else if db.runs[input.run].issue != input.issue then Abort(InvalidRequest)
    else if !IsActive(db.runs[input.run].status) then Abort(InvalidStateTransition)
    else if a in db.approvals then Abort(Internal)
    else Commit(db.(approvals := db.approvals[a :=
           Approval(input.run, input.issue, input.kind, TrimSpace(input.cwd), TrimSpace(input.fingerprint), status)]))
  }

  ghost function Resolve(db: Db, a: ApprovalId, status: ApprovalStatus): Tx<Db> {
    if a !in db.approvals || !db.approvals[a].status.AwaitingDecision? then Abort(ApprovalNotPending)
    else Commit(db.(approvals := db.approvals[a := db.approvals[a].(status := status)]))
  }

  function StatusOf(d: Decision): ApprovalStatus {
    match d
    case ApproveOnce => ApprovedOnce
    case ApproveForRun => ApprovedForRun
    case ApproveForSession => ApprovedForSession
    case Deny => Denied
    case CancelRun => ApprovalCancelled
  }

  ghost function Decide(db: Db, a: ApprovalId, d: Decision, now: Time): Tx<Db> {
    if a !in db.approvals then Abort(NotFound)
    else if !db.approvals[a].status.AwaitingDecision? then Abort(ApprovalNotPending)
    else
      var r := db.approvals[a].run;
      var db1 :-
        if d.CancelRun? then Cancel(db, r, OperatorCancelled, now)
        else if !RunExists(db, r) then Abort(NotFound)
        else if !IsActive(db.runs[r].status) then Abort(InvalidStateTransition)
        else Commit(db);
      Resolve(db1, a, StatusOf(d))
  }

  ghost function CancelPendingApprovals(approvals: map<ApprovalId, Approval>, r: RunId): map<ApprovalId, Approval> {
    map a | a in approvals ::
      if approvals[a].run == r && approvals[a].status.AwaitingDecision?
      then approvals[a].(status := ApprovalCancelled) else approvals[a]
  }

  // One iteration of ReconcileStaleActiveRuns.
  ghost function ReconcileRun(db: Db, r: RunId, now: Time): Tx<Db> {
    var db1 :- Fail(db, r, DaemonRestartedInterrupted, Failed, now);
    Commit(db1.(approvals := CancelPendingApprovals(db1.approvals, r)))
  }

  datatype Op =
    | OpCreateIssue(i: IssueId, given: Fields)
    | OpEditIssue(i: IssueId, e: Edit)
    | OpTransition(i: IssueId, target: IssueState, reason: string, duplicateOf: Option<IssueId>, now: Time)
    | OpSetPaused(i: IssueId, reason: string, paused: bool)
    | OpClaim(i: IssueId, r: RunId, maxConcurrent: int)
    | OpAdvance(r: RunId, status: RunStatus)
    | OpComplete(r: RunId, p: PacketId, now: Time)
    | OpFail(r: RunId, code: FailureCode, status: RunStatus, now: Time)
    | OpBlock(r: RunId, reason: string, now: Time)
    | OpCancel(r: RunId, now: Time)
    | OpMintToken(r: RunId, h: TokenHash)
    | OpSubmitHandoff(i: IssueId, r: RunId, id: HandoffId, hash: nat)
    | OpInsertPacket(i: IssueId, r: RunId, handoff: HandoffId, p: PacketId)
    | OpReview(i: IssueId, accept: bool, reason: string)
    | OpRequestApproval(a: ApprovalId, input: ApprovalInput)
    | OpAutoDeny(a: ApprovalId, input: ApprovalInput)
    | OpDecide(a: ApprovalId, d: Decision, now: Time)
    | OpTimeout(a: ApprovalId)
    | OpCancelApproval(a: ApprovalId)
    | OpReconcile(r: RunId, now: Time)

  ghost function Exec(db: Db, op: Op): Tx<Db> {
    match op
    case OpCreateIssue(i, given) => CreateIssue(db, i, given)
    case OpEditIssue(i, e) => EditIssue(db, i, e)
    case OpTransition(i, target, reason, duplicateOf, now) => Transition(db, i, target, reason, duplicateOf, now)
    case OpSetPaused(i, reason, paused) => SetPaused(db, i, reason, paused)
    case OpClaim(i, r, maxConcurrent) => Claim(db, i, r, maxConcurrent)
    case OpAdvance(r, status) => Advance(db, r, status)
    case OpComplete(r, p, now) => Complete(db, r, p, now)
    case OpFail(r, code, status, now) => Fail(db, r, code, status, now)
    case OpBlock(r, reason, now) => BlockByAgent(db, r, reason, now)
    case OpCancel(r, now) => Cancel(db, r, OperatorCancelled, now)
    case OpMintToken(r, h) => MintToken(db, r, h)
    case OpSubmitHandoff(i, r, id, hash) => SubmitHandoff(db, i, r, id, hash)
    case OpInsertPacket(i, r, handoff, p) => InsertPacket(db, i, r, handoff, p)
    case OpReview(i, accept, reason) => Review(db, i, accept, reason)
    case OpRequestApproval(a, input) => InsertApproval(db, a, input, AwaitingDecision)
    case OpAutoDeny(a, input) => InsertApproval(db, a, input, AutoDenied)
    case OpDecide(a, d, now) => Decide(db, a, d, now)
    case OpTimeout(a) => Resolve(db, a, TimedOut)
    case OpCancelApproval(a) => Resolve(db, a, ApprovalCancelled)
    case OpReconcile(r, now) => ReconcileRun(db, r, now)
  }

  // The database after an attempt at `op`: an aborted transaction changes nothing.
  ghost function After(db: Db, op: Op): Db {
    match Exec(db, op)
    case Commit(db') => db'
    case Abort(_) => db
  }

  // The database that a log of attempted transactions leads to, from a fresh project.
  ghost function Replay(log: seq<Op>): Db {
    if log == [] then EMPTY_DB else After(Replay(log[..|log| - 1]), log[|log| - 1])
  }

  lemma ReplayPrefix(log: seq<Op>, k: nat)
    requires k < |log|
    ensures Replay(log[..k + 1]) == After(Replay(log[..k]), log[k])
  {
    assert log[..k + 1][..k] == log[..k];
  }
}
