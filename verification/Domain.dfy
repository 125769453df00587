// The rows of the project database that the run lifecycle reads and writes, and the
// vocabulary of internal/core/core.go.
module Domain {
  import opened Text

  type IssueId = nat
  type RunId = nat
  type PacketId = nat
  type HandoffId = nat
  type ApprovalId = nat
  type TokenHash = nat
  type Time = nat

  datatype Option<+T> = None | Some(value: T)

  datatype IssueState =
    | Inbox | Ready | Working | Rework | Blocked | HumanReview | Done | Cancelled | Duplicate

  datatype RunStatus =
    | Pending | PreparingWorkspace | RenderingPrompt | StartingAgent | Running
    | Completed | CompletedWithoutHandoff | Failed | RunCancelled

  datatype FailureCode =
    | PromptRenderFailed | WorkspacePrepareFailed | AfterCreateFailed | BeforeRunFailed
    | CodexProtocolError | ToolGatewayFailed | MissingHandoff | ReviewPacketFailed
    | OperatorCancelled | AgentBlocked | IssueStateChanged | DaemonRestartedInterrupted
    | ReportedByRunner(code: string)

  datatype ErrorCode =
    | InvalidRequest | NotFound | InvalidStateTransition | DispatchPaused | HasBlockers
    | AlreadyRunning | ConcurrencyLimitReached | ReviewPacketRequired | ApprovalNotPending
    | ToolTokenInvalid | Internal

  predicate IsActive(s: RunStatus) {
    s.Pending? || s.PreparingWorkspace? || s.RenderingPrompt? || s.StartingAgent? || s.Running?
  }

  predicate IsTerminalIssue(s: IssueState) {
    s.Done? || s.Cancelled? || s.Duplicate?
  }

  predicate IsDispatchState(s: IssueState) {
    s.Ready? || s.Rework?
  }

  // What an operator writes about an issue.
  datatype Fields = Fields(title: string, description: string, priority: int, criteria: seq<string>)

  predicate PriorityInRange(priority: int) {
    1 <= priority <= 5
  }

  // validRequired
  predicate FieldsComplete(f: Fields) {
    && !Blank(f.title) && !Blank(f.description) && PriorityInRange(f.priority)
    && exists k :: 0 <= k < |f.criteria| && !Blank(f.criteria[k])
  }

  // `blockers` and `duplicateOf` are the issue's active relations.
  datatype Issue = Issue(
    state: IssueState,
    paused: bool,
    completed: bool,
    fields: Fields,
    blockers: set<IssueId>,
    duplicateOf: Option<IssueId>,
    latestRun: Option<RunId>,
    latestPacket: Option<PacketId>)

  datatype Run = Run(
    issue: IssueId,
    attempt: nat,
    status: RunStatus,
    source: IssueState,
    code: Option<FailureCode>,
    endedAt: Option<Time>)

  datatype Token = Token(run: RunId, issue: IssueId, revoked: bool)

  datatype Handoff = Handoff(id: HandoffId, issue: IssueId, hash: nat)

  datatype PacketStatus = Generated | Partial | PacketFailed

  datatype Packet = Packet(id: PacketId, issue: IssueId, handoff: HandoffId, no: nat, status: PacketStatus)

  datatype ApprovalKind = Command | FileChange | Network

  datatype ApprovalStatus =
    | AwaitingDecision | ApprovedOnce | ApprovedForRun | ApprovedForSession
    | Denied | AutoDenied | ApprovalCancelled | TimedOut

  datatype Approval = Approval(
    run: RunId,
    issue: IssueId,
    kind: ApprovalKind,
    cwd: string,
    fingerprint: string,
    status: ApprovalStatus)

  // The updates and relation edits of an operator; a field that is not given stays as it is.
  datatype Edit =
    | SetFields(title: Option<string>, description: Option<string>, criteria: Option<seq<string>>,
        priority: Option<int>)
    | AddBlocker(blocker: IssueId)
    | RemoveBlocker(blocker: IssueId)
    | RemoveDuplicate(canonical: IssueId)

  // What the codex runner asks the store to record.
  datatype ApprovalInput = ApprovalInput(
    run: RunId, issue: IssueId, kind: ApprovalKind, cwd: string, fingerprint: string)

  // The five answers the operator API accepts.
  datatype Decision = ApproveOnce | ApproveForRun | ApproveForSession | Deny | CancelRun

  // handoffs.run_id and review_packets.run_id are UNIQUE, so both tables are keyed by run.
  datatype Db = Db(
    issues: map<IssueId, Issue>,
    runs: map<RunId, Run>,
    tokens: map<TokenHash, Token>,
    handoffs: map<RunId, Handoff>,
    packets: map<RunId, Packet>,
    approvals: map<ApprovalId, Approval>)

  const EMPTY_DB := Db(map[], map[], map[], map[], map[], map[])

  // A transaction either commits a value or aborts and leaves the database alone.
  datatype Tx<+T> = Commit(value: T) | Abort(error: ErrorCode) {
    predicate IsFailure() { Abort? }

    function PropagateFailure<U>(): Tx<U>
      requires Abort?
    {
      Abort(error)
    }

    function Extract(): T
      requires Commit?
    {
      value
    }
  }

  predicate ActiveRun(db: Db, i: IssueId, r: RunId) {
    r in db.runs && db.runs[r].issue == i && IsActive(db.runs[r].status)
  }

  ghost predicate HasActiveRun(db: Db, i: IssueId) {
    exists r :: ActiveRun(db, i, r)
  }

  function ActiveRuns(db: Db): set<RunId> {
    set r | r in db.runs && IsActive(db.runs[r].status)
  }
}
