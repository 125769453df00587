# Local Symphony: a verified model of the run lifecycle and the components around it

Local Symphony hands issues to coding agents. A daemon claims an issue for a run, a worker prepares a
workspace, starts an agent, waits for its handoff, packages the result for review, and an operator
accepts it or sends it back. This project models that system in Dafny and proves what its documentation
and its code rely on.

## How the model is laid out

| file | what it holds |
|---|---|
| `Domain.dfy`, `Text.dfy`, `Sequences.dfy` | the rows of the project database, Go's notions of white space and trimming, facts about sequences |
| `Transactions.dfy` | each store transaction as a function from database to database; logs of attempted transactions and the database they lead to |
| `Invariant.dfy` | the inductive invariant that no function of the store states, and its preservation by every transaction |
| `Theorems.dfy`, `ApprovalTheorems.dfy` | what follows for every log of transactions: about runs and issues, about approval requests |
| `Effects.dfy`, `WorkEffects.dfy`, `Refusals.dfy` | what each transaction is good for: its effect as later transactions see it, over any stretch of a log, and what a refusal tells the caller |
| `Store.dfy` | the database as a class, one method per transaction, tied to the logs by a ghost field |
| `Protocol.dfy`, `ProtocolTheorems.dfy` | workers that make one store call per step, agents, operators, restarts and crashes, interleaved arbitrarily; theorems over all behaviours |
| `Scenarios.dfy`, `Counterexamples.dfy` | behaviours built step by step, and what they show: two plausible claims that are false |
| `Fates.dfy` | what becomes of a run whose worker nobody disturbs, as one decision on the answers of the outside world |
| `Approvals.dfy` | the approval exchange of the codex runner, over the store class and an arbitrary environment |
| `Lease.dfy` | the runtime owner lease: its table, and daemons with clocks, crashes, pid reuse and reapers that act on old scans |
| `Scheduler.dfy` | the scheduler loop with drain and the deferred store close |
| `Events.dfy` | event pages, the stream with reconnects, and the dashboard's paging and merging |
| `CanonicalJson.dfy`, `HandoffPayload.dfy` | the canonical encoding of handoff payloads and resubmission |
| `Tokenizer.dfy`, `Redactor.dfy` | the command tokenizer; the sentinel redactor and detector |
| `TinyYaml.dfy`, `YamlScalars.dfy` | the indentation parser of the workflow front matter and the meaning of its values |

`dafny verify dfyconfig.toml` checks the whole project.

The store is modelled transaction by transaction: `Transactions.Op` lists every transaction that the
lifecycle knows, `After` says what an attempt at one does (an aborted one changes nothing), and a log is
any sequence of attempts by anybody. A log is legal when failures are recorded only as failed or completed
without handoff, and handoffs and packets name the issue and handoff of their run; the worker, the tool
gateway and the review generator are shown to keep to that (`Protocol.NextKeeps`).

`ProjectStore.Store` holds the tables as fields and has one method per transaction, with the checks, the
writes and the rollback of the source. Each method keeps `Valid()` (the object is in the state that its
ghost log leads to) and reports what its transaction reports, so what is proved of logs holds of the
object whatever its methods were called with. The table below names the theorems about a transaction
rather than the method that is tied to it.

## Where the code does not do what one expects

* Human Review does not mean that the issue can be reviewed. A worker whose run was cancelled after its
  last look at the run can still insert its packet. If it does so after the issue's next run has inserted
  its own, the newest packet belongs to the cancelled run, and once the next run completes every review is
  refused. `HumanReviewCanBeStuck` gives the behaviour, with workers, agents and operators only doing what
  their code lets them; `ReviewSucceedsExactlyWhen` the exact condition.
* A request can stay pending after its run has ended. When a transaction ends the run, the request stays
  pending exactly when the transaction is neither the restart nor a decision on the request itself
  (`RequestOutlivesItsRunExactlyWhen`). From then on only the runner that waits for it resolves it, by
  recording a timeout or a cancellation; no decision does, and the restart passes over ended runs
  (`RestartSkipsEndedRuns`). `OrphanedExactlyWhen` puts this together for every log, and
  `RequestsCanOutliveTheirRun` gives a behaviour that ends with such a request after a restart. It can
  never become approved (`EndedRunsRequestsAreNeverApproved`).
* The tokenizer trims the line before it reads it, so an escaped space at the very end of a line is lost
  and its backslash stays. `TokenizerReadsBack` states this as the only exception.
* An inline list in the front matter is split at every comma, also inside quotes and brackets, and a
  list of one bare empty item is an empty list. `WritingReads` gives the exact condition under which any
  writing of a value reads as it is meant.
* The comments on `runtimeOwnerIsLive` and the reaper promise protection against pid reuse; the reap
  itself does not compare nonces. It is safe because two daemons with one pid never wrote the same
  heartbeat (`ReapDeletesOnlyWhatItScanned`), provided the clock moves on before a pid is used again;
  `SameMillisecondReapDeletesAFreshClaim` shows what happens when it does not.

## Model

| member | source | states |
|---|---|---|
| ProjectStore.TrimSlice | internal/store/store.go:467-481 | The loop with its map of what was seen computes the specified list |
| ProjectStore.Store.ValidateToolToken | internal/store/store.go:1673-1698 | A token validates exactly when unrevoked, unexpired, its scope parses and its run is running, and the run and issue it answers belong together |
| ProjectStore.Store.InsertHandoff | internal/store/store.go:1780-1812 | The first payload wins: the same hash gets the same handoff back, another hash is a conflict, and neither changes anything |
| ProjectStore.Store.NewestPacket | internal/store/store.go:2110-2116 | Finds the packet with the highest number of the issue, or that there is none |
| ProjectStore.Store.ActiveRunID | internal/store/store.go:854-864 | Finds an active run of the issue exactly when there is one; under the invariant it is the only one |
| ProjectStore.Store.HasApprovedForRunApproval | internal/store/store.go:2393-2462 | True exactly when a request of the same run, issue and kind was approved for the run with equal working directory and equal, non-blank fingerprint; a command without a working directory never matches |
| ProjectStore.Store.ReconcileStaleActiveRuns | internal/store/store.go:2636-2655 | Alone with the database the restart loop meets no error; no run is active and no issue Working afterwards, every interrupted issue is back in its source state and paused, and what is still pending belongs to runs that had ended before |
| Invariant.FailKeeps | internal/store/store.go:1469-1500 | Failing a run keeps the invariant, and nothing happens to an existing run but its end |
| Invariant.CancelKeeps | internal/store/store.go:1561-1592 | The same of cancelling |
| Invariant.BlockKeeps | internal/store/store.go:1502-1551 | The same of the agent's block |
| Invariant.ClaimKeeps | internal/store/store.go:1219-1306 | The same of a claim: the new run is its issue's only active one, and attempt numbers stay distinct |
| Invariant.AdvanceKeeps | internal/store/store.go:1336-1362 | A status update keeps the invariant and leaves every other run alone |
| Invariant.CompleteKeeps | internal/store/store.go:1418-1459 | Completion keeps the invariant: the run has its own packet and handoff, and its issue points at the newest packet |
| Invariant.InsertPacketKeeps | internal/store/store.go:1895-1910 | A packet keeps the invariant, even one from a stale worker |
| Invariant.TransitionKeeps | internal/store/store.go:964-1063 | Every operator transition keeps the invariant, with or without an active run to cancel |
| Invariant.ReviewKeeps | internal/store/store.go:2087-2211 | A review keeps the invariant: Rework and Done inherit the provenance of Human Review |
| Invariant.DecideKeeps | internal/store/store.go:2538-2583 | An approval decision keeps the invariant, also when it cancels the run |
| Invariant.ReconcileKeeps | internal/store/store.go:2644-2649 | One step of the restart keeps the invariant |
| Invariant.CreateIssueKeeps | internal/store/store.go:549-596 | A new issue keeps the invariant |
| Invariant.EditIssueKeeps | internal/store/store.go:880-938 | Editing any field or relation of an issue, even of a running one, keeps the invariant |
| Invariant.SetPausedKeeps | internal/store/store.go:1134-1217 | Pausing and resuming keep the invariant: an issue with an active run is never paused |
| Invariant.MintTokenKeeps | internal/store/store.go:1648-1667 | A new token belongs to its run and issue |
| Invariant.SubmitHandoffKeeps | internal/store/store.go:1800-1808 | A new handoff belongs to its run and issue, and none is overwritten |
| Invariant.InsertApprovalKeeps | internal/store/store.go:2315-2329 | A new request belongs to its run and issue |
| Invariant.EndedRunRestoresSource | internal/store/store.go:1485-1489 | When an active run ends, the guard on terminal and Blocked issues never fires: the issue is Working and goes back to Ready or Rework |
| Invariant.StepKeeps | internal/store/store.go:964-2655 | Every legal transaction keeps the invariant; rows stay, a run keeps its issue, attempt and source, what has ended or is resolved is frozen, handoffs and packets are immutable, revoked tokens stay revoked |
| Invariant.LogKeepsInvariant | internal/db/sqlite.go:212-233 | The invariant holds after every legal log of attempted transactions |
| Invariant.LogEvolves | internal/db/sqlite.go:212-233 | Between any two points of a legal log the database only evolves: nothing is lost or rewritten that is frozen |
| LifecycleTheorems.EveryStepTouchesOneIssue | internal/store/store.go:964-1592 | Every transaction leaves all issues but its own, and all their runs, exactly as they were |
| LifecycleTheorems.OnlyOneActiveRun | internal/store/store.go:1219-1306 | An issue never has two active runs |
| LifecycleTheorems.WorkingMeansOneActiveRun | internal/store/store.go:964-1592 | In every reachable database an issue is Working exactly when it has an active run, it is then not paused and has exactly one, and every run's source is Ready or Rework |
| LifecycleTheorems.StepKeepsLimit | internal/store/store.go:1260-1266 | No transaction, not even one that writes many rows, takes the number of active runs past the limit its claims use |
| LifecycleTheorems.ActiveRunsStayWithinLimit | internal/store/store.go:1260-1266 | With one fixed limit the number of active runs never exceeds it |
| LifecycleTheorems.DeadGuards | internal/store/store.go:1253-1259 | The active-run checks of claim and review never fire, and completion always starts from Working, as its history row says |
| LifecycleTheorems.BadEndHolds | internal/store/store.go:1490-1492 | A run that ends failed, cancelled or without handoff leaves its issue paused, outside review and without an active run |
| LifecycleTheorems.HeldStep | internal/store/store.go:1176-1217 | Such an issue stays held across every transaction but a resume or a reopening, and cannot be claimed |
| LifecycleTheorems.NoAutomaticRetry | internal/store/store.go:1243-1245 | Over whole logs: between a bad end of a run and the next successful claim of its issue an operator resumed dispatch or reopened the issue |
| LifecycleTheorems.NewestPacketIsUnique | internal/store/store.go:1896-1900 | Packet numbers of an issue are distinct, so the newest packet is unique |
| LifecycleTheorems.ReviewSucceedsExactlyWhen | internal/store/store.go:2087-2145 | In any reachable database a review goes through if and only if there is a reason, the issue is in Human Review and its newest packet came from a completed run |
| LifecycleTheorems.ReviewHasProvenance | internal/store/store.go:1418-1459 | An issue in Human Review, Rework or Done, or running again from Rework, has a completed run with its own generated packet and handoff |
| LifecycleTheorems.DoneIsReviewed | internal/store/store.go:2081-2211 | Done is entered only from Human Review by an accepting review whose newest packet came from a completed run, and Human Review only by a completion |
| LifecycleTheorems.AcceptedReviewIsBacked | internal/store/store.go:2110-2131 | A review that goes through is about the packet the issue points at, and that packet has its own completed run and handoff |
| LifecycleTheorems.ClaimSucceedsExactlyWhen | internal/store/store.go:1219-1306 | In any reachable database a claim goes through if and only if the issue is in a dispatch state, complete, not paused and not blocked, the limit is not reached and the id is fresh; the check for an active run adds nothing |
| LifecycleTheorems.PauseSucceedsExactlyWhen | internal/store/store.go:1134-1217 | Pausing and resuming go through if and only if there is a reason and the issue is neither terminal nor Working |
| LifecycleTheorems.TransitionSucceedsExactlyWhen | internal/store/store.go:964-1063 | A transition goes through if and only if its target, reason and the state of the issue allow it and a duplicate link is to another existing issue and does not replace one; neither the cancel on the way nor the guarded write ever fails, and afterwards the issue is in the target state without an active run |
| LifecycleTheorems.CompleteSucceedsExactlyWhen | internal/store/store.go:1418-1459 | A run can be completed if and only if it is active and the packet is its own: the checks of the packet's issue and status add nothing |
| LifecycleTheorems.EndingSucceedsExactlyWhen | internal/store/store.go:1469-1592 | Failing, cancelling and reconciling a run go through if and only if it is active |
| LifecycleTheorems.DecideSucceedsExactlyWhen | internal/store/store.go:2538-2583 | A decision, cancel_run included, goes through if and only if its request is pending and the run active, so the cancel and the update of the request never part |
| LifecycleTheorems.CleanedHolds | internal/store/store.go:467-481 | Trimming a list keeps exactly the trimmed items that are not blank, each once |
| LifecycleTheorems.DescribedIssuesAreComplete | internal/store/store.go:549-567 | A new issue can be made Ready at once if and only if it has a description: the title is checked, and a described issue always gets a criterion |
| LifecycleEffects.OnlyTheseChangeRows | internal/store/store.go:964-2211 | A terminal issue is left only by reopening it, a blocked one only towards Ready, a pause only by a resume, a reopening or a review, a blocker or duplicate link only by removing it, and fields only by an edit |
| LifecycleEffects.AcceptedStaysDone | internal/store/store.go:2132-2139 | An accepted issue is Done and completed, and no claim of it goes through until an operator reopens it |
| LifecycleEffects.SentBackCanBeClaimed | internal/store/store.go:2132-2145 | An issue sent back is in Rework and not paused, and a claim of it goes through if and only if it is complete, unblocked and within the limit and the id is fresh; the run's source is Rework |
| LifecycleEffects.PausedUntilReleased | internal/store/store.go:1134-1175 | A paused issue is not claimed before it is resumed, reopened or reviewed |
| LifecycleEffects.ResumedCanBeClaimed | internal/store/store.go:1176-1217 | A resumed issue can be claimed at once if and only if it is in a dispatch state, complete, unblocked and within the limit |
| LifecycleEffects.ClaimIsUndone | internal/store/store.go:1485-1499 | Whatever happens in between, a run that is failed, cancelled or interrupted puts its issue back where its claim found it, paused, and its row says how, why and when it ended |
| LifecycleEffects.BlockedUntilReady | internal/store/store.go:1502-1551 | An agent's block leaves the issue Blocked and paused and its run cancelled as blocked, and the issue is not claimed before an operator moves it to Ready |
| LifecycleEffects.BlockedUntilUnblocked | internal/store/store.go:1085-1102 | With a blocker an issue is not claimed before that blocker is removed |
| LifecycleEffects.UnblockedCanBeClaimed | internal/store/store.go:1103-1117 | Once its last blocker is removed the issue can be claimed like any other |
| LifecycleEffects.LinkedUntilUnlinked | internal/store/store.go:1014-1034 | A duplicate is linked to a second issue only after the first link was removed |
| LifecycleEffects.UnlinkedCanBeLinked | internal/store/store.go:1118-1132 | Once the link is removed the issue can be linked to any other |
| LifecycleEffects.MovesAreTheseOnly | internal/store/store.go:976-1013 | The moves between states that an operator can make, as a table, and exactly when one of them goes through |
| LifecycleEffects.ReadyCanBeClaimed | internal/store/store.go:1035-1050 | An issue made Ready can be claimed at once if it is unblocked and within the limit, unless it was paused or running before; reopening ends a pause |
| WorkEffects.TokenValidatesWhileRunning | internal/store/store.go:1648-1698 | From its minting on, an unexpired token validates exactly while its run is running |
| WorkEffects.CancelledRunsTokensAreRevoked | internal/store/store.go:1561-1592 | Cancelling a run, by the operator, the agent, a decision or a transition, revokes its tokens and no others |
| WorkEffects.InsertedIsNewest | internal/store/store.go:1895-1910 | A packet that is inserted is the newest of its issue and the one the issue points at |
| WorkEffects.CompletedCanBeReviewed | internal/store/store.go:1418-1459 | A completed run can be accepted or sent back at once if and only if its packet is the newest |
| WorkEffects.AttemptsAreCounted | internal/store/store.go:1267-1275 | In every reachable database the runs of an issue have the attempt numbers 1 to n, without gaps |
| WorkEffects.PacketsAreCounted | internal/store/store.go:1896-1900 | So do the packets of an issue |
| WorkEffects.CreatedCanBeReadied | internal/store/store.go:549-596 | A new issue has the fields given, trimmed, and can be made Ready if and only if it has a description |
| WorkEffects.EveryIssueIsDescribed | internal/store/store.go:895-930 | Every issue has a title and a priority from 1 to 5 over every log |
| WorkEffects.EditDecidesCompleteness | internal/store/store.go:880-953 | What an edit gives replaces what was there, the rest stays, and the issue is complete if and only if it then has a description and a criterion |
| Refusals.ClaimRefusals | internal/store/store.go:1228-1270 | The error code of a refused claim names the first thing in its way |
| Refusals.MoveRefusals | internal/store/store.go:964-1034 | The error code of a refused transition says what was wrong with it |
| Refusals.PauseRefusals | internal/store/store.go:1134-1217 | So does that of pausing and resuming |
| Refusals.ReviewRefusals | internal/store/store.go:2087-2131 | So does that of a review |
| Refusals.RunRefusals | internal/store/store.go:1336-1592 | So do those of failing, cancelling, reconciling, advancing and completing a run |
| Refusals.ApprovalRefusals | internal/store/store.go:2538-2625 | So do those of decisions, timeouts and cancellations of requests |
| Refusals.RequestRefusals | internal/store/store.go:2299-2363 | So do those of recording a request |
| Refusals.MintSucceedsExactlyWhen | internal/store/store.go:1648-1667 | A token is minted if and only if the run is starting its agent or running and the hash is fresh |
| Refusals.AdvanceSucceedsExactlyWhen | internal/store/store.go:1336-1362 | A run is advanced if and only if it is active and so is the new status, which is then all that changes |
| Refusals.BlockSucceedsExactlyWhen | internal/store/store.go:1502-1551 | An agent's block goes through if and only if it has a reason and its run is active |
| Refusals.HandoffSucceedsExactlyWhen | internal/store/store.go:1800-1808 | A handoff is recorded, with its hash, if and only if the run has none and the id is fresh |
| Refusals.PacketSucceedsExactlyWhen | internal/store/store.go:1895-1910 | A packet is inserted if and only if its handoff exists, the run has none and the id is fresh |
| Refusals.RequestSucceedsExactlyWhen | internal/store/store.go:2299-2363 | A request is recorded if and only if its run is an active run of its issue |
| Refusals.CreateSucceedsExactlyWhen | internal/store/store.go:549-560 | An issue is created if and only if it has a title and a priority in range or none |
| Refusals.EditSucceedsExactlyWhen | internal/store/store.go:880-1132 | An edit goes through if and only if it leaves a title and a priority in range and names issues that exist, no issue blocking itself |
| LifecycleCounterexamples.HumanReviewCanBeStuck | internal/orchestrator/orchestrator.go:256-265 | There is a behaviour of dispatches, workers, agents and an operator after which an issue is in Human Review and every review of it is refused |
| LifecycleCounterexamples.RequestsCanOutliveTheirRun | internal/store/store.go:2636-2655 | There is a behaviour that cancels a run and then restarts, after which a request of the run is still pending |
| ProtocolScenarios.StartsItsAgent | internal/orchestrator/orchestrator.go:104-203 | From a claimed run some behaviour leads the worker to its running agent, whatever the other workers are at |
| ProtocolScenarios.GetsPastItsLastLook | internal/orchestrator/orchestrator.go:209-256 | From a first turn that leaves a handoff some behaviour leads the worker past its last look at the run, just before it inserts the packet |
| Protocol.NextKeeps | internal/orchestrator/orchestrator.go:104-266 | Every step of every actor keeps the system invariant: each worker's program counter agrees with its run's status, and agents, workers and operators only attempt legal transactions |
| Protocol.FailingEndsRun | internal/orchestrator/orchestrator.go:323-332 | After a worker's attempt to fail its run the run is over, whoever ended it |
| Protocol.FinishingEndsRun | internal/orchestrator/orchestrator.go:260-265 | After a worker's attempt to complete its run the run is over, and completed if it was still active |
| Protocol.WorkerStepIsLegal | internal/review/review.go:42-219 | What a worker attempts is legal: its packet names its own run's issue and handoff, its failures are failed or completed without handoff |
| Protocol.TurnsAreBounded | internal/config/workflow.go:592-597 | The validated limits leave a worker at most as many turns as max_turns_per_run |
| ProtocolTheorems.BehaviorKeepsInvariant | internal/orchestrator/orchestrator.go:38-266 | The system invariant holds in every state of every interleaving |
| ProtocolTheorems.StatusOnlyMovesForward | internal/orchestrator/orchestrator.go:373-383 | Over any stretch of any behaviour run statuses only move forward along pending, preparing, rendering, starting, running, terminal |
| ProtocolTheorems.TokensDieWithTheirRun | internal/store/store.go:1668-1698 | Once a run has left running none of its tokens ever validates again, even those that failing and completing never revoke |
| ProtocolTheorems.StaleWorkersAreHarmless | internal/orchestrator/orchestrator.go:104-266 | Once a run is over no later step of its worker changes any run, or any issue's state or pause flag, even while a newer worker holds the issue |
| ProtocolTheorems.NoOrphanRuns | internal/orchestrator/orchestrator.go:104-266 | A worker that has returned leaves no active run behind unless it was held, and takes no more turns than allowed |
| ProtocolTheorems.HeldOnlyByFirstTurn | internal/orchestrator/orchestrator.go:215-217 | A worker returns held only because its first turn came back held |
| ProtocolTheorems.OwnPacketIsNeverRejected | internal/store/store.go:1432-1444 | Completion never rejects the packet the worker's own generator returned; if it refuses, the run had already ended |
| ProtocolTheorems.EveryStepIsProgress | internal/orchestrator/orchestrator.go:104-266 | Every step of a worker brings it nearer to its return |
| ProtocolTheorems.WorkersTakeBoundedlyManySteps | internal/orchestrator/orchestrator.go:104-266 | No worker takes more than 33 steps in any behaviour, whatever the others do |
| WorkerFates.UndisturbedRunsMeetTheirFate | internal/orchestrator/orchestrator.go:104-266 | A claimed run whose worker nobody disturbs ends with the status and failure code that the answers of the world decide, the first thing that goes wrong first; a second turn is taken exactly when the first misses its handoff and a continuation is allowed |
| ApprovalTheorems.OnlyDecisionsApprove | internal/store/store.go:2538-2583 | No transaction but an operator's positive decision on a pending request of an active run makes a request approved, and approved for the run only if that is the decision |
| ApprovalTheorems.DecisionTakes | internal/store/store.go:2538-2583 | A decision on a pending request of an active run approves it exactly if it is positive, denies it exactly if it is a denial, cancels the run exactly if it says so, and touches no other request |
| ApprovalTheorems.ApprovedOnlyByOperator | internal/store/store.go:2538-2583 | Every approved request was decided positively by the operator at an instant when it was pending and its run active, and decided for the run if that is how it is approved |
| ApprovalTheorems.AnswerWasDecided | internal/store/store.go:2538-2583 | What is approved or denied was decided so, positively or as a denial, and after any instant at which the request was still pending |
| ApprovalTheorems.DecidedOnlyOnce | internal/store/store.go:2548-2556 | A request is decided at most once over any log |
| ApprovalTheorems.PendingWasAsked | internal/store/store.go:2299-2363 | A new row is pending exactly if it was asked for review, and holds what was asked, trimmed |
| ApprovalTheorems.ResolvedOnlyOnce | internal/store/store.go:2565-2581 | A resolved request never changes again |
| ApprovalTheorems.EndedRunsRequestsAreNeverApproved | internal/store/store.go:2557-2563 | A request whose run has ended is never approved, though it may stay pending |
| ApprovalTheorems.RequestOutlivesItsRunExactlyWhen | internal/store/store.go:1469-1592 | When a transaction ends the run of a pending request, the request stays pending if and only if the transaction is neither the restart nor a decision on that request |
| ApprovalTheorems.RestartCancelsRequests | internal/store/store.go:2644-2649 | A restart that finds the run active cancels its pending requests and no others |
| ApprovalTheorems.RestartSkipsEndedRuns | internal/store/store.go:2636-2649 | The restart leaves the database alone for a run that has ended, its pending requests included |
| ApprovalTheorems.OrphanStaysExactlyUnless | internal/store/store.go:2585-2625 | A pending request of an ended run stays pending across a transaction if and only if it is not the recording of its timeout or cancellation |
| ApprovalTheorems.OrphanedExactlyWhen | internal/store/store.go:2538-2655 | After any log a request is pending with its run over if and only if some transaction other than the restart or its own decision ended the run under it, and no timeout or cancellation of it was recorded since |
| ApprovalExchange.MarkIfPending | internal/agent/codex/codex.go:1088-1106 | A pending request becomes timed out or cancelled as asked; one that is resolved stays as it is |
| ApprovalExchange.React | internal/agent/codex/codex.go:1040-1084 | What each event of the select does, after arbitrary interference; a tick that finds a decision sends exactly that decision, or ends the turn if it cancels the run, and never goes on waiting |
| ApprovalExchange.WaitForApprovalDecision | internal/agent/codex/codex.go:1025-1086 | Under any schedule the wait never ends with the request pending, answers at most once, and answers, positively or not, only with the decision that the operator made while the request was pending and its run active |
| ApprovalExchange.TryApprovedForRunDecision | internal/agent/codex/codex.go:447-460 | A request is answered automatically, with approve_for_run, if and only if it is no permissions request, its run is active at the read, and a request for the same run, issue, kind, directory and fingerprint had been asked and decided for the run; between that read and the answer anybody may act |
| ApprovalExchange.HandleApprovalRequest | internal/agent/codex/codex.go:399-445 | A request denied by policy is recorded and never answered; one left to review gets exactly what the operator decided on it after it was made, or the reuse of a request like it that was decided for the run |
| RuntimeLease.RuntimeDescriptors.Create | internal/store/store.go:2677-2726 | A claim succeeds exactly when the nonce is long enough, there is no live owner and the descriptor file is written, and replaces only this project's row; a file that fails takes the row back out |
| RuntimeLease.RuntimeDescriptors.UpdateHeartbeat | internal/store/store.go:2732-2759 | A heartbeat succeeds exactly for the nonce in the row, if it is long enough, and touches nothing else |
| RuntimeLease.RuntimeDescriptors.ReapInTx | internal/store/store.go:2811-2837 | A row is deleted exactly when pid, heartbeat and TTL are still those scanned |
| RuntimeLease.RuntimeDescriptors.ReapStale | internal/store/store.go:2782-2809 | Undisturbed, a reap removes exactly the rows without a live owner and counts them |
| RuntimeLease.RuntimeDescriptors.Remove | internal/store/store.go:2926-2933 | Removal deletes the row only if it has the pid |
| LeaseProtocol.JudgedStale | internal/store/store.go:2873-2893 | A row found stale belongs to a dead daemon or to one that has a heartbeat and whose last one plus TTL has passed; a live owner without a heartbeat is never judged stale |
| LeaseProtocol.ScanIdentifiesClaim | internal/store/store.go:2811-2828 | Pid, heartbeat and TTL together identify a claim, although nonces are not compared |
| LeaseProtocol.NextKeepsLease | internal/store/store.go:2677-2933 | Every step of daemons, clocks, crashes and reapers keeps the lease invariant |
| LeaseProtocol.ClaimEndsOnlyWhenStale | internal/store/store.go:2697-2716 | A claim ends only by its own daemon's hand, or by a takeover or reap when that daemon is dead or has a heartbeat and has not beaten for its TTL |
| LeaseProtocol.RowHoldsTheLastSent | internal/store/store.go:2732-2759 | What stands in the row is the clock reading and TTL of the last claim or heartbeat that its owner sent |
| LeaseProtocol.LosesItsClaimOnlyInSilence | internal/store/store.go:2697-2759 | A live daemon loses its claim, other than by giving it up, only when the time it read for its last claim or heartbeat, plus the TTL it gave, has passed |
| LeaseProtocol.ClaimWinsExactlyWhen | internal/store/store.go:2697-2716 | A claim wins if and only if the row is empty, no process has the owner's pid, or the owner has sent nothing for its TTL |
| LeaseProtocol.GivingUpFreesTheRow | internal/store/store.go:2926-2933 | Giving up frees the row of its owner and of nobody else |
| LeaseProtocol.ReapFreesWhatItScanned | internal/store/store.go:2811-2837 | A reap frees a row that is as it was scanned and leaves one that has beaten since |
| LeaseProtocol.ReapDeletesOnlyWhatItScanned | internal/store/store.go:2811-2837 | A reap working from an old scan deletes only the claim it scanned |
| LeaseProtocol.SameMillisecondReapDeletesAFreshClaim | internal/store/store.go:2811-2837 | Without the clock moving on before a pid is used again, some behaviour has an old scan's reap delete a live daemon's fresh claim |
| LeaseProtocol.DisplacedForever | internal/store/store.go:2732-2759 | A displaced claimant never owns the row again, so its heartbeats fail forever |
| LeaseProtocol.GateStaysOpen | internal/app/app.go:215-226 | Only the daemon in the row passes the dispatch gate, and as long as the time of what it sent last plus the TTL it gave has not passed it goes on passing until it gives up the row |
| SchedulerDrain.NextKeeps | internal/app/app.go:325-371 | Between its start and the receipt of its result a tick is the only one; the wait group counts the tick goroutines |
| SchedulerDrain.OneTickAndNoBlocking | internal/app/app.go:333-367 | At most one tick is ever running, and a tick's result send never blocks |
| SchedulerDrain.TicksAgain | internal/app/app.go:340-371 | A loop back in its select, with no tick busy, no result waiting and no cancellation, starts another tick when the ticker fires |
| SchedulerDrain.OnlyWindsDown | internal/app/app.go:325-371 | A returned loop starts nothing more, and ticks only come to an end |
| SchedulerDrain.DrainedMeansOver | internal/app/app.go:329-333 | The drained signal comes only after the last tick is gone, and none starts later |
| SchedulerDrain.StoreCloseOverlapsNoTick | internal/app/app.go:316-323 | From the deferred store close on no tick is ever running |
| SchedulerDrain.DrainIsNeverStuck | internal/app/app.go:325-371 | After cancellation, unless a tick is still running or being started, some step of the drain is enabled until the signal is out |
| SchedulerDrain.DrainMakesProgress | internal/app/app.go:325-371 | Each of these steps leaves strictly less to do |
| EventDelivery.MatchingIsExact | internal/store/store.go:1594-1626 | The query's rows are exactly the wanted events after the cursor, in order |
| EventDelivery.PageIsExact | internal/store/store.go:1594-1626 | A page is the beginning of the rows of the run, issue or project after the cursor, as long as its limit, or 200, allows |
| EventDelivery.CursorMoves | internal/store/store.go:1598-1598 | Moving the cursor to an event drops exactly the events up to it |
| EventDelivery.PageContinues | internal/store/store.go:1594-1609 | The page after the last emitted event continues the emission without gap or overlap and advances it by a whole page or to the end |
| EventDelivery.Stream.WriteEvents | internal/httpapi/httpapi.go:671-693 | A page is written as it is and the cursor follows the last event written |
| EventDelivery.Sse | internal/httpapi/httpapi.go:657-717 | Over a growing table the stream emits every wanted event after its start once and in order, and is behind no poll by more than the pages since |
| EventDelivery.ReconnectsLoseNothing | internal/httpapi/httpapi.go:667-670 | Over any appends, polls, cut connections and reconnects the client has received a beginning of the wanted events after its start, none twice, none skipped |
| EventDelivery.PollCatchesUp | internal/httpapi/httpapi.go:671-693 | A poll read in full brings the client up to date or a whole page further |
| EventDelivery.EventMaxSeq | web/src/App.tsx:222-224 | The greatest number in the list, or zero |
| EventDelivery.LoadRunEvents | web/src/App.tsx:235-246 | However the table grows, loading holds a beginning of the run's events, and it is finished if and only if some read finds less than a page beyond what was loaded; then it holds all that this read found, in order, none twice |
| EventDelivery.MergeEvents | web/src/App.tsx:226-231 | The merge is sorted by number and then by creation time in any locale, has distinct keys, and holds for every key the latest event |
| EventDelivery.MergingConverges | web/src/App.tsx:226-231 | Merging pages of one table in any order, with overlaps and repeats, shows the ascending list of the distinct events in them |
| EventDelivery.DashboardsAgree | web/src/App.tsx:226-231 | Two dashboards that were sent the same events show the same list, whatever their pages and locales |
| CanonicalJson.EscapesRead | internal/toolgateway/toolgateway.go:551-552 | A JSON reader gets every string back from its escaped form |
| CanonicalJson.WriteCanonical | internal/toolgateway/toolgateway.go:538-580 | Whatever order the map yields its keys in, what is appended is one function of the value |
| CanonicalJson.SortStrings | internal/toolgateway/toolgateway.go:541-545 | The keys come out ascending, the same keys |
| CanonicalJson.AscendingListIsUnique | internal/toolgateway/toolgateway.go:541-545 | A set of keys has one ascending list, so the order of iteration cannot show |
| CanonicalJson.ValueReads | internal/toolgateway/toolgateway.go:538-580 | What is written is JSON: a reader after RFC 8259 gets the value back and finds where it ends, behind anything that a number does not run on into |
| CanonicalJson.CanonicalIsInjective | internal/toolgateway/toolgateway.go:537-580 | Two values are encoded alike exactly when they are the same JSON value |
| CanonicalJson.BeforeIsLexicographic | internal/toolgateway/toolgateway.go:541-545 | The order of the keys is that of the first difference, and a beginning comes first |
| CanonicalJson.CanonicalIsInert | internal/toolgateway/toolgateway.go:551-580 | The encoding never holds a control character, an angle bracket, an ampersand or a line separator |
| HandoffPayload.RequiredStringSlice | internal/toolgateway/toolgateway.go:432-453 | A missing list is empty, a list of strings is itself, anything else is refused |
| HandoffPayload.RequiredNonBlankStringSlice | internal/toolgateway/toolgateway.go:455-466 | The same, and no string may be blank |
| HandoffPayload.CanonicalHandoff | internal/toolgateway/toolgateway.go:493-531 | A payload is normalised exactly when it is acceptable |
| HandoffPayload.NormalFormIsExact | internal/toolgateway/toolgateway.go:493-531 | A payload is accepted if and only if it says the same as some payload in order: the same summary up to white space, the same strings in each list, no other target; that one is then its normal form |
| HandoffPayload.InOrderIsNormal | internal/toolgateway/toolgateway.go:493-531 | A payload in order is its own normal form |
| HandoffPayload.NormalFormsAgree | internal/toolgateway/toolgateway.go:493-531 | Two payloads have one normal form if and only if their summaries agree up to white space and each of their lists holds the same strings |
| HandoffPayload.NormalFormsAreFixed | internal/toolgateway/toolgateway.go:493-531 | A normal form is acceptable and is its own normal form |
| HandoffPayload.NormalFormsEncodeApart | internal/toolgateway/toolgateway.go:532-537 | Two payloads have the same encoding exactly when their normal forms are equal |
| HandoffPayload.Submit | internal/toolgateway/toolgateway.go:204-214 | One submission: refused, recorded with the hash of its normal form, answered like the first, or a conflict |
| HandoffPayload.HandoffStays | internal/store/store.go:1780-1812 | A recorded handoff stays as it is, whatever transactions follow |
| HandoffPayload.SubmitTwice | internal/store/store.go:1780-1812 | A second submission for a run, after any transactions by anybody, is answered like the first if and only if the summaries agree up to white space and each list holds the same strings, up to hash collisions, and is a conflict otherwise |
| CommandTokenizer.CommandParts | internal/agent/codex/codex.go:1675-1747 | The loop with its five flags computes the words of a grammar that has no flags |
| CommandTokenizer.PieceReads | internal/agent/codex/codex.go:1696-1741 | A bare character, an escaped one and either kind of quotes read as what they stand for |
| CommandTokenizer.LineReads | internal/agent/codex/codex.go:1693-1746 | Without the trimming every writable line reads back as its words |
| CommandTokenizer.TokenizerReadsBack | internal/agent/codex/codex.go:1675-1747 | However words are written, in any mixture of styles and with any white space between them, they are given back if and only if the line does not end in an escaped space |
| CommandTokenizer.LooseEndsRead | internal/agent/codex/codex.go:1737-1747 | The end of the line closes a quote that is left open, and a backslash with nothing to escape stands for itself |
| CommandTokenizer.QuotingRoundTrips | internal/agent/codex/codex.go:1675-1747 | Joining single-quoted arguments with spaces and tokenizing gives the list back, for every list |
| SentinelRedactor.ScrubbedForDiagnostics | internal/agent/codex/preflight.go:801-817 | The loop ends although the replacement is as long as the bare sentinel, and equals one pass from left to right |
| SentinelRedactor.ReplacementIsABarrier | internal/agent/codex/preflight.go:807-816 | No sentinel can arise across a replacement, so the search from the start never finds anything behind it |
| SentinelRedactor.ScrubKeepsCleanText | internal/agent/codex/preflight.go:801-805 | Text without a sentinel is left alone |
| SentinelRedactor.ScrubReplacesTheFirstRun | internal/agent/codex/preflight.go:811-815 | The first sentinel goes together with the letters, digits and underscores that follow it, and nothing else |
| SentinelRedactor.NoSentinelSurvives | internal/agent/codex/preflight.go:801-817 | The result holds no sentinel |
| SentinelRedactor.ScrubIsIdempotent | internal/agent/codex/preflight.go:801-817 | Redacting twice is redacting once |
| SentinelRedactor.BodyMatches | internal/agent/codex/codex.go:1890-1890 | A leftmost-first matcher of the regular expression, with its choices in order of preference, matches exactly at a sentinel with a body and ends at the end of its last word |
| SentinelRedactor.MatchesAreGreedy | internal/agent/codex/codex.go:1890-1939 | Behind the match that the regular expression prefers the suffix check never finds anything |
| SentinelRedactor.IsSyntheticSentinelString | internal/agent/codex/codex.go:1890-1922 | A value is poisoned exactly when some sentinel prefix is followed by an upper-case letter or a digit |
| SentinelRedactor.ScrubbedIsNotPoisoned | internal/agent/codex/preflight.go:801-817 | What has been redacted is never taken for poisoned |
| TinyYaml.Place | internal/config/workflow.go:245-257 | Popping and writing for one accepted line, in place, is one step of the machine |
| TinyYaml.ParseTinyYaml | internal/config/workflow.go:221-260 | The parser splits the text into lines; its maps are those of the machine run over the accepted lines, with typed values, and its errors those of the rejected ones |
| TinyYaml.StackIsAlwaysOk | internal/config/workflow.go:245-248 | The open maps are at every line exactly the root and the maps of the headers that all lines since are indented further than |
| TinyYaml.KeepSplits | internal/config/workflow.go:245-248 | Popping keeps exactly the open headers that are indented less than the line |
| TinyYaml.EachLineLandsInItsParent | internal/config/workflow.go:245-257 | A line lands in the map of the last header that every later line up to it is indented further than, or in the root; nothing else changes |
| TinyYaml.OpenMapsStayReachable | internal/config/workflow.go:250-254 | Every open map is reached from the root by some path of keys |
| TinyYaml.WritingRoundTrips | internal/config/workflow.go:221-260 | Writing any nested map as indented lines, at any width and with its values in any clear writing, and reading them gives that map with the values that were meant |
| TinyYaml.LineReads | internal/config/workflow.go:228-244 | The text of a writable key and value is accepted with its indent, key and value |
| TinyYaml.AcceptedLines | internal/config/workflow.go:228-244 | A line is split at its first colon and trimmed, and its indent is the number of spaces at its front |
| TinyYaml.OtherLines | internal/config/workflow.go:228-242 | A line is skipped if and only if it is blank or a comment, and rejected if and only if it is a list item or has no colon |
| TinyYaml.OtherLinesChangeNothing | internal/config/workflow.go:225-243 | Comments and blank lines make no difference wherever they stand; a rejected line is reported in its place and otherwise makes none |
| TinyYaml.RoundTrip | internal/config/workflow.go:221-260 | The same round trip through the text as a whole, without errors |
| YamlScalars.QuotedTextReads | internal/config/workflow.go:285-287 | Any text in double or single quotes reads back as itself |
| YamlScalars.AtoiIsExact | internal/config/workflow.go:288-290 | What reads as a number is exactly a decimal, with a sign or none, that fits in 64 bits |
| YamlScalars.BareTextReads | internal/config/workflow.go:262-291 | A text reads as itself without quotes if and only if it has no white space around it and is no null, flag, list, quoted text or number |
| YamlScalars.WritingReads | internal/config/workflow.go:262-292 | Any writing of a value - null or tilde, flags, decimals with sign and zeros, bare or quoted text, lists with white space, at any depth - reads as it is meant if and only if bare texts can be bare, no item of a list holds a comma and no list has a bare empty item alone |
| Text.JoinSplits | internal/config/workflow.go:278-278 | A joined list is split into as many parts exactly when no part holds the separator, and then into the same |
| Text.TrimIsExact | internal/toolgateway/toolgateway.go:220-233 | Trimming finds the one text without white space around it that the given text is with some |

## Left out

- SQL text, the SQLite binding and schema migration: a transaction is one atomic step, and one that fails changes nothing.
- Store errors that come from the database itself rather than from a check: a step either has its effect or is refused.
- Comments, events, timestamps, pause reasons, relation history and `issue_state_history`: the lifecycle never reads them. (The history is not a chain: failing and cancelling write no row.)
- Re-reads that one transaction makes of what it has just checked in the review action: inside a transaction they cannot fire.
- Ids, nonces and token hashes are fresh or given; a collision is a refusal. Token expiry and policy verdicts are given.
- ProjectStore.Store.FailRun: takes only failed and completed_without_handoff, the two statuses its call sites pass.
- ProjectStore.Store.InsertHandoff: takes the run's own issue, which is what its only caller passes.
- ProjectStore.Store.InsertReviewPacket: takes the run's own issue and handoff, which is what the review generator passes.
- ProjectStore.Interfere: stands for everybody else; its contract allows any further transactions, its body makes none, and callers see only the contract.
- ApprovalExchange.HandleApprovalRequest: the parsing of the request and the policy tables are not part of the model; their verdict is a parameter.
- The session files and the contents of the descriptor file beside the runtime row, and other projects' rows in the lease protocol: a process serves one project once, and projects do not share rows.
- Mutual exclusion of dispatch between daemons: the dispatch gate is a check before an act, so none is claimed.
- Git, worktrees, hooks, prompt rendering, file writes, subprocesses and signals: arbitrary success or failure of a worker's step.
- The contents of review packets: a packet is its number, run, handoff and status.
- CanonicalJson.WriteCanonical: a number is the text that `json.Marshal` writes for it; strings are sequences of code points, so invalid UTF-8 does not occur.
- The split of a workflow file into front matter and body, and what the configuration makes of the parsed values.
- The codex handshake and message parsing, the HTTP routes, sessions and CSRF, the CLI, diagnostics projections, logout tables and the dashboard's rendering.
- `scrubbedMetadata`, which applies the redactor to each string of a list, and the protected-path and network policy lists.
