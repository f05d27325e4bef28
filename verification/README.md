# Suspended callers, verified

In this system an agent that dispatches to another agent suspends, and only a reply message wakes it again. Messages are
duplicated, reordered and lost, workers die, and many processes write the same Redis keys, so what keeps the promise
"every suspended caller is woken once, with the right answer" is a protocol spread over several components. This project
models that protocol and proves what it guarantees.

The shared state (wait index, consumed markers, renewal origins, execution records, group trackers and results, control
streams, online workers) is the datatype `Store.Db`. Each component is a set of functions from one `Db` to the next, and
the classes and loops of the original are Dafny classes and loops proved to compute exactly those functions: the contract
of such a method ties the fields after the call to the function of the fields before it, and the theorems are about the
functions, over all inputs and over whole runs.

| file | what it covers |
|---|---|
| Protocol, Store | messages, records, statuses; the Redis keys and commands |
| WaitIndex | the member codec |
| WaitGate, GateInterleaving | claiming a wait: as one step over whole histories, and command by command under every schedule |
| Dispatch | what a dispatch, a Task Group fan-out and a reply builder produce |
| Worker, Runner | one message through a worker: gate, record, join, handler, reply |
| Requests, Postings | what a handler's requests send, record, register and suspend; over every run, what was dispatched went out |
| CallTree | every tree of calls: who is answered, with which ids, metadata, status and content |
| Executions | what a delivery makes of its execution's record, and what its handler reads |
| Endings | how executions end: which end unheard, what a cancellation does to the others |
| Registrations | from a dispatch to its reply: the entry a reply clears is the one its dispatch registered |
| TaskGroup | the accounting of one Task Group over every run |
| Sweeper, Verdicts | what a sweep decides about a due entry; what it reports, says and orders, field by field |
| Pruning | removing entries by age |
| Recovery, StoredAnswers | rebuilding lost replies; how long a stored answer stands |
| Renewal, Backlog, Chain | the renewal budget, the progress of a backlog, the resolution of a chain of suspended callers |
| Cancellation | the cascading cancellation walk and its marks |
| Health, Lease | the runner's health machine; the token-owned presence lease and its heartbeat |
| RedisPassword | hexadecimal text, block split, modular exponentiation, PKCS#1 v1.5 unpadding |

## How time, concurrency and failure are modelled

- A gate call, a sweep of one entry, a registry method and the handling of one message are single steps, except in
  `GateInterleaving`, where each Redis command of each gate call is a step of its own and schedules are arbitrary.
- Clocks, minted ids, whether a shard's lock is won, the availability router's answers, the business handler (what it asks
  of its context and how it ends) and the order in which Redis lists keys are parameters, universally quantified.
- Minted ids are new, parent message ids of waiting dispatches are non-empty, Redis writes succeed and no key expires
  within a run, apart from the presence lease and what a theorem names. One execution record exists per session and
  message id.
- The wait index is one map instead of sixteen shards; a member determines its shard.

## Where the code does something other than its comments say

Each of these is a proved statement about the model of the code, and says exactly when it happens.

- Two overlapping copies of one reply can both be claimed if and only if the caller has a sub-task wait and a wait on its
  user live at once (`GateInterleaving.DoubleClaimExactly`). A copy can slip through unregistered beside a claimed one if
  and only if there are more copies than live entries they could clear (`GateInterleaving.CopySlipsThroughExactly`), and
  only one that looked before the winner's marker was set can (`GateInterleaving.LateCallsAreDenied`).
- Decoding is not injective: an escape before a character that needs none changes the text and not the member it reads as
  (`WaitIndex.NeedlessEscapeIsIgnored`). A sweeper's reply clears the entry it was sent for if and only if that entry is
  canonically spelt, as every registered one is (`Sweeper.StandInClearsItsEntryExactly`).
- An execution whose caller awaits a reply can be over without sending one. It is so exactly if it is cancelled together
  with its caller, or if a reply to it names a group whose tracker is gone or aborted (`Endings.SilentEndingsExactly`,
  `TaskGroup.DeadGroupEndsItsCallerExactly`). A caller that is still suspended learns of it from the next sweep of its
  wait, when no answer was stored (`Recovery.SilentEndIsReported`).
- The runner finalizes a cancelled execution without a word if its record still says queued, or nothing
  (`src/runner.ts:803-812`, `Runner.UnstartedCancellationExactly`). No cancellation leaves such a record: whoever cancels
  an execution that has not finished writes CANCELLING (`src/client.ts:459-464`, `src/registry.ts:566-587`,
  `src/runner.ts:1122-1123`), so in every run that branch is never taken (`Endings.NoneCancelledUnstarted`,
  `Endings.UnstartedBranchIsNeverTaken`), and an execution cancelled while it was queued does tell its caller
  (`Endings.CancelledWhileQueuedAnswers`).
- Two copies of a group member's reply are counted twice if and only if neither its entry nor its marker is there
  (`TaskGroup.CopiesCountTwiceExactly`). The reply to a call that a member makes in turn is counted in the member's own
  group if and only if the member made it while running its own dispatch (`TaskGroup.InnerReplyCountsOutsideExactly`).
- Pruning is described as removing only entries of expired sessions. It goes by age alone: the session of a pruned entry is
  still alive if and only if something wrote to it recently enough and more than a day after the entry was last written
  (`Pruning.PrunedSessionHasExpired`, with such a session in `Pruning.RefreshedSessionLosesItsWait`, and a store of it
  whose suspended caller loses its wait in `Pruning.SuspendedCallerLosesItsWait`). Every copy of the
  pruned wait's reply is then let through if and only if no other entry it could clear is known
  (`Pruning.PruningForgetsALiveWait`).
- A recorded deadline of zero reads as no recorded deadline: it is read back if and only if it is not zero, and otherwise
  the renewal budget restarts at every sweep (`Renewal.ZeroDeadlineIsForgotten`, `Renewal.ZeroDeadlineRestartsTheBudget`).
  This is a fact about the two reads, not a live defect: a deadline is the clock plus a timeout, so with a real clock
  none that `registerWait` writes is zero.
- A due entry is examined if and only if fewer due entries than a batch are ahead of it
  (`Backlog.ExaminedExactlyWhenNear`); while two hundred unanswered waits on users are, it never is
  (`Backlog.AskUserWaitsStarve`).
- Cancellation compares raw statuses: of the executions a sweep calls finished it leaves exactly those with an undecorated
  status alone, and overwrites the others, such as `CANCELLED: group_aborted`
  (`Cancellation.FinishedStatusStandsExactly`). Its walk ends if and only if parent links do not lead from the target back
  to itself (`Cancellation.WalkEndsExactly`, with a session on which it does not in `Cancellation.SelfParentNeverEnds`).
- `markWorkerInactive` removes a foreign lease if and only if its caller remembers no token
  (`Lease.InactiveEvictsExactly`); a process that released its id is such a caller
  (`Lease.ForgottenTokenEvictsTheSuccessor`).
- `asciiToBcd` rejects a text if and only if its length is odd (`RedisPassword.AsciiToBcd`), so other characters than digits
  are read: a colon is ten (`RedisPassword.ColonReadsAsTen`).
- With a stored answer the sweep reports `recovered` in any case; it only postpones, sending nothing, if and only if the
  records name nobody to send to (`Sweeper.UnaddressedRecoveryExactly`).

## Model

| member | source | states |
|---|---|---|
| `Protocol.DecorationIsIgnored` | src/liveness/wait_sweeper.ts:184-187 | a status followed by a colon and a reason reads, to a sweep, as the plain status |
| `Protocol.PaddingIsIgnored` | src/liveness/wait_sweeper.ts:184-187 | nor does white space around the plain status change what is read |
| `Protocol.GroupWaitBase` | src/worker.ts:297-304 | a caller parked on its group still reads as suspended |
| `Protocol.GroupAbortBase` | src/worker.ts:258-271 | the result of an aborted group reads as cancelled, although it is no terminal status as written |
| `WaitIndex.TwoPassEscapeIsPerCharacter` | src/liveness/wait_index.ts:51-57 | escaping the escapes and then the separators is escaping character by character |
| `WaitIndex.Decode` | src/liveness/wait_index.ts:64-96 | the scanning loop decides and reads exactly what the fold over the characters does |
| `WaitIndex.RoundTrip` | src/liveness/wait_index.ts:98-126 | decoding inverts encoding for all four arbitrary strings |
| `WaitIndex.EncodingIsInjective` | src/liveness/wait_index.ts:98-110 | two waits share an entry only if all their fields agree |
| `WaitIndex.DecodeFailsExactly` | src/liveness/wait_index.ts:64-126 | decoding fails exactly on an odd run of escapes at the end or when the unescaped separators do not delimit four fields |
| `WaitIndex.DecodedSpellsItself` | src/liveness/wait_index.ts:98-126 | a decodable text is the encoding of its own fields exactly when every escape in it was needed |
| `WaitIndex.NeedlessEscapeIsIgnored` | src/liveness/wait_index.ts:64-96 | an escape before an ordinary character, anywhere in a text, gives a different text of the same member |
| `WaitGate.AskUserCandidate` | src/liveness/wait_gate.ts:95-107 | which one or two entries a reply may clear, and when the two coincide |
| `WaitGate.GateCases` | src/liveness/wait_gate.ts:142-171 | the gate's answer and its whole effect, case by case over its candidates |
| `GateHistory.MarkerMeansClaimed` | src/liveness/wait_gate.ts:119-171 | in every history a marker is set exactly when some call claimed the member and nothing registered it since |
| `GateHistory.WindowState` | src/liveness/wait_registration.ts:48-85 | between two registrations a wait is live until its one claim and marked from then on |
| `GateHistory.FirstReplyWins` | src/liveness/wait_gate.ts:142-171 | between two registrations exactly the first reply is accepted and every later copy denied |
| `GateHistory.FirstAnswerWins` | src/liveness/wait_gate.ts:95-171 | an answer to a wait on the user: a live or consumed wait its parent id names decides first, else the first answer is accepted and every later one denied |
| `GateHistory.SubAgentReplySparesOtherWaits` | src/liveness/wait_gate.ts:95-171 | a reply to a registered wait touches no other entry or marker, a wait on the user included |
| `GateHistory.DenialNamesAnEarlierClaim` | src/liveness/wait_gate.ts:142-171 | every denial names a candidate claimed by an earlier call since its last registration, so no prune or drop causes one |
| `GateInterleaving.AtMostOneClaims` | src/liveness/wait_gate.ts:119-171 | under every interleaving of the single commands of any number of calls, at most one claims if one candidate is live |
| `GateInterleaving.DoubleClaimExactly` | src/liveness/wait_gate.ts:142-171 | two calls can both claim in some interleaving if and only if both candidates are live |
| `GateInterleaving.LateCallsAreDenied` | src/liveness/wait_gate.ts:119-171 | under every schedule a copy that has not yet asked for the marker of a returned winner can only be denied |
| `GateInterleaving.CopySlipsThroughExactly` | src/liveness/wait_gate.ts:142-171 | some schedule claims one copy and lets another through if and only if some candidate is live and there are more copies than live candidates |
| `GateInterleaving.WinnersTakeTheLive` | src/liveness/wait_gate.ts:150-157 | under every schedule each live candidate is won by exactly one call |
| `GateInterleaving.CopyInTheGapIsAdmitted` | src/liveness/wait_gate.ts:150-157 | the shortest such schedule, between removal and marker |
| `GateInterleaving.AloneIsAtomic` | src/liveness/wait_gate.ts:142-171 | a call nobody interrupts answers and acts as the one-step gate |
| `Store.Redis.ZRemRangeByScore` | src/liveness/wait_sweeper.ts:480-493 | removal by score range: what stays and how many go |
| `Store.Redis.GetExecutionByMessageId` | src/registry.ts:556-564 | the record of a message, none without a session |
| `Dispatch.RegisterWait` | src/liveness/wait_registration.ts:48-85 | the entry gets its deadline and loses the previous round's marker |
| `Dispatch.InitializeExecution` | src/registry.ts:399-422 | the record is stored under its session and message |
| `Dispatch.AgentContext.Call` | src/context.ts:410-517 | one call's whole effect on store and context: rejected, queued or published, suspended or transferred |
| `Dispatch.AgentContext.Ask` | src/context.ts:371-395 | asking the user registers the wait without a sub-task and suspends |
| `Dispatch.AgentContext.DispatchTo` | src/context.ts:650-790 | one member's record, wait, message or queued stand-in |
| `Dispatch.AgentContext.DispatchAll` | src/context.ts:640-800 | the fan-out loop performs every member's effect in order and queues the stand-ins in order |
| `Dispatch.AgentContext.FanOutGroup` | src/context.ts:564-810 | a whole fan-out: tracker, members, stand-ins, suspension or transfer |
| `Dispatch.AgentContext.TakePendingGroupReplies` | src/context.ts:208-212 | the queue is handed over once and left empty |
| `Requests.CallIsSent` | src/dispatch/dispatch_ask_agent.ts:121-125 | a deliverable call goes out exactly once, on the router's stream or else its target's, as an Ask with the call's content, payload and ids; a queued or rejected one does not go out |
| `Requests.CallIsRecorded` | src/dispatch/dispatch_ask_agent.ts:77-130 | its new record is queued, or failed if rejected, names its dispatch, is nobody's yet and dates from now; no other record changes |
| `Requests.CallIsAwaited` | src/context.ts:460-517 | it registers its wait, due after its timeout, and suspends exactly if it waits and was not rejected; else it passes the permission on or does nothing |
| `Requests.UserIsAwaited` | src/context.ts:371-395 | asking the user registers a wait due after its timeout, suspends, and does nothing else |
| `Requests.MemberIsRecorded` | src/context.ts:650-760 | a group member's record, queued or failed |
| `Requests.MemberIsAwaited` | src/context.ts:690-760 | its wait, due after the fan-out's timeout, and nothing else |
| `Requests.FanOutIs` | src/context.ts:564-810 | the tracker counts to the number of members; the members that can run go out, each once, in order, on their own type's stream; a failure is queued for each of the others; the execution suspends if it waits |
| `Requests.LastRequestDecides` | src/context.ts:183-193 | over any sequence of requests, the last one that waits decides for whom the execution waits |
| `Requests.SuspendsExactly` | src/worker.ts:314-326 | a returning handler leaves its execution suspended if and only if some request of its waits and its status is no end |
| `Postings.DispatchesArePosted` | src/dispatch/dispatch_ask_agent.ts:111-125 | over every run each dispatch was posted by the very step that made it, by the client or by the delivery whose handler asked for it, unless the router kept that call |
| `Postings.RunSendsInOrder` | src/worker.ts:305-345 | after its requests' messages a run sends its queued stand-ins if it returned, each to its addressee, and last its reply |
| `Postings.UnsentMembersAreAnswered` | src/liveness/wait_reply.ts:162-187 | for every member of a waiting fan-out that nobody could run, the caller's own stream gets that member's failure once the handler has returned |
| `Worker.MergeMetadata` | src/resume_metadata.ts:64-75 | the loop yields the stored metadata without the hop keys under the waking message's |
| `Worker.GatewayWorker.EnqueueAgentReturn` | src/worker.ts:623-676 | the return is stored for recovery, then sent, with ids reversed and dispatch metadata under the result's |
| `Worker.GatewayWorker.JoinGroup` | src/worker.ts:227-308 | one member's reply: refused, discarded, counted and waiting, or counted and complete |
| `Worker.JoinStops` | src/worker.ts:231-308 | a join stops a reply for good at a missing or aborted tracker and otherwise only until the total is reached |
| `Worker.GatewayWorker.Drive` | src/context.ts:410-810 | a handler's requests act on the store in the order it made them |
| `Worker.GatewayWorker.FlushPending` | src/liveness/wait_reply.ts:162-187 | every queued stand-in is sent once, in order, and the queue is empty |
| `Worker.GatewayWorker.Cancel` | src/worker.ts:391-426 | a cancelled execution answers its caller unless that caller is being cancelled too |
| `Worker.GatewayWorker.Run` | src/worker.ts:305-441 | a handler's whole run: its requests, stand-ins, status, and the reply it owes or withholds |
| `Worker.GatewayWorker.Handle` | src/worker.ts:143-460 | cancellation, join and run of one message, in that order |
| `Executions.HandledRecord` | src/runner.ts:822-950 | a handled message leaves its execution recorded under the worker that handled it, with the status the handling ended in; an unrecorded one gets a record of its own; no other record changes |
| `Executions.DeliveriesRecord` | src/runner.ts:689-950 | the same over every run, and a delivery that is not handled changes nothing at all |
| `Executions.CancelledJoinsNothing` | src/worker.ts:218-226 | a message that finds its execution cancelled is neither joined nor stored in any group; nothing but the reply is sent or stored |
| `Executions.RefusedChangesNothing` | src/runner.ts:689-785 | a denied copy and a replayed dispatch leave the whole store as it was |
| `Executions.HandlersRead` | src/worker.ts:558-587 | the handler reads the message as it came, with the session's history in its payload and, on a resume, its own dispatch metadata but the per-hop keys under the message's |
| `Executions.RunEndsIn` | src/worker.ts:312-441 | the status of a run: what its last waiting request waits for, or the status it returned, FAILED if it threw, CANCELLED if it was cancelled |
| `Runner.ConsumeWaitEntry` | src/liveness/wait_gate.ts:142-171 | the loop over the candidates claims, denies or passes as the gate function says, touching nothing else |
| `Runner.WorkerRunner.MarkFinished` | src/registry.ts:589-617 | only the status of the one record changes |
| `Runner.WorkerRunner.ProcessAndAck` | src/runner.ts:689-950 | one message through gate, terminal replay, unstarted cancellation, running record, handling and final status |
| `Runner.UnstartedCancellationExactly` | src/runner.ts:787-812 | the branch that finalizes an admitted message as cancelled, telling nobody, is taken if and only if its record has the cancellation flag and still says queued or nothing |
| `CallTree.RunsStayFaithful` | src/runner.ts:822-865 | over every run each record still names the dispatcher, the group and the metadata its dispatch was sent with |
| `CallTree.EveryRunAnswersItsDispatcher` | src/worker.ts:326-441 | over every run a handled message sends a reply exactly when one is owed, the handler was reached and did not suspend, and the caller is not cancelled along; it carries the type, ids, group and metadata of the dispatch, tells the handler's result, error or cancellation reason, and its status is the one recorded |
| `CallTree.HandlingAnswers` | src/worker.ts:143-460 | the same for one handled message in any store |
| `Endings.NoneCancelledUnstarted` | src/registry.ts:566-587 | over every run no record carries the cancellation flag and still says queued or nothing, whoever cancels what and when |
| `Endings.UnstartedBranchIsNeverTaken` | src/runner.ts:803-812 | over every run no delivery takes the branch for cancelled executions that look unstarted |
| `Endings.CancelledExecutionAnswers` | src/worker.ts:218-426 | over every run a cancelled execution ends CANCELLED at the next message it admits, its handler unentered, and tells its caller exactly if that one is not cancelled too |
| `Endings.CancelledWhileQueuedAnswers` | src/client.ts:459-491 | an execution cancelled between its dispatch and its first pickup is recorded as CANCELLING, and its pickup sends that answer |
| `Endings.SilentEndingsExactly` | src/worker.ts:220-271 | over every run, an execution that owes a reply ends without one exactly when cancelled with its caller or woken for a dead group; its record is then terminal |
| `Endings.HandledSilently` | src/worker.ts:143-460 | the same for one handled message |
| `Endings.ProcessCases` | src/runner.ts:689-950 | what becomes of a message, read off gate, status and flag: denied, replayed, in the branch for unstarted ones, or handled |
| `CallTree.HandlerAnswers` | src/worker.ts:326-441 | a run that ends sends one reply and one that suspends sends none; a result is told as it is with a null content read as empty, an error as FAILED with its text, a cancellation as CANCELLED with its reason; nothing else changes after the handler's own effects |
| `CallTree.CancelAnswers` | src/worker.ts:391-426 | the early way out of a cancelled execution answers the same dispatcher |
| `CallTree.EnteredUnlessStopped` | src/worker.ts:220-303 | the handler is entered unless cancellation or the join stopped the message |
| `CallTree.OwedToTheDispatcher` | src/worker.ts:502-534 | the header a reply is built from names the original dispatcher, whoever woke the execution |
| `CallTree.RootsAndTransfersStaySilent` | src/worker.ts:502-534 | executions dispatched by a client or transferred to never reply |
| `CallTree.ReplyClearsTheRegisteredWait` | src/liveness/wait_index.ts:138-146 | the entry rebuilt from such a reply is the one its dispatch registered |
| `CallTree.DispatchRegistersItsWait` | src/dispatch/dispatch_ask_agent.ts:87-116 | a waiting dispatch registers the wait of its own header, also after a fallback retarget |
| `CallTree.MemberRegistersItsWait` | src/context.ts:650-790 | so does a group member, and its queued stand-in resolves the same entry |
| `CallTree.HandlersReadTheirOwnDispatch` | src/worker.ts:558-587 | over every run a resumed handler reads its dispatch metadata without the hop keys under this wake-up's alone |
| `Registrations.WaitingDispatchesRegistered` | src/dispatch/dispatch_ask_agent.ts:87-116 | over every run each dispatch that awaits a reply came into being at one step, and that step left its wait in the index |
| `Registrations.RepliesRebuildTheirRegisteredEntry` | src/liveness/wait_index.ts:138-146 | over every run each reply to a waiting dispatch rebuilds the very entry that was put into the index when the dispatch was made |
| `TaskGroup.JoinCounts` | src/worker.ts:232-303 | a joined reply is stored whole under its sub-task, field by field, beside what others stored; it is counted once, and lets the handler in only at the total |
| `TaskGroup.DeliveryCounts` | src/worker.ts:227-308 | one delivery is denied if its entry was claimed, else stored and counted once, and enters the handler if it reaches the total |
| `TaskGroup.OtherMessagesLeaveTheGroupAlone` | src/worker.ts:143-460 | no other message, with whatever its handler does, touches the group's accounts or entries |
| `TaskGroup.AccountsBalance` | src/worker.ts:232-303 | over every run from balanced books, as a fan-out leaves them, completed equals the stored sub-tasks equals the claimed members, never above the total |
| `TaskGroup.BalancedTotals` | src/worker.ts:285-303 | what balanced accounts imply for the counter and the handler's entries |
| `TaskGroup.CallerWakesOnce` | src/worker.ts:285-308 | the caller's handler is entered at most once, and exactly when every member has had one reply consumed |
| `TaskGroup.StoredAnswersAreTheCounted` | src/worker.ts:272-294 | at every point of every run what is stored for a member is, field by field, the reply that was counted for it; no copy, stand-in or other step replaces it |
| `TaskGroup.FanOutOpensARun` | src/context.ts:592-810 | a fan-out leaves balanced books, so the runs above start there: every member enlisted with a live entry, none counted, the total their number |
| `TaskGroup.CopiesCountTwiceExactly` | src/liveness/wait_gate.ts:142-171 | two copies are counted twice, and stored once, if and only if neither entry nor marker is there |
| `TaskGroup.DeadGroupEndsItsCallerExactly` | src/worker.ts:231-308 | an admitted reply to a group ends its caller unentered, telling nobody, if and only if the tracker is missing or aborted |
| `TaskGroup.InnerReplyCountsOutsideExactly` | src/context.ts:426-441 | the reply to a call made by a member is counted in the member's own group if and only if the member made it while running its own dispatch |
| `Sweeper.RepliesExactlyWhen` | src/liveness/wait_sweeper.ts:538-794 | a reply goes out if and only if a suspended caller waits, in a live group if any, for a sub-task that will not answer, and can be addressed |
| `Sweeper.DropsAndLeavesExactlyWhen` | src/liveness/wait_sweeper.ts:538-703 | an entry is dropped exactly when nobody waits on it and left exactly when it waits on the user |
| `Sweeper.OneSweepOneEffect` | src/liveness/wait_sweeper.ts:538-703 | one sweep drops without reply, leaves or postpones without reply, or sends one reply and keeps the entry with a later deadline |
| `Sweeper.RepliesNameTheirCause` | src/liveness/wait_sweeper.ts:706-794 | the outcome and error code of a reply are the cause the records show, and all but recovered answers report failure |
| `Sweeper.SweepFrame` | src/liveness/wait_sweeper.ts:1063-1142 | a sweep of one entry changes no other entry, origin, record, group or result |
| `Sweeper.EffectIs` | src/liveness/wait_sweeper.ts:538-1142 | the whole effect of an examination on index, origins and streams, read off its verdict |
| `Sweeper.UnaddressedRecoveryExactly` | src/liveness/wait_sweeper.ts:943-974 | with a stored answer the outcome is recovered, and nothing is sent if and only if nobody can be addressed |
| `Sweeper.SuspendedCalleeIsNeverFailed` | src/liveness/wait_sweeper.ts:722-736 | a wait for a callee that waits itself is only postponed, past any ceiling |
| `Sweeper.StandInNamesTheEntry` | src/liveness/wait_sweeper.ts:1089-1104 | the reply's ids are those decoded from the entry |
| `Sweeper.StandInClearsItsEntryExactly` | src/liveness/wait_sweeper.ts:1089-1104 | the reply clears the entry it was sent for if and only if that entry is canonical |
| `Sweeper.RegisteredEntriesAreCanonical` | src/liveness/wait_index.ts:98-126 | every registered entry is canonical |
| `Sweeper.ZRangeByScore` | src/liveness/wait_sweeper.ts:503-511 | the batch is the first due entries in score order, all of them if they fit |
| `Sweeper.SomeBatch` | src/liveness/wait_sweeper.ts:503-511 | whatever the index holds, a batch exists |
| `Verdicts.DropsSayWhy` | src/liveness/wait_sweeper.ts:538-703 | each reason to drop, leave or back off from an entry, as an if-and-only-if over the records, mutually exclusive |
| `Verdicts.TriageSaysWhy` | src/liveness/wait_sweeper.ts:706-794 | each outcome for a sub-task somebody waits for, as an if-and-only-if over the records |
| `Verdicts.StopsExactly` | src/liveness/wait_sweeper.ts:769-785 | a sub-task is ordered to stop if and only if it is timed out, stopping is configured and nobody asked before, routable or not |
| `Verdicts.FailuresSay` | src/liveness/wait_sweeper.ts:1005-1104 | every field of the reply for a sub-task that has not finished: addressee, sender, ids, trace, error text and code, the sub-task's metadata and the operator's facts |
| `Verdicts.RecoveriesSay` | src/liveness/wait_sweeper.ts:943-974 | every field of the reply for a finished one: the stored answer as it stands, or a failure in its own status |
| `Verdicts.OutcomesAre` | src/liveness/wait_sweeper.ts:495-528 | a pass reports per entry the outcome of the verdict its turn found in the store the earlier turns left |
| `Verdicts.BatchOrderIs` | src/liveness/wait_sweeper.ts:503-511 | a batch is in order of deadlines, and of equal ones in the order of texts by first difference |
| `Verdicts.PrunesExactly` | src/liveness/wait_sweeper.ts:480-493 | pruning removes exactly what was due eight days ago or more, and keeps every other score, marker and record |
| `Sweeper.WaitIndexSweeper.ExtendDeadline` | src/liveness/wait_sweeper.ts:1129-1142 | the first postponement records the deadline it overwrites, later ones do not |
| `Sweeper.WaitIndexSweeper.EmitReply` | src/liveness/wait_sweeper.ts:1063-1113 | send and postpone, or only postpone when nobody can be addressed |
| `Sweeper.WaitIndexSweeper.SynthesizeFailure` | src/liveness/wait_sweeper.ts:1005-1050 | the failure verdict is applied and reported, as unroutable if it could not be sent |
| `Sweeper.WaitIndexSweeper.RecoverFinishedChild` | src/liveness/wait_sweeper.ts:943-974 | the stored answer is sent if there is one, an honest failure otherwise |
| `Sweeper.WaitIndexSweeper.Triage` | src/liveness/wait_sweeper.ts:706-794 | the nested decisions about the sub-task have the effect and outcome of the verdict |
| `Sweeper.WaitIndexSweeper.Resolve` | src/liveness/wait_sweeper.ts:538-612 | one entry's examination applies exactly the verdict of the decision function |
| `Sweeper.WaitIndexSweeper.ResolveDueEntries` | src/liveness/wait_sweeper.ts:495-528 | the pass takes one batch, examines each of its entries once, in order, with the scores it read, and reports each verdict |
| `Sweeper.WaitIndexSweeper.PruneIsDue` | src/liveness/wait_sweeper.ts:390-399 | pruning happens on its own interval and remembers when |
| `Sweeper.WaitIndexSweeper.PruneShard` | src/liveness/wait_sweeper.ts:480-493 | exactly the entries beyond the age threshold go, and their number is reported |
| `Sweeper.WaitIndexSweeper.SweepShard` | src/liveness/wait_sweeper.ts:410-443 | nothing without the lock; with it prune, then compensate, each behind its own switch |
| `Sweeper.WaitIndexSweeper.constructor` | src/liveness/wait_sweeper.ts:245-288 | neither the renewal multiple nor the prune interval can be below one |
| `Recovery.StoredBeforeSent` | src/worker.ts:640-672 | a single call's answer is stored, as sent, when its message goes out |
| `Recovery.LostReplyIsRebuilt` | src/liveness/wait_sweeper.ts:943-974 | the rebuilt reply equals the stored one in target, ids, status, content, data and payload, and in metadata up to the provenance keys |
| `StoredAnswers.DeliveryStores` | src/worker.ts:640-756 | a delivery stores its execution's reply if it sends one outside any group, and changes no other single call's stored answer, whatever its handler does |
| `StoredAnswers.AnswerStands` | src/worker.ts:722-756 | over every run a callee's stored answer stands until that callee returns again |
| `StoredAnswers.EveryLostReplyIsRebuilt` | src/liveness/wait_sweeper.ts:943-974 | over every run, the reply any delivery sent is rebuilt by any later sweep that finds the callee finished and the caller suspended, if the callee has not returned again |
| `Recovery.NoFabricatedSuccess` | src/liveness/wait_sweeper.ts:950-964 | without a stored answer the reply reports failure or cancellation |
| `Recovery.SweepLeavesTheGroupAlone` | src/liveness/wait_sweeper.ts:624-675 | a sweep of any due entry leaves a running group's accounts and claims as they are |
| `Recovery.MemberIsNotDropped` | src/liveness/wait_sweeper.ts:624-675 | an unanswered member of a running group is never dropped while its caller can wait |
| `Recovery.SilentEndIsReported` | src/liveness/wait_sweeper.ts:943-974 | a callee that ended without telling its caller is reported by the next sweep of that very wait, as cancelled or failed |
| `Pruning.PrunedSessionHasExpired` | src/liveness/wait_sweeper.ts:446-493 | over every history a pruned entry's session has expired, and an examination would say the caller is missing, unless the session was refreshed more than a day after the entry was last written |
| `Pruning.AliveMeansRefreshed` | src/registry.ts:399-451 | a session's records are there if and only if something was written to them within the time to live |
| `Pruning.RefreshedSessionLosesItsWait` | src/liveness/wait_sweeper.ts:480-493 | a session refreshed on the sixth day is alive when its wait is pruned after the eighth |
| `Pruning.SuspendedCallerLosesItsWait` | src/liveness/wait_sweeper.ts:480-493 | a store of such a session: its suspended caller still waits, and once pruned two copies of the reply pass of which the second was denied before |
| `Pruning.PruningForgetsALiveWait` | src/liveness/wait_sweeper.ts:480-493 | a pruned live wait, for a sub-task or the user, admits every copy of its reply if and only if the reply could clear no other known entry |
| `Renewal.CeilingNeverMoves` | src/liveness/wait_sweeper.ts:902-928 | over a run of sweeps the ceiling is, at every sweep, the first deadline plus the multiple's further timeouts, five minutes at least, an hour each where the records do not tell |
| `Renewal.RenewalsAreBounded` | src/liveness/wait_sweeper.ts:753-785 | at most as many renewals as five-minute increments fit into that allowance, rounded up |
| `Renewal.RunningChildIsRenewedExactly` | src/liveness/wait_sweeper.ts:753-785 | one sweep of any store, in plain numbers: a running sub-task is renewed if and only if its ceiling has not come, and failed otherwise |
| `Renewal.SpentBudgetTimesOut` | src/liveness/wait_sweeper.ts:753-785 | the same over every run of sweeps: renewed before the ceiling, timed out by the first sweep at or after it |
| `Renewal.RunningChildIsJudgedByTheCeiling` | src/liveness/wait_sweeper.ts:745-785 | the verdict, status and error code for a sub-task running on a live worker |
| `Renewal.PromptSweepsRenewExactly` | src/liveness/wait_sweeper.ts:753-785 | punctual sweeps renew exactly while an increment still starts inside the allowance |
| `Renewal.PromptSweepsRenewThisOften` | src/liveness/wait_sweeper.ts:753-785 | and therefore this often: once per visit until the increments have used the allowance up |
| `Renewal.ZeroDeadlineIsForgotten` | src/liveness/wait_sweeper.ts:916-928 | after a postponement the first deadline is read back if and only if it is not zero |
| `Renewal.ZeroDeadlineRestartsTheBudget` | src/liveness/wait_sweeper.ts:902-928 | with a deadline of zero every later sweep measures the ceiling from the score it finds |
| `Backlog.ExaminedExactlyWhenNear` | src/liveness/wait_sweeper.ts:503-511 | a due entry is in the batch if and only if fewer due entries than the limit are ahead of it |
| `Backlog.PassMovesItsBatch` | src/liveness/wait_sweeper.ts:495-528 | after a pass every entry of the batch is gone, due later, or a wait on the user |
| `Backlog.PassShrinksTheBacklog` | src/liveness/wait_sweeper.ts:495-528 | a pass that misses an entry shrinks what is ahead of it by at least what its batch does not spend on users |
| `Backlog.NothingOvertakes` | src/liveness/wait_registration.ts:51-58 | between passes registrations, claims and removals put nothing ahead of a due entry |
| `Backlog.ExaminedInTime` | src/liveness/wait_sweeper.ts:495-528 | with r due entries ahead, a below 200 of them on users, an entry is examined within (r-a)/(200-a)+1 passes |
| `Backlog.AskUserWaitsStarve` | src/liveness/wait_sweeper.ts:590-598 | a whole batch of unanswered waits on users ahead of an entry keeps every pass from it |
| `Chain.UpperWaitIsPostponed` | src/liveness/wait_sweeper.ts:722-736 | in a chain every wait but the deepest is only postponed |
| `Chain.DeepestWaitIsAnswered` | src/liveness/wait_sweeper.ts:706-794 | the deepest wait, over a leaf that will not answer, gets a reply that clears it |
| `Chain.SweepsSpeakForTheDeepestWait` | src/liveness/wait_sweeper.ts:495-794 | a whole batch keeps every level waiting, speaks to none but the deepest, and to it if its entry is in the batch |
| `Chain.DeliveryFinishesTheLevel` | src/runner.ts:689-950 | the delivered reply is admitted, and once the handler finishes its level is terminal, the levels above still wait and all other records stand |
| `Chain.ChainResolvesUpwards` | src/liveness/wait_sweeper.ts:722-736 | at every point of every run of passes, late or repeated deliveries and anything else: as many of the lowest callers as were woken are over, all of them, and the rest of the chain still waits |
| `Chain.FailuresComeFromBelow` | src/liveness/wait_sweeper.ts:495-794 | in every run no pass speaks to a level above the deepest that waits, and one that reaches the deepest leaves a message for it |
| `Chain.RootResolves` | src/liveness/wait_sweeper.ts:722-736 | in every run the root is over as soon as as many levels were woken as the chain has waits |
| `Chain.OtherMessagesLeaveTheChain` | src/runner.ts:689-950 | a message for any execution outside the chain, whatever its handler does, is one of the steps such a run may take |
| `Chain.SomeWake` | src/liveness/wait_sweeper.ts:495-528 | after any pass that reached the deepest entry the delivery that wakes its caller can follow, and moves no deadline |
| `Chain.SomeRunResolvesTheRoot` | src/liveness/wait_sweeper.ts:495-794 | for a chain of any depth and an index of any size there is a run of passes and deliveries, in order of time, that ends with the root terminal, within depth * (size / room + 2) steps, where room is what waits on users leave of a batch |
| `Cancellation.BuildChildrenMap` | src/client.ts:402-413 | the map lists, under each message id, exactly the executions naming it as parent |
| `Cancellation.CollectDescendants` | src/client.ts:415-434 | the walk ends and its two lists hold every descendant-or-self exactly once, split by terminal status |
| `Cancellation.WalkEndsExactly` | src/client.ts:415-434 | the walk ends if and only if parent links do not lead from the target back to itself |
| `Cancellation.SelfParentNeverEnds` | src/client.ts:415-434 | an execution that names itself as its parent keeps the queue full after any number of turns |
| `Cancellation.StoppedHasSeenAll` | src/client.ts:415-434 | a stopped walk has seen the descendants of the target and nothing else |
| `Cancellation.SessionRegistry.GetAllSessionExecutions` | src/registry.ts:474-490 | every record of the session is listed once, in some order |
| `Cancellation.SessionRegistry.MarkCancelRequested` | src/registry.ts:496-516 | cancellation is noted, an empty reason changes nothing, the status stands |
| `Cancellation.SessionRegistry.MarkExecutionCancelling` | src/registry.ts:566-587 | the one execution becomes cancelling with the reason |
| `Cancellation.GatewayClient.MarkFinished` | src/client.ts:436-444 | exactly the finished descendants are noted |
| `Cancellation.GatewayClient.CancelUnfinished` | src/client.ts:459-491 | exactly the unfinished ones are marked and counted, and each that has a worker is ordered to stop by exactly one order to it |
| `Cancellation.GatewayClient.CancelTask` | src/client.ts:363-494 | every case of a cancellation: not found, other session, all finished, or the whole family marked with the reason and counted, one order to the worker of each live member that has one, nobody else touched or ordered |
| `Cancellation.MarksExactlyTheFamily` | src/client.ts:436-491 | descendants and only they are marked, with the reason; terminal statuses stand |
| `Cancellation.MarkingKeepsTheTree` | src/registry.ts:496-587 | marking changes no link, so a second cancellation meets the same executions |
| `Cancellation.FinishedStatusStandsExactly` | src/client.ts:371-427 | of the descendants a sweep calls finished, exactly those with an undecorated status keep it |
| `Cancellation.DecoratedStatusIsOverwritten` | src/client.ts:371-427 | the status of an aborted group is overwritten |
| `Health.StateFollowsHistory` | src/runner.ts:358-394 | the stored state is a function of the whole history: fatal exactly after a fence or an unhealthy check 120 s into its spell, else degraded exactly while one of the last three checks was unhealthy |
| `Health.SpellsStartAndEnd` | src/runner.ts:367-392 | a spell starts at an unhealthy check and ends only with three healthy ones in a row |
| `Health.FatalIsAbsorbing` | src/runner.ts:359 | nothing leads out of fatal |
| `Health.StuckRunnerGoesFatal` | src/runner.ts:358-394 | a runner that stays unhealthy is fatal two minutes later at the latest, whatever came before |
| `Health.SignalsLast` | src/runner.ts:329-344 | a stale renewal and a stalled consumer stay so until the next renewal or tick; a renewal is stale exactly beyond four fifths of the lease |
| `Health.RunnerHealth.Probe` | src/runner.ts:294-303 | the peak is the larger of the old peak and the new sample |
| `Health.RunnerHealth.IsHealthy` | src/runner.ts:329-344 | healthy if and only if renewal is fresh or never happened, the loop lag is at most five seconds, and the consumer ticks, never ticked, or has no room |
| `Health.RunnerHealth.EvaluateHealth` | src/runner.ts:358-394 | the check joins the history, the state follows it, and renewal is refused exactly when the history is fatal |
| `Health.RunnerHealth.OnFenced` | src/runner.ts:461-467 | a fence is fatal and stops the runner |
| `Lease.RenewalMeansOwnership` | src/registry.ts:183-209 | a token holder renews exactly when nobody else holds the lease, and then holds it |
| `Lease.StaleTokenChangesNothing` | src/registry.ts:183-397 | no method called with a stale token overwrites or deletes the lease |
| `Lease.InactiveEvictsExactly` | src/registry.ts:222-231 | a foreign lease is removed exactly when the caller has no token to compare |
| `Lease.AnswersAreTrue` | src/registry.ts:183-397 | for each registry method exactly when it succeeds, and what it leaves of the lease either way |
| `Lease.ClaimantKeepsTheLease` | src/registry.ts:183-397 | a claimant renews as often as it likes and everybody else is refused until it releases, after which it has no token and the id is free |
| `Lease.OnlyTheHolderRenews` | src/registry.ts:183-209 | in every run a successful renewal by a token holder leaves that process, and only it, holding the lease |
| `Lease.LeaseChangesHandsOnlyWhenGivenUp` | src/registry.ts:183-397 | between two holders lie an expiry, the first one's own release, or a removal by a process without a token |
| `Lease.ForgottenTokenEvictsTheSuccessor` | src/registry.ts:222-231 | a process that has released its id can still remove its successor's lease |
| `Lease.WorkerRegistry.ClaimWorkerId` | src/registry.ts:351-368 | a free id is claimed under the new token, a held one refused |
| `Lease.WorkerRegistry.HeartbeatWorker` | src/registry.ts:183-212 | the lease and the answer of every case of a heartbeat, other ids untouched |
| `Lease.WorkerRegistry.RefreshWorkerIdLock` | src/registry.ts:370-380 | true exactly for the stored token |
| `Lease.WorkerRegistry.ReleaseWorkerId` | src/registry.ts:382-393 | only the holder deletes its lease, and then forgets its token |
| `Lease.WorkerRegistry.MarkWorkerInactive` | src/registry.ts:222-231 | the lease is removed unless a token was expected and differs |
| `Lease.WorkerHeartbeat.RenewLease` | src/heartbeat.ts:139-166 | an attempt is renewed, fenced or failed as the registry answered, the runner is told, and a fence silences every timer |
| `Lease.WorkerHeartbeat.NoteFailure` | src/heartbeat.ts:176-185 | only the first failure in a row arms the one retry, and only while the interval is set |
| `Lease.WorkerHeartbeat.RetryFires` | src/heartbeat.ts:180-183 | the retry is spent before the attempt it makes |
| `Lease.WorkerHeartbeat.Tick` | src/heartbeat.ts:188-206 | a cycle the runner's health refuses stops heartbeat and runner and leaves the lease alone; any other makes one attempt |
| `Lease.WorkerHeartbeat.Start` | src/heartbeat.ts:83-117 | a first attempt that is fenced sets no interval, and a second start does nothing |
| `Lease.WorkerHeartbeat.Stop` | src/heartbeat.ts:119-129 | no timer is left |
| `Lease.StreakLength` | src/heartbeat.ts:139-166 | the failure count is the number of failures since the last success, whatever fences came between |
| `RedisPassword.ModPow` | src/redis_password.ts:91-103 | base to the exponent modulo any modulus above one, for every exponent; and what a modulus of one gives |
| `RedisPassword.TurnKeepsThePower` | src/redis_password.ts:95-101 | one turn of square and multiply keeps the power it stands for |
| `RedisPassword.AsciiToBcd` | src/redis_password.ts:105-119 | pairs of characters become bytes, an odd length is refused |
| `RedisPassword.ReadingInvertsSpelling` | src/redis_password.ts:105-132 | reading inverts hexadecimal spelling with digits of either case |
| `RedisPassword.DigitsSpellWhatIsRead` | src/redis_password.ts:105-132 | a text of hexadecimal digits spells what is read from it |
| `RedisPassword.ColonReadsAsTen` | src/redis_password.ts:121-132 | a character that is no digit is read rather than refused |
| `RedisPassword.OthersReadAsOffsets` | src/redis_password.ts:121-132 | every character that is no hexadecimal digit reads as its offset from zero's, modulo a byte |
| `RedisPassword.SplitArray` | src/redis_password.ts:134-143 | the loop yields the blocks, the last one padded |
| `RedisPassword.BlocksHoldTheData` | src/redis_password.ts:134-143 | blocks have one size and hold the data followed by fewer zeros than a block |
| `RedisPassword.SplittingUndoesJoining` | src/redis_password.ts:134-143 | splitting joined blocks gives them back |
| `RedisPassword.UnpadAcceptsExactlyEncodings` | src/redis_password.ts:81-88 | unpadding accepts exactly the encodings of section 7.2.2 of RFC 8017 and returns their message |
| `RedisPassword.RsaDecryptBlock` | src/redis_password.ts:75-89 | one block: refused from the modulus on, else raised and unpadded |
| `RedisPassword.BlockIsRecovered` | src/redis_password.ts:75-89 | a block encrypted under the inverse of the private exponent gives its message back |
| `RedisPassword.BlockDecryptsExactly` | src/redis_password.ts:75-89 | a block gives a message if and only if it is a number below the modulus whose power encodes that message |
| `RedisPassword.BlocksDecryptExactly` | src/redis_password.ts:52-69 | a sequence of blocks gives a sequence of messages if and only if each block gives its own |
| `RedisPassword.DecryptBlocks` | src/redis_password.ts:57-62 | all blocks' texts in order, or a failure if any block fails |
| `RedisPassword.Decrypt` | src/redis_password.ts:52-69 | every message encrypted block by block and written in hexadecimal comes back; odd lengths and failing blocks fail the whole |

## Left out

- Redis transport, stream reading and acknowledgement, timers and async scheduling: only the state effects of the commands remain.
- Redelivery by the stream itself appears as a message that is delivered again; reclaiming orphaned stream entries and failing Redis writes (the gate's error branch, retries of XADD, fail-soft registration) are not modelled.
- Expiry of markers, trackers, renewal origins and session records, apart from the statements that name a missing key.
- Aborted fan-outs enter only through the tracker's flag; the code that sets it is not modelled.
- TaskGroup.AccountsBalance: the members are leaves, because a member's own call from its first run counts in the group (`TaskGroup.InnerReplyCountsOutsideExactly`); caller workers do not die between claim and join, and the caller is not being cancelled, because the claim then outlives a reply that was never counted.
- TaskGroup.CallerWakesOnce: under the same three conditions.
- Chain.ChainResolvesUpwards: the waits of the chain belong to no Task Group, whose joins end a caller at the total only, and its leaf is gone rather than overdue on a live worker, whose end is `Renewal.SpentBudgetTimesOut`.
- Chain.RootResolves: the same; that enough levels get woken is not promised of every run, which may stop sweeping or delivering, but that some run does so is `Chain.SomeRunResolvesTheRoot`.
- Chain.SomeRunResolvesTheRoot: fewer than 200 waits on users fall due before the chain is resolved, as with 200 ahead no pass reaches its entry (`Backlog.AskUserWaitsStarve`); every pass wins the lock.
- StoredAnswers.AnswerStands: results do not expire within the run, and no message names a Task Group spelt like a single call's, as minted group ids are not.
- CallTree.RunsStayFaithful: a client dispatch with an explicit source agent type, and the client's resume that re-initializes a record it rejects, are not events of these runs; a client root's metadata is recorded only once its own dispatch has begun.
- Backlog.ExaminedInTime: every pass wins the lock of the shard, timeouts are positive, and only sweeps postpone.
- Lease.LeaseChangesHandsOnlyWhenGivenUp: registry methods are atomic; the original reads and writes in separate commands. IP addresses, TTL lengths and legacy encodings are not represented beyond an absent token.
- RedisPassword.Decrypt: bytes instead of text; UTF-8 decoding is a parameter, applied block by block as in the original, and the key is a parameter with the inversion of its exponent as hypothesis.
- Cancellation.CollectDescendants: message ids are distinct within the session, as the ids are minted, and no parent links lead from the target back to itself, where the original does not end (`Cancellation.WalkEndsExactly`).
- Cancellation.GatewayClient.CancelTask: the same two conditions.
- Sweeper.WaitIndexSweeper.SweepShard: whether the lock is won is a parameter; its release and the branch for failing Redis commands are not modelled.
- Sweeper.WaitIndexSweeper.constructor: the lock's time to live, the shard cursor and the environment defaults are not modelled.
- Lease.WorkerHeartbeat.Start: the administrative lifecycle and the membership sets, read and written around the first attempt, are not modelled.
- Lease.WorkerHeartbeat.Tick: nor are they after an attempt that renewed.
- Pruning.PrunedSessionHasExpired: one expiry per session and one clock; that an expired session's records do not come back with a later write is not needed for it.
- Effects of the cancellation a sweep requests for an overdue sub-task: the request is recorded in `Store.Db.cancels`, what it does is the Cancellation module.
- `collectGroupResults`, which re-reads results by polling and is not part of the join.
- `cancelSession`, the same marks over all records instead of a walk, and the header details of cancel commands.
- The shard hash of the wait index, and the SHA-1 digests that name markers and renewal origins, taken as injective.
- The reattach guards of `sendMessage` and `sendCommand`, the availability router, interceptors, discovery and HTTP clients.
- `src/processor.ts`, a second entry point with the same gate and reply rules and no join.
- Events, tracing, history storage, plugins, workspaces, file stores and environment parsing.
- JSON encoding, floating point: the staleness ratio 0.8 is compared as four fifths in integers.
