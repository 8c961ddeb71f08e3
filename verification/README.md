# The dora coordinator/daemon control protocol, modelled and proved in Dafny

dora runs dataflows over several machines. A *coordinator* keeps the state of
every dataflow and a small persistent store; a *daemon* on each machine starts
the nodes placed there and hands them events. This project models the parts of
that control plane where the two sides must agree although messages get lost,
arrive twice or arrive late, and proves what holds in every run. Where
something one would expect does not hold, the code is kept as it is, a concrete
run shows the failure, and the condition under which the code does meet it is
proved.

`dafny verify dfyconfig.toml` checks everything.

## The components

- **State catch-up** (`ParamLog`, `StateLog`, `CatchUp`, `CatchUpRuns`,
  `CatchUpTheorems`, `CatchUpCredit`, `CatchUpReplay`, `CatchUpReach`,
  `CatchUpDivergence`). Every parameter change is persisted, appended to a
  numbered log and forwarded. A daemon that reports back is sent the log entries
  it has not acknowledged, or, when the log no longer reaches back far enough,
  all persisted parameters. The protocol is a state machine over the
  coordinator's record, the store, the per-daemon queues in both directions and
  each daemon's view, with loss of any message, partial application and late
  arrival of anything the coordinator gave up waiting for. A view *agrees from*
  an operation if every key of the daemon's nodes that nothing later writes has
  its last value. A daemon's *credit* is the highest number the coordinator has
  heard or will hear from it; the credit is true when the view agrees from it.
  Its *level*, kept for the proof only, is an operation its view is shown to
  agree from in every run.
- **Parameter store** (`ParamStore`). The ordered map behind the store, the
  range scan that lists one node's parameters, and the collection of what a
  full replay sends.
- **Startup barrier** (`PendingNodes`, `StartupBarrier`, `BarrierTheorems`,
  `BarrierAnswer`, `BarrierStranding`, `BarrierTrace`). Subscribers on every daemon wait until all nodes on all
  daemons are ready. Two levels: local lists at the daemons, one list of
  outstanding daemons at the coordinator.
- **Persisted lifecycle** (`Lifecycle`) of dataflows over coordinator restarts,
  failed writes, status reports and recovery timeouts.
- **Waiters** (`Waiters`): who asked to be told about a dataflow, and was.
- **Side cores**: connection rate limit (`RateLimiter`), node event channel
  (`NodeChannel`), lazily evicted ROS2 service requests (`ServiceServer`),
  request matching in the CLI (`CliSession`), log rotation (`LogRotation`),
  message framing (`Framing`). `Common` holds shared notions.

Objects the code updates in place are classes whose methods are proved against
specification functions (`RunningDataflow`, `PendingNodes`,
`CascadingErrorCauses`, `InMemoryStore`, `Coordinator`, `ResultCell`,
`IpRateLimiter`, `Channel`, `Server`, `Session`, `LogFiles`, `Connection`); the
state machines and the theorems over runs use those functions.

## Assumption about status reports

The coordinator acts on the dataflows a daemon lists in its status report. The
daemon in this repository sends one report per connection
(binaries/daemon/src/lib.rs:876-905), when its list of running dataflows has just
been created empty (binaries/daemon/src/lib.rs:816), so it never triggers
catch-up, the full replay or the reconciliation of a record. The model allows a
report of any dataflow at any time. The results about every run therefore cover
this daemon too. The runs `RepeatedDeltaDiverges`, `DeletedKeySurvivesReplay`,
`EmptyReplayOvertakes` and `GenerationRepeats`, and the "can" half of
`CatchUpReachExact`, are about a daemon that reports the dataflows it still runs
when it reconnects, which is what the coordinator is written for.

## Where the code differs from what one would expect

- *A daemon credited with everything may still be wrong.* A delta sent again
  after a reconnect, whose second copy is taken only in part, winds a parameter
  back, and the smaller acknowledgement is discarded because acknowledgements
  never decrease (`RepeatedDeltaDiverges`). From true credit, a step keeps all
  credit true if and only if it is orderly (`OrderlyStepExact`), and a run has
  true credit throughout if and only if all its steps are (`OrderlyRunExact`). A
  delivery is orderly if and only if it winds no key back from the credit
  (`OrderlyDeliveryExact`).
- *A full replay never replays deletions* (`DeletedKeySurvivesReplay`), and with
  nothing persisted it sends nothing and still credits the daemon, overtaking
  changes on their way (`EmptyReplayOvertakes`). The daemon ends up equal to the
  store, whatever becomes of what is still queued, if and only if it held no
  deleted key and nothing queued can set a parameter of its nodes
  (`CompleteReplayExact`).
- *The delta is not filtered by daemon* while a daemon stops at the first node
  it does not run (`ForeignChangeBlocks`). From a quiet state catch-up alone can
  bring a daemon to an operation if and only if the daemon takes part, is at most
  10 000 behind, and no operation on another daemon's node lies in between
  (`CatchUpReachExact`).
- *A node that subscribes late* to a dataflow on several daemons may wait for
  ever (`RestartedNodeIsStranded`). A waiting request can still be answered if
  and only if its daemon runs the dataflow and a release is queued for it or can
  still be caused by some report (`AnswerExact`).
- *`Stop` on a partly finished dataflow* is answered "stopped" at once, and the
  other daemons keep running it (`StopLeavesDaemonRunning`). A caller is told so
  while a daemon remains if and only if it asks after some daemon finished and
  before the last did (`StoppedTooSoonExact`).
- *The generation* is documented as bumped on every persist. It never decreases,
  and the next write repeats it if and only if the last record built was saved
  and a status report has since moved it from Pending or Failed to Running
  (`PersistStrictExact`, `GenerationRepeats`).
- *When the watchdog drops a dataflow's last daemon* the dataflow stays, and
  whoever waits for it waits on (`WatchdogLeavesCallerWaiting`). A caller of
  `Stop` that waits is still waiting after a run if and only if no step of the run
  is a restart or a finish report with which all daemons have finished or been
  dropped (`StopCallerExact`); without daemons, any finish report or a restart
  (`WithoutDaemonsExact`). A restart does answer: the dropped reply channel turns
  into an error for everybody waiting (`DroppedExact`), so once a dataflow is gone
  every request was answered exactly once (`AllAnsweredOnce`).
- *A dataflow that left memory*, by its own restart or the coordinator's, cannot
  be recorded as succeeded (`OutlivedCannotSucceed`). It can if and only if it is
  already, is in memory, or has not been started (`SuccessExact`).
- *The rate limit of 20 per fixed minute* admits up to 39 in some sliding
  minute, and never 40 (`SlidingWindowBound`, `BoundIsReached`).
- *The control headroom* is documented as 50 slots and is 49
  (`ControlRefusedOnlyBehindControl`, `HeadroomIsFortyNine`).

## Model

| member | source | states |
|---|---|---|
| ParamLog.FoldConcat | binaries/coordinator/src/lib.rs:1173-1293 | applying operations in two portions is applying them all |
| ParamLog.CatchUpConverges | binaries/coordinator/src/lib.rs:2085-2116 | a view that agrees with the history on every key not touched after `a` (touched keys may hold anything) equals the fold of the whole history once the entries after `a` are applied |
| ParamLog.AgreesAfterDelivery | binaries/daemon/src/lib.rs:3815-3906 | applying operations a+1..m, whatever part of them was applied before, leaves agreement from m |
| ParamLog.AgreesAfterLate | binaries/daemon/src/lib.rs:202-221 | an operation newer than the level may arrive at any time, any number of times, without costing agreement |
| ParamLog.AgreesAfterRestore | binaries/coordinator/src/lib.rs:2772-2800 | so may a replayed value, even long after the replay gave up on it |
| ParamLog.RedeliveryExact | binaries/daemon/src/lib.rs:3815-3906 | a redelivery that stops short of the level keeps it if and only if no settled key is wound back |
| StateLog.RunningDataflow.constructor | binaries/coordinator/src/handlers.rs:598-628 | a started dataflow has an empty log, number 0, and every daemon acknowledged at 0 |
| StateLog.RunningDataflow.AppendStateLog | binaries/coordinator/src/state.rs:290-305 | appends the next number, keeps the newest 10 000, and the log remains the tail of the history |
| StateLog.RunningDataflow.SmallestAck | binaries/coordinator/src/state.rs:309-314 | the loop finds the smallest acknowledgement, 0 when nobody is tracked |
| StateLog.RunningDataflow.PruneStateLog | binaries/coordinator/src/state.rs:308-316 | drops the entries everyone acknowledged and keeps the log invariant |
| StateLog.RunningDataflow.HandleStateCatchUpAck | binaries/coordinator/src/lib.rs:2138-2157 | ignores strangers, never lowers an acknowledgement nor lets it pass the log's number, prunes |
| StateLog.AppendKeeps | binaries/coordinator/src/state.rs:290-305 | after an append the log is still the contiguous tail ending at the current number, and what it dropped was acknowledged by all or pushed out by the cap |
| StateLog.PruneKeeps | binaries/coordinator/src/state.rs:308-316 | the same after pruning |
| StateLog.AcknowledgeKeeps | binaries/coordinator/src/lib.rs:2150-2154 | the same after any acknowledgement, genuine or not, and no acknowledgement decreases |
| StateLog.FullyReplayedKeeps | binaries/coordinator/src/lib.rs:2586-2596 | the same when a full replay moves one acknowledgement to the end without pruning |
| StateLog.LeaveKeeps | binaries/coordinator/src/lib.rs:1683-1688 | the same when daemons leave the dataflow but stay in the acknowledgement map |
| StateLog.NewerOfEntries | binaries/coordinator/src/state.rs:329-336 | the filter by number of a contiguous log is its suffix |
| StateLog.DeltaExact | binaries/coordinator/src/state.rs:321-337 | the delta is refused if and only if the daemon is more than 10 000 operations behind, and otherwise is exactly entries ack+1..current |
| StateLog.EmptyLogMeansCaughtUp | binaries/coordinator/src/state.rs:322-324 | the empty-log answer is given only when every tracked daemon acknowledged everything |
| StateLog.PruneTakesOnlyAcknowledged | binaries/coordinator/src/state.rs:308-316 | pruning never takes an entry some tracked daemon has not acknowledged |
| StateLog.PruneExact | binaries/coordinator/src/state.rs:308-316 | pruning leaves exactly the entries numbered above the smallest acknowledgement and changes nothing else |
| StateLog.AppendExact | binaries/coordinator/src/state.rs:290-305 | an append adds the next number and takes away exactly the entries 10 000 or more operations old |
| StateLog.CaughtUpEmptiesLog | binaries/coordinator/src/lib.rs:2150-2155 | an acknowledgement with which every tracked daemon stands at the end empties the log |
| CatchUp.Deliverable | binaries/daemon/src/lib.rs:3822-3900 | the handed-over prefix: all of it had an open channel with room, and the next entry did not |
| CatchUp.ApplyStateCatchUpEntries | binaries/daemon/src/lib.rs:3815-3906 | the loop applies exactly that prefix and returns the number of its last entry, 0 for none |
| CatchUp.DeliverParamUpdate | binaries/daemon/src/lib.rs:202-221 | a single change succeeds if and only if its node has a channel with room; then exactly its key takes the new value or loses its own, else nothing changes |
| CatchUp.ReplayPersistedParams | binaries/coordinator/src/lib.rs:2745-2830 | the replay loop attempts every item, counts as failed all but the confirmed, and leaves the view that results from the applied ones |
| CatchUp.ReplayedKey | binaries/coordinator/src/lib.rs:2766-2827 | replaying changes a key only to its persisted value, and does so when the item was applied |
| CatchUp.ReplayExact | binaries/coordinator/src/lib.rs:2583-2596 | without failures every persisted key of the nodes agrees with the store; all their keys do if and only if the daemon held no deleted one |
| CatchUp.ReplayKeepsLevel | binaries/coordinator/src/lib.rs:2745-2830 | a replay, however it goes, costs no agreement already there |
| CatchUpRuns.PeerAfterAppend | binaries/coordinator/src/lib.rs:1185-1228 | one daemon's invariant (its view agrees from its level, queued messages are in order) survives a parameter change, forwarded or not |
| CatchUpRuns.PeerAfterLive | binaries/daemon/src/lib.rs:202-221 | it survives the arrival of a single change, accepted or refused |
| CatchUpRuns.PeerAfterReport | binaries/coordinator/src/lib.rs:2085-2116 | it survives queuing a delta |
| CatchUpRuns.PeerAfterCatchUp | binaries/daemon/src/lib.rs:1870-1912 | it survives a delivery that stops anywhere |
| CatchUpRuns.PeerAfterReplay | binaries/coordinator/src/lib.rs:2537-2606 | it survives a full replay with any outcome, part of it still on its way |
| CatchUpRuns.HandoverExact | binaries/daemon/src/lib.rs:3815-3906 | handing a+1..m over leaves agreement from the higher of the old level and m if and only if no key is wound back |
| CatchUpRuns.StepKeeps | binaries/coordinator/src/lib.rs:2085-2157 | every step of the protocol keeps the system invariant |
| CatchUpRuns.RunKeeps | binaries/coordinator/src/lib.rs:2085-2157 | every run keeps it |
| CatchUpTheorems.EveryRun | binaries/coordinator/src/state.rs:286-337 | in every run the store is the fold of the history, the fallback is chosen if and only if the daemon is more than 10 000 behind, every delta is exactly what is missing, and every view agrees from its level |
| CatchUpTheorems.AcksNeverDecrease | binaries/coordinator/src/lib.rs:2150-2154 | no step takes an acknowledgement back or past the log's number |
| CatchUpTheorems.AcksOverRun | binaries/coordinator/src/lib.rs:2138-2157 | over every run an acknowledgement never decreases and never exceeds the log's number |
| CatchUpTheorems.LastAckEmptiesLog | binaries/coordinator/src/lib.rs:2138-2157 | in every run the acknowledgement with which every tracked daemon stands at the end leaves the log empty |
| CatchUpTheorems.ForwardExact | binaries/coordinator/src/lib.rs:1173-1293 | a change is forwarded to its node's daemon and no other, and touches no view by itself |
| CatchUpTheorems.AckExact | binaries/coordinator/src/lib.rs:2138-2157 | a received acknowledgement counts for its daemon only, up to the log's number, never downwards, and not at all once the daemon has left |
| CatchUpTheorems.ChangeIsAStep | binaries/daemon/src/lib.rs:202-221 | a single change taken off the queue gives its key the new value, or none for a deletion, if accepted, and changes nothing else |
| CatchUpTheorems.PacedKept | binaries/coordinator/src/lib.rs:2085-2116 | every acknowledgement on its way lies within the history and every catch-up on its way begins with an operation unacknowledged when it was sent |
| CatchUpCredit.StepExact | binaries/coordinator/src/lib.rs:2085-2157 | for one daemon with true credit: any step, its own or another's, keeps the credit true if and only if it is orderly or about another daemon |
| CatchUpCredit.OrderlyStepExact | binaries/coordinator/src/lib.rs:2085-2157 | from true credit of all daemons, a step keeps all credit true if and only if it is orderly |
| CatchUpCredit.OrderlyRunExact | binaries/coordinator/src/lib.rs:2085-2157 | for every run: all credit is true at every moment if and only if every step is orderly |
| CatchUpCredit.OrderlyRunConverges | binaries/coordinator/src/lib.rs:2085-2157 | in every run a daemon the coordinator takes to be up to date holds exactly the persisted parameters of its nodes if and only if its credit is true, and in orderly runs it is |
| CatchUpCredit.FullCreditExact | binaries/coordinator/src/lib.rs:2089-2092 | a daemon acknowledged to the end is credited truthfully if and only if it equals the store on its nodes |
| CatchUpCredit.OrderlyDeliveryExact | binaries/daemon/src/lib.rs:1870-1912 | a delivery, acknowledged or not, keeps a daemon's credit true if and only if it winds no key back from what the coordinator has heard or will hear |
| CatchUpCredit.ChangeStepExact | binaries/daemon/src/lib.rs:202-221 | a single change that arrives keeps the credit true if and only if it does not put an older value on a key nothing after the credit writes |
| CatchUpCredit.OrderlyReplayExact | binaries/coordinator/src/lib.rs:2583-2596 | a complete replay credits everything; the daemon then equals the store if and only if it held no deleted key |
| CatchUpCredit.ReplayStepExact | binaries/coordinator/src/lib.rs:2537-2606 | a replay with any outcome keeps the credit true if and only if it is not complete or the daemon held no deleted key |
| CatchUpReplay.CompleteReplayExact | binaries/coordinator/src/lib.rs:2745-2757 | after a complete replay every way of taking, refusing or losing what is queued leaves the daemon equal to the store if and only if it held no deleted key and nothing queued, catch-up entries included, can set a parameter of its nodes |
| CatchUpReplay.HarmlessStaysRight | binaries/daemon/src/lib.rs:3815-3906 | a daemon and a store without parameters for its nodes stay equal under every handling of a queue that can set none |
| CatchUpReplay.LateItemArrives | binaries/coordinator/src/lib.rs:2783-2795 | after a replay none of whose items was answered every persisted value can still reach the daemon |
| CatchUpTheorems.LoopIsAStep | binaries/daemon/src/lib.rs:1870-1912 | whatever channels are open and have room, the daemon's loop is a delivery step of the protocol: the step's view is the loop's, and it acknowledges the loop's result unless that is 0 |
| CatchUpTheorems.StepIsALoop | binaries/daemon/src/lib.rs:3815-3906 | every delivery step is what the loop does for some channel room |
| CatchUpReach.DeliveryStopsAt | binaries/daemon/src/lib.rs:3822-3837 | no delivery reaches an operation on another daemon's node |
| CatchUpReach.CatchUpStopsAtForeignOp | binaries/coordinator/src/state.rs:321-337 | in every run without a full replay to the daemon, its acknowledgement stays below the first operation on another daemon's node |
| CatchUpReach.WithinReach | binaries/coordinator/src/lib.rs:2085-2157 | report, delivery and acknowledgement bring a quiet daemon to exactly any operation within reach |
| CatchUpReach.CatchUpReachExact | binaries/coordinator/src/lib.rs:2085-2157 | from a quiet state some continuation without a full replay brings the acknowledgement to an operation if and only if the daemon takes part, is at most 10 000 behind and only its own operations lie up to there |
| CatchUpReach.LeaveStopsCatchUp | binaries/coordinator/src/lib.rs:1683-1688 | a daemon that left the dataflow is brought no further by catch-up |
| CatchUpDivergence.RepeatedDeltaDiverges | binaries/coordinator/src/lib.rs:2150-2154 | a run that ends quiet, fully acknowledged and wrong: the delta is sent again after a reconnect, before the first acknowledgement is heard, and taken in part |
| CatchUpDivergence.DeletedKeySurvivesReplay | binaries/coordinator/src/lib.rs:2583-2596 | another: a deletion lost from the log, then a successful full replay |
| CatchUpDivergence.EmptyReplayOvertakes | binaries/coordinator/src/lib.rs:2753-2758 | another: an empty full replay credited while a change is still on its way |
| CatchUpDivergence.ForeignChangeBlocks | binaries/daemon/src/lib.rs:3830-3837 | a run on two daemons in which catch-up cannot bring a daemon to its own operation, however it goes on |
| ParamStore.TextOrder | libraries/coordinator-store/src/in_memory.rs:208-209 | byte-wise text order is strict and total, so the empty name comes first |
| ParamStore.TextLessMeans | libraries/coordinator-store/src/in_memory.rs:208-209 | the order is alphabetical: a proper prefix first, else the first difference decides |
| ParamStore.InsertCorrect | libraries/coordinator-store/src/in_memory.rs:165-182 | inserting keeps key order and changes exactly one key of the map |
| ParamStore.RemoveCorrect | libraries/coordinator-store/src/in_memory.rs:218-225 | removing keeps key order and removes exactly that key |
| ParamStore.ScanExact | libraries/coordinator-store/src/in_memory.rs:208-215 | the range scan that stops at the first foreign row returns exactly the filter of all rows by dataflow and node, for every content |
| ParamStore.ListingIsTheMap | libraries/coordinator-store/src/in_memory.rs:199-216 | a name and value are listed if and only if the map holds them |
| ParamStore.ListingAscends | libraries/coordinator-store/src/in_memory.rs:199-216 | names come out strictly ascending, so never twice |
| ParamStore.InMemoryStore.PutNodeParam | libraries/coordinator-store/src/in_memory.rs:165-182 | rejects names over 256 or values over 65 536 bytes leaving the map alone, otherwise sets exactly the key |
| ParamStore.InMemoryStore.DeleteNodeParam | libraries/coordinator-store/src/in_memory.rs:218-225 | removes exactly the key, present or not |
| ParamStore.CollectParamReplayItems | binaries/coordinator/src/lib.rs:2608-2633 | the collected items are all persisted parameters of the daemon's nodes and nothing else |
| PendingNodes.CascadingErrorCauses.ReportCascadingError | binaries/daemon/src/fault_tolerance.rs:47-49 | the first cause recorded for a node stays |
| PendingNodes.PendingNodes.AnswerSubscribeRequests | binaries/daemon/src/pending.rs:170-200 | every waiting subscriber is answered once with one verdict, local causes first, and exactly the failed ones get a cause recorded |
| PendingNodes.PendingNodes.UpdateDataflowStatus | binaries/daemon/src/pending.rs:145-168 | nothing while local nodes are pending; then answers, or one report to the coordinator, retried only if it could not be sent |
| PendingNodes.PendingNodes.HandleNodeSubscription | binaries/daemon/src/pending.rs:66-81 | the node waits for its reply and is no longer pending, then the status update |
| PendingNodes.PendingNodes.HandleNodeStop | binaries/daemon/src/pending.rs:83-105 | only a node still pending counts as an early exit |
| PendingNodes.PendingNodes.HandleDataflowStop | binaries/daemon/src/pending.rs:107-124 | the loop with an update per removed node acts as one withdrawal of all dynamic nodes followed by one update |
| PendingNodes.PendingNodes.HandleExternalAllNodesReady | binaries/daemon/src/pending.rs:126-143 | answers all with the verdict from local and reported early exits |
| StartupBarrier.AfterUpdate | binaries/daemon/src/pending.rs:145-168 | a local event keeps the daemon's invariant |
| StartupBarrier.AfterRelease | binaries/daemon/src/lib.rs:1294-1331 | so does the arrival of a release |
| StartupBarrier.AfterReportCounted | binaries/coordinator/src/lib.rs:402-441 | counting one daemon's report, and releasing when it was the last, keeps every daemon's invariant |
| StartupBarrier.AfterMembersShrink | binaries/coordinator/src/lib.rs:1683-1688 | so does the watchdog dropping daemons |
| BarrierTheorems.StepKeeps | binaries/coordinator/src/lib.rs:402-480 | every step keeps the barrier's invariant |
| BarrierTheorems.RunKeeps | binaries/coordinator/src/lib.rs:402-480 | every run keeps it |
| BarrierTheorems.BarrierSafety | binaries/daemon/src/pending.rs:66-168 | in every run, once any subscriber anywhere is answered, no daemon still in the dataflow has a local node pending |
| BarrierTheorems.ReleaseFindsNodesReady | binaries/daemon/src/pending.rs:126-143 | the branch for a release ahead of the local nodes is unreachable |
| BarrierTrace.ListsFromSteps | binaries/daemon/src/pending.rs:66-105 | in every run, told from the steps: a daemon's pending nodes are its static nodes neither subscribed nor stopped, and its early exits are those that stopped first, in order |
| BarrierTrace.EarlyExitExact | binaries/daemon/src/pending.rs:83-105 | in every run a node is on its daemon's list of early exits if and only if it is a static node of it that stopped with no earlier subscription or stop |
| BarrierTrace.VerdictAgreement | binaries/daemon/src/pending.rs:170-239 | in every run all replies of one release agree: they start the nodes if and only if the released list is empty, else blame the first early exit of the own daemon or the first on the list; the list holds only nodes that exited early by the steps, and all those of daemons still in the dataflow |
| BarrierTrace.LocalVerdict | binaries/daemon/src/pending.rs:170-200 | a reply without a release belongs to a dataflow on one daemon and starts the node if and only if no static node exited early by the steps, else blames the first that did |
| BarrierTrace.SingleAnswerExact | binaries/daemon/src/pending.rs:145-168 | in every run on one daemon the last request of a node is answered if and only if every static node has subscribed or stopped in the run |
| BarrierTrace.NobodyWaitsWhenReady | binaries/daemon/src/pending.rs:160-163 | on one daemon nobody waits once no node is pending |
| BarrierTrace.OnlyRequestsAreAnswered | binaries/daemon/src/pending.rs:66-81 | in every run whoever waits or was answered has asked, with that reply channel |
| BarrierTrace.ReportedExact | binaries/daemon/src/pending.rs:145-168 | in every run on several daemons a daemon has reported if and only if some subscription or early exit found all its static nodes seen and the message went out |
| BarrierTrace.UplinkExact | binaries/daemon/src/pending.rs:202-239 | per step: exactly the first report, with the list of early exits, and the finish are queued for the coordinator |
| BarrierTrace.ReleaseNeedsAllReports | binaries/coordinator/src/handlers.rs:602-606 | in every run, once a release was sent every daemon still in the dataflow has reported, static nodes or not |
| BarrierTrace.MembershipExact | binaries/coordinator/src/lib.rs:402-475 | of all steps, a daemon leaves exactly by its finish or the watchdog, is no longer awaited exactly by its report or the watchdog, and the dataflow is gone exactly with the last finish |
| BarrierTrace.ReleaseExact | binaries/coordinator/src/lib.rs:411-441 | a counted report extends the list and releases exactly when nobody else is awaited; the release carries the whole list to exactly the connected members |
| BarrierAnswer.AnswerExact | binaries/daemon/src/pending.rs:145-168 | in every reachable state of a dataflow on several daemons a waiting request is answered in some continuation if and only if its daemon is not done and has a release queued, or is still counted in by a running coordinator that can still be given a report, its own if its own is awaited |
| BarrierAnswer.HopelessRun | binaries/coordinator/src/lib.rs:402-456 | a request that is not answerable stays unanswered and unanswerable in every continuation |
| BarrierAnswer.LateSubscriberNeverAnswered | binaries/daemon/src/pending.rs:152-160 | in particular when every report was sent and counted and its own daemon has no release queued |
| BarrierStranding.RestartedNodeIsStranded | binaries/daemon/src/pending.rs:152-160 | a run of two daemons after which the request of a restarted node is answered in no continuation |
| Lifecycle.Coordinator.RecoverOnStartup | binaries/coordinator/src/lib.rs:295-327 | the startup loop turns exactly the unfinished records into Recovering, one generation on |
| Lifecycle.Coordinator.ExpireRecovering | binaries/coordinator/src/lib.rs:1712-1744 | the timeout loop fails exactly the Recovering records older than 60 s, with the age never negative |
| Lifecycle.Coordinator.ReconcileReport | binaries/coordinator/src/lib.rs:1974-2007 | the report loop, repeats and unknown dataflows included |
| Lifecycle.ReconciledRecord | binaries/coordinator/src/lib.rs:1974-2007 | a record reported any number of times is bumped at most once |
| Lifecycle.StepFacts | binaries/coordinator/src/state.rs:341-367 | per step: no record is lost, no generation decreases, Succeeded is left alone, only a dataflow in memory becomes Succeeded, and the record is at most one write ahead of memory and only while Running |
| Lifecycle.GenerationNeverDecreases | binaries/coordinator/src/state.rs:341-367 | over every run the stored generation never decreases |
| Lifecycle.SucceededIsFinal | binaries/coordinator/src/lib.rs:474-543 | over every run a Succeeded record never changes again |
| Lifecycle.OrphanNeverSucceeds | binaries/coordinator/src/lib.rs:3963-3964 | a dataflow no longer in memory is never recorded as Succeeded afterwards |
| Lifecycle.SuccessExact | binaries/coordinator/src/lib.rs:474-543 | some continuation records a dataflow as Succeeded if and only if it is so recorded, is in memory or has not been started |
| Lifecycle.SucceededExact | binaries/coordinator/src/lib.rs:515-543 | in every run a dataflow is recorded as Succeeded if and only if it finished without node errors and that record was saved |
| Lifecycle.WrittenExact | binaries/coordinator/src/state.rs:341-367 | a saved record says what happened: Pending when launched, Stopping when restarted, Succeeded or Failed by its node errors when finished, with the raised counter and the time |
| Lifecycle.OthersStand | binaries/coordinator/src/state.rs:341-367 | such a step touches no other record, and none if the write fails |
| Lifecycle.MemoryExact | binaries/coordinator/src/lib.rs:3963-3978 | in every run a dataflow is in memory if and only if it was launched and has not finished, been restarted or outlived a coordinator restart since |
| Lifecycle.RestartExact | binaries/coordinator/src/lib.rs:295-327 | after a coordinator restart no record it could write claims to be pending, running or stopping; exactly the unfinished ones changed, to Recovering |
| Lifecycle.TimeoutExact | binaries/coordinator/src/lib.rs:1712-1744 | after the recovery check no record it could write has been Recovering for over 60 s; exactly those changed, to Failed |
| Lifecycle.ReportExact | binaries/coordinator/src/lib.rs:1974-2007 | after a status report every listed dataflow it could write is Running, Stopping or Succeeded; exactly the Pending, Failed and Recovering ones changed, to Running |
| Lifecycle.OutlivedCannotSucceed | binaries/coordinator/src/lib.rs:295-327 | a run over a coordinator restart after which success cannot be recorded |
| Lifecycle.EveryRun | binaries/coordinator/src/lib.rs:295-327 | both, between any two moments of any run from the empty store |
| Lifecycle.TrackedRun | binaries/coordinator/src/state.rs:341-367 | in every run the distance between the stored generation and the in-memory counter follows from whether the last record was saved and whether a report overtook it |
| Lifecycle.PersistStrictExact | libraries/coordinator-store/src/lib.rs:46-83 | in every run the next write repeats the stored generation if and only if the last record built was saved and a report has since moved it from Pending or Failed to Running, and raises it otherwise |
| Lifecycle.GenerationRepeats | binaries/coordinator/src/lib.rs:1980-1994 | a run that writes the same generation twice |
| Waiters.ResultCell.Register | binaries/coordinator/src/state.rs:388-398 | an early caller waits, a late one is told the cached result |
| Waiters.ResultCell.SetResult | binaries/coordinator/src/state.rs:400-410 | the first result is told to all waiting, in order, and kept; later ones are ignored |
| Waiters.StepKeeps | binaries/coordinator/src/lib.rs:545-573 | conservation: every caller is waiting or was told, once per request, and all that was told about the spawn is the cached result |
| Waiters.RunKeeps | binaries/coordinator/src/lib.rs:545-573 | it holds in every run |
| Waiters.NoneWaitWhenGone | binaries/coordinator/src/ws_control.rs:355-367 | in every run nobody waits for a dataflow that has left the running map, finished or replaced by its restart |
| Waiters.AllAnsweredOnce | binaries/coordinator/src/lib.rs:545-573 | in every run that ends with the dataflow gone every request was answered exactly once, and all that was told about the spawn is one result |
| Waiters.DroppedExact | binaries/coordinator/src/ws_control.rs:362-366 | in every run the callers told that their request was dropped are exactly those waiting when the live dataflow is replaced by its restart |
| Waiters.StopCallerExact | binaries/coordinator/src/lib.rs:457-475 | from any live state a caller of Stop that waits is still waiting after a run if and only if the run holds no restart and no finish report with which all daemons have finished or been dropped; else nobody waits |
| Waiters.SpawnCallerExact | binaries/coordinator/src/lib.rs:1920-1963 | likewise for a caller waiting for the spawn, who is also answered by a failed spawn or by the success with which all awaited daemons have reported or been dropped |
| Waiters.SpawnResultExact | binaries/coordinator/src/lib.rs:1925-1957 | over every run the spawn result is decided by the first step that settles the spawn or ends the dataflow: Spawned by a success, SpawnFailed by a failure, ExitedEarly by a finish, Dropped by a restart; everyone waiting is told it |
| Waiters.SpawnReplyExact | binaries/coordinator/src/lib.rs:691-698 | in every run somebody who asks for the spawn hears the decided result at once, waits if there is none, and hears that the dataflow is unknown once it is gone |
| Waiters.StopReplyExact | binaries/coordinator/src/lib.rs:784-824 | in every run a Stop request hears "stopped" at once if some daemon has finished, else waits if the dataflow lives and all daemons took it, else is refused |
| Waiters.StopCallersTold | binaries/coordinator/src/lib.rs:545-547 | when the dataflow ends every waiting caller of Stop is told, stopped by a finish and dropped by a restart |
| Waiters.WithoutDaemonsExact | binaries/coordinator/src/lib.rs:1683-1694 | a dataflow whose daemons were all dropped stays, and its callers of Stop wait, until a restart or some daemon's finish report, and no longer |
| Waiters.RestartDropsTwo | binaries/coordinator/src/lib.rs:3963-3964 | a run in which a spawn caller and a stop caller hear that their request was dropped |
| Waiters.WatchdogLeavesCallerWaiting | binaries/coordinator/src/lib.rs:1683-1694 | a run that ends with no daemon left and a stop caller still waiting |
| Waiters.StoppedTooSoonExact | binaries/coordinator/src/lib.rs:784-797 | in every run any step tells a caller "stopped" while a daemon still runs the dataflow if and only if it is a Stop made after some daemon finished and before the last did |
| Waiters.StopLeavesDaemonRunning | binaries/coordinator/src/lib.rs:784-797 | a run in which the caller hears "stopped" while a daemon still runs the dataflow |
| RateLimiter.IpRateLimiter.Check | binaries/coordinator/src/ws_server.rs:50-69 | loopback is always let in; otherwise the decision and the new window are those of the address's own window |
| RateLimiter.OthersDoNotMatter | binaries/coordinator/src/ws_server.rs:50-69 | arrivals from other addresses never change an address's window |
| RateLimiter.DecisionIsLocal | binaries/coordinator/src/ws_server.rs:50-69 | nor a decision about it |
| RateLimiter.SlidingWindowBound | binaries/coordinator/src/ws_server.rs:29-69 | for every monotone trace any half-open 60 s interval holds at most 39 admitted connections of one address |
| RateLimiter.BoundIsReached | binaries/coordinator/src/ws_server.rs:29-69 | a trace with 39, so the bound is exact |
| NodeChannel.Channel.SendWithTimestamp | binaries/daemon/src/event_types.rs:185-219 | data events are dropped below 50 free slots, before the closed check; control events only when full |
| NodeChannel.EveryRun | binaries/daemon/src/event_types.rs:177-219 | over every run no data event is queued past slot 950 and the channel holds at most 1000 |
| NodeChannel.OutcomeExact | binaries/daemon/src/event_types.rs:185-219 | in every run an event is delivered if and only if the channel was not closed and there is room, 50 slots for data and one for control; a closed channel says so except to data it would have dropped |
| NodeChannel.FirstInFirstOut | binaries/daemon/src/event_types.rs:185-219 | in every run the queue holds what was delivered and not yet received, in order |
| NodeChannel.ControlRefusedOnlyBehindControl | binaries/daemon/src/event_types.rs:177-219 | a control event on an open channel is refused if and only if it is full, and then its last 49 events are all control events |
| NodeChannel.HeadroomIsFortyNine | binaries/daemon/src/event_types.rs:180-181 | a run in which the 50th control event behind data is refused |
| ServiceServer.Server.ScanOldest | binaries/ros2-bridge-node/src/main.rs:356 | the scan finds the oldest insertion time, none for an empty map |
| ServiceServer.Server.HandleRequest | binaries/ros2-bridge-node/src/main.rs:342-373 | evicts when the oldest may have expired, drops the request at 64 pending, otherwise records it |
| ServiceServer.Server.HandleResponse | binaries/ros2-bridge-node/src/main.rs:318-337 | a response goes to the pending request of its identifier, which is then forgotten |
| ServiceServer.EvictionExact | binaries/ros2-bridge-node/src/main.rs:343-357 | with or without the scan, exactly the unexpired requests remain; after a scan the recorded time is the oldest one, and without one nothing changes |
| ServiceServer.StepRefines | binaries/ros2-bridge-node/src/main.rs:310-373 | one event keeps the oldest time a lower bound and the map within 64 entries, and does what always scanning does |
| ServiceServer.LazyRefinesEager | binaries/ros2-bridge-node/src/main.rs:310-373 | over every monotone run the lazily evicted map is the one kept by scanning on every request |
| ServiceServer.PendingExact | binaries/ros2-bridge-node/src/main.rs:310-373 | in every monotone run a request is pending, with its caller and time, if and only if it found fewer than 64 unexpired ones when it came and neither its response nor a request 30 s later has come since |
| ServiceServer.RoutedExact | binaries/ros2-bridge-node/src/main.rs:318-337 | a response goes to the caller of the pending request with its identifier, and to nobody if there is none |
| CliSession.Session.HandleResponse | binaries/cli/src/ws_client.rs:441-504 | the waiting caller gets the answer its kind calls for, and subscribers are registered only on success |
| CliSession.Session.FailAll | binaries/cli/src/ws_client.rs:428-437 | every waiting caller is given exactly one more answer |
| CliSession.Session.CloseDown | binaries/cli/src/ws_client.rs:428-437 | leaving the loop answers everyone still waiting in the three maps |
| CliSession.ExactlyOneAnswer | binaries/cli/src/ws_client.rs:284-438 | in every run each command waits unanswered in the one map of its kind or was answered once with an answer of its kind, and nobody waits after the session |
| CliSession.AnswerExact | binaries/cli/src/ws_client.rs:441-504 | in every run the first frame for a command that was sent, before the session is over, is its one answer: the raw result or wrapped error of a request, the acknowledgement or error of a subscription, as its kind calls for |
| CliSession.FailureExact | binaries/cli/src/ws_client.rs:288-437 | a command still waiting when the session ends is told that the connection closed, and one that cannot be parsed is told at once |
| CliSession.OpenExact | binaries/cli/src/ws_client.rs:284-426 | in every run the session is open if and only if the connection was not lost and no send failed |
| CliSession.SubscribersExact | binaries/cli/src/ws_client.rs:451-488 | in every run log lines go exactly to those whose subscription was acknowledged, and topic subscriptions are registered exactly for identifiers that were handed out |
| CliSession.UnknownIdChangesNothing | binaries/cli/src/ws_client.rs:441-504 | a frame for an identifier nobody asked for, or answered already, changes nothing |
| CliSession.OrderDoesNotMatter | binaries/cli/src/ws_client.rs:451-504 | in every run trying the three maps in any order handles a frame alike |
| LogRotation.LogFiles.RotateLogFiles | binaries/daemon/src/log.rs:43-72 | in place, suffix 1 takes the current file and each suffix up to the limit what the one before held, gaps included; nothing beyond the limit changes; and what a limit of 0 does |
| LogRotation.SlotsAreTheMostRecent | binaries/daemon/src/log.rs:42-72 | after any number of rotations suffix k holds the k-th most recently rotated file |
| Framing.NumberRoundTrip | binaries/daemon/src/socket_stream_utils.rs:20-40 | the little-endian header gives the length back |
| Framing.Connection.Send | binaries/daemon/src/socket_stream_utils.rs:3-27 | refuses more than 64 MiB writing nothing, otherwise appends header and message |
| Framing.Connection.ReceiveNext | binaries/daemon/src/socket_stream_utils.rs:29-62 | returns the first message and leaves the rest of the stream, or fails on a short stream or an oversized length |
| Framing.RoundTrip | binaries/daemon/src/socket_stream_utils.rs:3-62 | every list of sendable messages is received as that list, using every byte |
| Framing.LimitExact | binaries/daemon/src/socket_stream_utils.rs:29-62 | a frame is taken if and only if its message is at most 64 MiB and refused as too large otherwise, before its bytes are read |
| Framing.CutFrame | binaries/daemon/src/socket_stream_utils.rs:29-62 | a frame cut anywhere is an error, never a message |
| Framing.CutStream | binaries/daemon/src/socket_stream_utils.rs:3-62 | a stream cut inside its last frame gives the whole messages before it and then an error |

## Left out

- CatchUp.ReplayPersistedParams: reading the store while collecting is taken to succeed; the code skips a node whose listing fails without counting a failure.
- StateLog.DeltaExact: log numbers are unbounded; 64-bit overflow of the sequence and the saturating addition are not modelled.
- BarrierTheorems.BarrierSafety: the node set is fixed and no node is spawned again by auto-recovery; that everybody is eventually answered is not claimed, and does not hold when the watchdog drops the last outstanding daemon.
- BarrierAnswer.AnswerExact: an answer is a verdict to start or fail. A reply channel that the daemon drops, because the node subscribes again or the daemon has finished the dataflow, ends the node's connection with an error and does not count; and the lemma says what can still happen, not what will.
- CliSession.ExactlyOneAnswer: commands still in the command queue when the loop ends are not taken up and so not part of the model; forwarding of log lines and topic data to subscribers is left out.
- LogRotation.LogFiles.RotateLogFiles: file system errors, which abort the rotation part-way, are not modelled.
- Framing.Connection.ReceiveNext: read timeouts are not modelled.
- Lifecycle.StepFacts: identifiers are taken to be new; a spawn failure on one daemon followed by success on the last one overwriting Failed with Running is allowed by the model but not stated separately.
- The 30 s back-off of the full replay, and the replay skipped for a missing connection, are simply steps not taken.
- A write to the parameter store that fails leaves everything as it was, so it is no step of the protocol; parameters changed while a dataflow does not run are not logged and not modelled.
- The replay in the background when a dataflow becomes ready, auto-recovery, and adding or removing nodes and mappings at run time.
- Waiters.AllAnsweredOnce: requests pending when the coordinator itself shuts down are not modelled; their dropped channels turn into the same error as on a restart.
- Nodes' own handling of events once they are in the channel.
- Transports, serialisation, asynchronous tasks and timers: queues, a monotone clock and nondeterministic success or failure stand for them.
- Choosing where a parameter change goes (`resolve_param_target`) is the guard of the change step: the node has an entry in the dataflow's node map. A daemon that has left the dataflow is still targeted.
- Dataflow records in the in-memory store are a plain map; only the parameter listing, which scans, is modelled as rows.
- The redb store backend, artifact building, topic debug streams, process supervision and kill escalation.
- Authentication, metrics, tracing, log formatting, and the command line's output, none of which takes part in the protocols.
