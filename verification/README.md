# Fluxbee core services: a verified model

This project models the stateful core of Fluxbee and proves what that core promises, over every input and
over whole runs:

- **SY.timer** (`timer_*.dfy`): the persistent timer service. Its table of rows survives crashes; its heap of wake-ups
  and its table of fires in flight do not. A run is any sequence of requests, popped heap entries, refusals by the
  router, crashes (also between the commit of a fire and its send) and restarts, with storage and link failures chosen
  freely. Listing through pages is modelled on both ends.
- **RouterDispatcher** (`dispatcher_*.dfy`): many callers wait on one receiver, matched by trace_id. The waiters'
  protocol is an interleaving of single steps of callers and of the dispatch goroutine. The routing machine runs that
  protocol together with the table of recently closed trace_ids, the learned reply shapes, the bounded command queues
  and the drop counters; there the delivery of one message is one step, proved to be three of the finer ones where a
  waiter takes it. The pending map, the table, and the dispatcher itself are classes proved against value
  specifications.
- **SY.opa.rules** (`seqlock.dfy`, `wasm_exports.dfy`, `policy_*.dfy`): publication of the compiled policy through a
  synced folder, installation on a replica, repair of the routers' shared region, answers to notices, the seqlock of
  the region, and the hand-written WebAssembly export lookup.
- **Identity region** (`identity_table.dfy`, `identity_read.dfy`): the open-addressing table of channel mappings, its Go
  reader on raw bytes, its Rust writer, and the lookup under the seqlock while the writer writes.

Code that changes state in place is a class, or a method with a loop, whose postcondition equates the new abstract state
with a specification function of the old one; the promises are then lemmas about those functions and the runs they make.
`timer_outcomes.dfy`, `timer_requests.dfy` and `dispatcher_ends.dfy` say once more, step by step and without those
functions, what a timer, a fire in flight and a message come to.

`dafny verify dfyconfig.toml` checks the whole project.

## Assumptions

- Clock readings never go back and are integer milliseconds; `cron(t) > t`; timer uuids and trace_ids of fires are fresh.
- Each request handler and each popped entry of SY.timer is one step. A crash may also fall between the commit of a
  fire and its send; the other points inside a step leave the same durable state as a crash before or after it.
- `FireAtUTC + missed_within_ms` does not overflow 64 bits.
- sha256 is injective, and the published file name (16 hex digits of it) is distinct for distinct policies.
- A metadata file cut short is not valid JSON, and a staged file that was just written is read back.
- `int` has 64 bits in the WebAssembly lookup, so a 32-bit length never turns negative.
- The shared region is sequentially consistent, and its counter is bumped fewer than 2^64 times during one attempt to read.

## Where the code does not meet a promise

Each is stated with its exact condition.

- A failed read in `fireTimerByUUID` drops the popped entry and pushes nothing: the timer is forgotten until the next
  restart exactly when no other entry wakes it (`FailedReadForgets`; a run from a first start in `FailedReadForgetsOne`).
- A fire committed just before a crash is never sent: delivery is at most once (`CrashLosesFire`). A committed fire is
  handed to the link exactly when no crash falls between its commit and its send (`CommittedIsSentIff`).
- A trace_id closed twice (a reply that crosses its own timeout) breaks the order of the stale table, and gc then keeps an
  expired entry (`ClosedTwiceKeepsExpired`). On any table gc removes exactly the expired entries if and only if none
  stands behind a live one (`GcExactIff`), at all times if and only if the order is sorted (`SortedIffExact`), and a
  closing leaves it sorted exactly under the condition of `RefreshSortedIff`.
- `removePending` goes by trace_id: with a reused trace_id the dispatch goroutine, or a caller that gives up, can take
  another caller's entry out of the pending map (`ReusedTraceDropsWaiter`, `LeavingCallerDropsWaiter`; exact condition
  for every step in `StepDropsNobodyIff`).
- A caller that times out leaves the pending map before it notes its trace_id: a reply in between finds neither. Under
  a rule that takes every message it reaches a command queue exactly when the matcher does not succeed with its exact
  name (`WindowLetsReplyThrough`); under any profile the condition is that of `PastTheTableIff`.
- A command channel named `broadcast:` followed by a broadcast channel's name shares that channel's drop counter
  (`ClashMiscounts`, exact condition in `CountedIff`).
- A page cursor is read back exactly when the uuid is not empty and does not end in white space (`CursorRoundTrip`).
- `clear_ich_mappings_for_ilk` writes empty slots, not tombstones: mappings of other ILKs beyond a cleared slot are no
  longer found (`ClearHidesNeighbour`, exact condition in `ClearAgreesIff`).
- A key with a NUL byte is accepted and stored as another key. It is never found again (`PutFoundIff`), and each put takes
  one more slot that no removal gives back, until the table is full (`NulPutLeaks`, `NulPutsFill`). It breaks the table
  exactly when it has the hash of the key it is stored as (`UpsertRefines`), and changes a lookup exactly under the
  condition of `NulHarmlessIff`.
- A wasm larger than the routers' region never converges: every sync writes the region again (`ConvergesIff`).
- An install cut short after the export section passes the checks of `installedPolicy` and reaches the routers, although
  the comment above it says it never does (`TornReachesRouters`).
- What is installed or handed to the routers has a published hash in every state of a run exactly when no install is cut
  short inside the wasm, at a point that leaves no published one (`EveryRunIntegral`); otherwise it is still a front part of a published one (`EveryRunInParts`).
- An install whose metadata write never began leaves the old version and entrypoint, one whose write failed leaves none,
  and a start whose rewrite fails loses them too; no later sync of the same manifest corrects them (`OldMetadataStays`,
  exact condition in `MetadataRightIff`).
- The same wasm published under another version or entrypoint never reaches a replica that runs it
  (`SameWasmNeverReaches`, exact condition in `PublishedReachesReplica`).
- A published wasm that goes missing under a right manifest is not published again (`MissingWasmStays`, exact condition
  in `RepublishIfStale`).

## Model

| member | source | states |
|---|---|---|
| TimerRuns.EveryRunIsSafe | go/sy-timer/scheduler.go:222-277 | over every run from an empty table: each (timer, fire number, attempt) sent at most once, only after the row was saved with that fire count; nothing sent after a cancel or purge; fired and canceled terminal; a one-shot fired exactly when its count is 1; one pending row per client_ref; at most 63 attempts |
| TimerRuns.EveryRetryIsOnTime | go/sy-timer/scheduler.go:282-298 | in every reachable state a queued retry lies within every limit set by the event that committed its fire: an hour from it, the window of a fire_if_within one-shot, the next instance of a recurring timer; it is never of a drop one-shot, and is the only place that fire is in flight |
| TimerModel.DeadlineIsFirstLimit | go/sy-timer/scheduler.go:282-298 | the deadline of a fire is exactly the earliest of those limits |
| TimerRuns.NeverSentAgain | go/sy-timer/scheduler.go:302-407 | a fire that is over is never sent again in any continuation; the seven rows below say what makes one over |
| TimerRuns.RefusedIsOver | go/sy-timer/scheduler.go:344-364 | a fire refused for a reason that does not pass is over |
| TimerRuns.LateRefusalIsOver | go/sy-timer/scheduler.go:344-385 | so is one refused for a passing reason too near its deadline |
| TimerRuns.GivenUpIsOver | go/sy-timer/scheduler.go:368-385 | one whose next attempt would lie past the deadline |
| TimerRuns.FailedSendIsOver | go/sy-timer/scheduler.go:302-340 | one too large for the link, or whose send failed too near the deadline |
| TimerRuns.CanceledRetryIsOver | go/sy-timer/scheduler.go:388-407 | one whose timer was canceled or purged before its retry |
| TimerRuns.AgedOutIsOver | go/sy-timer/scheduler.go:302-340 | one without an answer in 30 s, at the next send |
| TimerRuns.CrashedIsOver | go/sy-timer/scheduler.go:128-170 | one in flight in a crash |
| TimerRuns.CrashLosesFire | go/sy-timer/scheduler.go:252-277 | a fire committed by a popped due entry and not sent before a crash is never sent: at most once is tight |
| TimerRuns.CommittedIsSentIff | go/sy-timer/scheduler.go:222-277 | a fire that any step of a run commits is ever handed to the link exactly when that step is no crash between commit and send |
| TimerRuns.PopCommits | go/sy-timer/scheduler.go:222-277 | a popped entry that raises a fire count hands that fire to the link in the same step |
| TimerRuns.OthersCommitNone | go/sy-timer/scheduler.go:128-170 | no request, refusal or start raises a fire count |
| TimerOutcomes.StaysInFlightIff | go/sy-timer/scheduler.go:222-407 | in every reachable state a fire in flight is in flight after a step exactly when the step does not end it: a crash, a final or late refusal, a retry too large, too late or of a canceled or purged timer, no answer within 30 s |
| TimerOutcomes.RefusalOutcome | go/sy-timer/scheduler.go:344-385 | an UNREACHABLE for one of the four passing reasons queues the next attempt of the same fire 5, 10, 20, 40 or 60 s later, exactly if that is by its deadline; any other one queues nothing |
| TimerOutcomes.RetryOutcome | go/sy-timer/scheduler.go:302-407 | a popped retry is put off by a failed read, dropped for a canceled or purged timer, else sent; a failed link queues the next attempt, and only fires sent in the last 30 s stay in the sent table |
| TimerOutcomes.FireOutcome | go/sy-timer/scheduler.go:222-340 | a due entry commits one fire more, the next instance or the end, and sends attempt 1; a failed link tries again 5 s later within the limits of the fire |
| TimerOutcomes.NoFireOutcome | go/sy-timer/scheduler.go:222-277 | an entry that does not fire commits and sends nothing, and queues the timer at its own time or 30 s after a failed save |
| TimerRequests.StartOutcome | go/sy-timer/scheduler.go:128-170 | after a start, for every timer: canceled exactly if overdue and meant to be dropped or past its window, moved to its next instance if it recurs, gone exactly if its history is older than seven days; queued exactly if it can fire |
| TimerRequests.ScheduleOutcome | go/sy-timer/main.go:467-575 | a one-shot with the fields of the request is created and queued exactly when its time, its client_ref and both caps allow it |
| TimerRequests.ScheduleRecurringOutcome | go/sy-timer/main.go:577-690 | the same for a recurring timer, at its first instance |
| TimerRequests.CancelOutcome | go/sy-timer/main.go:810-854 | exactly an own timer that has not fired is canceled, and no other row changes |
| TimerRequests.RescheduleOutcome | go/sy-timer/main.go:856-904 | exactly an own pending one-shot moves, to a time in the window, and is queued there |
| TimerRequests.PurgeOutcome | go/sy-timer/main.go:906-939 | exactly the owner's rows go |
| TimerRequests.OnlyOwnersChange | go/sy-timer/main.go:810-939 | over every run of requests, no request of another node changes a node's timer |
| TimerRuns.CapsHold | go/sy-timer/main.go:1062-1080 | the per-owner and hive caps on pending timers hold over every run if they held at start |
| TimerSafety.StepInv | go/sy-timer/scheduler.go:128-407 | every step keeps the invariant tying log, table, heap and sent table |
| TimerSafety.RunInv | go/sy-timer/scheduler.go:128-407 | so does every run |
| TimerSafety.ElapsedBound | go/sy-timer/scheduler.go:74-86 | attempt n starts within the hour exactly when n is at most 63, with delays 5, 10, 20, 40, 60, 60 ... s |
| TimerSafety.DeliverInv | go/sy-timer/scheduler.go:302-340 | a send of a fire in hand keeps the invariant, whether the link takes it, fails, or refuses its size |
| TimerSafety.UndeliveredInv | go/sy-timer/scheduler.go:344-364 | so does an UNREACHABLE, transient or not, known trace_id or not |
| TimerSafety.RetryLaterInv | go/sy-timer/scheduler.go:368-385 | a retry is queued on time or given up |
| TimerSafety.ReplayInv | go/sy-timer/scheduler.go:128-170 | replay keeps the invariant row by row, a failed save included |
| TimerSafety.ReplayRowInv | go/sy-timer/scheduler.go:412-479 | a missed timer is queued, moved to its next instance or canceled within the invariant |
| TimerSafety.InsertInv | go/sy-timer/main.go:467-575 | an accepted schedule request keeps the invariant, unique client_refs included |
| TimerSafety.CrashCommittedInv | go/sy-timer/scheduler.go:252-277 | a crash between commit and send keeps the invariant |
| TimerProgress.NoTimerForgotten | go/sy-timer/scheduler.go:128-277 | in every reachable state each live pending row has a wake-up due by its own time, or by 30 s after a failed save |
| TimerProgress.RestartRemembers | go/sy-timer/scheduler.go:128-170 | replay rebuilds all wake-ups from the table and an empty heap |
| TimerProgress.RescheduleRemembered | go/sy-timer/main.go:856-904 | a reschedule, which leaves the old entry in place, keeps every live row woken |
| TimerProgress.FailedReadForgets | go/sy-timer/scheduler.go:226-230 | after a failed read the timer is still woken exactly when another entry wakes it |
| TimerProgress.FailedReadForgetsOne | go/sy-timer/scheduler.go:226-230 | a legal run from a first start (start, schedule, failed read) that leaves a live timer without a wake-up |
| TimerProgress.PopAdds | go/sy-timer/scheduler.go:222-277 | whatever a popped entry pushes lies strictly after the instant of the pass |
| TimerProgress.PopDecreases | go/sy-timer/scheduler.go:208-220 | each popped entry leaves exactly one due entry fewer |
| TimerProgress.RequestsAddNoneDue | go/sy-timer/main.go:467-939 | a request or refusal handled during a pass adds no entry that is due in it, with 64-bit fields |
| TimerProgress.PassEnds | go/sy-timer/scheduler.go:208-220 | however requests fall between its pops, a pass pops at most the entries due at its start, one for each pop |
| TimerProgress.DueTimersFire | go/sy-timer/scheduler.go:208-277 | a pass that runs out of due entries fired every due live timer exactly once |
| TimerHeaps.RootIsMin | go/sy-timer/scheduler.go:31-51 | the root of an ordered heap is a minimum |
| TimerHeaps.TimerHeap.Push | go/sy-timer/scheduler.go:525-534 | keeps the heap ordered and adds exactly the entry |
| TimerHeaps.TimerHeap.PopDue | go/sy-timer/scheduler.go:536-547 | removes a minimum that is due, or nothing when none is due |
| TimerHeaps.TimerHeap.RemoveRoot | go/sy-timer/scheduler.go:536-547 | takes exactly the root out and keeps the heap ordered |
| TimerHeaps.TimerHeap.Up | go/sy-timer/scheduler.go:31-51 | restores the order upwards, a permutation |
| TimerHeaps.TimerHeap.Down | go/sy-timer/scheduler.go:31-51 | restores the order downwards, a permutation |
| TimerService.Service.constructor | go/sy-timer/scheduler.go:107-116 | a node that is not up and has an empty table |
| TimerService.Service.ProcessDue | go/sy-timer/scheduler.go:208-220 | ends, is a legal run of pops in nondecreasing time, and leaves no entry due |
| TimerService.Service.FireTimer | go/sy-timer/scheduler.go:222-277 | is the specified step on a popped entry |
| TimerService.Service.FireDue | go/sy-timer/scheduler.go:239-277 | commits the fire, queues the next instance, then sends, in this order |
| TimerService.Service.CommitAndSend | go/sy-timer/scheduler.go:252-277 | the committed row, then the next instance, then the send |
| TimerService.Service.Deliver | go/sy-timer/scheduler.go:302-340 | is the specified send, by link outcome |
| TimerService.Service.ForgetAnswered | go/sy-timer/scheduler.go:302-340 | keeps exactly the sent fires inside the answer window |
| TimerService.Service.Undelivered | go/sy-timer/scheduler.go:344-364 | is the specified refusal; true exactly for a known trace_id |
| TimerService.Service.RetryLater | go/sy-timer/scheduler.go:368-385 | queues the next attempt or gives up at the deadline |
| TimerService.Service.RetryFire | go/sy-timer/scheduler.go:388-407 | is the specified retry: later on a failed read, never after a cancel or purge |
| TimerService.Service.Start | go/sy-timer/scheduler.go:128-170 | is gc followed by replay; a failed save leaves the node down |
| TimerService.Service.ReplayAll | go/sy-timer/scheduler.go:128-170 | the loop is the specified replay of the listed rows |
| TimerService.Service.ReplayOne | go/sy-timer/scheduler.go:412-479 | one row, by kind and missed policy |
| TimerService.Service.Insert | go/sy-timer/main.go:467-575 | creates, answers the pending timer of the same client_ref, or refuses over a cap, each exactly when it should |
| TimerService.Service.Cancel | go/sy-timer/main.go:810-854 | cancels an own timer that has not fired, nothing else |
| TimerService.Service.Reschedule | go/sy-timer/main.go:856-904 | moves an own pending one-shot and queues the new time |
| TimerService.Service.PurgeOwner | go/sy-timer/main.go:906-939 | deletes exactly the owner's rows and counts them |
| TimerModel.OneShotWindow | go/sy-timer/main.go:1184-1205 | with 64-bit wrap-around, an instant is accepted exactly when exactly one form is given and it lies between a minute and 366 days ahead |
| TimerList.CursorRoundTrip | go/sy-timer/main.go:791-808 | a printed cursor is parsed back exactly when the uuid is not empty and ends in no white space |
| TimerList.DecimalRoundTrip | go/sy-timer/main.go:791-808 | every 64-bit instant printed in decimal is parsed back |
| TimerList.SelectAnswers | go/sy-timer/persistence.go:206-242 | a scan in key order gives the matching rows of the table, sorted by (fire_at, uuid) |
| TimerList.AnswerUnique | go/sy-timer/persistence.go:206-242 | a query has one such answer |
| TimerList.SelectAfter | go/sy-timer/persistence.go:206-242 | asking after the k-th row gives exactly the rows beyond it |
| TimerList.CutPage | go/sy-timer/main.go:749-789 | a page is the longest prefix within 96 KiB, at least one row, and its cursor is its last row |
| TimerList.ServeList | go/sy-timer/main.go:723-789 | answers a page exactly for an accepted request, refuses exactly one that asks for timers it may not see: a prefix of the answer limited to 100 by default and 1000 at most |
| TimerList.OwnTimersOnly | go/sy-timer/main.go:1037-1040 | a node other than SY.admin lists its own timers only |
| TimerList.AcceptedIff | go/sy-timer/main.go:723-748 | a list request is answered exactly for a known status, a full owner name, a requester that may read it, and a readable cursor |
| TimerList.ListedExactly | go/sy-timer/main.go:723-789 | it lists exactly the timers of that owner and status after the cursor |
| TimerList.ClientLists | go/fluxbee-go-sdk/timer_schedule.go:242-288 | the same from the filter of the client |
| TimerList.LexIff | go/sy-timer/persistence.go:206-242 | uuids are in the order of their first different characters |
| TimerList.CanonicalIff | go/sy-timer/main.go:1255-1265 | a full name has a dot before its first @ and something after it |
| TimerList.TrimIs | go/sy-timer/main.go:791-808 | trimming takes off all white space at both ends and nothing else |
| TimerList.FollowPages | go/fluxbee-go-sdk/timer_schedule.go:242-288 | the page loop ends and returns exactly filter, sort, take limit: nothing repeated or skipped |
| TimerList.List | go/fluxbee-go-sdk/timer_schedule.go:242-288 | with the filter checks, both directions, and the limits 100 and 1000 |
| DispatcherStale.NoteKeeps | go/fluxbee-go-sdk/dispatcher.go:811-833 | however ids are closed, the order lists the keys once each, at most 1024 |
| DispatcherStale.ClassifyMeans | go/fluxbee-go-sdk/dispatcher.go:99-116 | success, terminal failure, malformed or unrelated, by the first of the three lists that has a rule for the message |
| DispatcherStale.RouteTakes | go/fluxbee-go-sdk/dispatcher.go:35-76 | what each of the four forms of a route takes |
| DispatcherStale.GcExact | go/fluxbee-go-sdk/dispatcher.go:863-877 | on a table sorted by expiry gc removes exactly the expired entries |
| DispatcherStale.GcStays | go/fluxbee-go-sdk/dispatcher.go:863-877 | on any table, sorted or not, an entry stays exactly when it or one before it in the order is live |
| DispatcherStale.GcExactIff | go/fluxbee-go-sdk/dispatcher.go:863-877 | on any table gc removes exactly the expired entries if and only if none stands behind a live one |
| DispatcherStale.SortedIffExact | go/fluxbee-go-sdk/dispatcher.go:863-877 | gc is exact at all times if and only if the order is sorted by expiry |
| DispatcherStale.RefreshSortedIff | go/fluxbee-go-sdk/dispatcher.go:826-832 | from any table, closing an id leaves a sorted order exactly when the others are sorted and nothing behind it expires before its new time |
| DispatcherStale.ClosedTwiceKeepsExpired | go/fluxbee-go-sdk/dispatcher.go:826-832 | an id closed twice makes gc keep an expired entry |
| DispatcherStale.NoteRefines | go/fluxbee-go-sdk/dispatcher.go:811-833 | with each id closed once, the table stays the last 1024 closings of the past 30 s |
| DispatcherStale.GcRefines | go/fluxbee-go-sdk/dispatcher.go:863-877 | a later look drops those expired meanwhile |
| DispatcherStale.TableHolds | go/fluxbee-go-sdk/dispatcher.go:811-877 | a closing is in the table exactly when it is among the last 1024 and younger than 30 s, with its matcher |
| DispatcherStale.StaleTable.Collect | go/fluxbee-go-sdk/dispatcher.go:863-877 | the loop is the specified gc |
| DispatcherStale.StaleTable.NoteStale | go/fluxbee-go-sdk/dispatcher.go:811-833 | the specified closing |
| DispatcherStale.StaleTable.ClassifyStale | go/fluxbee-go-sdk/dispatcher.go:839-859 | true and counted exactly for a live entry whose matcher takes the message |
| DispatcherWaiters.EveryInterleaving | go/fluxbee-go-sdk/dispatcher.go:614-703 | under every interleaving each waiter is sent at most one result, one still pending none, and the dispatch goroutine finds room in every channel it writes |
| DispatcherWaiters.RunOneResult | go/fluxbee-go-sdk/dispatcher.go:744-792 | the invariant behind it, over every run |
| DispatcherWaiters.NeverBlocks | go/fluxbee-go-sdk/dispatcher.go:1058-1066 | before each write of a result the one-slot channel is empty |
| DispatcherWaiters.OnlyOwnResults | go/fluxbee-go-sdk/dispatcher.go:744-792 | every result a waiter gets bears its trace_id and is an answer, a terminal failure or a malformed one as the rules of its matcher's lists say, or is the failure of all |
| DispatcherWaiters.FailuresOnlyAfterFailAll | go/fluxbee-go-sdk/dispatcher.go:1058-1066 | over every run without a failure of all, every result is a message |
| DispatcherWaiters.PassedByIff | go/fluxbee-go-sdk/dispatcher.go:750-792 | a message of a pending trace_id passes its waiter by exactly when no rule of the three lists takes it |
| DispatcherWaiters.TakenOnce | go/fluxbee-go-sdk/dispatcher.go:672-680 | under every interleaving a caller takes the one result written to it, once |
| DispatcherWaiters.RemoveDropsNobodyIff | go/fluxbee-go-sdk/dispatcher.go:705-709 | the dispatch goroutine's removal drops no waiter exactly when the entry under that trace_id is the one found, or of a waiter that left or is held |
| DispatcherWaiters.LeaveDropsNobodyIff | go/fluxbee-go-sdk/dispatcher.go:654-703 | the same for a caller's own removal after a failed send, a timeout, a canceled context or a shutdown |
| DispatcherWaiters.StepDropsNobodyIff | go/fluxbee-go-sdk/dispatcher.go:614-709 | both and every other step in one condition, checkable before the step |
| DispatcherWaiters.ReusedTraceDropsWaiter | go/fluxbee-go-sdk/dispatcher.go:705-709 | a run with a reused trace_id in which a waiter is dropped in silence |
| DispatcherWaiters.LeavingCallerDropsWaiter | go/fluxbee-go-sdk/dispatcher.go:681-703 | a run in which a caller that gives up drops the new waiter under its trace_id |
| DispatcherWaiters.NobodyDropped | go/fluxbee-go-sdk/dispatcher.go:614-703 | with trace_ids used once, no waiter is ever dropped in silence |
| DispatcherWaiters.SettleIsThreeSteps | go/fluxbee-go-sdk/dispatcher.go:744-792 | looking up, taking out and answering a waiter in one go is the three steps of the dispatch goroutine, all enabled |
| DispatcherWaiters.PendingTable.constructor | go/fluxbee-go-sdk/dispatcher.go:424-461 | nobody waits |
| DispatcherWaiters.PendingTable.Enter | go/fluxbee-go-sdk/dispatcher.go:636-653 | registers exactly when the trace_id is free |
| DispatcherWaiters.PendingTable.GiveUp | go/fluxbee-go-sdk/dispatcher.go:681-709 | is the specified leave: the entry under the trace_id goes, whoever owns it |
| DispatcherWaiters.PendingTable.Take | go/fluxbee-go-sdk/dispatcher.go:744-792 | takes out exactly a waiter whose matcher classifies the message |
| DispatcherWaiters.PendingTable.Put | go/fluxbee-go-sdk/dispatcher.go:1058-1066 | writes the result into a channel that has room |
| DispatcherRouting.Build | go/fluxbee-go-sdk/dispatcher.go:187-239 | a profile is built exactly when no name is declared twice and every target is declared |
| DispatcherRouting.HasDuplicates | go/fluxbee-go-sdk/dispatcher.go:250-259 | exactly when a name occurs twice |
| DispatcherRouting.RulesOk | go/fluxbee-go-sdk/dispatcher.go:222-239 | exactly when every rule's target is declared |
| DispatcherRouting.RegisterShapes | go/fluxbee-go-sdk/dispatcher.go:885-945 | learns exactly the exact success shapes that no post-pending broadcast rule declares, never a family |
| DispatcherRouting.MessagesConserved | go/fluxbee-go-sdk/dispatcher.go:744-806 | over every run each message has one end; resolved messages and answered waiters are one to one, each result made of its message; late and orphan drops equal their counters; each command channel's consumed and queued messages are the accepted part of those routed to it, in arrival order |
| DispatcherRouting.ObservationalNeverOrphan | go/fluxbee-go-sdk/dispatcher.go:885-945 | over every run no message of a shape that a post-pending rule fans out is dropped as an orphaned reply |
| DispatcherRouting.ShapesOverRuns | go/fluxbee-go-sdk/dispatcher.go:885-945 | a shape is known exactly when some call so far succeeds with it by name and the profile does not fan it out |
| DispatcherEnds.EveryMessageEnds | go/fluxbee-go-sdk/dispatcher.go:744-806 | a message ends at the first pre-pending rule that takes it, else with its waiter, else late, else orphaned, else at the first post-pending rule, else unmatched |
| DispatcherEnds.ExactReplyAnswers | go/fluxbee-go-sdk/dispatcher.go:750-792 | a reply whose name the matcher succeeds with is written to its waiter as the answer |
| DispatcherEnds.CommandRouted | go/fluxbee-go-sdk/dispatcher.go:976-994 | a command goes to the end of its queue while it holds fewer than 64, else it is counted |
| DispatcherEnds.BroadcastRouted | go/fluxbee-go-sdk/dispatcher.go:996-1010 | every subscriber with fewer than 64 waiting gets it, each other one is counted |
| DispatcherEnds.RoutedByEnd | go/fluxbee-go-sdk/dispatcher.go:744-806 | queues, counters and waiters change by the end of the message only |
| DispatcherEnds.ReadersTakeOldest | go/fluxbee-go-sdk/dispatcher.go:996-1036 | a reader takes the oldest message of its own queue |
| DispatcherRouting.DropsCounted | go/fluxbee-go-sdk/dispatcher.go:976-1042 | over every run of a built profile without a name clash, per command channel: routed = enqueued + counted drops |
| DispatcherRouting.CountedIff | go/fluxbee-go-sdk/dispatcher.go:1038-1042 | one message makes that count wrong exactly when its disposition, known beforehand, fans out to a full subscriber under a clashing name |
| DispatcherRouting.ClashMiscounts | go/fluxbee-go-sdk/dispatcher.go:1038-1042 | a built profile and a run in which a command channel is charged for a broadcast's drop |
| DispatcherRouting.NeverMissing | go/fluxbee-go-sdk/dispatcher.go:976-984 | a built profile never routes to a missing command channel |
| DispatcherRouting.Dispatcher.constructor | go/fluxbee-go-sdk/dispatcher.go:424-461 | one empty queue per declared channel |
| DispatcherRouting.Dispatcher.DeliverMessage | go/fluxbee-go-sdk/dispatcher.go:744-806 | is the specified disposition, in the source's order |
| DispatcherRouting.Dispatcher.Resolve | go/fluxbee-go-sdk/dispatcher.go:750-792 | takes out exactly a pending entry whose matcher classifies the message, closes its trace_id and writes its result to the waiter's channel |
| DispatcherRouting.Dispatcher.DeliverUnclaimed | go/fluxbee-go-sdk/dispatcher.go:794-806 | the stale table, then the learned shapes, then the post-pending rules |
| DispatcherRouting.Dispatcher.DropReply | go/fluxbee-go-sdk/dispatcher.go:796-804 | late first, then orphaned, each counted once |
| DispatcherRouting.Dispatcher.RouteByRules | go/fluxbee-go-sdk/dispatcher.go:966-974 | the first matching rule decides |
| DispatcherRouting.Dispatcher.RouteToTarget | go/fluxbee-go-sdk/dispatcher.go:976-1016 | enqueues, counts a drop on a full queue, fans out, or drops |
| DispatcherRouting.Dispatcher.FanOut | go/fluxbee-go-sdk/dispatcher.go:996-1010 | every subscriber with room gets the message, every other one is counted |
| DispatcherLate.TableOverRuns | go/fluxbee-go-sdk/dispatcher.go:811-877 | in every state reached with each trace_id closed once and clocks that do not go back, the table is exactly the last 1024 closings of the past 30 s as of the last look, which is named |
| DispatcherLate.LateReplyDropped | go/fluxbee-go-sdk/dispatcher.go:796-801 | over every such run from a connected dispatcher, a message that no pre-pending rule and no waiter takes ends as a late reply exactly when it answers one of those closings; it is then counted and reaches no queue |
| DispatcherLate.PastTheTableIff | go/fluxbee-go-sdk/dispatcher.go:681-685 | a message neither pending nor in the table reaches a post-pending rule exactly when one matches and its shape was not learned |
| DispatcherLate.WindowLetsReplyThrough | go/fluxbee-go-sdk/dispatcher.go:652-685 | the run of a call that times out, its shapes learned, with the reply between removal and noting: enqueued as a command exactly when the matcher does not succeed with its exact name, else dropped as orphaned |
| Seqlock.Read | go/fluxbee-go-sdk/identity_shm.go:140-167 | over every interleaving of cell-by-cell writes, an answer equals one uninterrupted scan of the start changed by whole write sessions only, as of a state seen during the read; there is one if nothing is bumped during the first attempt, and if the counter settles before as many loads as there are attempts |
| Seqlock.ReadRouterStatus | go/sy-opa-rules/main.go:538-594 | policy version and load status are of one generation, current during the read; there is an answer if the counter settles within the first 100 loads |
| Seqlock.Copy | go/fluxbee-go-sdk/identity_shm.go:140-167 | the loads of one attempt are the scan of whatever cells they all saw |
| Seqlock.RunInv | go/sy-opa-rules/main.go:439-508 | only the holder of the mutex writes, the counter is odd exactly meanwhile, and what is left to write completes its session |
| Seqlock.EvenIsPublished | go/sy-opa-rules/main.go:439-508 | at an even counter the cells are the result of whole sessions |
| Seqlock.Stable | go/sy-opa-rules/main.go:569-580 | while an even counter stands still the cells do not change |
| Seqlock.AttemptStable | go/sy-opa-rules/main.go:569-580 | the same even 64-bit word at both ends means one generation throughout |
| WasmExports.ExportFoundExactly | go/sy-opa-rules/main.go:1394-1449 | for every module of the binary format, with any LEB128 encodings, the lookup answers exactly whether it exports the name; its header is valid |
| WasmExports.ValidIff | go/sy-opa-rules/main.go:1468-1480 | a header is valid exactly for the eight bytes of magic and version 1 |
| WasmExports.CutModule | go/sy-opa-rules/main.go:1394-1449 | a module cut to k bytes answers for its exports exactly when the whole export section is among them |
| WasmExports.WasmHasExport | go/sy-opa-rules/main.go:1394-1449 | on any bytes stays in bounds, ends, and is the specified lookup |
| WasmExports.FindExports | go/sy-opa-rules/main.go:1401-1447 | the section loop finds the first export section |
| WasmExports.SearchEntries | go/sy-opa-rules/main.go:1420-1443 | the export loop |
| WasmExports.ReadU32Leb | go/sy-opa-rules/main.go:1451-1466 | up to five groups of seven bits, or-ed and kept to 32 bits, and their length; none without an end byte |
| WasmExports.LebReadsBack | go/sy-opa-rules/main.go:1451-1466 | every encoding of a u32 by the specification, padded or not, is read back with its length |
| WasmExports.LebCutShort | go/sy-opa-rules/main.go:1451-1466 | an encoding cut short is refused |
| WasmExports.OrIsAdd | go/sy-opa-rules/main.go:1451-1466 | the bitwise or of a word below 2^k and a multiple of 2^k is their sum |
| WasmExports.ShiftIn | go/sy-opa-rules/main.go:1451-1466 | or-ing in the next group, kept to 32 bits, adds it: the step of the reading loop |
| IdentityTable.LookupIsScan | go/fluxbee-go-sdk/identity_shm.go:169-209 | on a well-formed table the probe agrees with a scan of the whole table, for every key |
| IdentityTable.LookupFindsLive | go/fluxbee-go-sdk/identity_shm.go:169-209 | with right hashes a key is found exactly when some live slot stores it, with its ILK |
| IdentityTable.ProbeExact | go/fluxbee-go-sdk/identity_shm.go:169-209 | on any table, what a probe finds: a matching slot with no empty one before it, within N probes |
| IdentityTable.SearchMappings | go/fluxbee-go-sdk/identity_shm.go:169-209 | the loop over raw bytes is that probe; a region too short holds nothing |
| IdentityTable.LayoutReadsBack | src/shm/mod.rs:448-457 | the reader's offsets are those of the writer's record, wherever an entry lies |
| IdentityTable.FlagBits | go/fluxbee-go-sdk/identity_shm.go:179-187 | live and tombstoned by the two lowest bits of the flags |
| IdentityRead.LookupIch | go/fluxbee-go-sdk/identity_shm.go:140-167 | while writers write byte by byte, an answer is the lookup, and on a well-formed table the scan, in one generation published during the read; there is one once the counter settles within the attempts |
| IdentityRead.ScanIsLookup | go/fluxbee-go-sdk/identity_shm.go:169-209 | the byte loads of an undisturbed probe find what the lookup finds |
| IdentityRead.GenerationAnswersMap | go/fluxbee-go-sdk/identity_shm.go:140-209 | with sessions that upsert and remove harmless keys from a blank table on, the lookup in every generation is that of the map |
| IdentityTable.FixedStrMatches | go/fluxbee-go-sdk/identity_shm.go:263-272 | compares the bytes before the first NUL |
| IdentityTable.FixedRoundTrip | src/shm/mod.rs:2298-2303 | a string written into a fixed buffer is read back exactly when it fits and holds no NUL |
| IdentityTable.IchHash | go/fluxbee-go-sdk/identity_shm.go:226-247 | FNV-1a over the framed key |
| IdentityTable.HashOfOneByte | go/fluxbee-go-sdk/identity_shm.go:226-247 | the published value of the hash for one byte |
| IdentityTable.FramedInjective | src/shm/mod.rs:2343-2372 | the delimiters leave no ambiguity between keys |
| IdentityTable.UpsertRefines | src/shm/mod.rs:3623-3695 | an accepted upsert of any key on any well-formed table keeps it well formed and sets that one key, none for a key with a NUL, exactly when the key is harmless; refused only when every slot is taken by other keys |
| IdentityTable.NulHarmlessIff | src/shm/mod.rs:3623-3695 | on any well-formed table a key with a NUL changes no lookup exactly when its hash differs from that of its stored form, or that form is met before the first free slot, or has the same ILK |
| IdentityTable.PutFoundIff | src/shm/mod.rs:3623-3695 | an accepted put is found again exactly when its strings fit and hold no NUL |
| IdentityTable.NulPutLeaks | src/shm/mod.rs:3623-3733 | each accepted put of a key with a NUL takes one more slot, and its removal finds none |
| IdentityTable.NulPutsFill | src/shm/mod.rs:3623-3695 | n puts of one such key leave n more live slots, up to the whole table |
| IdentityTable.RemoveRefines | src/shm/mod.rs:3697-3733 | a removal keeps it well formed and takes out one key |
| IdentityTable.RunStandsFor | src/shm/mod.rs:3623-3733 | over every run of upserts and removals of any keys, the table stands for a map after each of them exactly when no accepted put is harmful; lookups are then those of the map |
| IdentityTable.ClearAgreesIff | src/shm/mod.rs:1934-1951 | after a clear, lookups agree with the scan exactly when no cleared slot lies on the path of one that stays |
| IdentityTable.ClearScan | src/shm/mod.rs:1934-1951 | a clear takes exactly the mappings of that ILK out of the table |
| IdentityTable.ClearHidesNeighbour | src/shm/mod.rs:1934-1951 | for any two keys with one home in a table of two, clearing the first one's ILK hides the second mapping |
| IdentityTable.BlankStandsFor | src/shm/mod.rs:4008-4019 | a blank table stands for the empty map |
| IdentityTable.Mappings.constructor | src/shm/mod.rs:4008-4019 | blank slots, count zero |
| IdentityTable.Mappings.Upsert | src/shm/mod.rs:1687-1731 | too long, full, inserted or updated, each exactly when; the count stays the number of live slots |
| IdentityTable.Mappings.Remove | src/shm/mod.rs:1994-2011 | leaves a tombstone in the found slot and counts it |
| IdentityTable.Mappings.ClearForIlk | src/shm/mod.rs:1934-1951 | blanks exactly the ILK's slots and counts them |
| PolicyPublish.Publisher.Publish | go/sy-opa-rules/distribution.go:88-129 | after every single file step, failed or not, a manifest is absent, names no policy, or names a wasm present with its hash; a publication that ends names the running policy with its own version and entrypoint, 1 and router/target standing in for missing ones, from any folder |
| PolicyPublish.Publisher.RepublishIfStale | go/sy-opa-rules/distribution.go:260-283 | success means the manifest names the installed policy; a readable manifest with its hash is not touched, any other is published again; the folder is sound exactly when it was or needed publishing |
| PolicyPublish.MissingWasmStays | go/sy-opa-rules/distribution.go:260-283 | a folder with the right manifest and no wasm is unsound and needs no publishing |
| PolicyPublish.Publisher.WriteWasm | go/sy-opa-rules/distribution.go:359-366 | temporary file and rename: the wasm appears whole or not at all |
| PolicyPublish.Publisher.WriteManifest | go/sy-opa-rules/distribution.go:359-366 | the same for the manifest |
| PolicyPublish.Publisher.RemoveOthers | go/sy-opa-rules/distribution.go:117-126 | only the named wasm stays, and those whose removal failed |
| PolicyReplica.EveryRunIntegral | go/sy-opa-rules/distribution.go:144-192 | whatever arrives in whatever order and state, with restarts, what is installed and what the routers hold has a published hash in every state exactly when no install is cut short inside the wasm |
| PolicyReplica.StepIntegralIff | go/sy-opa-rules/distribution.go:144-192 | the same for one step, with the guard of the failing branch |
| PolicyReplica.EveryRunInParts | go/sy-opa-rules/distribution.go:144-192 | with cut installs, it is always a front part of a published policy |
| PolicyReplica.ConvergesIff | go/sy-opa-rules/distribution.go:195-255 | once the named loadable wasm is there, one sync installs it; the region follows and a second sync writes nothing exactly when it fits the region |
| PolicyReplica.PublishedReachesReplica | go/sy-opa-rules/distribution.go:88-206 | a replica whose folder is a sound publication runs the published wasm after one clean sync; it has the published version and entrypoint, in every run until another manifest, exactly when the wasm was new to it or it had them, and no start lost them |
| PolicyReplica.ArrivesAsPublished | go/sy-opa-rules/distribution.go:88-206 | a policy new to the replica arrives as it was published exactly when it had a version and an entrypoint; the routers are handed the same |
| PolicyReplica.ArrivalInstalls | go/sy-opa-rules/distribution.go:144-192 | the named wasm arrives whole and the next clean sync installs it |
| PolicyReplica.ArrivalWaitedFor | go/sy-opa-rules/distribution.go:166-175 | with other bytes or taken away, no sync changes what is installed |
| PolicyReplica.StartHandsOver | go/sy-opa-rules/main.go:597-636 | the region after a start, by what is installed, loadable and fits, with its version and entrypoint |
| PolicyReplica.SyncHandsOver | go/sy-opa-rules/distribution.go:227-255 | the region after a sync that installs nothing, likewise |
| PolicyReplica.UnloadableMarks | go/sy-opa-rules/main.go:1036-1043 | a wasm that cannot be loaded is not installed and marks the region |
| PolicyReplica.ClearCutShort | go/sy-opa-rules/main.go:1159-1180 | what a clear cut short leaves, and that nothing is told to the routers |
| PolicyReplica.NoticeWaits | go/sy-opa-rules/distribution.go:329-337 | a notice waits behind those before it |
| PolicyReplica.SameWasmNeverReaches | go/sy-opa-rules/distribution.go:162-165 | the same wasm published again under another version or entrypoint is never taken over |
| PolicyReplica.ClearConverges | go/sy-opa-rules/distribution.go:195-255 | a cleared policy converges the same way, to an empty region of version 0 |
| PolicyReplica.EveryAnswerHolds | go/sy-opa-rules/distribution.go:340-356 | over every run each notice is answered at most once, with the announced policy installed and, if loadable and fitting, in the region |
| PolicyReplica.NoticeFate | go/sy-opa-rules/distribution.go:340-356 | after a sync a notice is answered, still kept, or too old by the clock as it was looked at |
| PolicyReplica.KeptExactly | go/sy-opa-rules/distribution.go:340-356 | the filter keeps exactly the unsatisfied notices younger than 5 minutes, each by its own reading of the clock |
| PolicyReplica.OldMetadataStays | go/sy-opa-rules/main.go:1482-1508 | after a metadata write that never began the old version and entrypoint stay, after one that failed none, as long as the manifest does |
| PolicyReplica.MetadataRightIff | go/sy-opa-rules/main.go:1482-1508 | after an install that wrote the wasm, and in every run until another manifest, version and entrypoint are the manifest's exactly when the metadata was written, or its write never began and it was the same before, and no start lost it |
| PolicyReplica.TornReachesRouters | go/sy-opa-rules/distribution.go:208-222 | a torn install reaches the routers exactly when the cut left the whole export section |
| PolicyService.Replica.constructor | go/sy-opa-rules/main.go:430-437 | nothing installed, no notice, an empty region |
| PolicyService.Replica.WriteRegion | go/sy-opa-rules/main.go:498-508 | the region carries the wasm's hash, none, or an error when it does not fit |
| PolicyService.Replica.LoadCurrent | go/sy-opa-rules/main.go:597-636 | is the specified restart, a failed rewrite of the metadata included; loaded exactly when nothing is installed or what is passes the checks |
| PolicyService.Replica.ClearInstalled | go/sy-opa-rules/main.go:1159-1180 | the specified clear, by how far the removals got |
| PolicyService.Replica.InstallStaged | go/sy-opa-rules/main.go:1015-1062 | checks, then files, then region, by how far the writes got |
| PolicyService.Replica.SyncFromPublished | go/sy-opa-rules/distribution.go:144-192 | is the specified sync; reloads are told exactly when it installs or clears |
| PolicyService.Replica.EnsureRegionMatchesCurrent | go/sy-opa-rules/distribution.go:227-255 | is the specified repair |
| PolicyService.Replica.HandleSyncNotice | go/sy-opa-rules/distribution.go:329-337 | appends one notice |
| PolicyService.Replica.AnswerPendingSyncs | go/sy-opa-rules/distribution.go:340-356 | filters in place, reading the clock for each notice: answers and kept notices are exactly the specified ones, in order |
| PolicyService.Replica.SyncNow | go/sy-opa-rules/distribution.go:195-206 | sync, repair, answer, in this order |

## Left out

- Sockets, mmap, SQLite, Syncthing, tar, the OPA compiler, wasmtime and cron parsing: their answers are parameters.
- The checks of the fields of a schedule request (canonical target, JSON, payload size) and the resolution of a client_ref to a uuid before a cancel or reschedule: each looks at one request only, and no later step depends on it.
- Read-modify-write interleavings of request handlers with the scheduler: a handler is one step.
- The `index` field of heap entries: written, never read.
- TimerHeaps.TimerHeap.Push: the array of Go's container/heap is a field of type `seq` that the methods reassign.
- TimerModel.OneShotWindow: stated for clocks below 2^62 ms.
- TimerList.List: for an unchanging table whose uuids end in no white space.
- The encoding of a listed timer is a size function, so the 96 KiB bound is on the sum of those sizes.
- Seqlock.Read: the memory model is sequential consistency; the byte layout of the OPA header and the deadline of the identity readers (here a number of attempts) are not modelled.
- Closings of trace_ids and the learning of shapes are steps of the routing machine, not of the waiters'; in the routing machine a delivery is not interleaved with callers.
- A wasm file of length zero and an absent one are not told apart.
- Log lines, the one-time warning per full channel, status payloads and last-error texts.
- IdentityTable.SearchMappings: requires at least one slot, as its caller checks; the offsets of the tables before it in the region and the lookups by ILK id or handler are not modelled.
- PolicyPublish.Publisher.RepublishIfStale: starts from an installed policy that passed its checks; it does nothing for a corrupt one.
- Rollback, compile and apply commands of the motherbee's operator: the same install path as a sync.
- `src/opa.rs`, `src/tls_material.rs`, `src/mesh_hmac.rs`, package and manifest handling, site, lab and scripts: wrappers and tooling.
