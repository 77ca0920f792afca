# Verification model of the Duroxide runtime core

This project models the two state machines that carry Duroxide's guarantees, and proves what they
promise over every run.

**The replay side** (`src/lib.rs`). An orchestration turn is replayed into a `CtxInner`: tokens are
bound to schedule ids, completions wake pollers, external events are matched to subscriptions by
position, mailbox messages by arrival order, dropped futures are collected for cancellation, and
key-value writes are applied to a seeded map.

**The provider** (`src/providers/sqlite_common.rs`, with the promises of
`src/provider_validation/`). Queues with peek-locks, instance locks with fencing tokens, the atomic
ack of a turn, worker rows and their cancellation, two-level key-value tables, cascading deletion
and pruning.

To verify everything: `dafny verify dfyconfig.toml`.

## How it is organised

| file | role |
|---|---|
| `Common` | options, results, small facts about collections |
| `SubscriptionLog`, `BoardRuns`, `NameIsolation` | the reference picture of matching: a list of subscriptions, a set of cancelled ones, a list of arrivals per name; theorems over all runs |
| `ExternalEvents` | the maps and the index compression of positional events, equal to the reference picture |
| `Mailbox` | first-in first-out matching, exactly once, in any poll order |
| `TokenTable` | bindings, results and wakers over all runs |
| `Cancellation` | drops, the four cancellation lists, clearing |
| `KvStore`, `KvTurns` | key-value events, the two tables, the merged view, statistics; the calls of a turn and of its replays at other clock readings |
| `ReplayContext`, `DurableFutures` | the classes `CtxInner` and `DurableFuture` with the source's fields; each method is tied to a step of the machines above |
| `ChildIds`, `Retry` | child instance ids; backoff and the two retry loops |
| `ProviderDb` | the provider's tables as a value, every operation as a step, runs from the empty state |
| `ProviderFrames`, `ProviderFencing`, `ProviderMessages`, `ProviderOrder`, `ProviderWorker`, `ProviderAttempts`, `MessageAttempts`, `ProviderInstances`, `ProviderHistory`, `ProviderKv`, `ProviderTiming` | theorems over all interleavings of those steps |
| `Provider` | the class `Provider`: the statements of each transaction in order, with rollback, proved equal to the steps |

A run is any sequence of operations with any arguments. Time is a counter that only `OpTick`
advances. A fetch step may pick any eligible instance or row; the class picks the first one, as the
queries do. Lock tokens are fresh numbers, queue ids are the auto-increment keys.

## Where the code and its promises differ

The model follows the code. Where a promise does not hold of it, or holds only under a condition, the
exact condition is proved, with a concrete run or state that fails it where that helps.

- **Cancelling a subscription can hand a payload out twice** (`src/lib.rs:1862-1864`). Slots are
  counted over the subscriptions that are active now, so a cancellation shifts everybody behind it.
  `BoardRuns.UnguardedCancelHandsOutTwice` is the run; `SubscriptionLog.CancelKeepsObservedSlots`
  gives the exact condition, which the run theorems on matching take as their guard, and
  `BoardRuns.NeverTwiceIffGuarded` shows that over whole runs it is exactly what rules this out.
- **Arrivals without a slot** (`src/lib.rs:1828-1834`). The comment says the arrival list only holds
  events with an active slot. `ExternalEvents.CancelKeepsSlots` says exactly when a cancellation
  keeps that, and `StaleEventReachesTheNextSubscription` what happens otherwise.
- **Ignored abandons decrement every message of the instance** (`src/providers/sqlite_common.rs:2239-2249`),
  not only the fetched batch. `MessageAttempts.AttemptsExactIffAbandonsClean` states when counters are exact.
- **Keys written in the current turn can be pruned.** The source's comments (`src/lib.rs:1669-1673`, `3396-3402`)
  say they never are, marked with the largest timestamp (the guide, `docs/ORCHESTRATION-GUIDE.md:718`, says they
  are); the code stores the current time, and `OlderKeysByLastTouch` says exactly which keys are due.
- **Pruning is not deterministic under replay** (`src/lib.rs:1669-1673`). Setting a key reads the wall clock again
  (`src/lib.rs:3300-3312`), and a prune clears keys in the order of a hash map, while replay compares the cleared keys
  one by one (`src/runtime/replay_engine.rs:742-774`, `1935-1941`). `KvTurns.ReplayCanMatchIff` and
  `ReplayAlwaysMatchesIff` give the exact conditions; `LaterClockCannotReplay` and `OtherOrderIsNoReplay` are turns
  that fail them.
- **An unknown instance can hold up the whole queue** (`src/providers/sqlite_common.rs:755-785`, `1062-1071`): work
  that may race with a start is put back, and the next fetch picks it again before anything else.
  `ProviderOrder.QueueIsServedIff` says exactly when the queue can be served, `CancelOfUnknownBlocks` is a run.
- **Mapping a completed future re-arms its drop** (`Cancellation.MapReArms`); `DropIsReportedIffUnfinished` says
  exactly which dropped futures are reported.
- **A caller's child id that starts with `sub::` is not explicit**: it counts as automatic and gets the
  parent's prefix; `ChildIds.ExplicitIdKept` has the exact condition for an id to be used unchanged.
- **The backoff exponent wraps after attempt 2^31** (`Retry.DelayWrapsAfterTwo31`).
- **keep_last can leave more executions than documented**, because the current and the running ones are
  kept besides the n largest: `ProviderHistory.KeepLastOneLeavesThree` is a run in which one is promised and
  three are left, `KeepLastMeetsPromise` the exact condition.
- `executions.completed_at` is set for every status an ack reports, running included, and the value
  total of the statistics counts characters where the documentation says bytes; the model does the same.
- The validation suite leaves open whether worker rows survive a forced deletion
  (`src/provider_validation/cancellation.rs:1246-1253`); the SQL provider deletes them, and so does the model.
- **Replay rebuilds the client's view only if acks behave**: the provider does not check to which execution
  changes are acked. `EarlyExecutionLosesKeys` is a run that loses a key, `ProviderKv.ReplayRebuildsIff` has the exact
  condition, and `ReplayRebuildsTheView` shows that
  the dispatcher's acks meet it, late batches of finished instances included.

## Model

| member | source | states |
|---|---|---|
| SubscriptionLog.SlotIsActivePosition | src/lib.rs:1846-1859 | The slots of a name's active subscriptions are exactly 0..active-1, without gap or repetition: slot k belongs to the k-th active subscription and to no other |
| SubscriptionLog.SlotsFollowBindOrder | src/lib.rs:1905-1914 | Of two active subscriptions of one name the one bound first has the smaller slot |
| SubscriptionLog.ReceivesByPosition | src/lib.rs:1835-1859 | A subscription receives v if and only if some position holds the subscription in the active list and v in the arrival list |
| SubscriptionLog.CancelKeepsObservedSlots | src/lib.rs:1862-1864 | Cancelling moves no observed subscription if and only if it was cancelled already, was never bound, or neither it nor a later subscription of its name has been observed |
| SubscriptionLog.SlotAfterCancel | src/lib.rs:1846-1856 | One subscription keeps its slot through a cancellation if and only if the cancelled one is not an active subscription of the same name bound no later |
| BoardRuns.ObservationsHold | src/lib.rs:3646-3656 | In every run with fresh ids and guarded cancellations, whatever a poll has returned is what the same poll returns for the rest of the run |
| BoardRuns.PayloadsAreHandedOutOnceInOrder | src/lib.rs:1798-1859 | Over every guarded run: two observations on a name are of one subscription exactly when they are of one arrival; values never change; earlier subscriptions get earlier payloads |
| BoardRuns.ObservationsHoldIffGuarded | src/lib.rs:1846-1864 | Over a run with fresh ids every observation goes on holding at every later point if and only if every cancellation respects the guard |
| BoardRuns.NeverTwiceIffGuarded | src/lib.rs:1798-1864 | Over a run with fresh ids every cancellation respects the guard if and only if no point of the run can be continued, by polls and fresh subscriptions, to one where two subscriptions were given the same arrival |
| BoardRuns.UnguardedCancelHandsOutTwice | src/lib.rs:1862-1864 | A concrete run: two arrivals, a poll, the cancellation of an earlier subscription, and the payload just returned goes to a third subscription as well |
| NameIsolation.NamesAreIsolated | src/lib.rs:1798-1864 | After any history a subscription receives what it would after only the steps that concern its own name |
| NameIsolation.QueuesAreIsolated | src/lib.rs:1869-1925 | After any history a dequeue is given what it would be after only the steps of its own queue, and of the queue's subscriptions the same ones are resolved |
| NameIsolation.StepsOnDifferentNamesCommute | src/lib.rs:1798-1925 | Two neighbouring steps of which at most one concerns a subscription's name may be exchanged anywhere in a history: its event, its message and whether it is resolved stay the same |
| ExternalEvents.CompressionIsExact | src/lib.rs:1843-1858 | For every active subscription the index subtraction does not underflow and equals its position in the plain list of active subscriptions of its name |
| ExternalEvents.GetMatchesBoard | src/lib.rs:1835-1859 | The compressed lookup over maps answers every id, bound or not, cancelled or not, as the two-list picture does |
| ExternalEvents.PendingSlotMeansWaiting | src/lib.rs:1812-1820 | A slot is pending if and only if some active subscription of the name would still get nothing |
| ExternalEvents.RunMatchesBoard | src/lib.rs:1798-1864 | After every history with fresh ids the four maps answer every subscription as the reference board, so the run theorems are about these maps |
| ExternalEvents.RaiseKeepsSlots | src/runtime/replay_engine.rs:961-977 | Delivering only when a slot is pending keeps every arrival list no longer than its active subscriptions |
| ExternalEvents.BindKeepsSlots | src/lib.rs:1798-1810 | Binding a fresh subscription keeps that bound for every name |
| ExternalEvents.CancelKeepsSlots | src/lib.rs:1828-1834 | The claim that arrivals always have an active slot survives a cancellation if and only if the id was not active or its name still has a pending slot |
| ExternalEvents.StaleEventReachesTheNextSubscription | src/lib.rs:1828-1834 | Otherwise the event left behind is received by the next subscription of the name |
| Mailbox.PeekMatchesBoard | src/lib.rs:1887-1925 | The scan over the subscription list gives an unresolved subscription exactly its position's message, and a resolved or cancelled one nothing |
| Mailbox.MessagesAreHandedOutOnceInOrder | src/lib.rs:1884-1925 | Over every guarded run two successful dequeues are of different subscriptions and different messages, and earlier subscriptions get earlier messages |
| Mailbox.HandedHoldIffGuarded | src/lib.rs:1879-1925 | Every message handed out stays the one its subscription is entitled to, at every later point, if and only if every cancellation respects the guard |
| Mailbox.DequeueAllAnswers | src/lib.rs:3696-3704 | Polling any repetition-free list of subscriptions answers each as if it had been polled alone |
| Mailbox.PollOrderIsIrrelevant | src/lib.rs:1906-1909 | Two orders over the same subscriptions leave the same mailbox and hand every subscription the same message |
| Mailbox.FirstOnesResolve | src/lib.rs:1906-1921 | Polling all active subscriptions of a queue resolves exactly the first min(active, arrived) of them |
| Mailbox.ResolvedHaveTheirMessage | src/lib.rs:1917-1921 | In every guarded run each resolved subscription is one whose message has arrived |
| TokenTable.BindKeepsInverse | src/lib.rs:1753-1758 | Binding or rebinding keeps the two binding maps inverse if and only if no other token owns the schedule id |
| TokenTable.RunMatchesHistory | src/lib.rs:1753-1795 | Over every run with fresh ids a token's binding, result and waker are the last bound id, the last completion delivered to it while bound, and the waker of its last pending poll up to same-task equivalence |
| TokenTable.DeliveryWakes | src/lib.rs:1766-1776 | A delivery returns the waker of the owning token's last pending poll; for an id nobody owns it changes nothing and wakes nobody |
| TokenTable.WokenExactlyOnce | src/lib.rs:2622-2627 | A token polled pending and then completed wakes that poll's task exactly once, whatever happens to other tokens in between |
| TokenTable.AnsweredHasNoWaker | src/lib.rs:668-680 | From an answered poll on, of any kind of future, no run leaves a waker for the token until a later poll is pending |
| TokenTable.PollIsAnsweredIff | src/lib.rs:3579-3840 | After any run a poll is answered if and only if, by kind: an activity has either of its two results, a sub-orchestration either of its own two, a timer has fired, a waited-for event or message is there; any other result leaves the waker in place |
| Cancellation.ExactlyOneList | src/lib.rs:1928-2020 | A bound token's schedule id is in exactly one of the four lists if the token is cancelled, no timer, and (sub-orchestration) has its instance mapping; in none otherwise |
| Cancellation.ListsByKind | src/lib.rs:1928-2000 | A schedule id is in the activity, external-wait or queue list if and only if some cancelled token of exactly that kind is bound to it |
| Cancellation.UnfinishedDropIsListedByKind | src/lib.rs:1928-2031 | Over every run the schedule id of a token is in the list of the kind the token was scheduled with, and in no other, exactly while an unfinished drop is outstanding; a sub-orchestration with the instance last bound to it; a timer in none |
| Cancellation.ListedExactlyAfterUnfinishedDrop | src/lib.rs:683-695 | A token is on the cancellation list if and only if its future was dropped unfinished and the list was not cleared since |
| Cancellation.NeverListedAgain | src/lib.rs:2028-2031 | A drop is reported in at most one turn: after a clear the token is never listed again |
| Cancellation.CompletedIsNeverListed | src/lib.rs:683-695 | A future that completed and is not mapped afterwards is never reported |
| Cancellation.DropIsReportedIffUnfinished | src/lib.rs:579-695 | Over every run, dropping a live future reports its token if and only if the future never completed or was mapped after its last completion |
| Cancellation.MapChainKeepsIdentity | src/lib.rs:579-601 | Any chain of maps over a live unfinished future leaves token, kind and report unchanged |
| Cancellation.MapReArms | src/lib.rs:579-601 | After any history, a future that completes and is then dropped is not reported, and one that completes, is mapped and then dropped is |
| Cancellation.VisitToken | src/lib.rs:1975-2003 | Visiting cancelled tokens one by one adds each qualifying schedule id once, never one already listed |
| DurableFutures.DurableFuture.PollInner | src/lib.rs:3636-3662 | The poll closure by kind: nothing before the token is bound, then the completion, the arrived event, or the next message |
| DurableFutures.DurableFuture.Poll | src/lib.rs:668-680 | A ready poll completes the future and gives up its waker, a pending one registers the waker; only a dequeue that returns a message consumes it |
| DurableFutures.DurableFuture.AnswerOfRun | src/lib.rs:3579-3840 | After any run of bindings, deliveries, polls and drops, an activity or sub-orchestration is answered with its last completion, as a value if it succeeded and as an error if it failed, a timer once it fired, and any other pairing stays pending |
| DurableFutures.DurableFuture.MapFuture | src/lib.rs:579-601 | The mapped future has the same token and kind and starts as not completed |
| DurableFutures.DurableFuture.Drop | src/lib.rs:683-695 | Dropping cancels the token if and only if the future has not completed |
| DurableFutures.DurableFuture.WithTag | src/lib.rs:630-662 | Tagging succeeds if and only if the future is an activity whose action is still undrained, and changes that action's tag only |
| ReplayContext.CtxInner.constructor | src/lib.rs:1677-1735 | A new context satisfies all invariants and carries the provider's snapshot as its key-value state |
| ReplayContext.CtxInner.EmitAction | src/lib.rs:1740-1745 | Tokens number the emitted actions; nothing else changes |
| ReplayContext.CtxInner.DrainEmittedActions | src/lib.rs:1748-1750 | Hands over the undrained actions in order and keeps the invariants |
| ReplayContext.CtxInner.BindToken | src/lib.rs:1753-1758 | Keeps the binding maps inverse and acts as the table's bind step |
| ReplayContext.CtxInner.DeliverResult | src/lib.rs:1766-1776 | Acts as the table's delivery step and returns the waker to wake |
| ReplayContext.CtxInner.RegisterTokenWaker | src/lib.rs:1783-1791 | Acts as the table's registration step |
| ReplayContext.CtxInner.BindExternalSubscription | src/lib.rs:1798-1810 | Appends the subscription to the reference log, keeping maps and log linked |
| ReplayContext.CtxInner.HasPendingSubscriptionSlot | src/lib.rs:1812-1820 | True if and only if some active subscription of the name would get nothing |
| ReplayContext.CtxInner.DeliverExternalEvent | src/lib.rs:1823-1826 | Acts as the reference board's delivery |
| ReplayContext.CtxInner.GetExternalEvent | src/lib.rs:1835-1859 | Returns what the reference board gives the subscription |
| ReplayContext.CtxInner.MarkExternalSubscriptionCancelled | src/lib.rs:1862-1864 | Acts as the reference board's cancellation |
| ReplayContext.CtxInner.BindQueueSubscription | src/lib.rs:1869-1871 | Acts as the mailbox's bind step and keeps ids distinct |
| ReplayContext.CtxInner.DeliverQueueMessage | src/lib.rs:1874-1876 | Acts as the mailbox's delivery |
| ReplayContext.CtxInner.MarkQueueSubscriptionCancelled | src/lib.rs:1879-1881 | Acts as the mailbox's cancellation |
| ReplayContext.CtxInner.GetQueueMessage | src/lib.rs:1887-1925 | Scans the subscriptions for name and position, and equals the mailbox's dequeue step: result and resolved set |
| ReplayContext.CtxInner.MarkTokenCancelled | src/lib.rs:1969-1973 | Adds the token with its kind to the cancellation world |
| ReplayContext.CtxInner.BindSubOrchestrationInstance | src/lib.rs:2023-2025 | Acts as the instance binding step of the cancellation world |
| ReplayContext.CtxInner.ClearCancelledTokens | src/lib.rs:2028-2031 | Acts as the clear step of the cancellation world |
| ReplayContext.CtxInner.GetCancelledActivityIds | src/lib.rs:1975-1986 | Returns, without repetition, exactly the schedule ids bound to cancelled tokens of activities |
| ReplayContext.CtxInner.GetCancelledExternalWaitIds | src/lib.rs:1989-2000 | Returns, without repetition, exactly the schedule ids bound to cancelled tokens of external waits |
| ReplayContext.CtxInner.GetCancelledQueueIds | src/lib.rs:1928-1939 | Returns, without repetition, exactly the schedule ids bound to cancelled tokens of dequeues |
| ReplayContext.CtxInner.GetCancelledSubOrchestrationCancellations | src/lib.rs:2006-2020 | Returns schedule id and instance of every reportable sub-orchestration, without repetition |
| ReplayContext.CtxInner.SetKvValue | src/lib.rs:3300-3312 | Sets the value with the clock reading as its timestamp and emits exactly the event of that call |
| ReplayContext.CtxInner.ClearKvValue | src/lib.rs:3377-3383 | Removes the key, emits its action and with it exactly the event of that call |
| ReplayContext.CtxInner.ClearAllKvValues | src/lib.rs:3389-3394 | Empties the state, emits its action and with it exactly the event of that call |
| ReplayContext.CtxInner.PruneKvValuesUpdatedBefore | src/lib.rs:3403-3419 | Clears exactly the keys present with an older timestamp, in whatever order the map yields them, one action each, and returns their number |
| ReplayContext.CtxInner.StateIsFoldOfEmitted | src/lib.rs:3300-3395 | In every valid state values and timestamps are the fold of the emitted key-value actions over the seed snapshot: for each key what the last action that touches it left, else the snapshot's entry |
| ReplayContext.CtxInner.OlderKeysByLastTouch | src/lib.rs:1669-1673 | A key is due for pruning if and only if the turn last set it at a clock reading older than the bound, or left it alone and its timestamp in the snapshot is older |
| ReplayContext.ContextsPruneAlikeIff | src/lib.rs:1669-1673 | Two contexts with one snapshot whose key-value events match, timestamps aside, prune the same keys for a bound if and only if every key last set by those events has both its timestamps on the same side of the bound |
| KvTurns.SameKeysIff | src/lib.rs:3403-3419 | At any prune of a turn and of its replay so far, the same keys are due if and only if the two clock readings of every key set before and not cleared since lie on the same side of the bound |
| KvStore.MatchesUpToTime | src/runtime/replay_engine.rs:1935-1941 | Replay takes two key-value events for the same exactly if they are, timestamps aside |
| KvTurns.ReplaysIffSameOrders | src/runtime/replay_engine.rs:742-774 | A replay emits after every call what the turn emitted, as replay compares it, if and only if each prune cleared the same keys in the same order |
| KvTurns.ReplayCanMatchIff | src/runtime/replay_engine.rs:1935-1941 | Some replay of a turn at other clock readings emits after every call what the turn emitted, if and only if for every prune the readings of the keys set before stay on the same side of its bound |
| KvTurns.ReplayAlwaysMatchesIff | src/lib.rs:1669-1673 | Every replay of a turn at other clock readings, whatever the order of its maps, emits what the turn emitted, if and only if for every prune the readings stay on the same side of its bound and it clears at most one key |
| KvTurns.LaterClockCannotReplay | src/lib.rs:3300-3312 | A concrete turn that sets a key at 5 and prunes it with the bound 10: no replay at 15 emits the same |
| KvTurns.OtherOrderIsNoReplay | src/lib.rs:3403-3419 | A concrete turn that prunes two old keys at once: at any clock there is a replay that emits the clears in another order |
| ChildIds.AutoIdRoundTrip | src/lib.rs:885-891 | Parent and event id parse back out of an auto-generated child id, for every parent string, nested ones included |
| ChildIds.AutoIdsDoNotCollide | src/lib.rs:863-891 | Distinct (parent, event id) pairs have distinct child ids |
| ChildIds.DecimalLooks | src/lib.rs:885-891 | Event ids are written in the usual decimal digits, without a zero in front |
| ChildIds.ExplicitIdKept | src/lib.rs:870-891 | An id given by the caller is used unchanged if and only if it does not start with the automatic prefix (or happens to be the generated id) |
| Retry.ScheduleActivityWithRetry | src/lib.rs:2991-3046 | For every sequence of outcomes: stops at the first success or timeout, else returns the last error after max_attempts; schedules exactly the trace of that many attempts |
| Retry.ScheduleActivityWithRetryOnSession | src/lib.rs:3094-3144 | The same for the session variant, every attempt on the session |
| Retry.StopIsUnique | src/lib.rs:2991-3046 | The stopping point is unique, so the outcomes determine result and trace |
| Retry.TraceCounts | src/lib.rs:3000-3045 | n attempts schedule n activities, never end with a sleep, and sleep at most (n-1) times the cap in total for linear and exponential backoff |
| Retry.SessionVariantHasSameTrace | src/lib.rs:3094-3144 | Erasing the session ids turns the session variant's trace into the plain one's |
| Retry.DelaysDoNotDecrease | src/lib.rs:1390-1406 | Delays never shrink from one attempt to a later one, up to attempt 2^31, for every strategy with multiplier at least 1 |
| Retry.DelayWrapsAfterTwo31 | src/lib.rs:1399-1404 | The bound is sharp: at attempt 2^31+1 the exponent wraps negative and the delay falls to at most the first one |
| Retry.LinearDelay | src/lib.rs:1394-1397 | A linear delay is the base times the attempt below the cap, and the cap from there on |
| Retry.ExponentialDelays | src/lib.rs:1398-1404 | The first exponential delay is the base; each later one is the multiplier times the one before, up to the rounding of both, as long as no cap is reached |
| Retry.TotalSleep | src/lib.rs:3000-3045 | n attempts sleep not at all without backoff, n-1 times the delay with a fixed one, and base times n(n-1)/2 with a linear one below its cap |
| Retry.GeometricSleep | src/lib.rs:3000-3045 | With a whole multiplier m and below the cap, exponential backoff sleeps a geometric sum: m-1 times the total plus the base is m times the last delay |
| Retry.TraceShape | src/lib.rs:3000-3045 | A trace starts with the call; a call is followed at once by its timeout timer if there is one; a backoff timer is never zero and stands right before the next call |
| KvStore.AckRefines | src/providers/sqlite_common.rs:1345-1460 | An ack's view afterwards is the fold of its events over the view before; the fetch snapshot changes only at a terminal status, and is then the whole view with an empty delta |
| ProviderKv.AckMergesByStatus | src/providers/sqlite_common.rs:1412-1460 | An accepted ack with status Completed, Failed or ContinuedAsNew leaves an empty delta and a store that is the whole view; with any other status, or none, the store stays as it was |
| ProviderKv.SnapshotIsEndedLog | src/provider_validation/kv_store.rs:1728-1776 | In every run the snapshot that seeds an execution is the fold of all changes up to the last ack that completed, failed or continued as new |
| KvStore.MaterializeRefines | src/providers/sqlite_common.rs:1345-1410 | Each event's rows in the delta, tombstones included, act on the view as the event acts on a plain map |
| KvStore.MergeKeepsView | src/providers/sqlite_common.rs:1412-1460 | Merging the delta into the store changes no client's view |
| KvStore.ReadsAgree | src/providers/sqlite_common.rs:2379-2411 | The per-key read is the lookup in the merged view |
| KvStore.StatsAreOfTheView | src/providers/sqlite_common.rs:2500-2525 | The key count and value total of the statistics query are those of the merged view, before and after a merge |
| ProviderKv.ViewIsOneMap | src/provider_validation/kv_store.rs:1628-2335 | In every run of the provider, with expiry, prunes and deletions, an instance's view is the fold of all changes acked since it came to be, and of those since the last terminal ack over the snapshot |
| ProviderKv.ReplayRebuildsIff | src/runtime/replay_engine.rs:549-556 | At every point of a run replaying the current execution's history over the snapshot gives the client's view, if and only if every ack meets a condition: it acks the current execution; or starts a later one and is terminal or touches every key at which view and snapshot differ; or acks an older one, and its changes leave each key they touch as it is in the view (if terminal: agree with the current execution's last change on each key both touch) |
| ProviderKv.AckReplaysIff | src/providers/sqlite_common.rs:1345-1460 | The same for a single ack |
| ProviderKv.EarlyExecutionLosesKeys | src/providers/sqlite_common.rs:1250-1258 | A concrete run, outside the dispatcher's, in which an execution is acked before the earlier one ended: replay of it lacks a key that clients still read |
| ProviderKv.ReplayRebuildsTheView | src/runtime/dispatchers/orchestration.rs:588-620 | In every run of the dispatcher's acks, late batches of finished instances included, a context seeded with the snapshot that folds the current execution's recorded changes holds exactly the client's values |
| KvStore.FoldTwice | src/runtime/replay_engine.rs:549-556 | Folding the changes of an execution over a snapshot that already contains them changes nothing |
| ProviderKv.AppendExtendsReplay | src/providers/sqlite_common.rs:602-672 | Appending a delta with growing ids extends what replay reads by exactly the delta's changes, in order |
| ProviderKv.StepTables | src/providers/sqlite_common.rs:1345-1460 | Only an accepted ack of the instance and its deletion change an instance's key-value tables |
| ProviderDb.ReachableIsWellFormed | src/providers/sqlite_common.rs:689-2269 | In every reachable state ids and tokens in use were handed out, no two locks share a token, and parents exist and are older than their children |
| ProviderDb.StepKeepsWellFormed | src/providers/sqlite_common.rs:689-2269 | Every provider operation keeps that |
| ProviderFrames.StepFrame | src/providers/sqlite_common.rs:111-3346 | Which tables each operation may touch; clock and counters never run backwards |
| ProviderFencing.LiveUntilReleased | src/provider_validation/lock_expiration.rs:13-243 | A live token is live after a step if and only if the step is not its own successful ack, its abandon, a renewal by nothing, a deletion of the instance or the passing of its time |
| ProviderFencing.DeadStaysDead | src/provider_validation/lock_expiration.rs:705-728 | No operation revives a token that can no longer ack |
| ProviderFencing.DeadForever | src/provider_validation/lock_expiration.rs:705-728 | Over every run a dead token stays dead |
| ProviderFencing.OneAckPerToken | src/provider_validation/atomicity.rs:368-456 | In every run a token acks successfully at most once |
| ProviderFencing.RefusedAckChangesNothing | src/provider_validation/atomicity.rs:9-113 | An ack with a token that expired, was used, superseded or deleted at any earlier point leaves the whole state unchanged |
| ProviderFencing.ExpiredIsDead | src/provider_validation/lock_expiration.rs:13-64 | A held token is dead exactly from its expiry time on, refetched or not |
| ProviderFencing.FetchGivesFreshToken | src/provider_validation/instance_locking.rs:51-78 | A fetch returns a token nobody held, live exactly if the timeout is not zero, and only when no live token held the instance |
| ProviderFencing.LockedIsNotFetched | src/provider_validation/instance_locking.rs:9-47 | While an instance is held by a live token no fetch returns it, and such a fetch changes nothing |
| ProviderFencing.SecondFetchFencesTheFirst | src/provider_validation/lock_expiration.rs:13-64 | From the second fetch of an instance on, the first holder can neither ack nor renew, and its attempts change nothing |
| ProviderFencing.TokenStaysWithInstance | src/providers/sqlite_common.rs:806-822 | A token never moves to another instance |
| ProviderFencing.HolderCallsSucceedIff | src/providers/sqlite_common.rs:2166-2269 | A renewal succeeds exactly while the token holds an unexpired lock, an abandon exactly while it holds one at all; a refused call changes nothing |
| ProviderMessages.MessagesAreConserved | src/provider_validation/instance_locking.rs:338-526 | Over every run a queued message stays queued, unchanged, if and only if no accepted ack, orphan drop or deletion removed it; a removed one never returns |
| ProviderMessages.RemovedAtMostOnce | src/provider_validation/instance_locking.rs:600-674 | No two steps of a run remove the same message |
| ProviderMessages.HeldTokensWereFetched | src/providers/sqlite_common.rs:806-822 | Every held token was handed out by an earlier fetch of that instance |
| ProviderMessages.TagMarksBatch | src/providers/sqlite_common.rs:840-878 | While a token holds its instance, the messages carrying it are exactly those of its batch that are still queued |
| ProviderMessages.AckDeletesExactlyItsBatch | src/provider_validation/instance_locking.rs:425-526 | A successful ack has its own fetch, and removes a queued message if and only if that fetch returned it; everything that arrived during the lock survives |
| ProviderMessages.OnlyOrphansAreDropped | src/provider_validation/queue_semantics.rs:523-622 | A fetch of an unlocked instance with something due returns all of it if the orchestration is known by its row, a start event of its latest execution or a waiting start item; drops all of it and the lock if it is unknown and all are queue messages; and changes nothing otherwise |
| ProviderMessages.OrphansAreGoneForGood | src/provider_validation/queue_semantics.rs:523-622 | Once an unknown orchestration with nothing but queue messages was fetched, none of them is queued at any later point |
| ProviderOrder.CandidateIsServedIff | src/providers/sqlite_common.rs:755-785 | A fetch of the instance with the first due unlocked message changes nothing if and only if that instance is unknown and something other than queue messages is due for it |
| ProviderOrder.QueueIsServedInOrder | src/providers/sqlite_common.rs:755-785 | Fetching until nothing is ready returns, or frees of orphans, exactly the ready instances, each once, in the order of their oldest due messages |
| ProviderOrder.QueueIsServedIff | src/providers/sqlite_common.rs:1062-1071 | The queue can be served to the end if and only if no ready instance is unknown with something other than queue messages due |
| ProviderOrder.CancelOfUnknownBlocks | src/providers/sqlite_common.rs:1062-1071 | A concrete run: a cancellation of an unknown instance is enqueued before a start, every fetch picks it and changes nothing, and the start is never fetched |
| ProviderMessages.QueuedForAddressee | src/providers/sqlite_common.rs:117-140 | In every reachable state each queued message is queued for the instance its item is for: a child's outcome for its parent, everything else for the named instance, and no activity to execute is queued at all |
| ProviderMessages.EnqueueIsExact | src/providers/sqlite_common.rs:111-165 | Enqueueing is refused exactly for activities to execute; otherwise it adds the item for its addressee, uncounted, due after the delay, and nothing else |
| ProviderMessages.AckEnqueuesExactly | src/providers/sqlite_common.rs:1545-1585 | An accepted ack enqueues each item once, in order, with its instance and visibility time; only activities to execute are skipped |
| ProviderWorker.RowsAreConserved | src/provider_validation/queue_semantics.rs:57-115 | Over every run a worker row stays, for the same activity, if and only if nothing completed, cancelled or deleted it; a removed row never returns |
| ProviderWorker.OneCompletionPerRow | src/provider_validation/queue_semantics.rs:119-218 | Over every run with expiry, redelivery, abandon and renew a row is completed at most once, and not after its cancellation |
| ProviderWorker.HolderOfGoneRowIsRefused | src/provider_validation/cancellation.rs:855-936 | Once a row was completed, cancelled or deleted, its holder's ack and renewal are refused for the rest of the run and change nothing |
| ProviderWorker.RefetchFencesTheFirst | src/provider_validation/lock_expiration.rs:649-701 | Once a row is handed out again the earlier worker is refused for the rest of the run |
| ProviderWorker.RowLiveUntilReleased | src/provider_validation/lock_expiration.rs:247-454 | A live worker token is live after a step if and only if the step is not its ack, abandon, empty renewal, a cancellation or deletion of its row, or the passing of its time |
| ProviderWorker.CancelledInSameAck | src/provider_validation/cancellation.rs:1130-1250 | No row survives an ack that cancels its activity, not even one inserted by it |
| ProviderWorker.AckSchedulesExactly | src/providers/sqlite_common.rs:1462-1505 | An accepted ack schedules each of its activities once, in order, unless it cancels it as well |
| ProviderWorker.CompletionIsEnqueuedOnce | src/provider_validation/queue_semantics.rs:119-218 | A successful ack of a work item replaces its row by exactly one visible message, or by none without a completion |
| ProviderWorker.WorkCallsSucceedIff | src/providers/sqlite_common.rs:1964-2164 | A work ack succeeds exactly with an unexpired lock and an activity's outcome or none, a renewal exactly with an unexpired lock, an abandon exactly with a held row; a refused call changes nothing |
| ProviderWorker.DrainIsFifo | src/provider_validation/queue_semantics.rs:8-53 | Fetching until nothing is left hands out exactly the available rows, each once, in the order they were enqueued |
| ProviderTiming.MessageShowsWhenDue | src/provider_validation/queue_semantics.rs:222-301 | Over any run a queued message that no abandon delays is fetchable for its instance exactly from its due time on |
| ProviderTiming.DelayedMessageAppears | src/provider_validation/queue_semantics.rs:222-301 | So a message enqueued with a delay shows for its addressee, unchanged, exactly when the delay is over, whatever happens in between |
| ProviderTiming.AbandonedIsFree | src/provider_validation/lock_expiration.rs:68-107 | After an abandon the instance is unlocked until some later fetch returns it |
| ProviderTiming.LockRunsFromLastGrant | src/providers/sqlite_common.rs:2166-2202 | In every reachable state a held lock lasts to the time its token's last fetch or successful renewal set: that call's time plus its lock timeout or extension |
| ProviderTiming.HeldTokenIsLiveUntilGranted | src/provider_validation/lock_expiration.rs:111-243 | As long as a token keeps its lock it is live exactly until the time its last fetch or renewal gave it has passed |
| ProviderTiming.AbandonedMessagesReappear | src/provider_validation/lock_expiration.rs:68-107 | Over any run what was visible at an abandon is hidden exactly until the delay is over |
| ProviderTiming.UnackedBatchIsRedelivered | src/provider_validation/lock_expiration.rs:13-64 | Over any run in which the token keeps its lock, renewed or not, the instance is fetched again exactly from the time its last fetch or renewal lasts to, with the whole batch and a new token |
| ProviderTiming.UnackedRowReappears | src/provider_validation/queue_semantics.rs:57-115 | Over any run a row that is held, renewed or not, is available again exactly from the time its last fetch or renewal lasts to, and its worker is live exactly until then |
| ProviderTiming.RowLockRunsFromLastGrant | src/providers/sqlite_common.rs:2052-2106 | In every reachable state the lock of a held worker row lasts to the time the last fetch or successful renewal under its token set, and the row is visible |
| ProviderTiming.EnqueuedRowIsAvailable | src/providers/sqlite_common.rs:1734-1780 | A row enqueued for a worker is available, uncounted and for its activity, until somebody fetches it |
| ProviderTiming.AbandonedRowReappears | src/provider_validation/lock_expiration.rs:577-645 | Over any run an abandoned row is available again exactly when its delay is over |
| ProviderAttempts.WorkerAttemptsAreExact | src/provider_validation/poison_message.rs:334-405 | In every reachable state a worker row's counter is its fetches minus its ignored abandons, and the decrement never meets its floor |
| MessageAttempts.AttemptsExactIffAbandonsClean | src/providers/sqlite_common.rs:2239-2249 | The counters of all messages are exact throughout a run if and only if every ignored abandon finds no counted message of the instance outside its batch |
| MessageAttempts.AbandonCountsIffClean | src/providers/sqlite_common.rs:2239-2249 | The same for a single abandon |
| MessageAttempts.SkewedRunLosesAnAttempt | src/providers/sqlite_common.rs:2239-2249 | A concrete run in which a message fetched once, and never itself given back ignoring the attempt, ends with counter zero |
| MessageAttempts.ReachableHeldTags | src/providers/sqlite_common.rs:840-878 | A held token tags only messages of its instance, and each has been counted at least once |
| ProviderInstances.OrphanCheckIsDescendantClosure | src/providers/sqlite_common.rs:2961-2995 | The check of direct children accepts exactly the sets that contain all descendants of their members |
| ProviderInstances.TreeIsClosed | src/provider_validation/deletion.rs:759-802 | The tree of any instance passes the orphan check, so a forced delete of it is always accepted |
| ProviderInstances.DeleteIsAllOrNothing | src/provider_validation/deletion.rs:806-956 | Deletion succeeds if and only if the set is descendant-closed and, unless forced, none of it is running; then nothing of its members is left and everything else is untouched; otherwise nothing changes |
| ProviderInstances.NoOrphanInAnyRun | src/provider_validation/deletion.rs:900-956 | In every reachable state parents exist and are not below their children |
| ProviderInstances.NewLifeHasOnlyNewRecords | src/provider_validation/deletion.rs:970-1179 | After its deletion an instance only ever has messages, rows and locks made after it |
| ProviderInstances.NoCompletionFromAnEarlierLife | src/provider_validation/deletion.rs:970-1179 | Every activity of a recreated instance that is completed was enqueued after the deletion |
| ProviderInstances.CompletionsAreOfThisLife | src/provider_validation/deletion.rs:970-1179 | Every message a fetch returns for a recreated instance was enqueued after the deletion; if a worker reporting for its own instance enqueued it, it completed a row of this instance that did not exist at the deletion |
| ProviderInstances.NoMessageFromAnEarlierLife | src/provider_validation/deletion.rs:149-302 | Every message a fetch returns for a recreated instance was enqueued after the deletion |
| ProviderInstances.DeletionFencesTheHolder | src/provider_validation/deletion.rs:390-499 | Whoever held the instance when it was deleted is refused by ack, renew and abandon for the rest of the run, and changes nothing |
| ProviderInstances.DeletionFencesTheWorkers | src/provider_validation/deletion.rs:970-1179 | So is every worker that held one of its activities |
| ProviderHistory.AppendIsExact | src/providers/sqlite_common.rs:602-672 | An append goes through if and only if all ids are set, distinct and new in the execution, and then adds exactly the delta |
| ProviderHistory.AckIsAllOrNothing | src/provider_validation/atomicity.rs:117-285 | An ack commits if and only if its token is live, every event can be appended and a new instance's parent exists; then every record is in place, and otherwise no table changes |
| ProviderHistory.EventsAreImmutable | src/provider_validation/multi_execution.rs:461-524 | A recorded event stays, unchanged, until its execution is pruned or its instance deleted |
| ProviderHistory.AckTouchesOneExecution | src/provider_validation/multi_execution.rs:21-152 | An accepted ack leaves the history of every other execution and instance as it was |
| ProviderHistory.CurrentIsTheLargestAcked | src/provider_validation/multi_execution.rs:250-353 | In every reachable state the current execution is the largest one acked since the instance was created |
| ProviderHistory.CurrentAlwaysHasRow | src/providers/sqlite_common.rs:1205-1258 | In every reachable state the current execution of an instance has its row |
| ProviderHistory.ParentIsNamedByCreator | src/providers/sqlite_common.rs:1165-1194 | In every reachable state an instance has the parent named by the ack that created its row, and has had the row without a break since |
| ProviderHistory.StatusIsTheLastReported | src/providers/sqlite_common.rs:1196-1290 | In every reachable state an execution's row holds the last status its acks gave and the time of that ack, running if none gave one; it is missing exactly if nothing was acked since it was last pruned away or deleted |
| ProviderHistory.PruneLeavesExactly | src/provider_validation/prune.rs:17-87 | A prune leaves exactly what some option retains, the current execution and the running ones |
| ProviderHistory.KeepLastMeetsPromise | src/providers/management.rs:421-436 | In every reachable state keep_last leaves the n largest, the current and the running executions; that is the documented number if and only if, for n > 0, the current and running ones are among the n largest and, for none or zero, nothing but the current one is protected |
| ProviderHistory.KeepLastOneLeavesThree | src/providers/management.rs:421-436 | A concrete run in which keep_last = 1, documented to leave one execution, leaves three; so does keep_last = 0 |
| ProviderHistory.PruneKeepsWhatMatters | src/provider_validation/prune.rs:91-173 | A prune keeps current and running executions with their whole history, drops all events of what it removes, and touches nothing else |
| Providers.Provider.EnqueueForOrchestrator | src/providers/sqlite_common.rs:111-165 | Equals the enqueue step; activities to execute are refused |
| Providers.Provider.EnqueueForWorker | src/providers/sqlite_common.rs:1734-1780 | Equals the worker enqueue step |
| Providers.Provider.SelectCandidate | src/providers/sqlite_common.rs:765-785 | Finds the instance of the first visible unlocked message, or shows that no available instance has one |
| Providers.Provider.SelectTagged | src/providers/sqlite_common.rs:858-905 | Lists the messages with the token in queue order and the largest counter among them |
| Providers.Provider.FetchOrchestrationItem | src/providers/sqlite_common.rs:689-1105 | Equals the fetch step for the first candidate; returns the batch in queue order, its largest attempt counter and the instance's merged keys; rolls back completely when there is no context |
| Providers.Provider.AckOrchestrationItem | src/providers/sqlite_common.rs:1107-1622 | Equals the ack step: all statements take effect or none, whichever check fails |
| Providers.Provider.InsertHistory | src/providers/sqlite_common.rs:602-672 | Succeeds if and only if the delta can be appended and then appends it |
| Providers.Provider.MaterializeKv | src/providers/sqlite_common.rs:1345-1460 | Equals the two-level tables' ack |
| Providers.Provider.WriteQueues | src/providers/sqlite_common.rs:1462-1585 | Worker rows inserted before cancelled ones are deleted, then the new messages |
| Providers.Provider.RenewOrchestrationItemLock | src/providers/sqlite_common.rs:2166-2202 | Equals the renew step: only a live token, to now plus the extension |
| Providers.Provider.AbandonOrchestrationItem | src/providers/sqlite_common.rs:2204-2269 | Equals the abandon step: the lock goes, decrement and delay hit every message of the instance |
| Providers.Provider.FetchWorkItem | src/providers/sqlite_common.rs:1782-1962 | Equals the fetch step for the available row with the least id, returning its new counter |
| Providers.Provider.AckWorkItem | src/providers/sqlite_common.rs:1964-2050 | Equals the work ack: row and completion change hands together, an invalid completion undoes both |
| Providers.Provider.RenewWorkItemLock | src/providers/sqlite_common.rs:2052-2106 | Equals the work renew step |
| Providers.Provider.AbandonWorkItem | src/providers/sqlite_common.rs:2108-2164 | Equals the work abandon step |
| Providers.Provider.GetKvValue | src/providers/sqlite_common.rs:2379-2411 | Delta row first, store row second, is the merged view's value |
| Providers.Provider.GetKvAllValues | src/providers/sqlite_common.rs:2413-2459 | Overlaying the rows in any order gives the merged view |
| Providers.Provider.GetInstanceStats | src/providers/sqlite_common.rs:2461-2560 | Event count of the current execution; key count and value length total of the merged view |
| Providers.Provider.ListChildren | src/providers/sqlite_common.rs:2874-2887 | Lists exactly the direct children, once each |
| Providers.Provider.DeleteInstancesAtomic | src/providers/sqlite_common.rs:2905-3148 | Equals the delete step for the given ids |
| Providers.Provider.PruneExecutions | src/providers/sqlite_common.rs:3233-3346 | Equals the prune step and returns the number of executions it removed |
| Providers.Provider.GetInstanceTree | src/providers/mod.rs:2575-2590 | The stack walk ends on every forest and returns the root and exactly its descendants, none twice |
| Providers.Provider.DeleteInstance | src/providers/mod.rs:2625-2639 | Refuses unknown instances and sub-orchestrations; otherwise deletes exactly the root's tree or nothing; forced, it always succeeds on a root |

## Left out

- Sessions, tag filters, capability filters, custom status, carry-forward events and the V2 topic events: additional columns and a reduced copy of positional matching.
- Bulk deletion and bulk pruning: loops over the operations modelled here; deletion result counts.
- Serialization and its errors, including histories that fail to deserialize; database errors other than constraint violations.
- The Turso variant's locking and deletion strategies; connection handling, retries of busy transactions, long polling.
- The replay engine's event loop and the dispatchers: the context's methods are modelled for any order of calls, with the preconditions they have there (schedule ids are fresh event ids).
- Mutexes and task scheduling: each method is one step; wakers are values with a same-task test.
- Random lock tokens: uniqueness is a property of the model's counter, not proved of the generator. Timestamps and ids are unbounded naturals; the saturation of delays at the largest 64-bit value is not modelled.
- Floating-point rounding in exponential backoff: the multiplier is a real number; casts and their saturation are modelled.
- The status check of an unforced delete happens before the transaction in the source; here the check and the deletes are one step.
- A row whose parent is itself: the table would accept it, the model refuses it, so that parents are always older.
- Activities without an identity (rows with null columns in the worker queue) and worker items other than activities.
- ProviderInstances.NoCompletionFromAnEarlierLife: speaks of the row that is completed; that a worker reports to the instance of its row is not checked by the provider, and CompletionsAreOfThisLife states what follows when it does.
- Providers.Provider.FetchWorkItem: has no session and no tag filter, which restrict the query by further columns.
- Providers.Provider.GetInstanceStats: has no history size and no count of carried-forward messages, which are read from serialized events.
- ProviderKv.ReplayRebuildsTheView: takes from the runtime that the event ids of an ack with changes grow and that such an ack finds or creates the instance's row.
- ProviderKv.ReplayRebuildsIff: takes the same from the runtime for every ack of the run that carries changes.
- ProviderKv.AckReplaysIff: takes the same from the runtime for the one ack, if it carries changes.
- KvTurns.ReplayAlwaysMatchesIff: the calls of a turn are a fixed list, which is what a program makes as long as it is answered alike; the replay engine's loop, which compares recorded events and actions between polls, is not modelled.
- ProviderMessages.AckEnqueuesExactly: skipped items consume an id in the model, while the table leaves no gap; only the order of ids matters.
- ProviderInstances.TreeIsClosed: the tree walk and the delete are separate transactions in the source; a child created in between is what the orphan check refuses, which DeleteIsAllOrNothing covers.
