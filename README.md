# StateStore in Dafny

A model of the engine of the StateStore library (`com.ivianuu.statestore`):
an observable container holding one value of type `T`. Callers read it
(`withState`), transform it with reducers (`setState`), peek at it, and
listen to its changes. Inside, `RealStateStore` keeps two FIFO job queues,
for consumers and for reducers. Every `withState` or `setState` call on an
open store submits one flush task to a work executor. The flush loop drains
both queues, one reducer and then one consumer per iteration. A reducer whose
result equals the current state is ignored. Any other result replaces the
state and is handed to a snapshot of the listener list by one task on the
callback executor.

Files and modules:

- `wrappers.dfy` (`Wrappers`): `Option`, the result of a queue poll.
- `listeners.dfy` (`Listeners`): the state-listener list (append, remove first
  occurrence, duplicates allowed) and the de-duplicating close-listener set.
- `events.dfy` (`Events`): what the store does to the outside world. These are
  listener calls, consumer calls and close-listener calls, recorded as a trace
  of `Event` values. This module also holds the notification task `Notify`.
- `flush.dfy` (`Flush`): a pure function `FlushRun` that gives the effect of
  `flushQueues` on any queue contents. It is checked against two independent
  reference definitions. `Fold` applies the reducers left to right. `Changes`
  lists the states the reducers move through, dropping every step that returns
  an equal state.
- `real_state_store.dfy` (`RealStateStore`): the classes `Jobs` and `Store`.
  Their fields are updated in place, and each method is proved against the
  functions above. `Store.FlushQueues` is the `while` loop, proved for arbitrary
  queue contents to produce exactly `FlushRun`.
- `state_store.dfy` (`StateStore`): the factory's rule for default executors.
- `scenarios.dfy` (`StoreScenarios`): clients that replay the unit tests. Each
  one's postcondition is what the test asserts, for every initial state and
  every identity.

Modelling choices:

- Each `synchronized` block is one atomic step of a sequential object.
- The two executors run their tasks inline, like the tests' executor, and
  count the tasks submitted to them (`executeCalls`, `callbackExecuteCalls`).
  If the two roles share one executor, that executor's count is the sum of the
  two. Because the work executor runs inline, both queues are empty whenever no
  call is in progress. This is part of `Store.Valid()`.
- Reducers are Dafny functions `T -> T`. Consumers and listeners are
  identities (`Id`), and calling one appends an `Event` to `trace`. Executors
  are identities (`E`).
- The close lifecycle (`closed`, `closeListeners`, `Close`,
  `AddCloseListener`, `RemoveCloseListener`) is declared by the `StateStore`
  interface, but `RealStateStore.kt` has none of it. It is modelled as an
  extension of the same class, as follows:
  - a closed store drops `withState` and `setState` without queueing them or
    submitting a flush;
  - close listeners form a set, so adding one twice registers it once;
  - the first `close` clears the state listeners, then empties the close
    listeners and calls each of them in one callback task;
  - a later `close` does nothing;
  - `addCloseListener` on a closed store calls the listener at once through
    the callback executor.
- `addListener` behaves the same on a closed store as on an open one: it
  appends the listener and delivers the current state.

Behaviour of the code that the model keeps:

- The loop applies one reducer per iteration and does not batch pending
  reducers (`RealStateStore.kt:66-84`). The private `setState` runs after
  each reducer, so two queued reducers that each change the state cause two
  notifications (`Flush.FlushNotifiesChanges`: one callback task per element
  of `Changes`).
- Each queue is FIFO, but the two queues keep no relative order between
  reducers and consumers. With set queue `[r1, r2]` and get queue `[c]`, the
  consumer `c` sees `r1(s)`, not `r2(r1(s))`: the i-th consumer sees the state
  after the first i + 1 reducers (`Flush.FlushReadsInOrder`). This shows only
  when several jobs are queued at once, which needs a deferred executor or
  concurrent callers.
- State listeners are a list: a listener added twice is notified twice
  (`Events.NotifySeenBy`), and `remove` drops one occurrence.
- No flush checks `closed`. In the model nothing is queued once the store is
  closed, so a flush never starts on a closed store.

## Model

| member | source | states |
|---|---|---|
| `RealStateStore.Jobs.constructor` | statestore/src/main/java/com/ivianuu/statestore/RealStateStore.kt:99-105 | both queues start empty |
| `RealStateStore.Jobs.HasJobs` | statestore/src/main/java/com/ivianuu/statestore/RealStateStore.kt:101-102 | true exactly when at least one job of either kind is waiting |
| `RealStateStore.Jobs.EnqueueGet` | statestore/src/main/java/com/ivianuu/statestore/RealStateStore.kt:107-109 | the consumer goes to the tail of the get queue; the set queue is untouched |
| `RealStateStore.Jobs.EnqueueSet` | statestore/src/main/java/com/ivianuu/statestore/RealStateStore.kt:111-113 | the reducer goes to the tail of the set queue; the get queue is untouched |
| `RealStateStore.Jobs.DequeueGet` | statestore/src/main/java/com/ivianuu/statestore/RealStateStore.kt:115-117 | `None` on an empty queue; otherwise the head, removed from the queue |
| `RealStateStore.Jobs.DequeueSet` | statestore/src/main/java/com/ivianuu/statestore/RealStateStore.kt:119-121 | `None` on an empty queue; otherwise the head, removed from the queue |
| `RealStateStore.Store.constructor` | statestore/src/main/java/com/ivianuu/statestore/RealStateStore.kt:23-33 | the initial state, the two executors, no listeners, empty queues, nothing submitted |
| `RealStateStore.Store.WithState` | statestore/src/main/java/com/ivianuu/statestore/RealStateStore.kt:35-38 | while open, submits exactly one flush, and the consumer is called once with the current state before the call returns; closed, nothing happens |
| `RealStateStore.Store.SetState` | statestore/src/main/java/com/ivianuu/statestore/RealStateStore.kt:40-43 | while open, submits exactly one flush and the state becomes `reducer(old state)`; an equal result submits no callback and notifies no one; a different result submits one callback that notifies every listener in list order; closed, nothing happens |
| `RealStateStore.Store.PeekState` | statestore/src/main/java/com/ivianuu/statestore/RealStateStore.kt:45 | returns the current state and changes nothing |
| `RealStateStore.Store.AddListener` | statestore/src/main/java/com/ivianuu/statestore/RealStateStore.kt:47-55 | appends the listener (duplicates allowed) and submits one callback that hands it the current state |
| `RealStateStore.Store.RemoveListener` | statestore/src/main/java/com/ivianuu/statestore/RealStateStore.kt:57-59 | removes the first occurrence of the listener and changes nothing else |
| `RealStateStore.Store.DispatchFlush` | statestore/src/main/java/com/ivianuu/statestore/RealStateStore.kt:61-63 | one task on the work executor, which runs the whole flush |
| `RealStateStore.Store.FlushQueues` | statestore/src/main/java/com/ivianuu/statestore/RealStateStore.kt:65-70 | returns only with both queues empty; state, trace and callback count are exactly those of `FlushRun` on the queues it started from |
| `RealStateStore.Store.FlushSetStateQueue` | statestore/src/main/java/com/ivianuu/statestore/RealStateStore.kt:72-78 | on an empty set queue nothing changes; otherwise the head reducer is removed and its result passed to the private `setState` |
| `RealStateStore.Store.FlushGetStateQueue` | statestore/src/main/java/com/ivianuu/statestore/RealStateStore.kt:80-84 | on an empty get queue nothing changes; otherwise the head consumer is removed and called with the state |
| `RealStateStore.Store.SetStateValue` | statestore/src/main/java/com/ivianuu/statestore/RealStateStore.kt:86-97 | a state equal to the current one changes nothing; otherwise the state is replaced and one callback task notifies the listener snapshot in list order |
| `RealStateStore.Store.AddCloseListener` | statestore/src/main/java/com/ivianuu/statestore/StateStore.kt:53-56 | an open store registers the listener once (set semantics); a closed store calls it at once through one callback task |
| `RealStateStore.Store.RemoveCloseListener` | statestore/src/main/java/com/ivianuu/statestore/StateStore.kt:58-61 | the listener is no longer registered and nothing else changes |
| `RealStateStore.Store.Close` | statestore/src/main/java/com/ivianuu/statestore/StateStore.kt:63-66 | the first close marks the store closed, drops the state listeners and calls each registered close listener in one callback task, then forgets them; a second close changes nothing |
| `Flush.FlushRun` | statestore/src/main/java/com/ivianuu/statestore/RealStateStore.kt:65-84 | a flush submits at most one callback task per queued reducer, and a flush that submits none leaves the state as it was |
| `Flush.FlushReachesFold` | statestore/src/main/java/com/ivianuu/statestore/RealStateStore.kt:72-78 | after a flush the state is the left-to-right application of every queued reducer, each applied once, oldest first |
| `Flush.FlushReadsInOrder` | statestore/src/main/java/com/ivianuu/statestore/RealStateStore.kt:66-84 | every queued consumer is called exactly once, in queue order; the i-th sees the state after the first i + 1 reducers, or after all of them if there are fewer |
| `Flush.FlushNotifiesChanges` | statestore/src/main/java/com/ivianuu/statestore/RealStateStore.kt:86-96 | the listener calls of a flush are one notification of the whole snapshot per element of `Changes`, and exactly that many callback tasks are submitted; consumers in between change none of this |
| `Flush.FlushSeenBy` | statestore/src/main/java/com/ivianuu/statestore/RealStateStore.kt:86-96 | a listener registered once receives exactly the changes of state, in order |
| `Flush.ChangesAreDistinct` | statestore/src/main/java/com/ivianuu/statestore/RealStateStore.kt:87 | no notified state equals the one before it (the first differs from the starting state) |
| `Flush.ChangesSettle` | statestore/src/main/java/com/ivianuu/statestore/RealStateStore.kt:86-90 | the last notified state is the final state; with no notification the final state equals the starting one |
| `Flush.FoldAppend` | statestore/src/main/java/com/ivianuu/statestore/RealStateStore.kt:111-113 | a reducer enqueued last is applied after all reducers already queued |
| `Events.Notify` | statestore/src/main/java/com/ivianuu/statestore/RealStateStore.kt:96 | the notification task makes one call per listener of the snapshot: the i-th call goes to the i-th listener, with the new state |
| `Events.CloseNotices` | statestore/src/main/java/com/ivianuu/statestore/StateStore.kt:63-66 | the close notification task makes one call per close listener of the snapshot, in order |
| `Events.NotifySeenBy` | statestore/src/main/java/com/ivianuu/statestore/RealStateStore.kt:31 | a listener in the list n times is called n times by one notification task |
| `Events.RemovedListenerHearsNothing` | statestore/src/main/java/com/ivianuu/statestore/RealStateStore.kt:57-59 | a listener added once and then removed receives nothing from a later notification |
| `Events.CloseNoticesOnce` | statestore/src/main/java/com/ivianuu/statestore/StateStore.kt:63-66 | each close listener of a duplicate-free snapshot is called exactly once, and no one else is called |
| `Listeners.RemoveFirst` | statestore/src/main/java/com/ivianuu/statestore/RealStateStore.kt:58 | an absent listener leaves the list as it is; a present one shortens it by one |
| `Listeners.RemoveFirstCutsFirst` | statestore/src/main/java/com/ivianuu/statestore/RealStateStore.kt:58 | exactly the first occurrence is cut out and the others keep their order |
| `Listeners.RemoveFirstMultiset` | statestore/src/main/java/com/ivianuu/statestore/RealStateStore.kt:58 | one copy of the listener fewer and no other change to the multiset |
| `Listeners.RemoveFirstOccurrences` | statestore/src/main/java/com/ivianuu/statestore/RealStateStore.kt:58 | a listener added n times remains registered n - 1 times; others are unaffected |
| `Listeners.AddUnique` | statestore/src/main/java/com/ivianuu/statestore/StateStore.kt:56 | registering keeps the set free of duplicates and contains the listener |
| `Listeners.Remove` | statestore/src/main/java/com/ivianuu/statestore/StateStore.kt:61 | the listener is gone, every other listener stays, and the set stays duplicate-free |
| `Listeners.NoDupOccursOnce` | statestore/src/main/java/com/ivianuu/statestore/StateStore.kt:56 | in a duplicate-free set every member occurs exactly once |
| `StateStore.ResolveExecutors` | statestore/src/main/java/com/ivianuu/statestore/StateStore.kt:73-76 | a missing work executor is the plugin override if set, else the internal default; a missing callback executor is the plugin callback override if set, else the work executor |
| `StateStore.NewStateStore` | statestore/src/main/java/com/ivianuu/statestore/StateStore.kt:73-77 | a fresh, open, empty store with the resolved executors and the initial state |
| `StoreScenarios.CloseListenerRunsOnce` | statestore/src/test/java/com/ivianuu/statestore/RealStateStoreTest.kt:34-43 | a close listener is called 0 times before close, once after the first close, still once after the second |
| `StoreScenarios.RemovedCloseListenerNeverRuns` | statestore/src/test/java/com/ivianuu/statestore/RealStateStoreTest.kt:45-52 | a close listener removed before close is never called |
| `StoreScenarios.CloseListenerAddedTwiceRunsOnce` | statestore/src/test/java/com/ivianuu/statestore/RealStateStoreTest.kt:54-61 | a close listener added twice is called once |
| `StoreScenarios.GetAndSetState` | statestore/src/test/java/com/ivianuu/statestore/RealStateStoreTest.kt:63-87 | a consumer sees the initial state; after `inc()` the next consumer sees one more |
| `StoreScenarios.GetAndSetStateWhileClosed` | statestore/src/test/java/com/ivianuu/statestore/RealStateStoreTest.kt:89-105 | after close no consumer is called, no reducer is applied and no flush is submitted |
| `StoreScenarios.PeekState` | statestore/src/test/java/com/ivianuu/statestore/RealStateStoreTest.kt:107-112 | `peekState` returns the initial state, then the incremented one |
| `StoreScenarios.ListenerHistory` | statestore/src/test/java/com/ivianuu/statestore/RealStateStoreTest.kt:114-131 | a listener's history is the state at registration, then the new state; nothing after its removal |
| `StoreScenarios.ListenerNotCalledForEqualState` | statestore/src/test/java/com/ivianuu/statestore/RealStateStoreTest.kt:133-155 | a reducer returning an equal state adds no call beyond the one at registration |
| `StoreScenarios.ExecutorUsage` | statestore/src/test/java/com/ivianuu/statestore/RealStateStoreTest.kt:157-170 | counts 0/0, then 1/1 after a changing `setState`, then 2/1 after one that returns the same state |
| `StoreScenarios.DefaultExecutor` | statestore/src/test/java/com/ivianuu/statestore/RealStateStoreTest.kt:172-184 | with both plugin overrides set, the factory's store uses them |

## Left out

- Locking and thread interleavings: every `synchronized` block is one atomic step, and there is a single caller.
- Real executors and `defaultExecutor` (a JVM single-thread pool, `internal.kt`): both executors run tasks inline and only count submissions. Deferred execution is not modelled. `FlushRun` and `Store.FlushQueues` are nonetheless proved for any queue contents, which is what a deferred executor or concurrent callers would leave behind.
- The `Closeable` returned by `addListener` comes from a foreign library. Its only effect, calling `removeListener`, is `Store.RemoveListener`.
- `StateStorePlugins` is not part of this model; its two global overrides are the `Plugins` value passed to the factory.
- Side effects inside reducers and consumers, including calls back into the store from a consumer: reducers are pure functions and consumers are trace events.
- The coroutine adapter (`statestore-coroutines`), the Android sample, the build constants and the type aliases: none of these is part of the engine.
- Release of an executor owned by the store on `close`: the model has no executor resources.
