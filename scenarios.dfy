/**
 * Clients of the store that replay the unit tests of `RealStateStore`:
 * each method drives a fresh store and its postcondition states what the
 * test asserts, for any initial state and any identities.  `TestState` is
 * an integer counter and `inc()` adds one.
 */
module StoreScenarios {
  import opened Wrappers
  import opened Listeners
  import opened Events
  import opened RealStateStore
  import opened StateStore

  function Inc(x: int): int { x + 1 }

  /** A close listener runs once on the first close and not on the second. */
  method CloseListenerRunsOnce<T(==), Id(==), E>(initial: T, e: E, c: E, l: Id)
    returns (before: nat, afterFirst: nat, afterSecond: nat)
    ensures before == 0 && afterFirst == 1 && afterSecond == 1
  {
    var store := new Store<T, Id, E>(initial, e, c);
    store.AddCloseListener(l);
    before := CloseCalls(store.trace, l);
    store.Close();
    assert store.trace == [CloseNotified(l)] by {
      assert CloseNotices<T, Id>([l]) == [CloseNotified(l)] + CloseNotices<T, Id>([]);
    }
    assert store.trace[1..] == [];
    afterFirst := CloseCalls(store.trace, l);
    store.Close();
    afterSecond := CloseCalls(store.trace, l);
  }

  /** A close listener removed before the close never runs. */
  method RemovedCloseListenerNeverRuns<T(==), Id(==), E>(initial: T, e: E, c: E, l: Id)
    returns (calls: nat)
    ensures calls == 0
  {
    var store := new Store<T, Id, E>(initial, e, c);
    store.AddCloseListener(l);
    store.RemoveCloseListener(l);
    store.Close();
    calls := CloseCalls(store.trace, l);
  }

  /** A close listener added twice still runs only once. */
  method CloseListenerAddedTwiceRunsOnce<T(==), Id(==), E>(initial: T, e: E, c: E, l: Id)
    returns (calls: nat)
    ensures calls == 1
  {
    var store := new Store<T, Id, E>(initial, e, c);
    store.AddCloseListener(l);
    store.AddCloseListener(l);
    assert store.closeListeners == [l];
    store.Close();
    assert store.trace == CloseNotices<T, Id>([l]);
    CloseNoticesOnce<T, Id>([l], l);
    calls := CloseCalls(store.trace, l);
  }

  /** A consumer sees the initial state, and after `inc()` the next consumer sees one more. */
  method GetAndSetState<Id(==), E>(initial: int, e: E, c: E, first: Id, second: Id)
    returns (calls: seq<Event<int, Id>>)
    ensures calls == [Consumed(first, initial), Consumed(second, initial + 1)]
  {
    var store := new Store<int, Id, E>(initial, e, c);
    store.WithState(first);
    store.SetState(Inc);
    store.WithState(second);
    calls := store.trace;
  }

  /** On a closed store neither the consumer nor the reducer runs. */
  method GetAndSetStateWhileClosed<Id(==), E>(initial: int, e: E, c: E, consumer: Id)
    returns (calls: seq<Event<int, Id>>, current: int, flushes: nat)
    ensures calls == [] && current == initial && flushes == 0
  {
    var store := new Store<int, Id, E>(initial, e, c);
    store.Close();
    store.WithState(consumer);
    store.SetState(Inc);
    calls := store.trace;
    current := store.PeekState();
    flushes := store.executeCalls;
  }

  /** `peekState` shows the state before and after an `inc()`. */
  method PeekState<Id(==), E>(initial: int, e: E, c: E) returns (before: int, after: int)
    ensures before == initial && after == initial + 1
  {
    var store := new Store<int, Id, E>(initial, e, c);
    before := store.PeekState();
    store.SetState(Inc);
    after := store.PeekState();
  }

  /**
   * A listener gets the current state when added and every new state after
   * that, and nothing more once removed.
   */
  method ListenerHistory<Id(==), E>(initial: int, e: E, c: E, l: Id) returns (history: seq<int>)
    ensures history == [initial, initial + 1]
  {
    var store := new Store<int, Id, E>(initial, e, c);
    store.AddListener(l);
    store.SetState(Inc);
    assert Notify([l], initial + 1) == [Delivered(l, initial + 1)] + Notify([], initial + 1);
    store.RemoveListener(l);
    store.SetState(Inc);
    var t := store.trace;
    assert t == [Delivered(l, initial), Delivered(l, initial + 1)];
    assert t[1..] == [Delivered(l, initial + 1)] && t[1..][1..] == [];
    assert SeenBy(t[1..], l) == [initial + 1] + SeenBy(t[1..][1..], l);
    history := SeenBy(t, l);
  }

  /** A reducer that returns an equal state (`this` or `copy()`) notifies no one. */
  method ListenerNotCalledForEqualState<T(==), Id(==), E>(initial: T, e: E, c: E, l: Id, reducer: T -> T)
    returns (calls: nat)
    requires reducer(initial) == initial
    ensures calls == 1
  {
    var store := new Store<T, Id, E>(initial, e, c);
    store.AddListener(l);
    store.SetState(reducer);
    var t := store.trace;
    assert t == [Delivered(l, initial)];
    assert t[1..] == [];
    assert SeenBy(t, l) == [initial] + SeenBy(t[1..], l);
    calls := |SeenBy(t, l)|;
  }

  /**
   * Every `setState` submits one flush; only the one that changes the state
   * submits a callback task.
   */
  method ExecutorUsage<Id(==), E>(initial: int, e: E, c: E)
    returns (work0: nat, callback0: nat, work1: nat, callback1: nat, work2: nat, callback2: nat)
    ensures work0 == 0 && callback0 == 0
    ensures work1 == 1 && callback1 == 1
    ensures work2 == 2 && callback2 == 1
  {
    var store := new Store<int, Id, E>(initial, e, c);
    work0, callback0 := store.executeCalls, store.callbackExecuteCalls;
    store.SetState(Inc);
    work1, callback1 := store.executeCalls, store.callbackExecuteCalls;
    store.SetState(x => x);
    work2, callback2 := store.executeCalls, store.callbackExecuteCalls;
  }

  /** With both plugin overrides set, the factory uses them. */
  method DefaultExecutor<T(==), Id(==), E>(initial: T, internalDefault: E, e: E, c: E)
    returns (work: E, callback: E)
    ensures work == e && callback == c
  {
    var store := NewStateStore<T, Id, E>(initial, Plugins(Some(e), Some(c)), internalDefault, None, None);
    work, callback := store.executor, store.callbackExecutor;
  }
}
