/**
 * `RealStateStore`: the current state, the listener list and the two job
 * queues, updated in place.  Each `synchronized` block is one atomic step
 * of a sequential object.  Both executors run their tasks at once (inline)
 * and count the tasks submitted to them, so every effect of a call is
 * visible when the call returns; the effects are appended to `trace`.
 *
 * The close lifecycle (`closed`, `closeListeners`, `Close`) is an extension
 * that follows the `StateStore` interface: the class body it models from
 * has no such members.
 */
module RealStateStore {
  import opened Wrappers
  import opened Listeners
  import opened Events
  import opened Flush

  /** The nested `Jobs` class: two FIFO queues, added at the tail, polled at the head. */
  class Jobs<T, Id> {
    var getStateQueue: seq<Id>
    var setStateQueue: seq<T -> T>

    constructor ()
      ensures getStateQueue == [] && setStateQueue == []
    {
      getStateQueue := [];
      setStateQueue := [];
    }

    /** `hasJobs`: some job of either kind is waiting. */
    predicate HasJobs()
      reads this
      ensures HasJobs() <==> |getStateQueue| + |setStateQueue| > 0
    {
      getStateQueue != [] || setStateQueue != []
    }

    method EnqueueGet(consumer: Id)
      modifies this
      ensures getStateQueue == old(getStateQueue) + [consumer]
      ensures setStateQueue == old(setStateQueue)
    {
      getStateQueue := getStateQueue + [consumer];
    }

    method EnqueueSet(reducer: T -> T)
      modifies this
      ensures setStateQueue == old(setStateQueue) + [reducer]
      ensures getStateQueue == old(getStateQueue)
    {
      setStateQueue := setStateQueue + [reducer];
    }

    method DequeueGet() returns (consumer: Option<Id>)
      modifies this
      ensures old(getStateQueue) == [] ==> consumer == None && getStateQueue == []
      ensures old(getStateQueue) != [] ==>
                consumer == Some(old(getStateQueue)[0]) && getStateQueue == old(getStateQueue)[1..]
      ensures setStateQueue == old(setStateQueue)
    {
      if getStateQueue == [] {
        consumer := None;
      } else {
        consumer := Some(getStateQueue[0]);
        getStateQueue := getStateQueue[1..];
      }
    }

    method DequeueSet() returns (reducer: Option<T -> T>)
      modifies this
      ensures old(setStateQueue) == [] ==> reducer == None && setStateQueue == []
      ensures old(setStateQueue) != [] ==>
                reducer.Some? && reducer.value == old(setStateQueue)[0] && setStateQueue == old(setStateQueue)[1..]
      ensures getStateQueue == old(getStateQueue)
    {
      if setStateQueue == [] {
        reducer := None;
      } else {
        reducer := Some(setStateQueue[0]);
        setStateQueue := setStateQueue[1..];
      }
    }
  }

  /**
   * The store.  `E` stands for the identity of an executor, `Id` for the
   * identity of a consumer or listener.
   */
  class Store<T(==), Id(==), E> {
    const executor: E
    const callbackExecutor: E
    const jobs: Jobs<T, Id>

    var state: T
    var listeners: seq<Id>
    /** Tasks submitted to `executor` and to `callbackExecutor`. */
    var executeCalls: nat
    var callbackExecuteCalls: nat
    /** Every consumer call and listener call so far, in order. */
    var trace: seq<Event<T, Id>>

    var closed: bool
    var closeListeners: seq<Id>

    /**
     * Between calls the inline work executor has drained both queues; the
     * close listeners form a set, emptied for good by `Close`.
     */
    ghost predicate Valid()
      reads this, jobs
    {
      && !jobs.HasJobs()
      && NoDup(closeListeners)
      && (closed ==> closeListeners == [])
    }

    constructor (initialState: T, executor: E, callbackExecutor: E)
      ensures Valid() && fresh(jobs)
      ensures this.executor == executor && this.callbackExecutor == callbackExecutor
      ensures state == initialState && listeners == [] && trace == []
      ensures executeCalls == 0 && callbackExecuteCalls == 0
      ensures !closed && closeListeners == []
    {
      this.executor := executor;
      this.callbackExecutor := callbackExecutor;
      jobs := new Jobs();
      state := initialState;
      listeners := [];
      executeCalls, callbackExecuteCalls := 0, 0;
      trace := [];
      closed := false;
      closeListeners := [];
    }

    /** `withState`: queue the consumer and submit one flush; dropped once closed. */
    method WithState(consumer: Id)
      requires Valid()
      modifies this, jobs
      ensures Valid()
      ensures state == old(state) && listeners == old(listeners)
      ensures closed == old(closed) && closeListeners == old(closeListeners)
      ensures callbackExecuteCalls == old(callbackExecuteCalls)
      ensures closed ==> executeCalls == old(executeCalls) && trace == old(trace)
      ensures !closed ==> executeCalls == old(executeCalls) + 1 && trace == old(trace) + [Consumed(consumer, state)]
    {
      if closed {
        return;
      }
      jobs.EnqueueGet(consumer);
      DispatchFlush();
    }

    /**
     * `setState(reducer)`: queue the reducer and submit one flush; dropped
     * once closed.  The reducer is applied before the call returns, and the
     * listeners hear of the result unless it equals the old state.
     */
    method SetState(reducer: T -> T)
      requires Valid()
      modifies this, jobs
      ensures Valid()
      ensures listeners == old(listeners)
      ensures closed == old(closed) && closeListeners == old(closeListeners)
      ensures closed ==> state == old(state) && trace == old(trace)
      ensures closed ==> executeCalls == old(executeCalls) && callbackExecuteCalls == old(callbackExecuteCalls)
      ensures !closed ==> state == reducer(old(state)) && executeCalls == old(executeCalls) + 1
      ensures !closed && state == old(state) ==>
                trace == old(trace) && callbackExecuteCalls == old(callbackExecuteCalls)
      ensures !closed && state != old(state) ==>
                trace == old(trace) + Notify(listeners, state) && callbackExecuteCalls == old(callbackExecuteCalls) + 1
    {
      if closed {
        return;
      }
      jobs.EnqueueSet(reducer);
      DispatchFlush();
    }

    /** `peekState`: the current state; nothing changes. */
    method PeekState() returns (current: T)
      ensures current == state
    {
      current := state;
    }

    /**
     * `addListener`: append (duplicates allowed) and submit one callback
     * task that hands the listener the current state.
     */
    method AddListener(listener: Id)
      requires Valid()
      modifies this
      ensures Valid()
      ensures listeners == old(listeners) + [listener]
      ensures trace == old(trace) + [Delivered(listener, state)]
      ensures callbackExecuteCalls == old(callbackExecuteCalls) + 1
      ensures state == old(state) && executeCalls == old(executeCalls)
      ensures closed == old(closed) && closeListeners == old(closeListeners)
    {
      listeners := listeners + [listener];
      var current := state;
      callbackExecuteCalls := callbackExecuteCalls + 1;
      trace := trace + [Delivered(listener, current)];
    }

    /** `removeListener`: drop the first occurrence; nothing else changes. */
    method RemoveListener(listener: Id)
      requires Valid()
      modifies this
      ensures Valid()
      ensures listeners == RemoveFirst(old(listeners), listener)
      ensures state == old(state) && trace == old(trace)
      ensures executeCalls == old(executeCalls) && callbackExecuteCalls == old(callbackExecuteCalls)
      ensures closed == old(closed) && closeListeners == old(closeListeners)
    {
      listeners := RemoveFirst(listeners, listener);
    }

    /** `dispatchFlush`: submit one task running `flushQueues` to the work executor. */
    method DispatchFlush()
      modifies this, jobs
      ensures !jobs.HasJobs()
      ensures var p := FlushRun(old(state), listeners, old(jobs.setStateQueue), old(jobs.getStateQueue));
        && state == p.state
        && trace == old(trace) + p.events
        && callbackExecuteCalls == old(callbackExecuteCalls) + p.callbacks
      ensures executeCalls == old(executeCalls) + 1
      ensures listeners == old(listeners) && closed == old(closed) && closeListeners == old(closeListeners)
    {
      executeCalls := executeCalls + 1;
      FlushQueues();
    }

    /** `flushQueues`: loop until both queues are empty. */
    method FlushQueues()
      modifies this, jobs
      ensures !jobs.HasJobs()
      ensures var p := FlushRun(old(state), listeners, old(jobs.setStateQueue), old(jobs.getStateQueue));
        && state == p.state
        && trace == old(trace) + p.events
        && callbackExecuteCalls == old(callbackExecuteCalls) + p.callbacks
      ensures listeners == old(listeners) && executeCalls == old(executeCalls)
      ensures closed == old(closed) && closeListeners == old(closeListeners)
    {
      ghost var total := FlushRun(state, listeners, jobs.setStateQueue, jobs.getStateQueue);
      while jobs.HasJobs()
        invariant listeners == old(listeners) && executeCalls == old(executeCalls)
        invariant closed == old(closed) && closeListeners == old(closeListeners)
        invariant var rest := FlushRun(state, listeners, jobs.setStateQueue, jobs.getStateQueue);
          && rest.state == total.state
          && trace + rest.events == old(trace) + total.events
          && callbackExecuteCalls + rest.callbacks == old(callbackExecuteCalls) + total.callbacks
        decreases |jobs.setStateQueue| + |jobs.getStateQueue|
      {
        ghost var rs, cs, s, t, n := jobs.setStateQueue, jobs.getStateQueue, state, trace, callbackExecuteCalls;
        ghost var p := FlushRun(s, listeners, rs, cs);
        FlushSetStateQueue();
        FlushGetStateQueue();
        ghost var q := FlushRun(state, listeners, jobs.setStateQueue, jobs.getStateQueue);
        ghost var notes := if state != s then Notify(listeners, state) else [];
        ghost var read := if cs == [] then [] else [Consumed(cs[0], state)];
        assert jobs.setStateQueue == Tail(rs) && jobs.getStateQueue == Tail(cs);
        assert state == if rs == [] then s else rs[0](s);
        assert trace == t + notes + read;
        assert callbackExecuteCalls == n + (if state != s then 1 else 0);
        FlushStep(s, listeners, rs, cs);
        assert p == Pass(q.state, notes + read + q.events, (if state != s then 1 else 0) + q.callbacks);
        AppendRegroup(t, notes, read, q.events);
      }
    }

    /** `flushSetStateQueue`: poll one reducer, if any, and apply it. */
    method FlushSetStateQueue()
      modifies this, jobs
      ensures jobs.getStateQueue == old(jobs.getStateQueue)
      ensures old(jobs.setStateQueue) == [] ==>
                jobs.setStateQueue == [] && state == old(state) && trace == old(trace)
                && callbackExecuteCalls == old(callbackExecuteCalls)
      ensures old(jobs.setStateQueue) != [] ==>
                var next := old(jobs.setStateQueue)[0](old(state));
                && jobs.setStateQueue == old(jobs.setStateQueue)[1..]
                && state == next
                && trace == old(trace) + (if next != old(state) then Notify(listeners, next) else [])
                && callbackExecuteCalls == old(callbackExecuteCalls) + (if next != old(state) then 1 else 0)
      ensures listeners == old(listeners) && executeCalls == old(executeCalls)
      ensures closed == old(closed) && closeListeners == old(closeListeners)
    {
      var reducer := jobs.DequeueSet();
      if reducer.None? {
        return;
      }
      var newState := reducer.value(state);
      SetStateValue(newState);
    }

    /** `flushGetStateQueue`: poll one consumer, if any, and call it with the state. */
    method FlushGetStateQueue()
      modifies this, jobs
      ensures jobs.setStateQueue == old(jobs.setStateQueue)
      ensures old(jobs.getStateQueue) == [] ==> jobs.getStateQueue == [] && trace == old(trace)
      ensures old(jobs.getStateQueue) != [] ==>
                jobs.getStateQueue == old(jobs.getStateQueue)[1..]
                && trace == old(trace) + [Consumed(old(jobs.getStateQueue)[0], state)]
      ensures state == old(state) && listeners == old(listeners)
      ensures executeCalls == old(executeCalls) && callbackExecuteCalls == old(callbackExecuteCalls)
      ensures closed == old(closed) && closeListeners == old(closeListeners)
    {
      var consumer := jobs.DequeueGet();
      if consumer.None? {
        return;
      }
      var current := state;
      trace := trace + [Consumed(consumer.value, current)];
    }

    /**
     * The private `setState(state)`: ignore a state equal to the current one;
     * otherwise store it and submit one callback task that notifies a
     * snapshot of the listener list, in list order.
     */
    method SetStateValue(newState: T)
      modifies this
      ensures state == newState
      ensures newState == old(state) ==>
                trace == old(trace) && callbackExecuteCalls == old(callbackExecuteCalls)
      ensures newState != old(state) ==>
                trace == old(trace) + Notify(listeners, newState)
                && callbackExecuteCalls == old(callbackExecuteCalls) + 1
      ensures listeners == old(listeners) && executeCalls == old(executeCalls)
      ensures closed == old(closed) && closeListeners == old(closeListeners)
    {
      if state == newState {
        return;
      }
      state := newState;
      var snapshot := listeners;
      callbackExecuteCalls := callbackExecuteCalls + 1;
      trace := trace + Notify(snapshot, newState);
    }

    /**
     * `addCloseListener`: register once (a second add of the same listener
     * changes nothing); on a closed store call it at once instead.
     */
    method AddCloseListener(listener: Id)
      requires Valid()
      modifies this
      ensures Valid()
      ensures closed == old(closed)
      ensures !closed ==>
                && closeListeners == AddUnique(old(closeListeners), listener)
                && trace == old(trace) && callbackExecuteCalls == old(callbackExecuteCalls)
      ensures closed ==>
                && closeListeners == old(closeListeners)
                && trace == old(trace) + [CloseNotified(listener)]
                && callbackExecuteCalls == old(callbackExecuteCalls) + 1
      ensures state == old(state) && listeners == old(listeners) && executeCalls == old(executeCalls)
    {
      if closed {
        callbackExecuteCalls := callbackExecuteCalls + 1;
        trace := trace + [CloseNotified(listener)];
        return;
      }
      closeListeners := AddUnique(closeListeners, listener);
    }

    /** `removeCloseListener`: unregister; no-op if absent. */
    method RemoveCloseListener(listener: Id)
      requires Valid()
      modifies this
      ensures Valid()
      ensures closeListeners == Remove(old(closeListeners), listener)
      ensures closed == old(closed) && state == old(state) && listeners == old(listeners) && trace == old(trace)
      ensures executeCalls == old(executeCalls) && callbackExecuteCalls == old(callbackExecuteCalls)
    {
      closeListeners := Remove(closeListeners, listener);
    }

    /**
     * `close`: the first call marks the store closed, drops the state
     * listeners, and empties the close listeners after submitting one
     * callback task that calls each of them; later calls change nothing.
     */
    method Close()
      requires Valid()
      modifies this
      ensures Valid() && closed
      ensures old(closed) ==>
                && listeners == old(listeners) && closeListeners == old(closeListeners)
                && trace == old(trace) && callbackExecuteCalls == old(callbackExecuteCalls)
      ensures !old(closed) ==>
                && listeners == [] && closeListeners == []
                && trace == old(trace) + CloseNotices(old(closeListeners))
                && callbackExecuteCalls == old(callbackExecuteCalls) + 1
      ensures state == old(state) && executeCalls == old(executeCalls)
    {
      if closed {
        return;
      }
      closed := true;
      listeners := [];
      var snapshot := closeListeners;
      closeListeners := [];
      callbackExecuteCalls := callbackExecuteCalls + 1;
      trace := trace + CloseNotices(snapshot);
    }
  }
}
