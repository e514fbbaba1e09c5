/**
 * The flush loop of `RealStateStore` as a function of the queues it drains.
 *
 * `flushQueues` runs while either queue holds a job; each iteration first
 * takes at most one reducer from the set queue and applies it (the private
 * `setState(state)`, which drops a result equal to the current state), then
 * takes at most one consumer from the get queue and calls it with the state.
 * During one flush the listener list does not change: reducers are pure and
 * consumers are recorded as events.
 */
module Flush {
  import opened Listeners
  import opened Events

  /** What one flush produces: the final state, the calls made, and the number of callback tasks submitted. */
  datatype Pass<T, Id> = Pass(state: T, events: seq<Event<T, Id>>, callbacks: nat)

  function Min(a: nat, b: nat): nat { if a < b then a else b }

  /** `poll()` without the result: the queue minus its head, if any. */
  function Tail<X>(s: seq<X>): seq<X> { if s == [] then [] else s[1..] }

  /** Reference meaning of a run of reducers: apply them left to right. */
  function Fold<T>(state: T, reducers: seq<T -> T>): T
  {
    if reducers == [] then state else Fold(reducers[0](state), reducers[1..])
  }

  /**
   * Reference meaning of the notifications: the states a run of reducers
   * moves through, leaving out every step that returns an equal state.
   */
  function Changes<T(==)>(state: T, reducers: seq<T -> T>): seq<T>
  {
    if reducers == [] then []
    else
      var next := reducers[0](state);
      (if next != state then [next] else []) + Changes(next, reducers[1..])
  }

  /** `flushQueues` over set queue `reducers` and get queue `consumers`. */
  function FlushRun<T(==), Id>(state: T, listeners: seq<Id>, reducers: seq<T -> T>, consumers: seq<Id>): (p: Pass<T, Id>)
    ensures p.callbacks <= |reducers|
    ensures p.callbacks == 0 ==> p.state == state
    decreases |reducers| + |consumers|
  {
    if reducers == [] && consumers == [] then Pass(state, [], 0)
    else
      // flushSetStateQueue
      var next := if reducers == [] then state else reducers[0](state);
      var changed := next != state;
      var notes := if changed then Notify(listeners, next) else [];
      // flushGetStateQueue
      var read := if consumers == [] then [] else [Consumed(consumers[0], next)];
      var rest := FlushRun(next, listeners, Tail(reducers), Tail(consumers));
      Pass(rest.state, notes + read + rest.events, (if changed then 1 else 0) + rest.callbacks)
  }

  /** One iteration of the loop, followed by the flush of what is left. */
  lemma FlushStep<T, Id>(state: T, listeners: seq<Id>, reducers: seq<T -> T>, consumers: seq<Id>)
    requires reducers != [] || consumers != []
    ensures var next := if reducers == [] then state else reducers[0](state);
      var rest := FlushRun(next, listeners, Tail(reducers), Tail(consumers));
      FlushRun(state, listeners, reducers, consumers) ==
        Pass(rest.state,
             (if next != state then Notify(listeners, next) else [])
             + (if consumers == [] then [] else [Consumed(consumers[0], next)])
             + rest.events,
             (if next != state then 1 else 0) + rest.callbacks)
  {
  }

  /** Every reducer is applied exactly once, oldest first. */
  lemma {:induction false} FlushReachesFold<T, Id>(state: T, listeners: seq<Id>, reducers: seq<T -> T>, consumers: seq<Id>)
    ensures FlushRun(state, listeners, reducers, consumers).state == Fold(state, reducers)
    decreases |reducers| + |consumers|
  {
    if reducers != [] || consumers != [] {
      var next := if reducers == [] then state else reducers[0](state);
      FlushReachesFold(next, listeners, Tail(reducers), Tail(consumers));
    }
  }

  /** Applying the first k + 1 reducers is applying the first k and then reducer k. */
  lemma {:induction false} FoldShift<T>(state: T, reducers: seq<T -> T>, k: nat)
    requires k < |reducers|
    ensures Fold(state, reducers[..k + 1]) == Fold(reducers[0](state), reducers[1..][..k])
  {
    assert reducers[..k + 1][1..] == reducers[1..][..k];
  }

  /**
   * Every consumer is called exactly once, in queue order, and the i-th
   * consumer sees the state after the first i + 1 reducers (or all of them,
   * if there are fewer).
   */
  lemma {:induction false} FlushReadsInOrder<T, Id>(state: T, listeners: seq<Id>, reducers: seq<T -> T>, consumers: seq<Id>)
    ensures ReadsMatch(Reads(FlushRun(state, listeners, reducers, consumers).events), state, reducers, consumers)
    decreases |reducers| + |consumers|
  {
    if reducers != [] || consumers != [] {
      var next := if reducers == [] then state else reducers[0](state);
      FlushReadsInOrder(next, listeners, Tail(reducers), Tail(consumers));
      ReadsUnfold(state, listeners, reducers, consumers);
      ReadsMatchStep(Reads(FlushRun(next, listeners, Tail(reducers), Tail(consumers)).events), state, reducers, consumers);
    }
  }

  /**
   * `r` lists one call per consumer, in queue order, where the i-th consumer
   * sees the state after the first i + 1 reducers (or all, if fewer).
   */
  ghost predicate ReadsMatch<T, Id>(r: seq<Event<T, Id>>, state: T, reducers: seq<T -> T>, consumers: seq<Id>)
  {
    && |r| == |consumers|
    && forall i :: 0 <= i < |consumers| ==>
         r[i] == Consumed(consumers[i], Fold(state, reducers[..Min(i + 1, |reducers|)]))
  }

  lemma ReadsMatchStep<T, Id>(rest: seq<Event<T, Id>>, state: T, reducers: seq<T -> T>, consumers: seq<Id>)
    requires reducers != [] || consumers != []
    requires ReadsMatch(rest, if reducers == [] then state else reducers[0](state), Tail(reducers), Tail(consumers))
    ensures var next := if reducers == [] then state else reducers[0](state);
      ReadsMatch((if consumers == [] then [] else [Consumed(consumers[0], next)]) + rest, state, reducers, consumers)
  {
    var next := if reducers == [] then state else reducers[0](state);
    var r := (if consumers == [] then [] else [Consumed(consumers[0], next)]) + rest;
    forall i | 0 <= i < |consumers|
      ensures r[i] == Consumed(consumers[i], Fold(state, reducers[..Min(i + 1, |reducers|)]))
    {
      if i == 0 {
        assert reducers != [] ==> reducers[..1] == [reducers[0]];
      } else {
        assert r[i] == rest[i - 1];
        if reducers != [] {
          FoldShift(state, reducers, Min(i, |reducers| - 1));
        }
      }
    }
  }

  /** The consumer calls of one loop iteration followed by those of the rest of the flush. */
  lemma ReadsUnfold<T, Id>(state: T, listeners: seq<Id>, reducers: seq<T -> T>, consumers: seq<Id>)
    requires reducers != [] || consumers != []
    ensures var next := if reducers == [] then state else reducers[0](state);
      Reads(FlushRun(state, listeners, reducers, consumers).events) ==
        (if consumers == [] then [] else [Consumed(consumers[0], next)])
        + Reads(FlushRun(next, listeners, Tail(reducers), Tail(consumers)).events)
  {
    var next := if reducers == [] then state else reducers[0](state);
    var changed := next != state;
    var notes := if changed then Notify(listeners, next) else [];
    var read: seq<Event<T, Id>> := if consumers == [] then [] else [Consumed(consumers[0], next)];
    var rest := FlushRun(next, listeners, Tail(reducers), Tail(consumers));
    assert FlushRun(state, listeners, reducers, consumers).events == notes + read + rest.events;
    NotifyFilters(listeners, next);
    ReadsAppend(notes, read);
    ReadsAppend(notes + read, rest.events);
    assert Reads(read) == read;
  }

  /**
   * The listeners are notified once per change of state and never for a
   * reducer that returns an equal state; interleaved consumers do not
   * change which notifications are made.
   */
  lemma {:induction false} FlushNotifiesChanges<T, Id>(state: T, listeners: seq<Id>, reducers: seq<T -> T>, consumers: seq<Id>)
    ensures var p := FlushRun(state, listeners, reducers, consumers);
      && Deliveries(p.events) == NotifyAll(listeners, Changes(state, reducers))
      && p.callbacks == |Changes(state, reducers)|
    decreases |reducers| + |consumers|
  {
    if reducers != [] || consumers != [] {
      var next := if reducers == [] then state else reducers[0](state);
      var changed := next != state;
      var notes := if changed then Notify(listeners, next) else [];
      var read: seq<Event<T, Id>> := if consumers == [] then [] else [Consumed(consumers[0], next)];
      var rest := FlushRun(next, listeners, Tail(reducers), Tail(consumers));
      FlushNotifiesChanges(next, listeners, Tail(reducers), Tail(consumers));
      NotifyFilters(listeners, next);
      DeliveriesAppend(notes, read);
      DeliveriesAppend(notes + read, rest.events);
      assert Deliveries(read) == [];
      var ch := if changed then [next] else [];
      if reducers != [] {
        assert Changes(state, reducers) == ch + Changes(next, reducers[1..]);
        NotifyAllAppend(listeners, ch, Changes(next, reducers[1..]));
        assert NotifyAll(listeners, ch) == notes;
      }
    }
  }

  /**
   * A listener registered once hears exactly the changes of state, in
   * order, whatever consumers are interleaved with the reducers.
   */
  lemma {:induction false} FlushSeenBy<T, Id>(state: T, listeners: seq<Id>, reducers: seq<T -> T>, consumers: seq<Id>, l: Id)
    requires Occurrences(listeners, l) == 1
    ensures SeenBy(FlushRun(state, listeners, reducers, consumers).events, l) == Changes(state, reducers)
    decreases |reducers| + |consumers|
  {
    if reducers != [] || consumers != [] {
      var next := if reducers == [] then state else reducers[0](state);
      SeenByUnfold(state, listeners, reducers, consumers, l);
      FlushSeenBy(next, listeners, Tail(reducers), Tail(consumers), l);
      if next != state {
        NotifySeenBy(listeners, next, l);
        assert seq(1, _ => next) == [next];
      }
    }
  }

  /** The calls `l` receives in one loop iteration followed by those of the rest of the flush. */
  lemma SeenByUnfold<T, Id>(state: T, listeners: seq<Id>, reducers: seq<T -> T>, consumers: seq<Id>, l: Id)
    requires reducers != [] || consumers != []
    ensures var next := if reducers == [] then state else reducers[0](state);
      SeenBy(FlushRun(state, listeners, reducers, consumers).events, l) ==
        SeenBy(if next != state then Notify(listeners, next) else [], l)
        + SeenBy(FlushRun(next, listeners, Tail(reducers), Tail(consumers)).events, l)
  {
    var next := if reducers == [] then state else reducers[0](state);
    var notes := if next != state then Notify(listeners, next) else [];
    var read: seq<Event<T, Id>> := if consumers == [] then [] else [Consumed(consumers[0], next)];
    var rest := FlushRun(next, listeners, Tail(reducers), Tail(consumers)).events;
    assert FlushRun(state, listeners, reducers, consumers).events == notes + read + rest;
    assert SeenBy(read, l) == [];
    SeenBySkip(notes, read, rest, l);
  }

  lemma {:induction false} NotifyAllAppend<T, Id>(listeners: seq<Id>, a: seq<T>, b: seq<T>)
    ensures NotifyAll(listeners, a + b) == NotifyAll(listeners, a) + NotifyAll(listeners, b)
  {
    if a == [] {
      assert a + b == b;
    } else {
      assert (a + b)[1..] == a[1..] + b;
      NotifyAllAppend(listeners, a[1..], b);
    }
  }

  /** No notified state equals the one before it: listeners never see a redundant state. */
  lemma {:induction false} ChangesAreDistinct<T>(state: T, reducers: seq<T -> T>)
    ensures var c := Changes(state, reducers);
      forall i :: 0 <= i < |c| ==> c[i] != if i == 0 then state else c[i - 1]
  {
    if reducers != [] {
      var next := reducers[0](state);
      ChangesAreDistinct(next, reducers[1..]);
      var tail := Changes(next, reducers[1..]);
      ChangesStartFrom(next, reducers[1..]);
    }
  }

  /** The first change differs from the state it starts from. */
  lemma {:induction false} ChangesStartFrom<T>(state: T, reducers: seq<T -> T>)
    ensures Changes(state, reducers) != [] ==> Changes(state, reducers)[0] != state
  {
    if reducers != [] {
      var next := reducers[0](state);
      if next == state {
        ChangesStartFrom(next, reducers[1..]);
      }
    }
  }

  /** The last notified state is the settled state; without one the state is unchanged. */
  lemma {:induction false} ChangesSettle<T>(state: T, reducers: seq<T -> T>)
    ensures var c := Changes(state, reducers);
      if c == [] then Fold(state, reducers) == state else c[|c| - 1] == Fold(state, reducers)
  {
    if reducers != [] {
      var next := reducers[0](state);
      ChangesSettle(next, reducers[1..]);
    }
  }

  /** A reducer enqueued behind a run of reducers is applied after all of them. */
  lemma {:induction false} FoldAppend<T>(state: T, reducers: seq<T -> T>, r: T -> T)
    ensures Fold(state, reducers + [r]) == r(Fold(state, reducers))
  {
    if reducers != [] {
      assert (reducers + [r])[1..] == reducers[1..] + [r];
      FoldAppend(reducers[0](state), reducers[1..], r);
    }
  }
}
