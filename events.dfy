/**
 * The observable effects of the store, recorded in order: a state listener
 * called with a state, a consumer of `withState` called with a state, or a
 * close listener called.  With the inline executors of this model every
 * submitted task runs at once, so the record is the order of the calls.
 */
module Events {
  import opened Listeners

  datatype Event<T, Id> =
    | Delivered(listener: Id, state: T)
    | Consumed(consumer: Id, state: T)
    | CloseNotified(listener: Id)

  /** One notification task: `listeners.forEach { it(state) }` over a snapshot. */
  function Notify<T, Id>(listeners: seq<Id>, state: T): (r: seq<Event<T, Id>>)
    ensures |r| == |listeners|
    ensures forall i :: 0 <= i < |r| ==> r[i] == Delivered(listeners[i], state)
  {
    if listeners == [] then []
    else [Delivered(listeners[0], state)] + Notify(listeners[1..], state)
  }

  /** The close notification task: every listener of the snapshot, in order. */
  function CloseNotices<T, Id>(listeners: seq<Id>): (r: seq<Event<T, Id>>)
    ensures |r| == |listeners|
    ensures forall i :: 0 <= i < |r| ==> r[i] == CloseNotified(listeners[i])
  {
    if listeners == [] then []
    else [CloseNotified(listeners[0])] + CloseNotices(listeners[1..])
  }

  /** One notification task per state in `states`, in that order. */
  function NotifyAll<T, Id>(listeners: seq<Id>, states: seq<T>): seq<Event<T, Id>>
  {
    if states == [] then []
    else Notify(listeners, states[0]) + NotifyAll(listeners, states[1..])
  }

  /** The consumer calls of a trace, in order. */
  function Reads<T, Id>(es: seq<Event<T, Id>>): seq<Event<T, Id>>
  {
    if es == [] then []
    else (if es[0].Consumed? then [es[0]] else []) + Reads(es[1..])
  }

  /** The state-listener calls of a trace, in order. */
  function Deliveries<T, Id>(es: seq<Event<T, Id>>): seq<Event<T, Id>>
  {
    if es == [] then []
    else (if es[0].Delivered? then [es[0]] else []) + Deliveries(es[1..])
  }

  /** The states delivered to listener `l` in a trace, in order. */
  function SeenBy<T, Id(==)>(es: seq<Event<T, Id>>, l: Id): seq<T>
  {
    if es == [] then []
    else (if es[0].Delivered? && es[0].listener == l then [es[0].state] else []) + SeenBy(es[1..], l)
  }

  /** Number of close notifications `l` received in a trace. */
  function CloseCalls<T, Id(==)>(es: seq<Event<T, Id>>, l: Id): nat
  {
    if es == [] then 0
    else (if es[0] == CloseNotified(l) then 1 else 0) + CloseCalls(es[1..], l)
  }

  /** A listener registered n times receives a notified state n times. */
  lemma {:induction false} NotifySeenBy<T, Id>(listeners: seq<Id>, state: T, l: Id)
    ensures SeenBy(Notify(listeners, state), l) == seq(Occurrences(listeners, l), _ => state)
  {
    if listeners != [] {
      var es := Notify(listeners, state);
      assert es[1..] == Notify(listeners[1..], state);
      NotifySeenBy(listeners[1..], state, l);
    }
  }

  /**
   * A listener added once and then removed is in no later snapshot, so no
   * later notification reaches it.
   */
  lemma RemovedListenerHearsNothing<T, Id>(listeners: seq<Id>, l: Id, state: T)
    requires Occurrences(listeners, l) == 1
    ensures SeenBy(Notify(RemoveFirst(listeners, l), state), l) == []
  {
    OccurrencesZero(listeners, l);
    RemoveFirstOccurrences(listeners, l, l);
    NotifySeenBy(RemoveFirst(listeners, l), state, l);
  }

  /** Each close listener of a duplicate-free snapshot is called exactly once. */
  lemma {:induction false} CloseNoticesOnce<T, Id>(listeners: seq<Id>, l: Id)
    requires NoDup(listeners)
    ensures CloseCalls(CloseNotices<T, Id>(listeners), l) == if l in listeners then 1 else 0
  {
    if listeners != [] {
      var es := CloseNotices<T, Id>(listeners);
      assert es[1..] == CloseNotices<T, Id>(listeners[1..]);
      assert NoDup(listeners[1..]);
      CloseNoticesOnce<T, Id>(listeners[1..], l);
      assert listeners == [listeners[0]] + listeners[1..];
      assert listeners[0] == l ==> l !in listeners[1..];
    }
  }

  lemma {:induction false} ReadsAppend<T, Id>(a: seq<Event<T, Id>>, b: seq<Event<T, Id>>)
    ensures Reads(a + b) == Reads(a) + Reads(b)
  {
    if a == [] {
      assert a + b == b;
    } else {
      var h := if a[0].Consumed? then [a[0]] else [];
      assert (a + b)[0] == a[0] && (a + b)[1..] == a[1..] + b;
      calc {
        Reads(a + b);
        h + Reads(a[1..] + b);
        { ReadsAppend(a[1..], b); }
        h + (Reads(a[1..]) + Reads(b));
        (h + Reads(a[1..])) + Reads(b);
      }
    }
  }

  lemma {:induction false} DeliveriesAppend<T, Id>(a: seq<Event<T, Id>>, b: seq<Event<T, Id>>)
    ensures Deliveries(a + b) == Deliveries(a) + Deliveries(b)
  {
    if a == [] {
      assert a + b == b;
    } else {
      var h := if a[0].Delivered? then [a[0]] else [];
      assert (a + b)[0] == a[0] && (a + b)[1..] == a[1..] + b;
      calc {
        Deliveries(a + b);
        h + Deliveries(a[1..] + b);
        { DeliveriesAppend(a[1..], b); }
        h + (Deliveries(a[1..]) + Deliveries(b));
        (h + Deliveries(a[1..])) + Deliveries(b);
      }
    }
  }

  lemma {:induction false} SeenByAppend<T, Id>(a: seq<Event<T, Id>>, b: seq<Event<T, Id>>, l: Id)
    ensures SeenBy(a + b, l) == SeenBy(a, l) + SeenBy(b, l)
  {
    if a == [] {
      assert a + b == b;
    } else {
      var h := if a[0].Delivered? && a[0].listener == l then [a[0].state] else [];
      assert (a + b)[0] == a[0] && (a + b)[1..] == a[1..] + b;
      calc {
        SeenBy(a + b, l);
        h + SeenBy(a[1..] + b, l);
        { SeenByAppend(a[1..], b, l); }
        h + (SeenBy(a[1..], l) + SeenBy(b, l));
        (h + SeenBy(a[1..], l)) + SeenBy(b, l);
      }
    }
  }

  /** A middle part that `l` hears nothing from drops out of what `l` hears. */
  lemma SeenBySkip<T, Id>(a: seq<Event<T, Id>>, b: seq<Event<T, Id>>, c: seq<Event<T, Id>>, l: Id)
    requires SeenBy(b, l) == []
    ensures SeenBy(a + b + c, l) == SeenBy(a, l) + SeenBy(c, l)
  {
    SeenByAppend(a + b, c, l);
    SeenByAppend(a, b, l);
    assert SeenBy(a, l) + SeenBy(b, l) == SeenBy(a, l);
  }

  lemma {:induction false} CloseCallsAppend<T, Id>(a: seq<Event<T, Id>>, b: seq<Event<T, Id>>, l: Id)
    ensures CloseCalls(a + b, l) == CloseCalls(a, l) + CloseCalls(b, l)
  {
    if a == [] {
      assert a + b == b;
    } else {
      assert (a + b)[1..] == a[1..] + b;
      CloseCallsAppend(a[1..], b, l);
    }
  }

  /** A notification task contains no consumer calls and only deliveries. */
  lemma {:induction false} NotifyFilters<T, Id>(listeners: seq<Id>, state: T)
    ensures Reads(Notify(listeners, state)) == []
    ensures Deliveries(Notify(listeners, state)) == Notify(listeners, state)
  {
    if listeners != [] {
      var es := Notify(listeners, state);
      assert es[1..] == Notify(listeners[1..], state);
      NotifyFilters(listeners[1..], state);
    }
  }

  lemma AppendRegroup<X>(a: seq<X>, b: seq<X>, c: seq<X>, d: seq<X>)
    ensures a + (b + c + d) == (a + b + c) + d
  {
  }
}
