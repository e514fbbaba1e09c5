/**
 * The two listener collections of the store.
 *
 * State listeners live in a plain mutable list: `add` appends (duplicates
 * allowed) and `remove` drops the FIRST occurrence only.  Close listeners
 * form a de-duplicating, insertion-ordered set.
 */
module Listeners {

  /** Number of times `x` occurs in `s`. */
  function Occurrences<X(==)>(s: seq<X>, x: X): nat
  {
    if s == [] then 0
    else (if s[0] == x then 1 else 0) + Occurrences(s[1..], x)
  }

  /** No element occurs twice. */
  predicate NoDup<X(==)>(s: seq<X>)
  {
    forall i, j :: 0 <= i < j < |s| ==> s[i] != s[j]
  }

  lemma {:induction false} OccurrencesZero<X>(s: seq<X>, x: X)
    ensures Occurrences(s, x) == 0 <==> x !in s
  {
    if s != [] {
      OccurrencesZero(s[1..], x);
      assert s == [s[0]] + s[1..];
    }
  }

  lemma {:induction false} OccurrencesAppend<X>(a: seq<X>, b: seq<X>, x: X)
    ensures Occurrences(a + b, x) == Occurrences(a, x) + Occurrences(b, x)
  {
    if a == [] {
      assert a + b == b;
    } else {
      assert (a + b)[1..] == a[1..] + b;
      OccurrencesAppend(a[1..], b, x);
    }
  }

  /** In a duplicate-free sequence every member occurs exactly once. */
  lemma {:induction false} NoDupOccursOnce<X>(s: seq<X>, x: X)
    requires NoDup(s)
    ensures Occurrences(s, x) == if x in s then 1 else 0
  {
    if s != [] {
      assert NoDup(s[1..]);
      NoDupOccursOnce(s[1..], x);
      if s[0] == x {
        assert x !in s[1..];
      }
      assert s == [s[0]] + s[1..];
    }
  }

  /**
   * `MutableList.remove(element)`: removes the first occurrence of `x`, if
   * there is one, and keeps the order of everything else.
   */
  function RemoveFirst<X(==)>(s: seq<X>, x: X): (r: seq<X>)
    ensures x !in s ==> r == s
    ensures x in s ==> |r| == |s| - 1
  {
    if s == [] then []
    else if s[0] == x then s[1..]
    else [s[0]] + RemoveFirst(s[1..], x)
  }

  /** Position of the first occurrence of `x`. */
  function IndexOf<X(==)>(s: seq<X>, x: X): (i: nat)
    requires x in s
    ensures i < |s| && s[i] == x && x !in s[..i]
  {
    if s[0] == x then 0 else 1 + IndexOf(s[1..], x)
  }

  /** Exactly the first occurrence is cut out; the rest keeps its order. */
  lemma {:induction false} RemoveFirstCutsFirst<X>(s: seq<X>, x: X)
    requires x in s
    ensures RemoveFirst(s, x) == s[..IndexOf(s, x)] + s[IndexOf(s, x) + 1..]
  {
    if s[0] != x {
      RemoveFirstCutsFirst(s[1..], x);
      var i := IndexOf(s[1..], x);
      assert s[..i + 1] == [s[0]] + s[1..][..i];
      assert s[i + 2..] == s[1..][i + 1..];
    }
  }

  /** One copy of `x` fewer, none of anything else. */
  lemma {:induction false} RemoveFirstMultiset<X>(s: seq<X>, x: X)
    ensures multiset(RemoveFirst(s, x)) == multiset(s) - multiset{x}
  {
    if s != [] {
      assert s == [s[0]] + s[1..];
      if s[0] != x {
        RemoveFirstMultiset(s[1..], x);
      }
    }
  }

  /** A listener added `n` times is still registered `n - 1` times after one removal. */
  lemma {:induction false} RemoveFirstOccurrences<X>(s: seq<X>, x: X, y: X)
    ensures Occurrences(RemoveFirst(s, x), y) ==
            if x == y && x in s then Occurrences(s, y) - 1 else Occurrences(s, y)
  {
    if s != [] {
      if s[0] != x {
        RemoveFirstOccurrences(s[1..], x, y);
        assert RemoveFirst(s, x)[1..] == RemoveFirst(s[1..], x);
      }
    }
  }

  /** `add` on a de-duplicating set: appends `x` unless it is already there. */
  function AddUnique<X(==)>(s: seq<X>, x: X): (r: seq<X>)
    ensures x in s ==> r == s
    ensures x !in s ==> r == s + [x]
    ensures x in r
    ensures NoDup(s) ==> NoDup(r)
  {
    if x in s then s else s + [x]
  }

  /** `remove` on a de-duplicating set: drops every copy of `x`. */
  function Remove<X(==)>(s: seq<X>, x: X): (r: seq<X>)
    ensures x !in r
    ensures forall i :: 0 <= i < |r| ==> r[i] in s
    ensures forall i :: 0 <= i < |s| && s[i] != x ==> s[i] in r
    ensures NoDup(s) ==> NoDup(r)
    ensures x !in s ==> r == s
    ensures |r| <= |s|
  {
    if s == [] then []
    else if s[0] == x then Remove(s[1..], x)
    else
      var rest := Remove(s[1..], x);
      assert NoDup(s) ==> NoDup(s[1..]) && s[0] !in s[1..];
      assert s == [s[0]] + s[1..];
      [s[0]] + rest
  }
}
