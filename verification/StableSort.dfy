/** The contract of a stable sort, which determines its result, and an insertion sort that meets it. */
module StableSort {
  import opened Basics

  /** Behind every element whose key is not larger. */
  function Inserted<T>(key: T -> nat, s: seq<T>, x: T): seq<T> {
    if s == [] || key(Last(s)) <= key(x) then s + [x] else Inserted(key, Front(s), x) + [Last(s)]
  }

  function Sorted<T>(key: T -> nat, s: seq<T>): seq<T> {
    if s == [] then [] else Inserted(key, Sorted(key, Front(s)), Last(s))
  }

  predicate InOrder<T>(key: T -> nat, s: seq<T>) {
    forall i, j :: 0 <= i < j < |s| ==> key(s[i]) <= key(s[j])
  }

  /** The elements with a given key, in their order. */
  function WithKey<T>(key: T -> nat, s: seq<T>, n: nat): seq<T> {
    if s == [] then [] else WithKey(key, Front(s), n) + if key(Last(s)) == n then [Last(s)] else []
  }

  /** In order, and the elements of each key are those given, in the order given. */
  ghost predicate IsStableSort<T(!new)>(key: T -> nat, s: seq<T>, t: seq<T>) {
    InOrder(key, t) && forall n: nat :: WithKey(key, t, n) == WithKey(key, s, n)
  }

  lemma {:induction false} InsertedOrdered<T>(key: T -> nat, s: seq<T>, x: T)
    requires InOrder(key, s)
    ensures InOrder(key, Inserted(key, s, x))
  {
    if s != [] && key(Last(s)) > key(x) {
      InsertedOrdered(key, Front(s), x);
      InsertedContents(key, Front(s), x);
      var r := Inserted(key, Front(s), x);
      forall y | y in r ensures key(y) <= key(Last(s)) {
        assert y in multiset(r);
      }
      AppendedInOrder(key, r, Last(s));
    } else {
      AppendedInOrder(key, s, x);
    }
  }

  lemma {:induction false} InsertedContents<T>(key: T -> nat, s: seq<T>, x: T)
    ensures multiset(Inserted(key, s, x)) == multiset(s) + multiset{x}
  {
    if s != [] && key(Last(s)) > key(x) {
      InsertedContents(key, Front(s), x);
      assert s == Front(s) + [Last(s)];
    }
  }

  lemma AppendedInOrder<T>(key: T -> nat, s: seq<T>, x: T)
    requires InOrder(key, s) && forall y :: y in s ==> key(y) <= key(x)
    ensures InOrder(key, s + [x])
  {
  }

  lemma {:induction false} InsertedStable<T>(key: T -> nat, s: seq<T>, x: T, n: nat)
    requires InOrder(key, s)
    ensures WithKey(key, Inserted(key, s, x), n) == WithKey(key, s + [x], n)
  {
    assert Front(s + [x]) == s;
    if s != [] && key(Last(s)) > key(x) {
      InsertedStable(key, Front(s), x, n);
      assert Front(Inserted(key, Front(s), x) + [Last(s)]) == Inserted(key, Front(s), x);
      assert Front(Front(s) + [x]) == Front(s);
    }
  }

  lemma {:induction false} SortedIsStable<T(!new)>(key: T -> nat, s: seq<T>)
    ensures IsStableSort(key, s, Sorted(key, s)) && multiset(Sorted(key, s)) == multiset(s)
  {
    if s != [] {
      var t := Sorted(key, Front(s));
      SortedIsStable(key, Front(s));
      InsertedOrdered(key, t, Last(s));
      InsertedContents(key, t, Last(s));
      assert s == Front(s) + [Last(s)];
      forall n: nat ensures WithKey(key, Sorted(key, s), n) == WithKey(key, s, n) {
        InsertedStable(key, t, Last(s), n);
        assert Front(t + [Last(s)]) == t;
        assert WithKey(key, t, n) == WithKey(key, Front(s), n);
      }
    }
  }

  lemma {:induction false} KeyShows<T>(key: T -> nat, s: seq<T>, n: nat)
    ensures WithKey(key, s, n) != [] <==> exists i :: 0 <= i < |s| && key(s[i]) == n
  {
    if s != [] {
      KeyShows(key, Front(s), n);
      assert forall i :: 0 <= i < |s| - 1 ==> s[i] == Front(s)[i];
    }
  }

  lemma SameLast<T(!new)>(key: T -> nat, t: seq<T>, u: seq<T>)
    requires InOrder(key, t) && InOrder(key, u) && t != [] && forall n: nat :: WithKey(key, t, n) == WithKey(key, u, n)
    ensures u != [] && Last(t) == Last(u)
  {
    var n := key(Last(t));
    KeyShows(key, t, n);
    KeyShows(key, u, n);
    assert WithKey(key, t, n) == WithKey(key, u, n);
    var m := key(Last(u));
    KeyShows(key, u, m);
    KeyShows(key, t, m);
    assert WithKey(key, t, m) == WithKey(key, u, m);
    assert n == m;
    assert Last(WithKey(key, t, n)) == Last(t) && Last(WithKey(key, u, n)) == Last(u);
  }

  lemma FrontWithKey<T>(key: T -> nat, t: seq<T>, k: nat)
    requires t != []
    ensures WithKey(key, Front(t), k) == if key(Last(t)) == k then Front(WithKey(key, t, k)) else WithKey(key, t, k)
  {
  }

  /** There is only one stable sort, so any implementation gives the same result. */
  lemma {:induction false} StableSortUnique<T(!new)>(key: T -> nat, t: seq<T>, u: seq<T>)
    requires InOrder(key, t) && InOrder(key, u) && forall n: nat :: WithKey(key, t, n) == WithKey(key, u, n)
    ensures t == u
    decreases |t|
  {
    if t == [] {
      if u != [] { SameLast(key, u, t); }
    } else {
      SameLast(key, t, u);
      forall k: nat ensures WithKey(key, Front(t), k) == WithKey(key, Front(u), k) {
        FrontWithKey(key, t, k);
        FrontWithKey(key, u, k);
      }
      StableSortUnique(key, Front(t), Front(u));
      assert t == Front(t) + [Last(t)] && u == Front(u) + [Last(u)];
    }
  }
}
