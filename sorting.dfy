/** Ordering by a numeric key. Both orderings in the agenda are by start time:
    the store's `.order('start_time', { ascending: true })` and the slot
    view's `Array.prototype.sort` with a start-time comparator. The latter is
    stable, so equal keys keep their input order; the same stable insertion
    sort stands for the store's ordering. */
module Sorting {

  predicate SortedBy<T>(s: seq<T>, key: T -> int) {
    forall i, j :: 0 <= i < j < |s| ==> key(s[i]) <= key(s[j])
  }

  /** The elements of `s` whose key is `k`, in order. */
  function WithKey<T>(s: seq<T>, key: T -> int, k: int): (r: seq<T>)
    ensures forall x :: x in r ==> x in s && key(x) == k
  {
    if s == [] then []
    else if key(s[0]) == k then [s[0]] + WithKey(s[1..], key, k)
    else WithKey(s[1..], key, k)
  }

  /** Puts `x` in front of the first element whose key is not below its own. */
  function Insert<T>(x: T, s: seq<T>, key: T -> int): (r: seq<T>)
    requires SortedBy(s, key)
    ensures SortedBy(r, key)
    ensures multiset(r) == multiset(s) + multiset{x}
    ensures |r| == |s| + 1
    ensures forall y :: y in r ==> y == x || y in s
  {
    if s == [] || key(x) <= key(s[0]) then
      PrependSorted(x, s, key);
      [x] + s
    else
      var tail := Insert(x, s[1..], key);
      assert s == [s[0]] + s[1..];
      forall y | y in tail
        ensures key(s[0]) <= key(y)
      {
        if y != x {
          var j :| 1 <= j < |s| && s[j] == y;
        }
      }
      PrependSorted(s[0], tail, key);
      [s[0]] + tail
  }

  lemma PrependSorted<T>(h: T, t: seq<T>, key: T -> int)
    requires SortedBy(t, key)
    requires forall y :: y in t ==> key(h) <= key(y)
    ensures SortedBy([h] + t, key)
  {
    var r := [h] + t;
    forall i, j | 0 <= i < j < |r|
      ensures key(r[i]) <= key(r[j])
    {
      assert r[j] == t[j - 1];
      if i > 0 {
        assert r[i] == t[i - 1];
      } else {
        assert t[j - 1] in t;
      }
    }
  }

  /** Stable sort ascending by `key`. */
  function SortBy<T>(s: seq<T>, key: T -> int): (r: seq<T>)
    ensures SortedBy(r, key)
    ensures multiset(r) == multiset(s)
    ensures |r| == |s|
  {
    if s == [] then []
    else
      assert s == [s[0]] + s[1..];
      Insert(s[0], SortBy(s[1..], key), key)
  }

  lemma {:induction false} InsertWithKey<T>(x: T, s: seq<T>, key: T -> int, k: int)
    requires SortedBy(s, key)
    ensures WithKey(Insert(x, s, key), key, k) ==
            if key(x) == k then [x] + WithKey(s, key, k) else WithKey(s, key, k)
    decreases |s|
  {
    if s == [] || key(x) <= key(s[0]) {
      assert ([x] + s)[1..] == s;
    } else {
      var r := Insert(x, s, key);
      assert r[0] == s[0] && r[1..] == Insert(x, s[1..], key);
      InsertWithKey(x, s[1..], key, k);
    }
  }

  /** Stability: for every key, the elements carrying it keep their relative order. */
  lemma {:induction false} SortByIsStable<T>(s: seq<T>, key: T -> int, k: int)
    ensures WithKey(SortBy(s, key), key, k) == WithKey(s, key, k)
    decreases |s|
  {
    if s != [] {
      SortByIsStable(s[1..], key, k);
      InsertWithKey(s[0], SortBy(s[1..], key), key, k);
    }
  }

  lemma SortByMembers<T>(s: seq<T>, key: T -> int, x: T)
    ensures x in SortBy(s, key) <==> x in s
  {
    var r := SortBy(s, key);
    assert x in r <==> x in multiset(r);
    assert x in s <==> x in multiset(s);
  }
}
