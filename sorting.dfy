/**
 * Python's `list.sort(key=...)` as the backend uses it: the key is a driving time in
 * minutes or None, and None sorts as `float('inf')`, after every number. Python's sort is
 * stable, so elements with equal keys keep their relative order; the model is an
 * insertion sort with the same outcome.
 */
module Sorting {
  import opened Common

  /** `a <= b` where None stands for +infinity. */
  predicate TimeLe(a: Option<int>, b: Option<int>) {
    b.None? || (a.Some? && a.value <= b.value)
  }

  /** Every element's key is at most the key of every later element. */
  predicate SortedBy<T>(s: seq<T>, key: T -> Option<int>) {
    forall i, j :: 0 <= i < j < |s| ==> TimeLe(key(s[i]), key(s[j]))
  }

  /** Inserts `x` before the first element whose key is not below x's key. */
  function InsertBy<T>(x: T, s: seq<T>, key: T -> Option<int>): seq<T> {
    if s == [] then [x]
    else if TimeLe(key(x), key(s[0])) then [x] + s
    else [s[0]] + InsertBy(x, s[1..], key)
  }

  /** The stable sort of `s` by `key`. */
  function SortBy<T>(s: seq<T>, key: T -> Option<int>): seq<T> {
    if s == [] then [] else InsertBy(s[0], SortBy(s[1..], key), key)
  }

  /** The elements of `s` whose key is `v`, in their order in `s`. */
  function WithKey<T>(s: seq<T>, key: T -> Option<int>, v: Option<int>): seq<T> {
    if s == [] then []
    else (if key(s[0]) == v then [s[0]] else []) + WithKey(s[1..], key, v)
  }

  lemma {:induction false} InsertByPermutes<T>(x: T, s: seq<T>, key: T -> Option<int>)
    ensures multiset(InsertBy(x, s, key)) == multiset([x] + s)
  {
    if s != [] && !TimeLe(key(x), key(s[0])) {
      InsertByPermutes(x, s[1..], key);
      assert s == [s[0]] + s[1..];
    }
  }

  /** Inserting an element no smaller than `b` into elements no smaller than `b` gives elements no smaller than `b`. */
  lemma {:induction false} InsertByBounded<T>(x: T, s: seq<T>, key: T -> Option<int>, b: Option<int>)
    requires TimeLe(b, key(x)) && forall i :: 0 <= i < |s| ==> TimeLe(b, key(s[i]))
    ensures forall i :: 0 <= i < |InsertBy(x, s, key)| ==> TimeLe(b, key(InsertBy(x, s, key)[i]))
  {
    if s != [] && !TimeLe(key(x), key(s[0])) {
      InsertByBounded(x, s[1..], key, b);
      var rest := InsertBy(x, s[1..], key);
      assert forall i :: 1 <= i < |rest| + 1 ==> ([s[0]] + rest)[i] == rest[i - 1];
    }
  }

  lemma {:induction false} InsertBySorted<T>(x: T, s: seq<T>, key: T -> Option<int>)
    requires SortedBy(s, key)
    ensures SortedBy(InsertBy(x, s, key), key)
  {
    if s != [] && !TimeLe(key(x), key(s[0])) {
      var rest := InsertBy(x, s[1..], key);
      InsertBySorted(x, s[1..], key);
      assert forall i :: 0 <= i < |s[1..]| ==> TimeLe(key(s[0]), key(s[1..][i])) by {
        forall i | 0 <= i < |s[1..]|
          ensures TimeLe(key(s[0]), key(s[1..][i]))
        {
          assert s[1..][i] == s[i + 1];
        }
      }
      InsertByBounded(x, s[1..], key, key(s[0]));
      var r := [s[0]] + rest;
      forall i, j | 0 <= i < j < |r|
        ensures TimeLe(key(r[i]), key(r[j]))
      {
        assert r[j] == rest[j - 1];
        if i > 0 {
          assert r[i] == rest[i - 1];
        }
      }
    }
  }

  /**
   * Inserting `x` in front of the elements it is placed before keeps, for every key value,
   * x ahead of the elements sharing its key: whatever is passed over has a smaller key.
   */
  lemma {:induction false} InsertByStable<T>(x: T, s: seq<T>, key: T -> Option<int>, v: Option<int>)
    ensures WithKey(InsertBy(x, s, key), key, v) == (if key(x) == v then [x] else []) + WithKey(s, key, v)
  {
    if s == [] {
      assert WithKey([x], key, v) == (if key(x) == v then [x] else []) + WithKey([x][1..], key, v);
    } else if TimeLe(key(x), key(s[0])) {
      assert ([x] + s)[1..] == s;
    } else {
      InsertByStable(x, s[1..], key, v);
      PassingKeepsOrder(x, s[0], s[1..], InsertBy(x, s[1..], key), key, v);
      assert s == [s[0]] + s[1..];
    }
  }

  /**
   * The case where `x` is inserted after `y`: y's key differs from x's, so at most one of
   * the two has the key `v` and their order among the elements with key `v` is immaterial.
   */
  lemma PassingKeepsOrder<T>(x: T, y: T, s: seq<T>, rest: seq<T>, key: T -> Option<int>, v: Option<int>)
    requires key(y) != key(x)
    requires WithKey(rest, key, v) == (if key(x) == v then [x] else []) + WithKey(s, key, v)
    ensures WithKey([y] + rest, key, v) == (if key(x) == v then [x] else []) + WithKey([y] + s, key, v)
  {
    assert ([y] + rest)[1..] == rest;
    assert ([y] + s)[1..] == s;
    if key(x) == v {
      assert WithKey([y] + rest, key, v) == WithKey(rest, key, v);
      assert WithKey([y] + s, key, v) == WithKey(s, key, v);
    } else {
      var hy: seq<T> := if key(y) == v then [y] else [];
      assert WithKey([y] + rest, key, v) == hy + WithKey(rest, key, v);
      assert WithKey([y] + s, key, v) == hy + WithKey(s, key, v);
      assert WithKey(rest, key, v) == WithKey(s, key, v);
    }
  }

  /** The sort orders by key, with None last. */
  lemma {:induction false} SortByIsSorted<T>(s: seq<T>, key: T -> Option<int>)
    ensures SortedBy(SortBy(s, key), key)
  {
    if s != [] {
      SortByIsSorted(s[1..], key);
      InsertBySorted(s[0], SortBy(s[1..], key), key);
    }
  }

  /** The sort only reorders: the same elements, each as often. */
  lemma {:induction false} SortByPermutes<T>(s: seq<T>, key: T -> Option<int>)
    ensures multiset(SortBy(s, key)) == multiset(s)
    ensures |SortBy(s, key)| == |s|
  {
    if s != [] {
      SortByPermutes(s[1..], key);
      InsertByPermutes(s[0], SortBy(s[1..], key), key);
      assert s == [s[0]] + s[1..];
      assert |SortBy(s, key)| == |multiset(SortBy(s, key))| == |multiset(s)| == |s|;
    }
  }

  /** The sort is stable: the elements sharing any one key come out in their input order. */
  lemma {:induction false} SortByStable<T>(s: seq<T>, key: T -> Option<int>, v: Option<int>)
    ensures WithKey(SortBy(s, key), key, v) == WithKey(s, key, v)
  {
    if s != [] {
      SortByStable(s[1..], key, v);
      InsertByStable(s[0], SortBy(s[1..], key), key, v);
    }
  }
}
