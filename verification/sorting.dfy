/**
 Stable sorting by an integer key, largest key first. This is what
 `Array.prototype.sort` does with the comparator `(a, b) => key(b) - key(a)`:
 since ECMAScript 2019 that sort is required to be stable, so elements with
 equal keys keep their input order. The model is an insertion sort, and
 `StableSortIsUnique` shows that every stable descending sort returns the
 same sequence, so nothing depends on the algorithm chosen here.
 */
module Sorting {
  import opened Seqs

  /** Keys never increase from left to right. */
  predicate SortedDesc<T>(s: seq<T>, key: T -> int)
  {
    forall i, j :: 0 <= i < j < |s| ==> key(s[i]) >= key(s[j])
  }

  /** The elements of `s` whose key is `k`, in order. */
  function WithKey<T>(s: seq<T>, key: T -> int, k: int): seq<T>
  {
    Filter(s, (x: T) => key(x) == k)
  }

  /** Insert `x` in front of the first element whose key is not larger. */
  function Insert<T>(x: T, s: seq<T>, key: T -> int): (r: seq<T>)
    ensures |r| == |s| + 1
    ensures r[0] == x || (s != [] && r[0] == s[0])
  {
    if s == [] || key(s[0]) <= key(x) then
      [x] + s
    else
      assert s == [s[0]] + s[1..];
      [s[0]] + Insert(x, s[1..], key)
  }

  lemma {:induction false} InsertPermutes<T>(x: T, s: seq<T>, key: T -> int)
    ensures multiset(Insert(x, s, key)) == multiset(s) + multiset{x}
  {
    if s != [] && key(s[0]) > key(x) {
      InsertPermutes(x, s[1..], key);
      assert s == [s[0]] + s[1..];
    }
  }

  lemma {:induction false} InsertSorted<T>(x: T, s: seq<T>, key: T -> int)
    requires SortedDesc(s, key)
    ensures SortedDesc(Insert(x, s, key), key)
  {
    if s == [] || key(s[0]) <= key(x) {
    } else {
      var t := Insert(x, s[1..], key);
      InsertSorted(x, s[1..], key);
      assert key(t[0]) <= key(s[0]);
      assert Insert(x, s, key) == [s[0]] + t;
    }
  }

  /** The feed order: stable, descending by key. */
  function SortDesc<T>(s: seq<T>, key: T -> int): (r: seq<T>)
    ensures SortedDesc(r, key)
    ensures multiset(r) == multiset(s)
    ensures |r| == |s|
  {
    if s == [] then []
    else
      assert s == [s[0]] + s[1..];
      InsertSorted(s[0], SortDesc(s[1..], key), key);
      InsertPermutes(s[0], SortDesc(s[1..], key), key);
      Insert(s[0], SortDesc(s[1..], key), key)
  }

  lemma SortedTail<T>(s: seq<T>, key: T -> int)
    requires SortedDesc(s, key) && s != []
    ensures SortedDesc(s[1..], key)
    ensures forall y :: y in s ==> key(y) <= key(s[0])
  {
  }

  lemma KeyBoundedByHead<T>(s: seq<T>, key: T -> int, y: T)
    requires SortedDesc(s, key) && y in s
    ensures key(y) <= key(s[0])
  {
  }

  /** Filtering keeps a sorted sequence sorted. */
  lemma {:induction false} FilterSorted<T>(s: seq<T>, key: T -> int, p: T -> bool)
    requires SortedDesc(s, key)
    ensures SortedDesc(Filter(s, p), key)
  {
    if s != [] {
      SortedTail(s, key);
      FilterSorted(s[1..], key, p);
    }
  }

  lemma FilterCons<T>(y: T, t: seq<T>, p: T -> bool)
    ensures Filter([y] + t, p) == (if p(y) then [y] else []) + Filter(t, p)
  {
    assert ([y] + t)[1..] == t;
  }

  /** Filtering an insertion that lands at the front. */
  lemma FilterInsertFront<T>(x: T, u: seq<T>, key: T -> int, p: T -> bool)
    requires SortedDesc(u, key)
    requires u == [] || key(u[0]) <= key(x)
    ensures p(x) ==> Filter(Insert(x, u, key), p) == Insert(x, Filter(u, p), key)
    ensures !p(x) ==> Filter(Insert(x, u, key), p) == Filter(u, p)
  {
    var fu := Filter(u, p);
    assert Insert(x, u, key) == [x] + u;
    FilterCons(x, u, p);
    if p(x) {
      if fu != [] {
        assert fu[0] in u;
        KeyBoundedByHead(u, key, fu[0]);
      }
      assert Insert(x, fu, key) == [x] + fu;
    }
  }

  /** Filtering an insertion that passes the head `u0` of `[u0] + t`. */
  lemma FilterInsertPast<T>(x: T, u0: T, t: seq<T>, key: T -> int, p: T -> bool)
    requires key(u0) > key(x)
    requires p(x) ==> Filter(Insert(x, t, key), p) == Insert(x, Filter(t, p), key)
    requires !p(x) ==> Filter(Insert(x, t, key), p) == Filter(t, p)
    ensures p(x) ==> Filter(Insert(x, [u0] + t, key), p) == Insert(x, Filter([u0] + t, p), key)
    ensures !p(x) ==> Filter(Insert(x, [u0] + t, key), p) == Filter([u0] + t, p)
  {
    var it, ft := Insert(x, t, key), Filter(t, p);
    assert ([u0] + t)[1..] == t;
    assert Insert(x, [u0] + t, key) == [u0] + it;
    FilterCons(u0, it, p);
    FilterCons(u0, t, p);
    if p(u0) {
      assert Filter([u0] + t, p) == [u0] + ft;
      if p(x) {
        assert ([u0] + ft)[1..] == ft;
        calc {
          Filter(Insert(x, [u0] + t, key), p);
          [u0] + Filter(it, p);
          [u0] + Insert(x, ft, key);
          Insert(x, [u0] + ft, key);
        }
      }
    } else {
      assert Filter([u0] + t, p) == ft;
      assert Filter(Insert(x, [u0] + t, key), p) == Filter(it, p);
    }
  }

  lemma {:induction false} FilterInsert<T>(x: T, u: seq<T>, key: T -> int, p: T -> bool)
    requires SortedDesc(u, key)
    ensures p(x) ==> Filter(Insert(x, u, key), p) == Insert(x, Filter(u, p), key)
    ensures !p(x) ==> Filter(Insert(x, u, key), p) == Filter(u, p)
  {
    if u == [] || key(u[0]) <= key(x) {
      FilterInsertFront(x, u, key, p);
    } else {
      SortedTail(u, key);
      FilterInsert(x, u[1..], key, p);
      assert u == [u[0]] + u[1..];
      FilterInsertPast(x, u[0], u[1..], key, p);
    }
  }

  /** Sorting and filtering commute: the sorted sequence, filtered, is the
      filtered sequence, sorted. */
  lemma {:induction false} SortFilterCommute<T>(s: seq<T>, key: T -> int, p: T -> bool)
    ensures Filter(SortDesc(s, key), p) == SortDesc(Filter(s, p), key)
  {
    if s != [] {
      var s0, t := s[0], s[1..];
      assert s == [s0] + t;
      SortFilterCommute(t, key, p);
      var st, ft := SortDesc(t, key), Filter(t, p);
      FilterInsert(s0, st, key, p);
      FilterCons(s0, t, p);
      assert SortDesc(s, key) == Insert(s0, st, key);
      if p(s0) {
        assert Filter(s, p) == [s0] + ft;
        assert ([s0] + ft)[1..] == ft;
        calc {
          Filter(SortDesc(s, key), p);
          Insert(s0, Filter(st, p), key);
          Insert(s0, SortDesc(ft, key), key);
          SortDesc([s0] + ft, key);
        }
      } else {
        assert Filter(s, p) == ft;
      }
    }
  }

  /** A sequence whose keys are all equal is left as it is. */
  lemma {:induction false} SortConstantKey<T>(s: seq<T>, key: T -> int, k: int)
    requires forall x :: x in s ==> key(x) == k
    ensures SortDesc(s, key) == s
  {
    if s != [] {
      SortConstantKey(s[1..], key, k);
    }
  }

  /** Stability: elements with equal keys keep their input order. */
  lemma SortStable<T>(s: seq<T>, key: T -> int, k: int)
    ensures WithKey(SortDesc(s, key), key, k) == WithKey(s, key, k)
  {
    var p := (x: T) => key(x) == k;
    SortFilterCommute(s, key, p);
    SortConstantKey(Filter(s, p), key, k);
  }

  /** Stability for every key at once. */
  lemma SortStableAll<T>(s: seq<T>, key: T -> int)
    ensures forall k :: WithKey(SortDesc(s, key), key, k) == WithKey(s, key, k)
  {
    forall k
      ensures WithKey(SortDesc(s, key), key, k) == WithKey(s, key, k)
    {
      SortStable(s, key, k);
    }
  }

  lemma NoKeysMeansEmpty<T>(s: seq<T>, key: T -> int)
    requires forall k :: WithKey(s, key, k) == []
    ensures s == []
  {
    if s != [] {
      var k0 := key(s[0]);
      var none := WithKey(s, key, k0);
      FilterKeeps(s, (x: T) => key(x) == k0, 0);
    }
  }

  /** Dropping heads of equal key keeps the per-key subsequences equal. */
  lemma TailsWithKey<T>(a: seq<T>, b: seq<T>, key: T -> int)
    requires a != [] && b != [] && key(a[0]) == key(b[0])
    requires forall k :: WithKey(a, key, k) == WithKey(b, key, k)
    ensures forall k :: WithKey(a[1..], key, k) == WithKey(b[1..], key, k)
  {
    assert a == [a[0]] + a[1..];
    assert b == [b[0]] + b[1..];
    forall k
      ensures WithKey(a[1..], key, k) == WithKey(b[1..], key, k)
    {
      var q := (x: T) => key(x) == k;
      FilterCons(a[0], a[1..], q);
      FilterCons(b[0], b[1..], q);
      var fa, fb := Filter(a[1..], q), Filter(b[1..], q);
      assert WithKey(a, key, k) == WithKey(b, key, k);
      if k == key(a[0]) {
        assert WithKey(a, key, k) == [a[0]] + fa;
        assert WithKey(b, key, k) == [b[0]] + fb;
        assert ([a[0]] + fa)[1..] == fa;
        assert ([b[0]] + fb)[1..] == fb;
      } else {
        assert WithKey(a, key, k) == fa;
        assert WithKey(b, key, k) == fb;
      }
    }
  }

  /** Two sorted sequences with the same elements per key are equal: order
      between keys is fixed by sortedness, order within a key by the
      per-key subsequences. */
  lemma {:induction false} SortedUnique<T>(a: seq<T>, b: seq<T>, key: T -> int)
    requires SortedDesc(a, key) && SortedDesc(b, key)
    requires forall k :: WithKey(a, key, k) == WithKey(b, key, k)
    ensures a == b
    decreases |a|
  {
    if a == [] || b == [] {
      var c := if a == [] then b else a;
      forall k
        ensures WithKey(c, key, k) == []
      {
        assert WithKey(a, key, k) == WithKey(b, key, k);
      }
      NoKeysMeansEmpty(c, key);
    } else {
      var ka, kb := key(a[0]), key(b[0]);
      assert a[0] in WithKey(a, key, ka);
      var ya :| ya in WithKey(b, key, ka) && ya == a[0];
      KeyBoundedByHead(b, key, ya);
      assert b[0] in WithKey(b, key, kb);
      var yb :| yb in WithKey(a, key, kb) && yb == b[0];
      KeyBoundedByHead(a, key, yb);
      assert ka == kb;
      TailsWithKey(a, b, key);
      SortedTail(a, key);
      SortedTail(b, key);
      SortedUnique(a[1..], b[1..], key);
      assert a[0] == b[0] by {
        assert WithKey(a, key, ka)[0] == a[0];
        assert WithKey(b, key, ka)[0] == b[0];
      }
    }
  }

  /** Any stable descending sort of `s` returns `SortDesc(s, key)`. */
  lemma StableSortIsUnique<T>(s: seq<T>, r: seq<T>, key: T -> int)
    requires SortedDesc(r, key)
    requires forall k :: WithKey(r, key, k) == WithKey(s, key, k)
    ensures r == SortDesc(s, key)
  {
    forall k
      ensures WithKey(r, key, k) == WithKey(SortDesc(s, key), key, k)
    {
      SortStable(s, key, k);
    }
    SortedUnique(r, SortDesc(s, key), key);
  }

  /** A sequence already in order is returned unchanged. */
  lemma SortOfSorted<T>(s: seq<T>, key: T -> int)
    requires SortedDesc(s, key)
    ensures SortDesc(s, key) == s
  {
    StableSortIsUnique(s, s, key);
  }
}
