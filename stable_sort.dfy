/**
 * `Array.prototype.sort` with a comparator `(a, b) => key(b) - key(a)`.
 * Since ECMAScript 2019 that sort is stable, so its result is fully
 * determined: keys descending, and elements with equal keys in their input
 * order. `SortDesc` is a stable insertion sort with that result.
 */
module StableSort {

  /** Puts `x` in front of the first element whose key is not above its own. */
  function Insert<T(==)>(x: T, r: seq<T>, key: T -> real): (o: seq<T>)
    ensures |o| == |r| + 1
    ensures multiset(o) == multiset(r) + multiset{x}
  {
    if r == [] || key(x) >= key(r[0]) then [x] + r
    else
      assert r == [r[0]] + r[1..];
      [r[0]] + Insert(x, r[1..], key)
  }

  /** The stable descending sort of `s` by `key`; a permutation of `s`. */
  function SortDesc<T(==)>(s: seq<T>, key: T -> real): (r: seq<T>)
    ensures |r| == |s| && multiset(r) == multiset(s)
  {
    if s == [] then []
    else
      assert s == [s[0]] + s[1..];
      Insert(s[0], SortDesc(s[1..], key), key)
  }

  ghost predicate Descending<T>(s: seq<T>, key: T -> real) {
    forall i, j :: 0 <= i < j < |s| ==> key(s[i]) >= key(s[j])
  }

  /** Strictly ordered by `key` descending, then by `tie` ascending. */
  ghost predicate DescendingThen<T>(s: seq<T>, key: T -> real, tie: T -> int) {
    forall i, j :: 0 <= i < j < |s| ==>
      key(s[i]) > key(s[j]) || (key(s[i]) == key(s[j]) && tie(s[i]) < tie(s[j]))
  }

  ghost predicate Increasing<T>(s: seq<T>, tie: T -> int) {
    forall i, j :: 0 <= i < j < |s| ==> tie(s[i]) < tie(s[j])
  }

  lemma {:induction false} InsertDescending<T>(x: T, r: seq<T>, key: T -> real)
    requires Descending(r, key)
    ensures Descending(Insert(x, r, key), key)
  {
    if r != [] && key(x) < key(r[0]) {
      InsertDescending(x, r[1..], key);
      var o := Insert(x, r, key);
      forall j | 0 < j < |o| ensures key(o[0]) >= key(o[j]) {
        assert o[j] in multiset(Insert(x, r[1..], key));
        if o[j] != x {
          assert o[j] in r[1..];
        }
      }
    }
  }

  /** The sort puts keys in non-increasing order. */
  lemma {:induction false} SortDescDescending<T>(s: seq<T>, key: T -> real)
    ensures Descending(SortDesc(s, key), key)
  {
    if s != [] {
      SortDescDescending(s[1..], key);
      InsertDescending(s[0], SortDesc(s[1..], key), key);
    }
  }

  lemma {:induction false} InsertDescendingThen<T>(x: T, r: seq<T>, key: T -> real, tie: T -> int)
    requires DescendingThen(r, key, tie)
    requires forall y :: y in r ==> tie(x) < tie(y)
    ensures DescendingThen(Insert(x, r, key), key, tie)
  {
    var o := Insert(x, r, key);
    if r == [] {
    } else if key(x) >= key(r[0]) {
      forall j | 0 < j < |o|
        ensures key(o[0]) > key(o[j]) || (key(o[0]) == key(o[j]) && tie(o[0]) < tie(o[j]))
      {
        assert o[j] == r[j - 1];
        if j > 1 {
          assert key(r[0]) >= key(r[j - 1]);
        }
      }
    } else {
      InsertDescendingThen(x, r[1..], key, tie);
      forall j | 0 < j < |o|
        ensures key(o[0]) > key(o[j]) || (key(o[0]) == key(o[j]) && tie(o[0]) < tie(o[j]))
      {
        assert o[j] in multiset(Insert(x, r[1..], key));
        if o[j] != x {
          assert o[j] in r[1..];
          var k :| 0 <= k < |r[1..]| && r[1..][k] == o[j];
          assert r[k + 1] == o[j];
        }
      }
    }
  }

  /**
   * Stability: if `tie` increases along the input, equal keys leave the sort in
   * increasing `tie`, i.e. in input order.
   */
  lemma {:induction false} SortDescStable<T>(s: seq<T>, key: T -> real, tie: T -> int)
    requires Increasing(s, tie)
    ensures DescendingThen(SortDesc(s, key), key, tie)
  {
    if s != [] {
      SortDescStable(s[1..], key, tie);
      var r := SortDesc(s[1..], key);
      forall y | y in r ensures tie(s[0]) < tie(y) {
        assert y in multiset(s[1..]);
        var k :| 0 <= k < |s[1..]| && s[1..][k] == y;
        assert s[k + 1] == y;
      }
      InsertDescendingThen(s[0], r, key, tie);
    }
  }

  ghost predicate DistinctBy<T, K>(s: seq<T>, f: T -> K) {
    forall i, j :: 0 <= i < j < |s| ==> f(s[i]) != f(s[j])
  }

  lemma {:induction false} InsertDistinctBy<T, K>(x: T, r: seq<T>, key: T -> real, f: T -> K)
    requires DistinctBy(r, f)
    requires forall y :: y in r ==> f(y) != f(x)
    ensures DistinctBy(Insert(x, r, key), f)
  {
    var o := Insert(x, r, key);
    if r != [] && key(x) < key(r[0]) {
      InsertDistinctBy(x, r[1..], key, f);
      forall j | 0 < j < |o| ensures f(o[0]) != f(o[j]) {
        assert o[j] in multiset(Insert(x, r[1..], key));
        if o[j] != x {
          assert o[j] in r[1..];
          var k :| 0 <= k < |r[1..]| && r[1..][k] == o[j];
          assert r[k + 1] == o[j];
        }
      }
    } else if r != [] {
      forall i, j | 0 <= i < j < |o| ensures f(o[i]) != f(o[j]) {
        if i > 0 {
          assert o[i] == r[i - 1] && o[j] == r[j - 1];
        }
      }
    }
  }

  /** Sorting keeps a projection that was distinct distinct (ids stay unique). */
  lemma {:induction false} SortDescDistinctBy<T, K>(s: seq<T>, key: T -> real, f: T -> K)
    requires DistinctBy(s, f)
    ensures DistinctBy(SortDesc(s, key), f)
  {
    if s != [] {
      SortDescDistinctBy(s[1..], key, f);
      var r := SortDesc(s[1..], key);
      forall y | y in r ensures f(y) != f(s[0]) {
        assert y in multiset(s[1..]);
        var k :| 0 <= k < |s[1..]| && s[1..][k] == y;
        assert s[k + 1] == y;
      }
      InsertDistinctBy(s[0], r, key, f);
    }
  }
}
