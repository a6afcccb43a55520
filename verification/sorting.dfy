/** Descending selection by amount, as pandas `nlargest(n, col)` with its
    default `keep='first'`: the largest rows first. pandas leaves the order of
    equal amounts in its default sort unspecified; this model fixes it by
    keeping ties in their original order. */
module Sorting {

  /** `xs` is non-increasing under `key`. */
  ghost predicate SortedDesc<T>(xs: seq<T>, key: T -> int) {
    forall i, j :: 0 <= i < j < |xs| ==> key(xs[i]) >= key(xs[j])
  }

  /** Places `x` in front of the first element it is not smaller than, so that
      among equal keys `x` comes first. */
  function Insert<T>(x: T, xs: seq<T>, key: T -> int): (r: seq<T>)
    requires SortedDesc(xs, key)
    ensures |r| == |xs| + 1
    ensures SortedDesc(r, key)
    ensures multiset(r) == multiset(xs) + multiset{x}
    ensures r[0] == x || (|xs| > 0 && r[0] == xs[0])
  {
    if |xs| == 0 || key(x) >= key(xs[0]) then [x] + xs
    else
      var rest := Insert(x, xs[1..], key);
      HeadBeforeInserted(x, xs, key, rest);
      [xs[0]] + rest
  }

  /** The head of `xs` goes in front of the tail with `x` inserted, when `x`
      is smaller than it. */
  lemma HeadBeforeInserted<T>(x: T, xs: seq<T>, key: T -> int, rest: seq<T>)
    requires |xs| > 0 && SortedDesc(xs, key) && key(x) < key(xs[0])
    requires SortedDesc(rest, key) && |rest| > 0
    requires multiset(rest) == multiset(xs[1..]) + multiset{x}
    requires rest[0] == x || (|xs| > 1 && rest[0] == xs[1])
    ensures SortedDesc([xs[0]] + rest, key)
    ensures multiset([xs[0]] + rest) == multiset(xs) + multiset{x}
  {
    assert xs == [xs[0]] + xs[1..];
    var r := [xs[0]] + rest;
    forall i, j | 0 <= i < j < |r| ensures key(r[i]) >= key(r[j]) {
      if i == 0 {
        assert key(xs[0]) >= key(rest[0]) >= key(rest[j - 1]);
      } else {
        assert r[i] == rest[i - 1] && r[j] == rest[j - 1];
      }
    }
  }

  /** A sort into non-increasing order of `key`; it keeps equal keys in
      their original order, a choice the model makes where pandas' default
      sort promises none. */
  function SortDesc<T>(xs: seq<T>, key: T -> int): (r: seq<T>)
    ensures |r| == |xs|
    ensures SortedDesc(r, key)
    ensures multiset(r) == multiset(xs)
  {
    if |xs| == 0 then []
    else
      assert xs == [xs[0]] + xs[1..];
      Insert(xs[0], SortDesc(xs[1..], key), key)
  }

  /** Stability on a sequence already in order: nothing moves. */
  lemma {:induction false} SortDescOfSorted<T>(xs: seq<T>, key: T -> int)
    requires SortedDesc(xs, key)
    ensures SortDesc(xs, key) == xs
  {
    if |xs| > 0 {
      SortDescOfSorted(xs[1..], key);
      assert xs == [xs[0]] + xs[1..];
    }
  }

  /** Among elements with equal keys, each comes `before` every later one. */
  ghost predicate TiesIn<T>(xs: seq<T>, key: T -> int, before: (T, T) -> bool) {
    forall i, j :: 0 <= i < j < |xs| && key(xs[i]) == key(xs[j]) ==> before(xs[i], xs[j])
  }

  /** Stability: the sort keeps whatever order equal keys had. */
  lemma {:induction false} SortDescKeepsTies<T>(xs: seq<T>, key: T -> int, before: (T, T) -> bool)
    requires TiesIn(xs, key, before)
    ensures TiesIn(SortDesc(xs, key), key, before)
  {
    if |xs| > 0 {
      var tail := xs[1..];
      assert TiesIn(tail, key, before) by {
        forall i, j | 0 <= i < j < |tail| && key(tail[i]) == key(tail[j])
          ensures before(tail[i], tail[j])
        {
          assert tail[i] == xs[i + 1] && tail[j] == xs[j + 1];
        }
      }
      SortDescKeepsTies(tail, key, before);
      var ys := SortDesc(tail, key);
      forall y | y in multiset(ys) && key(y) == key(xs[0])
        ensures before(xs[0], y)
      {
        assert y in tail;
        var k :| 0 <= k < |tail| && tail[k] == y;
        assert xs[k + 1] == y;
      }
      InsertKeepsTies(xs[0], ys, key, before);
    }
  }

  /** Inserting an element that comes before every equal-keyed element
      keeps the tie order. */
  lemma {:induction false} InsertKeepsTies<T>(x: T, ys: seq<T>, key: T -> int, before: (T, T) -> bool)
    requires SortedDesc(ys, key) && TiesIn(ys, key, before)
    requires forall y :: y in multiset(ys) && key(y) == key(x) ==> before(x, y)
    ensures TiesIn(Insert(x, ys, key), key, before)
  {
    if |ys| == 0 || key(x) >= key(ys[0]) {
      TiesAtFront(x, ys, key, before);
    } else {
      TailKeepsOrder(ys, key, before);
      InsertKeepsTies(x, ys[1..], key, before);
      TiesBehindHead(x, ys, key, before, Insert(x, ys[1..], key));
    }
  }

  /** An element put in front keeps the tie order when it comes before every
      equal-keyed element behind it. */
  lemma TiesAtFront<T>(x: T, ys: seq<T>, key: T -> int, before: (T, T) -> bool)
    requires TiesIn(ys, key, before)
    requires forall y :: y in multiset(ys) && key(y) == key(x) ==> before(x, y)
    ensures TiesIn([x] + ys, key, before)
  {
    var r := [x] + ys;
    forall i, j | 0 <= i < j < |r| && key(r[i]) == key(r[j])
      ensures before(r[i], r[j])
    {
      assert r[j] == ys[j - 1];
      if i == 0 {
        assert ys[j - 1] in multiset(ys);
      } else {
        assert r[i] == ys[i - 1];
      }
    }
  }

  /** The tail of a sorted sequence is sorted, with the same tie order. */
  lemma TailKeepsOrder<T>(ys: seq<T>, key: T -> int, before: (T, T) -> bool)
    requires |ys| > 0 && SortedDesc(ys, key) && TiesIn(ys, key, before)
    ensures SortedDesc(ys[1..], key) && TiesIn(ys[1..], key, before)
    ensures multiset(ys[1..]) <= multiset(ys)
  {
    var tail := ys[1..];
    assert ys == [ys[0]] + tail;
    forall i, j | 0 <= i < j < |tail|
      ensures key(tail[i]) >= key(tail[j])
      ensures key(tail[i]) == key(tail[j]) ==> before(tail[i], tail[j])
    {
      assert tail[i] == ys[i + 1] && tail[j] == ys[j + 1];
    }
  }

  /** The head of `ys` stays in front of the tail with `x` inserted, tie
      order included, when `x` is smaller than it. */
  lemma TiesBehindHead<T>(x: T, ys: seq<T>, key: T -> int, before: (T, T) -> bool, rest: seq<T>)
    requires |ys| > 0 && TiesIn(ys, key, before) && key(x) < key(ys[0])
    requires TiesIn(rest, key, before)
    requires multiset(rest) == multiset(ys[1..]) + multiset{x}
    ensures TiesIn([ys[0]] + rest, key, before)
  {
    var r := [ys[0]] + rest;
    forall i, j | 0 <= i < j < |r| && key(r[i]) == key(r[j])
      ensures before(r[i], r[j])
    {
      assert r[j] == rest[j - 1];
      if i == 0 {
        assert rest[j - 1] in multiset(rest);
        if rest[j - 1] != x {
          assert rest[j - 1] in ys[1..];
          var k :| 0 <= k < |ys| - 1 && ys[1..][k] == rest[j - 1];
          assert ys[k + 1] == rest[j - 1];
        }
      } else {
        assert r[i] == rest[i - 1];
      }
    }
  }

  /** `nlargest(n)`: the first `n` of the sorted rows; nothing for `n <= 0`. */
  function Largest<T>(xs: seq<T>, n: int, key: T -> int): (r: seq<T>)
    ensures |r| == if n <= 0 then 0 else if n < |xs| then n else |xs|
    ensures SortedDesc(r, key)
    ensures multiset(r) <= multiset(xs)
    ensures forall i, x :: 0 <= i < |r| && x in multiset(xs) - multiset(r) ==> key(r[i]) >= key(x)
  {
    var sorted := SortDesc(xs, key);
    var k := if n <= 0 then 0 else if n < |xs| then n else |xs|;
    PrefixDominates(sorted, k, key);
    sorted[..k]
  }

  /** In a sorted sequence the first `k` elements are at least as large as
      every element left behind. */
  lemma PrefixDominates<T>(sorted: seq<T>, k: nat, key: T -> int)
    requires k <= |sorted| && SortedDesc(sorted, key)
    ensures SortedDesc(sorted[..k], key)
    ensures multiset(sorted[..k]) <= multiset(sorted)
    ensures forall i, x :: 0 <= i < k && x in multiset(sorted) - multiset(sorted[..k]) ==>
      key(sorted[..k][i]) >= key(x)
  {
    var r := sorted[..k];
    var rest := sorted[k..];
    assert sorted == r + rest;
    assert multiset(sorted) == multiset(r) + multiset(rest);
    assert multiset(sorted) - multiset(r) == multiset(rest);
    forall i, x | 0 <= i < k && x in multiset(rest)
      ensures key(r[i]) >= key(x)
    {
      assert x in rest;
      var j :| 0 <= j < |rest| && rest[j] == x;
      assert sorted[k + j] == x;
    }
  }
}
