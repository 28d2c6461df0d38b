/** Sequence utilities shared by the handlers: filtering, counting, summing,
    and the stable "order by key, descending" sort used both for SQL
    `ORDER BY ... DESC` and for the client-side `Array.prototype.sort`. */
module Seqs {

  /** The elements of `s` satisfying `p`, in their original order. */
  function Filter<T(!new)>(s: seq<T>, p: T -> bool): (r: seq<T>)
    ensures |r| <= |s|
    ensures forall x :: x in r <==> x in s && p(x)
    ensures forall i :: 0 <= i < |r| ==> p(r[i])
    ensures multiset(r) <= multiset(s)
  {
    if |s| == 0 then []
    else
      var init := s[..|s| - 1];
      assert s == init + [s[|s| - 1]];
      Filter(init, p) + (if p(s[|s| - 1]) then [s[|s| - 1]] else [])
  }

  /** Appending an element extends the filtered sequence by that element
      exactly when it satisfies the predicate. */
  lemma FilterAppend<T(!new)>(s: seq<T>, x: T, p: T -> bool)
    ensures Filter(s + [x], p) == Filter(s, p) + (if p(x) then [x] else [])
  {
    assert (s + [x])[..|s + [x]| - 1] == s;
  }

  /** Filtering by a predicate that holds of every element is the identity. */
  lemma {:induction false} FilterAll<T(!new)>(s: seq<T>, p: T -> bool)
    requires forall i :: 0 <= i < |s| ==> p(s[i])
    ensures Filter(s, p) == s
    decreases |s|
  {
    if |s| > 0 {
      var init := s[..|s| - 1];
      assert s == init + [s[|s| - 1]];
      FilterAll(init, p);
    }
  }

  /** No two elements of `s` share a `key` (a primary key over a table). */
  predicate DistinctBy<T, K(==)>(s: seq<T>, key: T -> K)
  {
    forall i, j :: 0 <= i < j < |s| ==> key(s[i]) != key(s[j])
  }

  /** Deleting rows never breaks a primary key. */
  lemma {:induction false} FilterKeepsDistinct<T(!new), K>(s: seq<T>, p: T -> bool, key: T -> K)
    requires DistinctBy(s, key)
    ensures DistinctBy(Filter(s, p), key)
    decreases |s|
  {
    if |s| > 0 {
      var init := s[..|s| - 1];
      var last := s[|s| - 1];
      assert s == init + [last];
      assert DistinctBy(init, key);
      FilterKeepsDistinct(init, p, key);
      var f := Filter(init, p);
      forall i | 0 <= i < |f|
        ensures key(f[i]) != key(last)
      {
        assert f[i] in init;
        var k :| 0 <= k < |init| && init[k] == f[i];
        assert s[k] == f[i];
      }
    }
  }

  /** The number of elements of `s` satisfying `p` (SQL `count()` under a
      `WHERE p`). */
  function Count<T(!new)>(s: seq<T>, p: T -> bool): (n: nat)
    ensures n <= |s|
    ensures n == 0 <==> forall i :: 0 <= i < |s| ==> !p(s[i])
  {
    var f := Filter(s, p);
    assert forall i :: 0 <= i < |s| && p(s[i]) ==> s[i] in f by {
      forall i | 0 <= i < |s| && p(s[i])
        ensures s[i] in f
      {
        assert s[i] in s;
      }
    }
    assert |f| > 0 ==> exists i :: 0 <= i < |s| && p(s[i]) by {
      if |f| > 0 {
        assert f[0] in f;
        var i :| 0 <= i < |s| && s[i] == f[0];
      }
    }
    |f|
  }

  /** Appending one element adds one to the count exactly when it satisfies
      the predicate. */
  lemma CountAppend<T(!new)>(s: seq<T>, x: T, p: T -> bool)
    ensures Count(s + [x], p) == Count(s, p) + (if p(x) then 1 else 0)
  {
    FilterAppend(s, x, p);
  }

  /** A weaker predicate counts at least as many elements. */
  lemma {:induction false} CountMonotone<T(!new)>(s: seq<T>, p: T -> bool, q: T -> bool)
    requires forall x :: p(x) ==> q(x)
    ensures Count(s, p) <= Count(s, q)
    decreases |s|
  {
    if |s| > 0 {
      var init := s[..|s| - 1];
      assert s == init + [s[|s| - 1]];
      CountMonotone(init, p, q);
      CountAppend(init, s[|s| - 1], p);
      CountAppend(init, s[|s| - 1], q);
    }
  }

  /** Counting `p` where `p` is `q` and `r` together is counting `r` over
      the elements `q` keeps. */
  lemma {:induction false} CountWithin<T(!new)>(s: seq<T>, p: T -> bool, q: T -> bool, r: T -> bool)
    requires forall x :: p(x) == (q(x) && r(x))
    ensures Count(s, p) == Count(Filter(s, q), r)
    decreases |s|
  {
    if |s| > 0 {
      var init := s[..|s| - 1];
      var last := s[|s| - 1];
      assert s == init + [last];
      CountWithin(init, p, q, r);
      FilterAppend(init, last, q);
      CountAppend(init, last, p);
      if q(last) {
        assert Filter(s, q) == Filter(init, q) + [last];
        CountAppend(Filter(init, q), last, r);
      } else {
        assert Filter(s, q) == Filter(init, q);
      }
    }
  }

  /** The sum of `f` over `s` (SQL `COALESCE(SUM(...), 0)`). */
  function Sum<T>(s: seq<T>, f: T -> int): int
  {
    if |s| == 0 then 0 else Sum(s[..|s| - 1], f) + f(s[|s| - 1])
  }

  /** Appending one element adds its value to the sum. */
  lemma SumAppend<T>(s: seq<T>, x: T, f: T -> int)
    ensures Sum(s + [x], f) == Sum(s, f) + f(x)
  {
    assert (s + [x])[..|s + [x]| - 1] == s;
  }

  /** `s` is ordered by `key`, greatest first. */
  predicate SortedDesc<T>(s: seq<T>, key: T -> int)
  {
    forall i, j :: 0 <= i < j < |s| ==> key(s[i]) >= key(s[j])
  }

  /** Putting `h` in front of a descending sequence keeps it descending when
      `h` outranks the current head. */
  lemma PrependSorted<T>(h: T, t: seq<T>, key: T -> int)
    requires SortedDesc(t, key)
    requires |t| > 0 ==> key(h) >= key(t[0])
    ensures SortedDesc([h] + t, key)
  {
    var r := [h] + t;
    forall i, j | 0 <= i < j < |r|
      ensures key(r[i]) >= key(r[j])
    {
      if i == 0 {
        assert r[j] == t[j - 1];
      } else {
        assert r[i] == t[i - 1] && r[j] == t[j - 1];
      }
    }
  }

  /** Inserts `x` into a descending sequence after every element whose key is
      at least `key(x)`, so that equal keys keep their arrival order. */
  function InsertDesc<T>(x: T, s: seq<T>, key: T -> int): (r: seq<T>)
    requires SortedDesc(s, key)
    ensures |r| == |s| + 1
    ensures multiset(r) == multiset(s) + multiset{x}
    ensures SortedDesc(r, key)
    ensures r[0] == if |s| > 0 && key(s[0]) >= key(x) then s[0] else x
    decreases |s|
  {
    if |s| == 0 then [x]
    else if key(s[0]) >= key(x) then
      var rest := InsertDesc(x, s[1..], key);
      PrependSorted(s[0], rest, key);
      assert s == [s[0]] + s[1..];
      [s[0]] + rest
    else
      PrependSorted(x, s, key);
      [x] + s
  }

  /** A stable sort of `s` by `key`, greatest first: among equal keys the
      earlier element of `s` comes first. */
  function SortDesc<T(!new)>(s: seq<T>, key: T -> int): (r: seq<T>)
    ensures |r| == |s|
    ensures multiset(r) == multiset(s)
    ensures SortedDesc(r, key)
    decreases |s|
  {
    if |s| == 0 then []
    else
      var init := s[..|s| - 1];
      assert s == init + [s[|s| - 1]];
      InsertDesc(s[|s| - 1], SortDesc(init, key), key)
  }

  /** The first `n` elements of `s`, or all of them when there are fewer
      (SQL `LIMIT n`, JavaScript `slice(0, n)`). */
  function Take<T>(s: seq<T>, n: nat): (r: seq<T>)
    ensures |r| == if |s| < n then |s| else n
    ensures forall i :: 0 <= i < |r| ==> r[i] == s[i]
  {
    if |s| < n then s else s[..n]
  }

  /** The `n` greatest elements of `s` by `key`, greatest first. */
  function TopDesc<T(!new)>(s: seq<T>, key: T -> int, n: nat): (r: seq<T>)
    ensures |r| == if |s| < n then |s| else n
    ensures SortedDesc(r, key)
    ensures multiset(r) <= multiset(s)
    ensures forall x :: x in r ==> x in s
  {
    var sorted := SortDesc(s, key);
    var r := Take(sorted, n);
    assert sorted == r + sorted[|r|..];
    assert multiset(sorted) == multiset(r) + multiset(sorted[|r|..]);
    assert forall x :: x in r ==> x in multiset(s);
    r
  }

  /** Nothing left out of `TopDesc` outranks anything kept. */
  lemma TopDescKeepsGreatest<T(!new)>(s: seq<T>, key: T -> int, n: nat, x: T, y: T)
    requires x in s && y in TopDesc(s, key, n)
    requires x !in TopDesc(s, key, n)
    ensures key(x) <= key(y)
  {
    var sorted := SortDesc(s, key);
    var r := TopDesc(s, key, n);
    assert x in multiset(sorted);
    var k :| 0 <= k < |sorted| && sorted[k] == x;
    var j :| 0 <= j < |r| && r[j] == y;
    assert sorted[j] == y;
    assert forall i :: 0 <= i < |r| ==> sorted[i] == r[i] && r[i] != x;
  }
}
