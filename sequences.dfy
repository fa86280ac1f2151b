/**
 * Query-set operations over rows kept in a sequence: `filter`, `order_by`
 * and slicing `[:n]`.
 */
module Sequences {

  /** The rows of `s` that satisfy `f`, in their original order. */
  function Filter<T(!new)>(s: seq<T>, f: T -> bool): (r: seq<T>)
    ensures |r| <= |s|
    ensures forall i :: 0 <= i < |r| ==> f(r[i])
  {
    if s == [] then []
    else
      assert s == [s[0]] + s[1..];
      var rest := Filter(s[1..], f);
      if f(s[0]) then [s[0]] + rest else rest
  }

  /** A row is kept exactly when it is present and passes the test. */
  lemma {:induction false} FilterMembers<T(!new)>(s: seq<T>, f: T -> bool, x: T)
    ensures x in Filter(s, f) <==> x in s && f(x)
  {
    if s != [] {
      FilterMembers(s[1..], f, x);
      assert s == [s[0]] + s[1..];
    }
  }

  /** Filtering only drops rows. */
  lemma {:induction false} FilterSubMultiset<T(!new)>(s: seq<T>, f: T -> bool)
    ensures multiset(Filter(s, f)) <= multiset(s)
  {
    if s != [] {
      FilterSubMultiset(s[1..], f);
      assert s == [s[0]] + s[1..];
    }
  }

  /** When every row passes, nothing is dropped. */
  lemma {:induction false} FilterAllPass<T(!new)>(s: seq<T>, f: T -> bool)
    requires forall i :: 0 <= i < |s| ==> f(s[i])
    ensures Filter(s, f) == s
  {
    if s != [] {
      FilterAllPass(s[1..], f);
      assert s == [s[0]] + s[1..];
    }
  }

  /** When no row passes, nothing is kept. */
  lemma FilterNonePass<T(!new)>(s: seq<T>, f: T -> bool)
    requires forall x :: x in s ==> !f(x)
    ensures Filter(s, f) == []
  {
    var r := Filter(s, f);
    if r != [] {
      FilterMembers(s, f, r[0]);
      assert false;
    }
  }

  /** One unfolding step of `Filter` on a non-empty sequence. */
  lemma FilterHead<T(!new)>(s: seq<T>, f: T -> bool)
    requires s != []
    ensures Filter(s, f) == (if f(s[0]) then [s[0]] else []) + Filter(s[1..], f)
  {
  }

  /** Filtering distributes over concatenation. */
  lemma {:induction false} FilterConcat<T(!new)>(a: seq<T>, b: seq<T>, f: T -> bool)
    ensures Filter(a + b, f) == Filter(a, f) + Filter(b, f)
  {
    if a == [] {
      assert a + b == b;
    } else {
      var ab := a + b;
      var rest := a[1..];
      assert ab != [] && ab[0] == a[0] by { assert ab[0] == a[0]; }
      assert ab[1..] == rest + b;
      FilterConcat(rest, b, f);
      var head := if f(a[0]) then [a[0]] else [];
      assert Filter(ab, f) == head + Filter(rest + b, f) by { FilterHead(ab, f); }
      assert Filter(a, f) == head + Filter(rest, f) by { FilterHead(a, f); }
      assert head + (Filter(rest, f) + Filter(b, f)) == (head + Filter(rest, f)) + Filter(b, f);
    }
  }

  /**
   * Filtering by `f` and then by `g` is filtering once by any `h` that holds
   * exactly when both do: successive query-set filters are a conjunction.
   */
  lemma {:induction false} FilterNarrow<T(!new)>(s: seq<T>, f: T -> bool, g: T -> bool, h: T -> bool)
    requires forall x :: h(x) == (f(x) && g(x))
    ensures Filter(Filter(s, f), g) == Filter(s, h)
  {
    if s != [] {
      FilterNarrow(s[1..], f, g, h);
      FilterHead(s, f);
      FilterHead(s, h);
      if f(s[0]) {
        FilterHead(Filter(s, f), g);
      }
    }
  }

  /** Filters that agree everywhere keep the same rows. */
  lemma {:induction false} FilterExt<T(!new)>(s: seq<T>, f: T -> bool, g: T -> bool)
    requires forall x :: f(x) == g(x)
    ensures Filter(s, f) == Filter(s, g)
  {
    if s != [] {
      FilterExt(s[1..], f, g);
    }
  }

  /** Filtering keeps a sorted sequence sorted. */
  lemma {:induction false} FilterSorted<T(!new)>(s: seq<T>, f: T -> bool, le: (T, T) -> bool)
    requires SortedBy(s, le)
    ensures SortedBy(Filter(s, f), le)
  {
    if s != [] {
      assert SortedBy(s[1..], le);
      FilterSorted(s[1..], f, le);
      if f(s[0]) {
        var rest := Filter(s[1..], f);
        forall j | 0 <= j < |rest| ensures le(s[0], rest[j]) {
          FilterMembers(s[1..], f, rest[j]);
          var k :| 0 <= k < |s[1..]| && s[1..][k] == rest[j];
          assert s[k + 1] == rest[j];
        }
        var r := [s[0]] + rest;
        forall i, j | 0 <= i < j < |r| ensures le(r[i], r[j]) {
          if i == 0 {
            assert r[j] == rest[j - 1];
          } else {
            assert r[i] == rest[i - 1] && r[j] == rest[j - 1];
          }
        }
      }
    }
  }

  /** `f` applied to every row, in order. */
  function MapSeq<A, B>(s: seq<A>, f: A -> B): (r: seq<B>)
    ensures |r| == |s|
    ensures forall i :: 0 <= i < |s| ==> r[i] == f(s[i])
  {
    seq(|s|, i requires 0 <= i < |s| => f(s[i]))
  }

  /**
   * A loop that appends `f(x)` for every kept row builds
   * `MapSeq(Filter(s, keep), f)`: one more row extends it by at most one item.
   */
  lemma FilterMapSnoc<A(!new), B>(s: seq<A>, x: A, keep: A -> bool, f: A -> B)
    ensures MapSeq(Filter(s + [x], keep), f) ==
      MapSeq(Filter(s, keep), f) + (if keep(x) then [f(x)] else [])
  {
    FilterConcat(s, [x], keep);
    FilterHead([x], keep);
    assert [x][1..] == [];
    var a := Filter(s, keep);
    var b := if keep(x) then [x] else [];
    assert Filter(s + [x], keep) == a + b;
    assert MapSeq(a + b, f) == MapSeq(a, f) + MapSeq(b, f);
  }

  ghost predicate IsTotalPreorder<T(!new)>(le: (T, T) -> bool) {
    && (forall x, y :: le(x, y) || le(y, x))
    && (forall x, y, z :: le(x, y) && le(y, z) ==> le(x, z))
  }

  predicate SortedBy<T>(s: seq<T>, le: (T, T) -> bool) {
    forall i, j :: 0 <= i < j < |s| ==> le(s[i], s[j])
  }

  function Insert<T(!new)>(x: T, s: seq<T>, le: (T, T) -> bool): (r: seq<T>)
    requires IsTotalPreorder(le) && SortedBy(s, le)
    ensures multiset(r) == multiset(s) + multiset{x}
    ensures SortedBy(r, le)
  {
    if s == [] then [x]
    else if le(x, s[0]) then
      InsertInFront(x, s, le);
      [x] + s
    else
      var rest := Insert(x, s[1..], le);
      InsertBehind(x, s, rest, le);
      [s[0]] + rest
  }

  lemma InsertInFront<T(!new)>(x: T, s: seq<T>, le: (T, T) -> bool)
    requires IsTotalPreorder(le) && SortedBy(s, le) && |s| > 0 && le(x, s[0])
    ensures SortedBy([x] + s, le)
  {
    var r := [x] + s;
    forall i, j | 0 <= i < j < |r| ensures le(r[i], r[j]) {
      if i == 0 && j > 1 {
        assert le(s[0], s[j - 1]);
      }
    }
  }

  lemma InsertBehind<T(!new)>(x: T, s: seq<T>, rest: seq<T>, le: (T, T) -> bool)
    requires IsTotalPreorder(le) && SortedBy(s, le) && |s| > 0 && !le(x, s[0])
    requires multiset(rest) == multiset(s[1..]) + multiset{x} && SortedBy(rest, le)
    ensures multiset([s[0]] + rest) == multiset(s) + multiset{x}
    ensures SortedBy([s[0]] + rest, le)
  {
    assert s == [s[0]] + s[1..];
    forall j | 0 <= j < |rest| ensures le(s[0], rest[j]) {
      assert rest[j] in multiset(rest);
      if rest[j] != x {
        assert rest[j] in s[1..];
        var k :| 0 <= k < |s| - 1 && s[1..][k] == rest[j];
        assert s[k + 1] == rest[j];
      }
    }
    var r := [s[0]] + rest;
    forall i, j | 0 <= i < j < |r| ensures le(r[i], r[j]) {
      if i == 0 {
        assert r[j] == rest[j - 1];
      } else {
        assert r[i] == rest[i - 1] && r[j] == rest[j - 1];
      }
    }
  }

  /** `order_by` under a total preorder: a sorted permutation (insertion sort). */
  function SortBy<T(!new)>(s: seq<T>, le: (T, T) -> bool): (r: seq<T>)
    requires IsTotalPreorder(le)
    ensures multiset(r) == multiset(s)
    ensures |r| == |s|
    ensures SortedBy(r, le)
  {
    if s == [] then []
    else
      assert s == [s[0]] + s[1..];
      Insert(s[0], SortBy(s[1..], le), le)
  }

  /** `order_by(...)[:n]`: the first n rows in order, each below every row left out. */
  function Smallest<T(!new)>(s: seq<T>, le: (T, T) -> bool, n: nat): (r: seq<T>)
    requires IsTotalPreorder(le)
    ensures |r| == if n < |s| then n else |s|
    ensures SortedBy(r, le)
    ensures multiset(r) <= multiset(s)
    ensures forall x, y :: x in r && y in multiset(s) - multiset(r) ==> le(x, y)
  {
    var sorted := SortBy(s, le);
    var k := if n < |s| then n else |s|;
    SortedPrefix(sorted, le, k);
    sorted[..k]
  }

  /**
   * `filter(keep).order_by(le)[:n]`, element-wise: at most n rows, each kept;
   * every kept row when fewer than n are kept; and no kept row left out
   * comes before a chosen one.
   */
  lemma WindowSpec<T(!new)>(s: seq<T>, keep: T -> bool, le: (T, T) -> bool, n: nat)
    requires IsTotalPreorder(le)
    ensures |Smallest(Filter(s, keep), le, n)| <= n
    ensures multiset(Smallest(Filter(s, keep), le, n)) <= multiset(s)
    ensures forall x :: x in Smallest(Filter(s, keep), le, n) ==> x in s && keep(x)
    ensures |Smallest(Filter(s, keep), le, n)| < n ==>
      forall y :: y in s && keep(y) ==> y in Smallest(Filter(s, keep), le, n)
    ensures forall x, y ::
      (x in Smallest(Filter(s, keep), le, n) && y in s && keep(y) && y !in Smallest(Filter(s, keep), le, n))
      ==> le(x, y)
  {
    var f := Filter(s, keep);
    var r := Smallest(f, le, n);
    FilterSubMultiset(s, keep);
    forall x | x in r ensures x in s && keep(x) {
      assert x in multiset(r);
      assert x in multiset(f);
      FilterMembers(s, keep, x);
    }
    if |r| < n {
      assert |r| == |f|;
      var rest := multiset(f) - multiset(r);
      assert |multiset(f)| == |multiset(r)| + |rest|;
      assert rest == multiset{};
      forall y | y in s && keep(y) ensures y in r {
        FilterMembers(s, keep, y);
        assert y in multiset(f);
        assert y in multiset(r);
      }
    }
    forall x, y | x in r && y in s && keep(y) && y !in r ensures le(x, y) {
      FilterMembers(s, keep, y);
      assert multiset(r)[y] == 0;
      assert y in multiset(f);
    }
  }

  /** A prefix grows by one element. */
  lemma PrefixSnoc<T>(s: seq<T>, i: nat)
    requires i < |s|
    ensures s[..i + 1] == s[..i] + [s[i]]
  {
  }

  /** One more row of a prefix: it is kept exactly when it passes. */
  lemma FilterPrefixStep<T(!new)>(s: seq<T>, i: nat, f: T -> bool)
    requires i < |s|
    ensures Filter(s[..i + 1], f) == Filter(s[..i], f) + (if f(s[i]) then [s[i]] else [])
  {
    PrefixSnoc(s, i);
    FilterConcat(s[..i], [s[i]], f);
    FilterHead([s[i]], f);
    assert [s[i]][1..] == [];
  }

  /** No element occurs twice, as with the primary keys of a query set. */
  predicate Distinct<T(==)>(s: seq<T>) {
    forall i, j :: 0 <= i < j < |s| ==> s[i] != s[j]
  }

  /** Filtering a sequence without repetitions gives one without repetitions. */
  lemma {:induction false} FilterDistinct<T(!new)>(s: seq<T>, f: T -> bool)
    requires Distinct(s)
    ensures Distinct(Filter(s, f))
  {
    if s != [] {
      FilterDistinct(s[1..], f);
      FilterMembers(s[1..], f, s[0]);
      FilterHead(s, f);
      var rest := Filter(s[1..], f);
      if f(s[0]) {
        var r := [s[0]] + rest;
        forall i, j | 0 <= i < j < |r| ensures r[i] != r[j] {
          if i == 0 {
            assert r[j] == rest[j - 1] && rest[j - 1] in rest;
          } else {
            assert r[i] == rest[i - 1] && r[j] == rest[j - 1];
          }
        }
      }
    }
  }

  /** In a sequence without repetitions, no element occurs before its own position. */
  lemma DistinctPrefix<T>(s: seq<T>, i: nat)
    requires Distinct(s) && i < |s|
    ensures s[i] !in s[..i]
  {
  }

  /** A sequence without repetitions has as many elements as its set. */
  lemma {:induction false} DistinctCard<T>(s: seq<T>)
    requires Distinct(s)
    ensures |set x | x in s| == |s|
  {
    if s != [] {
      var tail := s[1..];
      assert Distinct(tail) by {
        forall i, j | 0 <= i < j < |tail| ensures tail[i] != tail[j] {
          assert tail[i] == s[i + 1] && tail[j] == s[j + 1];
        }
      }
      DistinctCard(tail);
      assert s[0] !in tail by {
        forall j | 0 <= j < |tail| ensures tail[j] != s[0] {
          assert tail[j] == s[j + 1];
        }
      }
      assert (set x | x in s) == {s[0]} + (set x | x in tail) by {
        assert s == [s[0]] + tail;
      }
    }
  }

  /** A prefix of a sorted sequence is sorted and below the rest. */
  lemma SortedPrefix<T(!new)>(sorted: seq<T>, le: (T, T) -> bool, k: nat)
    requires SortedBy(sorted, le) && k <= |sorted|
    ensures SortedBy(sorted[..k], le)
    ensures multiset(sorted[..k]) <= multiset(sorted)
    ensures multiset(sorted) - multiset(sorted[..k]) == multiset(sorted[k..])
    ensures forall x, y :: x in sorted[..k] && y in multiset(sorted[k..]) ==> le(x, y)
  {
    assert sorted == sorted[..k] + sorted[k..];
    forall x, y | x in sorted[..k] && y in multiset(sorted[k..]) ensures le(x, y) {
      var i :| 0 <= i < k && sorted[i] == x;
      var j :| 0 <= j < |sorted| - k && sorted[k..][j] == y;
      assert sorted[k + j] == y;
    }
  }
}
