/**
 * `Array.prototype.sort` with a consistent comparator: a stable sort. Every
 * comparator of the pages modelled here orders by a key, so the sort is
 * given by that key: first by tier (absent values go to a later tier), then
 * by value.
 */
module Sorting {
  import opened Seqs

  datatype Rank = Rank(tier: int, value: real)

  predicate Le(a: Rank, b: Rank) {
    a.tier < b.tier || (a.tier == b.tier && a.value <= b.value)
  }

  predicate Lt(a: Rank, b: Rank) {
    !Le(b, a)
  }

  /** A key of a plain number: ascending order. */
  function Ascending(x: real): Rank {
    Rank(0, x)
  }

  /** A key of a plain number sorted by `(a, b) => b - a`. */
  function Descending(x: real): Rank {
    Rank(0, -x)
  }

  predicate SortedBy<T>(s: seq<T>, key: T -> Rank) {
    forall i, j :: 0 <= i < j < |s| ==> Le(key(s[i]), key(s[j]))
  }

  /** The elements whose key is `r`. */
  function KeyIs<T>(key: T -> Rank, r: Rank): T -> bool {
    x => key(x) == r
  }

  /** Inserts `x` after every element whose key is not greater than its own. */
  function Insert<T>(t: seq<T>, x: T, key: T -> Rank): (r: seq<T>)
    ensures |r| == |t| + 1
  {
    if t == [] || Le(key(t[|t| - 1]), key(x)) then t + [x]
    else Insert(t[..|t| - 1], x, key) + [t[|t| - 1]]
  }

  /** The stable ascending sort of `s` by `key`. */
  function SortBy<T>(s: seq<T>, key: T -> Rank): (r: seq<T>)
    ensures |r| == |s|
  {
    if s == [] then [] else Insert(SortBy(s[..|s| - 1], key), s[|s| - 1], key)
  }

  lemma {:induction false} InsertPermutation<T>(t: seq<T>, x: T, key: T -> Rank)
    ensures multiset(Insert(t, x, key)) == multiset(t) + multiset{x}
  {
    if t != [] && !Le(key(t[|t| - 1]), key(x)) {
      InsertPermutation(t[..|t| - 1], x, key);
      assert t == t[..|t| - 1] + [t[|t| - 1]];
    }
  }

  /** Sorting only reorders: the result holds each element as often as the input. */
  lemma {:induction false} SortByPermutation<T>(s: seq<T>, key: T -> Rank)
    ensures multiset(SortBy(s, key)) == multiset(s)
  {
    if s != [] {
      SortByPermutation(s[..|s| - 1], key);
      InsertPermutation(SortBy(s[..|s| - 1], key), s[|s| - 1], key);
      assert s == s[..|s| - 1] + [s[|s| - 1]];
    }
  }

  lemma SortByMembers<T>(s: seq<T>, key: T -> Rank)
    ensures forall x :: x in SortBy(s, key) <==> x in s
  {
    SortByPermutation(s, key);
    assert forall x :: x in SortBy(s, key) <==> x in multiset(SortBy(s, key));
    assert forall x :: x in s <==> x in multiset(s);
  }

  lemma {:induction false} InsertSorted<T>(t: seq<T>, x: T, key: T -> Rank)
    requires SortedBy(t, key)
    ensures SortedBy(Insert(t, x, key), key)
  {
    if t != [] && !Le(key(t[|t| - 1]), key(x)) {
      var init := t[..|t| - 1];
      InsertSorted(init, x, key);
      InsertPermutation(init, x, key);
      var r := Insert(init, x, key);
      forall i | 0 <= i < |r|
        ensures Le(key(r[i]), key(t[|t| - 1]))
      {
        assert r[i] in multiset(r);
        if r[i] != x {
          assert r[i] in multiset(init);
          var k :| 0 <= k < |init| && init[k] == r[i];
          assert init[k] == t[k];
        }
      }
    }
  }

  /** The result is in ascending key order. */
  lemma {:induction false} SortBySorted<T>(s: seq<T>, key: T -> Rank)
    ensures SortedBy(SortBy(s, key), key)
  {
    if s != [] {
      SortBySorted(s[..|s| - 1], key);
      InsertSorted(SortBy(s[..|s| - 1], key), s[|s| - 1], key);
    }
  }

  lemma {:induction false} InsertStable<T>(t: seq<T>, x: T, key: T -> Rank, r: Rank)
    ensures Filter(Insert(t, x, key), KeyIs(key, r)) == Filter(t, KeyIs(key, r)) + Filter([x], KeyIs(key, r))
  {
    var p := KeyIs(key, r);
    if t == [] || Le(key(t[|t| - 1]), key(x)) {
      FilterAppend(t, [x], p);
    } else {
      var init, last := t[..|t| - 1], t[|t| - 1];
      InsertStable(init, x, key, r);
      FilterAppend(Insert(init, x, key), [last], p);
      FilterAppend(init, [last], p);
      assert t == init + [last];
      assert [x][..0] == [] && [last][..0] == [];
    }
  }

  /** Stability: the elements with any one key keep their input order. */
  lemma {:induction false} SortByStable<T>(s: seq<T>, key: T -> Rank, r: Rank)
    ensures Filter(SortBy(s, key), KeyIs(key, r)) == Filter(s, KeyIs(key, r))
  {
    if s != [] {
      var init, last := s[..|s| - 1], s[|s| - 1];
      var p := KeyIs(key, r);
      calc {
        Filter(SortBy(s, key), p);
        Filter(Insert(SortBy(init, key), last, key), p);
        { InsertStable(SortBy(init, key), last, key, r); }
        Filter(SortBy(init, key), p) + Filter([last], p);
        { SortByStable(init, key, r); }
        Filter(init, p) + Filter([last], p);
        { FilterAppend(init, [last], p); }
        Filter(init + [last], p);
        { assert s == init + [last]; }
        Filter(s, p);
      }
    }
  }

  /** The first position among the first `k` elements with the least key. */
  function FirstLeast<T>(s: seq<T>, key: T -> Rank, k: nat): (b: nat)
    requires 0 < k <= |s|
    ensures b < k
  {
    if k == 1 then 0
    else
      var b := FirstLeast(s, key, k - 1);
      if Lt(key(s[k - 1]), key(s[b])) then k - 1 else b
  }

  /** No element among the first `k` has a smaller key, and every earlier one a strictly greater key. */
  lemma {:induction false} FirstLeastIsFirstSmallest<T>(s: seq<T>, key: T -> Rank, k: nat)
    requires 0 < k <= |s|
    ensures var b := FirstLeast(s, key, k);
      (forall j :: 0 <= j < k ==> Le(key(s[b]), key(s[j]))) &&
      (forall j :: 0 <= j < b ==> Lt(key(s[b]), key(s[j])))
  {
    if k > 1 {
      FirstLeastIsFirstSmallest(s, key, k - 1);
    }
  }

  lemma {:induction false} FirstLeastOfPrefix<T>(s: seq<T>, t: seq<T>, key: T -> Rank, k: nat)
    requires 0 < k <= |s| && k <= |t|
    requires forall j :: 0 <= j < k ==> s[j] == t[j]
    ensures FirstLeast(s, key, k) == FirstLeast(t, key, k)
  {
    if k > 1 {
      FirstLeastOfPrefix(s, t, key, k - 1);
    }
  }

  lemma {:induction false} InsertHead<T>(t: seq<T>, x: T, key: T -> Rank)
    requires t != [] && SortedBy(t, key)
    ensures Insert(t, x, key)[0] == if Lt(key(x), key(t[0])) then x else t[0]
  {
    if !Le(key(t[|t| - 1]), key(x)) && |t| > 1 {
      InsertHead(t[..|t| - 1], x, key);
    }
  }

  /** The head of the sorted sequence is the first element with the least key. */
  lemma {:induction false} SortByHead<T>(s: seq<T>, key: T -> Rank)
    requires s != []
    ensures SortBy(s, key)[0] == s[FirstLeast(s, key, |s|)]
  {
    var init := s[..|s| - 1];
    if init != [] {
      SortByHead(init, key);
      SortBySorted(init, key);
      InsertHead(SortBy(init, key), s[|s| - 1], key);
      FirstLeastOfPrefix(init, s, key, |init|);
    }
  }

  /**
   * The in-place insertion sort an engine may use for `Array.prototype.sort`:
   * each element is moved left past the elements with a strictly greater key.
   */
  method SortInPlace<T>(a: array<T>, key: T -> Rank)
    modifies a
    ensures a[..] == SortBy(old(a[..]), key)
  {
    ghost var s := a[..];
    for i := 0 to a.Length
      invariant a[..i] == SortBy(s[..i], key)
      invariant a[i..] == s[i..]
    {
      assert a[i] == s[i];
      InsertLast(a, i, key);
      assert s[..i + 1][..i] == s[..i];
    }
    assert a[..] == a[..a.Length] && s == s[..a.Length];
  }

  /** One pass of the insertion sort: moves `a[i]` left into the sorted prefix `a[..i]`. */
  method InsertLast<T>(a: array<T>, i: nat, key: T -> Rank)
    requires i < a.Length
    modifies a
    ensures a[..i + 1] == Insert(old(a[..i]), old(a[i]), key)
    ensures a[i + 1..] == old(a[i + 1..])
  {
    var x := a[i];
    ghost var t := a[..i];
    ghost var rest := a[i + 1..];
    var j := i;
    assert t[..j] == t && t[j..] == [];
    while j > 0 && Lt(key(x), key(a[j - 1]))
      invariant 0 <= j <= i
      invariant forall k :: 0 <= k < j ==> a[k] == t[k]
      invariant forall k :: j < k <= i ==> a[k] == t[k - 1]
      invariant a[i + 1..] == rest
      invariant Insert(t, x, key) == Insert(t[..j], x, key) + t[j..]
    {
      ShiftStep(t, x, key, j);
      a[j] := a[j - 1];
      j := j - 1;
    }
    a[j] := x;
    InsertDone(t, x, key, j);
    Assemble(a[..i + 1], t, x, j);
  }

  lemma ShiftStep<T>(t: seq<T>, x: T, key: T -> Rank, j: nat)
    requires 0 < j <= |t|
    requires Lt(key(x), key(t[j - 1]))
    requires Insert(t, x, key) == Insert(t[..j], x, key) + t[j..]
    ensures Insert(t, x, key) == Insert(t[..j - 1], x, key) + t[j - 1..]
  {
    InsertShift(t, x, key, j);
    Regroup(Insert(t[..j - 1], x, key), t, j);
  }

  lemma InsertShift<T>(t: seq<T>, x: T, key: T -> Rank, j: nat)
    requires 0 < j <= |t| && Lt(key(x), key(t[j - 1]))
    ensures Insert(t[..j], x, key) == Insert(t[..j - 1], x, key) + [t[j - 1]]
  {
    assert t[..j][..j - 1] == t[..j - 1];
  }

  lemma Regroup<T>(a: seq<T>, t: seq<T>, j: nat)
    requires 0 < j <= |t|
    ensures (a + [t[j - 1]]) + t[j..] == a + t[j - 1..]
  {
    assert t[j - 1..] == [t[j - 1]] + t[j..];
  }

  lemma InsertDone<T>(t: seq<T>, x: T, key: T -> Rank, j: nat)
    requires j <= |t|
    requires j == 0 || !Lt(key(x), key(t[j - 1]))
    requires Insert(t, x, key) == Insert(t[..j], x, key) + t[j..]
    ensures Insert(t, x, key) == t[..j] + [x] + t[j..]
  {
  }

  lemma Assemble<T>(u: seq<T>, t: seq<T>, x: T, j: nat)
    requires j <= |t| && |u| == |t| + 1
    requires forall k :: 0 <= k < j ==> u[k] == t[k]
    requires u[j] == x
    requires forall k :: j < k <= |t| ==> u[k] == t[k - 1]
    ensures u == t[..j] + [x] + t[j..]
  {
  }

  // ---------------------------------------------------------------------
  // Sorting with a comparator that is not given by a numeric key

  /** Inserts `x` after every element `e` with `le(e, x)`, scanning from the end. */
  function InsertWith<T>(t: seq<T>, x: T, le: (T, T) -> bool): (r: seq<T>)
    ensures |r| == |t| + 1
  {
    if t == [] || le(t[|t| - 1], x) then t + [x]
    else InsertWith(t[..|t| - 1], x, le) + [t[|t| - 1]]
  }

  /** The stable sort of `s` under the comparator `(a, b) => le(a, b) ? ≤ 0 : > 0`. */
  function SortWith<T>(s: seq<T>, le: (T, T) -> bool): (r: seq<T>)
    ensures |r| == |s|
  {
    if s == [] then [] else InsertWith(SortWith(s[..|s| - 1], le), s[|s| - 1], le)
  }

  predicate SortedWith<T>(s: seq<T>, le: (T, T) -> bool) {
    forall i, j :: 0 <= i < j < |s| ==> le(s[i], s[j])
  }

  /** `le` is total and transitive on the elements of `s`: the comparator is consistent there. */
  ghost predicate PreorderOn<T>(s: seq<T>, le: (T, T) -> bool) {
    (forall x, y :: x in s && y in s ==> le(x, y) || le(y, x))
    && (forall x, y, z :: x in s && y in s && z in s && le(x, y) && le(y, z) ==> le(x, z))
  }

  lemma {:induction false} InsertWithPermutation<T>(t: seq<T>, x: T, le: (T, T) -> bool)
    ensures multiset(InsertWith(t, x, le)) == multiset(t) + multiset{x}
  {
    if t != [] && !le(t[|t| - 1], x) {
      InsertWithPermutation(t[..|t| - 1], x, le);
      assert t == t[..|t| - 1] + [t[|t| - 1]];
    }
  }

  /** The sort only rearranges. */
  lemma {:induction false} SortWithPermutation<T>(s: seq<T>, le: (T, T) -> bool)
    ensures multiset(SortWith(s, le)) == multiset(s)
  {
    if s != [] {
      SortWithPermutation(s[..|s| - 1], le);
      InsertWithPermutation(SortWith(s[..|s| - 1], le), s[|s| - 1], le);
      assert s == s[..|s| - 1] + [s[|s| - 1]];
    }
  }

  lemma {:induction false} InsertWithSorted<T>(t: seq<T>, x: T, le: (T, T) -> bool)
    requires SortedWith(t, le) && PreorderOn(t + [x], le)
    ensures SortedWith(InsertWith(t, x, le), le)
  {
    var all := t + [x];
    assert forall k :: 0 <= k < |t| ==> t[k] in all;
    assert x in all;
    if t == [] || le(t[|t| - 1], x) {
      var r := t + [x];
      forall i, j | 0 <= i < j < |r| ensures le(r[i], r[j]) {
        if j == |t| && i < |t| - 1 {
          assert le(t[i], t[|t| - 1]);
        }
      }
    } else {
      var init, last := t[..|t| - 1], t[|t| - 1];
      assert le(x, last);
      assert forall k :: 0 <= k < |init| ==> init[k] == t[k];
      assert PreorderOn(init + [x], le) by {
        forall y | y in init + [x] ensures y in all {
          if y != x {
            var k :| 0 <= k < |init| && init[k] == y;
            assert t[k] == y;
          }
        }
      }
      InsertWithSorted(init, x, le);
      var u := InsertWith(init, x, le);
      InsertWithPermutation(init, x, le);
      var r := u + [last];
      forall i, j | 0 <= i < j < |r| ensures le(r[i], r[j]) {
        if j == |u| {
          assert r[i] in multiset(init) + multiset{x};
          if r[i] != x {
            var k :| 0 <= k < |init| && init[k] == r[i];
            assert le(t[k], t[|t| - 1]);
          }
        }
      }
    }
  }

  /** With a consistent comparator the result is sorted. */
  lemma {:induction false} SortWithSorted<T>(s: seq<T>, le: (T, T) -> bool)
    requires PreorderOn(s, le)
    ensures SortedWith(SortWith(s, le), le)
  {
    if s != [] {
      var init, last := s[..|s| - 1], s[|s| - 1];
      assert forall k :: 0 <= k < |init| ==> init[k] == s[k];
      assert PreorderOn(init, le) by {
        forall y | y in init ensures y in s {
          var k :| 0 <= k < |init| && init[k] == y;
          assert s[k] == y;
        }
      }
      SortWithSorted(init, le);
      var t := SortWith(init, le);
      SortWithPermutation(init, le);
      assert PreorderOn(t + [last], le) by {
        forall y | y in t + [last] ensures y in s {
          if y != last {
            assert y in multiset(init);
            var k :| 0 <= k < |init| && init[k] == y;
            assert s[k] == y;
          }
        }
      }
      InsertWithSorted(t, last, le);
    }
  }

  /** `p` picks elements of `s` that the comparator ties: each may stay before the other. */
  ghost predicate TiedOn<T>(s: seq<T>, le: (T, T) -> bool, p: T -> bool) {
    forall a, b :: a in s && b in s && p(a) && p(b) ==> le(a, b)
  }

  lemma {:induction false} InsertWithStable<T>(t: seq<T>, x: T, le: (T, T) -> bool, p: T -> bool)
    requires TiedOn(t + [x], le, p)
    ensures Filter(InsertWith(t, x, le), p) == Filter(t, p) + Filter([x], p)
  {
    if t == [] || le(t[|t| - 1], x) {
      FilterAppend(t, [x], p);
    } else {
      var init, last := t[..|t| - 1], t[|t| - 1];
      assert last in t + [x] && x in t + [x];
      assert TiedOn(init + [x], le, p) by {
        forall a | a in init + [x] ensures a in t + [x] {
          if a != x {
            var k :| 0 <= k < |init| && init[k] == a;
            assert t[k] == a;
          }
        }
      }
      InsertWithStable(init, x, le, p);
      FilterAppend(InsertWith(init, x, le), [last], p);
      FilterAppend(init, [last], p);
      assert t == init + [last];
      assert !p(last) || !p(x);
    }
  }

  /** Stability: elements the comparator ties keep their input order. */
  lemma {:induction false} SortWithStable<T>(s: seq<T>, le: (T, T) -> bool, p: T -> bool)
    requires TiedOn(s, le, p)
    ensures Filter(SortWith(s, le), p) == Filter(s, p)
  {
    if s != [] {
      var init, last := s[..|s| - 1], s[|s| - 1];
      assert s == init + [last];
      assert TiedOn(init, le, p);
      SortWithStable(init, le, p);
      var t := SortWith(init, le);
      SortWithPermutation(init, le);
      assert TiedOn(t + [last], le, p) by {
        forall a | a in t + [last] ensures a in s {
          if a != last {
            assert a in multiset(init);
          }
        }
      }
      InsertWithStable(t, last, le, p);
      FilterAppend(init, [last], p);
    }
  }

  /** `sort(...).slice(0, n)`: at most `n` elements of `s`, in key order; fewer only when `s` has fewer. */
  lemma TopNShape<T>(s: seq<T>, key: T -> Rank, n: nat)
    ensures var top := Take(SortBy(s, key), n);
      |top| <= n && (|top| == n || |top| == |s|)
      && multiset(top) <= multiset(s)
      && SortedBy(top, key)
  {
    var sorted := SortBy(s, key);
    SortByPermutation(s, key);
    SortBySorted(s, key);
    var top := Take(sorted, n);
    assert sorted == top + sorted[|top|..];
    assert multiset(sorted) == multiset(top) + multiset(sorted[|top|..]);
  }

  /**
   * Nothing ranked better is left out of `sort(...).slice(0, n)`: an element
   * of `s` is taken, or `n` elements are taken and none ranks after it.
   */
  lemma TopNIsTop<T>(s: seq<T>, key: T -> Rank, n: nat, k: nat)
    requires k < |s|
    ensures var top := Take(SortBy(s, key), n);
      s[k] in top || (|top| == n && forall i :: 0 <= i < |top| ==> Le(key(top[i]), key(s[k])))
  {
    var sorted := SortBy(s, key);
    SortByPermutation(s, key);
    SortBySorted(s, key);
    var top := Take(sorted, n);
    assert s[k] in multiset(sorted);
    var p :| 0 <= p < |sorted| && sorted[p] == s[k];
    if p < |top| {
      assert top[p] == s[k];
    } else {
      forall i | 0 <= i < |top| ensures Le(key(top[i]), key(s[k])) {
        assert top[i] == sorted[i];
      }
    }
  }
}
