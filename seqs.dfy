/** Generic sequence helpers: JavaScript's `filter`, `slice(0, n)`, sums and first occurrences. */
module Seqs {

  /** `s.filter(p)`. */
  function Filter<T>(s: seq<T>, p: T -> bool): (r: seq<T>)
    ensures |r| <= |s|
  {
    if s == [] then []
    else
      var rest := Filter(s[..|s| - 1], p);
      if p(s[|s| - 1]) then rest + [s[|s| - 1]] else rest
  }

  /** The kept elements are exactly the elements that pass, each at most as often as in `s`. */
  lemma {:induction false} FilterMembers<T>(s: seq<T>, p: T -> bool)
    ensures forall i :: 0 <= i < |Filter(s, p)| ==> Filter(s, p)[i] in s && p(Filter(s, p)[i])
    ensures forall i :: 0 <= i < |s| && p(s[i]) ==> s[i] in Filter(s, p)
    ensures multiset(Filter(s, p)) <= multiset(s)
  {
    if s != [] {
      var init := s[..|s| - 1];
      FilterMembers(init, p);
      assert s == init + [s[|s| - 1]];
      assert forall x :: x in init ==> x in s;
    }
  }

  lemma {:induction false} FilterAppend<T>(a: seq<T>, b: seq<T>, p: T -> bool)
    ensures Filter(a + b, p) == Filter(a, p) + Filter(b, p)
    decreases |b|
  {
    if b == [] {
      assert a + b == a;
    } else {
      var b' := b[..|b| - 1];
      assert (a + b)[..|a + b| - 1] == a + b';
      FilterAppend(a, b', p);
    }
  }

  lemma {:induction false} FilterAll<T>(s: seq<T>, p: T -> bool)
    requires forall i :: 0 <= i < |s| ==> p(s[i])
    ensures Filter(s, p) == s
  {
    if s != [] {
      FilterAll(s[..|s| - 1], p);
      assert s == s[..|s| - 1] + [s[|s| - 1]];
    }
  }

  /** `s.slice(0, n)`. */
  function Take<T>(s: seq<T>, n: nat): (r: seq<T>)
    ensures |r| <= n && |r| <= |s|
    ensures |r| == if n < |s| then n else |s|
    ensures r == s[..|r|]
  {
    if n < |s| then s[..n] else s
  }

  /** The distinct elements of `s`, each at the position of its first occurrence. */
  function FirstOccurrences<T(==)>(s: seq<T>): (r: seq<T>)
    ensures forall i :: 0 <= i < |r| ==> r[i] in s
    ensures forall i :: 0 <= i < |s| ==> s[i] in r
    ensures forall i, j :: 0 <= i < j < |r| ==> r[i] != r[j]
  {
    if s == [] then []
    else
      var r := FirstOccurrences(s[..|s| - 1]);
      assert s == s[..|s| - 1] + [s[|s| - 1]];
      if s[|s| - 1] in r then r else r + [s[|s| - 1]]
  }

  lemma AppendAssoc<T>(a: seq<T>, b: seq<T>, c: seq<T>)
    ensures a + (b + c) == (a + b) + c
  {
  }

  /** `s.map(f)`. */
  function Map<A, B>(s: seq<A>, f: A -> B): (r: seq<B>)
    ensures |r| == |s|
  {
    if s == [] then [] else Map(s[..|s| - 1], f) + [f(s[|s| - 1])]
  }

  lemma {:induction false} MapAt<A, B>(s: seq<A>, f: A -> B, i: nat)
    requires i < |s|
    ensures Map(s, f)[i] == f(s[i])
  {
    if i < |s| - 1 {
      MapAt(s[..|s| - 1], f, i);
    }
  }

  /**
   * Mapping, filtering and mapping back is filtering by the composed test,
   * when `g` undoes `f` on `s`: the kept elements stay in their order.
   */
  lemma {:induction false} MapFilterMap<A, B>(s: seq<A>, f: A -> B, p: B -> bool, g: B -> A, q: A -> bool)
    requires forall x :: x in s ==> g(f(x)) == x && q(x) == p(f(x))
    ensures Map(Filter(Map(s, f), p), g) == Filter(s, q)
  {
    if s != [] {
      var init, last := s[..|s| - 1], s[|s| - 1];
      assert forall x :: x in init ==> x in s;
      MapFilterMap(init, f, p, g, q);
      assert Map(s, f) == Map(init, f) + [f(last)];
      assert Map(s, f)[..|s| - 1] == Map(init, f);
      var kept := Filter(Map(init, f), p);
      if p(f(last)) {
        assert Map(kept + [f(last)], g)[..|kept|] == Map(kept, g);
      }
    }
  }

  lemma MapSnoc<A, B>(s: seq<A>, f: A -> B, i: nat)
    requires i < |s|
    ensures Map(s[..i + 1], f) == Map(s[..i], f) + [f(s[i])]
  {
    assert s[..i + 1][..i] == s[..i];
  }

  /** The concatenation of `f(x)` over the elements `x` of `s`, in order. */
  function ConcatMap<A, B>(s: seq<A>, f: A -> seq<B>): seq<B> {
    if s == [] then [] else ConcatMap(s[..|s| - 1], f) + f(s[|s| - 1])
  }

  lemma ConcatMapSnoc<A, B>(s: seq<A>, f: A -> seq<B>, i: nat)
    requires i < |s|
    ensures ConcatMap(s[..i + 1], f) == ConcatMap(s[..i], f) + f(s[i])
  {
    assert s[..i + 1][..i] == s[..i];
  }

  lemma {:induction false} ConcatMapAppend<A, B>(a: seq<A>, b: seq<A>, f: A -> seq<B>)
    ensures ConcatMap(a + b, f) == ConcatMap(a, f) + ConcatMap(b, f)
    decreases |b|
  {
    if b == [] {
      assert a + b == a;
    } else {
      var b' := b[..|b| - 1];
      assert (a + b)[..|a + b| - 1] == a + b';
      ConcatMapAppend(a, b', f);
      AppendAssoc(ConcatMap(a, f), ConcatMap(b', f), f(b[|b| - 1]));
    }
  }

  /** How many elements of `s` are in `names`, counted once per position. */
  function CountIn<T>(s: seq<T>, names: set<T>): (n: nat)
    ensures n <= |s|
  {
    if s == [] then 0 else CountIn(s[..|s| - 1], names) + (if s[|s| - 1] in names then 1 else 0)
  }

  /** Nothing counts against no names. */
  lemma {:induction false} CountInNone<T>(s: seq<T>)
    ensures CountIn(s, {}) == 0
  {
    if s != [] {
      CountInNone(s[..|s| - 1]);
    }
  }

  predicate Distinct<T(==)>(s: seq<T>) {
    forall i, j :: 0 <= i < j < |s| ==> s[i] != s[j]
  }

  function Elements<T>(s: seq<T>): set<T> {
    set i | 0 <= i < |s| :: s[i]
  }

  lemma ElementsSnoc<T>(s: seq<T>)
    requires s != []
    ensures Elements(s) == Elements(s[..|s| - 1]) + {s[|s| - 1]}
  {
    var init := s[..|s| - 1];
    forall x | x in Elements(s) ensures x in Elements(init) + {s[|s| - 1]} {
      var i :| 0 <= i < |s| && s[i] == x;
      if i < |init| {
        assert init[i] == x;
      }
    }
    forall x | x in Elements(init) ensures x in Elements(s) {
      var i :| 0 <= i < |init| && init[i] == x;
      assert s[i] == x;
    }
  }

  /** Without repeats, a sequence has as many elements as positions. */
  lemma {:induction false} DistinctSize<T>(s: seq<T>)
    requires Distinct(s)
    ensures |Elements(s)| == |s|
  {
    if s != [] {
      var init := s[..|s| - 1];
      assert Distinct(init);
      DistinctSize(init);
      ElementsSnoc(s);
      assert s[|s| - 1] !in Elements(init);
    }
  }

  /** The first occurrences hold the same elements as the sequence. */
  lemma FirstOccurrencesElements<T>(s: seq<T>)
    ensures Elements(FirstOccurrences(s)) == Elements(s)
    ensures Distinct(FirstOccurrences(s))
  {
    var r := FirstOccurrences(s);
    forall x | x in Elements(r) ensures x in Elements(s) {
      var i :| 0 <= i < |r| && r[i] == x;
      assert r[i] in s;
    }
    forall x | x in Elements(s) ensures x in Elements(r) {
      var i :| 0 <= i < |s| && s[i] == x;
      assert s[i] in r;
    }
  }

  /** Without repeats in `s`, the count is the size of the overlap of its elements with `names`. */
  lemma {:induction false} CountInIsOverlap<T>(s: seq<T>, names: set<T>)
    requires Distinct(s)
    ensures CountIn(s, names) == |Elements(s) * names|
  {
    if s != [] {
      var init := s[..|s| - 1];
      var last := s[|s| - 1];
      assert Distinct(init);
      CountInIsOverlap(init, names);
      ElementsSnoc(s);
      assert last !in Elements(init);
      if last in names {
        assert Elements(s) * names == (Elements(init) * names) + {last};
      } else {
        assert Elements(s) * names == Elements(init) * names;
      }
    }
  }

  /** The first position among the first `k` elements where `score` is greatest. */
  function FirstMax<T>(s: seq<T>, score: T -> int, k: nat): (b: nat)
    requires 0 < k <= |s|
    ensures b < k
  {
    if k == 1 then 0
    else
      var b := FirstMax(s, score, k - 1);
      if score(s[k - 1]) > score(s[b]) then k - 1 else b
  }

  /** No element among the first `k` scores higher, and every earlier element scores strictly lower. */
  lemma {:induction false} FirstMaxIsFirstGreatest<T>(s: seq<T>, score: T -> int, k: nat)
    requires 0 < k <= |s|
    ensures var b := FirstMax(s, score, k);
      (forall j :: 0 <= j < k ==> score(s[j]) <= score(s[b])) &&
      (forall j :: 0 <= j < b ==> score(s[j]) < score(s[b]))
  {
    if k > 1 {
      FirstMaxIsFirstGreatest(s, score, k - 1);
    }
  }

  function Sum(s: seq<real>): real {
    if s == [] then 0.0 else Sum(s[..|s| - 1]) + s[|s| - 1]
  }

  lemma {:induction false} SumAppend(a: seq<real>, b: seq<real>)
    ensures Sum(a + b) == Sum(a) + Sum(b)
    decreases |b|
  {
    if b == [] {
      assert a + b == a;
    } else {
      assert (a + b)[..|a + b| - 1] == a + b[..|b| - 1];
      SumAppend(a, b[..|b| - 1]);
    }
  }

  lemma {:induction false} SumNonNegative(s: seq<real>)
    requires forall i :: 0 <= i < |s| ==> s[i] >= 0.0
    ensures Sum(s) >= 0.0
  {
    if s != [] {
      SumNonNegative(s[..|s| - 1]);
    }
  }

  /** Number of elements satisfying `p`. */
  function Count<T>(s: seq<T>, p: T -> bool): (n: nat)
    ensures n <= |s|
  {
    if s == [] then 0 else Count(s[..|s| - 1], p) + (if p(s[|s| - 1]) then 1 else 0)
  }

  lemma {:induction false} CountIsFilterLength<T>(s: seq<T>, p: T -> bool)
    ensures Count(s, p) == |Filter(s, p)|
  {
    if s != [] {
      CountIsFilterLength(s[..|s| - 1], p);
    }
  }
}
