/**
 * `median`: the middle value of an ascending copy of the input, or the mean
 * of the two middle values when there is an even number of them.
 */
module Stats {
  import opened Js
  import opened Sorting

  /** `arr.slice().sort((a, b) => a - b)`. */
  function SortedCopy(s: seq<real>): (a: seq<real>)
    ensures |a| == |s|
  {
    SortBy(s, Ascending)
  }

  /** `median(arr)`; `None` is `null` (a missing input or the result for an empty one). */
  function Median(arr: Option<seq<real>>): (r: Option<real>)
    ensures r.None? <==> arr.None? || arr.value == []
  {
    if arr.None? || |arr.value| == 0 then None
    else
      var a := SortedCopy(arr.value);
      var mid := |a| / 2;
      if |a| % 2 == 0 then Some((a[mid - 1] + a[mid]) / 2.0) else Some(a[mid])
  }

  lemma SortedCopyFacts(s: seq<real>)
    ensures multiset(SortedCopy(s)) == multiset(s)
    ensures forall i, j :: 0 <= i < j < |s| ==> SortedCopy(s)[i] <= SortedCopy(s)[j]
  {
    SortByPermutation(s, Ascending);
    SortBySorted(s, Ascending);
  }

  predicate Ascends(a: seq<real>) {
    forall i, j :: 0 <= i < j < |a| ==> a[i] <= a[j]
  }

  /** Two ascending arrangements of the same values are the same sequence. */
  lemma {:induction false} AscendingArrangementsAgree(a: seq<real>, b: seq<real>)
    requires Ascends(a) && Ascends(b)
    requires multiset(a) == multiset(b)
    ensures a == b
  {
    if a != [] {
      assert |b| == |multiset(b)| == |a|;
      SameLeast(a, b);
      DropHead(a);
      DropHead(b);
      AscendsTail(a);
      AscendsTail(b);
      AscendingArrangementsAgree(a[1..], b[1..]);
      assert a == [a[0]] + a[1..] && b == [b[0]] + b[1..];
    }
  }

  lemma SameLeast(a: seq<real>, b: seq<real>)
    requires a != [] && b != [] && Ascends(a) && Ascends(b)
    requires multiset(a) == multiset(b)
    ensures a[0] == b[0]
  {
    assert a[0] in multiset(b) && b[0] in multiset(a);
    var j :| 0 <= j < |b| && b[j] == a[0];
    var k :| 0 <= k < |a| && a[k] == b[0];
    assert j == 0 || b[0] <= b[j];
    assert k == 0 || a[0] <= a[k];
  }

  lemma DropHead(a: seq<real>)
    requires a != []
    ensures multiset(a[1..]) == multiset(a) - multiset{a[0]}
  {
    assert a == [a[0]] + a[1..];
  }

  lemma AscendsTail(a: seq<real>)
    requires a != [] && Ascends(a)
    ensures Ascends(a[1..])
  {
    forall i, j | 0 <= i < j < |a| - 1
      ensures a[1..][i] <= a[1..][j]
    {
      assert a[1..][i] == a[i + 1] && a[1..][j] == a[j + 1];
    }
  }

  /** Any ascending arrangement of the same values is the sorted copy. */
  lemma AscendingIsSortedCopy(s: seq<real>, a: seq<real>)
    requires multiset(a) == multiset(s)
    requires forall i, j :: 0 <= i < j < |a| ==> a[i] <= a[j]
    ensures SortedCopy(s) == a
  {
    SortedCopyFacts(s);
    AscendingArrangementsAgree(SortedCopy(s), a);
  }

  /** The median depends only on the values, not on their order. */
  lemma MedianIgnoresOrder(s: seq<real>, t: seq<real>)
    requires multiset(s) == multiset(t)
    ensures Median(Some(s)) == Median(Some(t))
  {
    SortedCopyFacts(t);
    AscendingIsSortedCopy(s, SortedCopy(t));
  }

  /** The first and last values of the sorted copy are the smallest and the largest input values. */
  lemma SortedCopyEnds(s: seq<real>)
    requires s != []
    ensures SortedCopy(s)[0] in s && SortedCopy(s)[|s| - 1] in s
    ensures forall i :: 0 <= i < |s| ==> SortedCopy(s)[0] <= s[i] <= SortedCopy(s)[|s| - 1]
  {
    var a := SortedCopy(s);
    SortedCopyFacts(s);
    assert a[0] in multiset(s) && a[|s| - 1] in multiset(s);
    forall i | 0 <= i < |s| ensures a[0] <= s[i] <= a[|s| - 1] {
      assert s[i] in multiset(a);
      var j :| 0 <= j < |a| && a[j] == s[i];
      assert j == 0 || a[0] <= a[j];
      assert j == |a| - 1 || a[j] <= a[|a| - 1];
    }
  }

  lemma MedianWithinSortedCopy(s: seq<real>)
    requires s != []
    ensures SortedCopy(s)[0] <= Median(Some(s)).value <= SortedCopy(s)[|s| - 1]
  {
    var a := SortedCopy(s);
    SortedCopyFacts(s);
    var mid := |a| / 2;
    assert mid == 0 || a[0] <= a[mid];
    assert mid == |a| - 1 || a[mid] <= a[|a| - 1];
    if |a| % 2 == 0 {
      assert mid - 1 == 0 || a[0] <= a[mid - 1];
      assert a[mid - 1] <= a[mid];
    }
  }

  /** The median lies between the smallest and the largest value. */
  lemma MedianBetweenExtremes(s: seq<real>)
    requires s != []
    ensures exists lo, hi ::
      0 <= lo < |s| && 0 <= hi < |s| && s[lo] <= Median(Some(s)).value <= s[hi]
      && forall i :: 0 <= i < |s| ==> s[lo] <= s[i] <= s[hi]
  {
    SortedCopyEnds(s);
    MedianWithinSortedCopy(s);
    Witnesses(s, SortedCopy(s)[0], SortedCopy(s)[|s| - 1], Median(Some(s)).value);
  }

  /** Values `least` and `greatest` of `s` that bound every value of `s` and `r` give the positions asked for. */
  lemma Witnesses(s: seq<real>, least: real, greatest: real, r: real)
    requires least in s && greatest in s && least <= r <= greatest
    requires forall i :: 0 <= i < |s| ==> least <= s[i] <= greatest
    ensures exists lo, hi ::
      0 <= lo < |s| && 0 <= hi < |s| && s[lo] <= r <= s[hi]
      && forall i :: 0 <= i < |s| ==> s[lo] <= s[i] <= s[hi]
  {
    var lo :| 0 <= lo < |s| && s[lo] == least;
    var hi :| 0 <= hi < |s| && s[hi] == greatest;
    assert forall i :: 0 <= i < |s| ==> s[lo] <= s[i] <= s[hi];
  }

  /** An odd number of values: the one with as many values below it as above it, [3, 1, 2] gives 2. */
  lemma OddCount()
    ensures Median(Some([3.0, 1.0, 2.0])) == Some(2.0)
  {
    var s, a := [3.0, 1.0, 2.0], [1.0, 2.0, 3.0];
    assert multiset(a) == multiset(s) by {
      assert s == [3.0] + [1.0] + [2.0] && a == [1.0] + [2.0] + [3.0];
    }
    AscendingIsSortedCopy(s, a);
    assert Median(Some(s)) == Some(a[1]);
  }

  /** An even number of values: the mean of the middle two, [3, 1] gives 2. */
  lemma EvenCount()
    ensures Median(Some([3.0, 1.0])) == Some(2.0)
  {
    AscendingIsSortedCopy([3.0, 1.0], [1.0, 3.0]);
  }
}
