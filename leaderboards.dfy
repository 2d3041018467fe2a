/**
 * The leaderboards page: the twenty posts with the best engagement rate
 * among posts with impressions, and the twenty posts with the most
 * impressions, both from the latest dataset.
 */
module Leaderboards {
  import opened Js
  import opened JsObject
  import opened Seqs
  import opened Sorting

  /** A row of either board. */
  datatype Entry = Entry(title: Value, link: Value, impressions: real, er: Option<real>, likes: real, comments: real, reposts: real)

  /** The `posts.map(...)` step: defaults for the title, the link and the counts. */
  function Normalize(p: Record): (e: Entry)
    ensures Truthy(e.title) && (Truthy(Get(p, "title")) ==> e.title == Get(p, "title"))
    ensures !Truthy(Get(p, "title")) ==> e.title == Str("(untitled)")
    ensures Truthy(Get(p, "link")) ==> e.link == Get(p, "link")
    ensures !Truthy(Get(p, "link")) ==> e.link == Nil
    ensures e.er.Some? <==> Get(p, "engagementRate").Num?
    ensures e.er.Some? ==> e.er.value == Get(p, "engagementRate").x
    ensures Get(p, "impressions").Num? ==> e.impressions == Get(p, "impressions").x
    ensures !Get(p, "impressions").Num? ==> e.impressions == 0.0
    ensures Get(p, "likes").Num? ==> e.likes == Get(p, "likes").x
    ensures !Get(p, "likes").Num? ==> e.likes == 0.0
    ensures Get(p, "comments").Num? ==> e.comments == Get(p, "comments").x
    ensures !Get(p, "comments").Num? ==> e.comments == 0.0
    ensures Get(p, "reposts").Num? ==> e.reposts == Get(p, "reposts").x
    ensures !Get(p, "reposts").Num? ==> e.reposts == 0.0
  {
    Entry(
      Or(Get(p, "title"), Str("(untitled)")),
      Or(Get(p, "link"), Nil),
      NumOrZero(Get(p, "impressions")),
      NumOrNull(Get(p, "engagementRate")),
      NumOrZero(Get(p, "likes")),
      NumOrZero(Get(p, "comments")),
      NumOrZero(Get(p, "reposts")))
  }

  function NormalizeAll(posts: seq<Record>): seq<Entry> {
    Map(posts, Normalize)
  }

  /** `p.er != null && p.impressions > 0`. */
  predicate Rated(e: Entry) {
    e.er.Some? && e.impressions > 0.0
  }

  /** `(a, b) => (b.er ?? 0) - (a.er ?? 0)`. */
  function ByRate(e: Entry): Rank {
    Descending(e.er.GetOr(0.0))
  }

  /** `(a, b) => (b.impressions ?? 0) - (a.impressions ?? 0)`. */
  function ByImpressions(e: Entry): Rank {
    Descending(e.impressions)
  }

  /** `tER`: the rated rows, best rate first, at most twenty. */
  function TopByRate(norm: seq<Entry>): (top: seq<Entry>)
    ensures |top| <= 20 && |top| <= |norm|
  {
    Take(SortBy(Filter(norm, Rated), ByRate), 20)
  }

  /** `tImpr`: all rows, most impressions first, at most twenty. */
  function TopByImpressions(norm: seq<Entry>): (top: seq<Entry>)
    ensures |top| == if |norm| < 20 then |norm| else 20
  {
    Take(SortBy(norm, ByImpressions), 20)
  }

  /**
   * The body of the effect once the posts are read. `tER` is sorted on the
   * fresh array `filter` returns; `tImpr` sorts `norm` itself in place,
   * after `tER` was taken, so `tER` keeps the rows it was built from.
   */
  method Boards(posts: seq<Record>) returns (topER: seq<Entry>, topImpr: seq<Entry>)
    ensures topER == TopByRate(NormalizeAll(posts))
    ensures topImpr == TopByImpressions(NormalizeAll(posts))
  {
    var norm := new Entry[|posts|](i requires 0 <= i < |posts| => Normalize(posts[i]));
    forall i | 0 <= i < |posts| ensures norm[i] == NormalizeAll(posts)[i] {
      MapAt(posts, Normalize, i);
    }
    assert norm[..] == NormalizeAll(posts);
    topER := Take(SortBy(Filter(norm[..], Rated), ByRate), 20);
    SortInPlace(norm, ByImpressions);
    topImpr := Take(norm[..], 20);
  }

  /** The page's state: both boards, empty until the data is read. */
  class LeaderboardsPage {
    var topER: seq<Entry>
    var topImpr: seq<Entry>

    constructor()
      ensures topER == [] && topImpr == []
    {
      topER := [];
      topImpr := [];
    }

    /** The effect: nothing changes without a dataset; otherwise both boards are set from its posts. */
    method Load(dataset: Option<seq<Record>>)
      modifies this
      ensures dataset.None? ==> topER == old(topER) && topImpr == old(topImpr)
      ensures dataset.Some? ==> topER == TopByRate(NormalizeAll(dataset.value)) && topImpr == TopByImpressions(NormalizeAll(dataset.value))
    {
      if dataset.None? {
        return;
      }
      var tER, tImpr := Boards(dataset.value);
      topER := tER;
      topImpr := tImpr;
    }
  }

  /** The rate board holds at most twenty rows, each with a rate and impressions, best rate first. */
  lemma TopByRateShape(norm: seq<Entry>)
    ensures var top := TopByRate(norm);
      |top| <= 20
      && multiset(top) <= multiset(norm)
      && (forall i :: 0 <= i < |top| ==> top[i] in norm && top[i].er.Some? && top[i].impressions > 0.0)
      && (forall i, j :: 0 <= i < j < |top| ==> top[i].er.value >= top[j].er.value)
  {
    var rated := Filter(norm, Rated);
    var top := TopByRate(norm);
    FilterMembers(norm, Rated);
    TopNShape(rated, ByRate, 20);
    forall i | 0 <= i < |top| ensures top[i] in norm && Rated(top[i]) {
      assert top[i] in multiset(rated);
    }
    forall i, j | 0 <= i < j < |top| ensures top[i].er.value >= top[j].er.value {
      assert Le(ByRate(top[i]), ByRate(top[j]));
    }
  }

  /** A row with a rate and impressions is on the rate board, or twenty rows with at least its rate are. */
  lemma TopByRateIsTop(norm: seq<Entry>, k: nat)
    requires k < |norm| && Rated(norm[k])
    ensures var top := TopByRate(norm);
      norm[k] in top || (|top| == 20 && forall i :: 0 <= i < |top| ==> top[i].er.Some? && top[i].er.value >= norm[k].er.value)
  {
    var rated := Filter(norm, Rated);
    var top := TopByRate(norm);
    FilterMembers(norm, Rated);
    TopNShape(rated, ByRate, 20);
    var q :| 0 <= q < |rated| && rated[q] == norm[k];
    TopNIsTop(rated, ByRate, 20, q);
    if norm[k] !in top {
      forall i | 0 <= i < |top| ensures top[i].er.Some? && top[i].er.value >= norm[k].er.value {
        assert top[i] in multiset(rated);
        assert top[i] in rated;
        assert Le(ByRate(top[i]), ByRate(rated[q]));
      }
    }
  }

  /**
   * The impressions board holds the first twenty rows, or all of them when
   * there are fewer, most impressions first; a row is on it, or twenty rows
   * with at least its impressions are.
   */
  lemma TopByImpressionsFacts(norm: seq<Entry>)
    ensures var top := TopByImpressions(norm);
      |top| == (if |norm| < 20 then |norm| else 20)
      && multiset(top) <= multiset(norm)
      && (forall i, j :: 0 <= i < j < |top| ==> top[i].impressions >= top[j].impressions)
      && (forall k :: 0 <= k < |norm| ==>
            norm[k] in top || (|top| == 20 && forall i :: 0 <= i < |top| ==> top[i].impressions >= norm[k].impressions))
  {
    var top := TopByImpressions(norm);
    TopNShape(norm, ByImpressions, 20);
    forall i, j | 0 <= i < j < |top| ensures top[i].impressions >= top[j].impressions {
      assert Le(ByImpressions(top[i]), ByImpressions(top[j]));
    }
    forall k | 0 <= k < |norm|
      ensures norm[k] in top || (|top| == 20 && forall i :: 0 <= i < |top| ==> top[i].impressions >= norm[k].impressions)
    {
      TopNIsTop(norm, ByImpressions, 20, k);
    }
  }
}
