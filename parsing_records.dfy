/**
 * Turning row records into posts and daily metrics during upload
 * (`normalizePost`, `pick`, `pickByStartsWith`, `normalizeDaily`).
 */
module ParsingRecords {
  import opened Text
  import opened Js
  import opened JsObject
  import opened ParsingNumbers
  import opened ParsingDates

  /** A post as the upload stores it; `title`, `link` and `postType` are the raw cells, `Nil` when absent. */
  datatype Post = Post(
    title: Value,
    link: Value,
    postType: Value,
    createdAt: DateResult,
    impressions: real,
    likes: real,
    comments: real,
    reposts: real,
    engagementRate: Option<real>)

  /** Whether the record carries an engagement rate column with something in it. */
  predicate HasRateColumn(rec: Record) {
    var er := Get(rec, "engagement rate");
    !er.Nil? && er != Str("")
  }

  /** `(likes + comments + reposts) / impressions`, or nothing when there are no impressions. */
  function ComputedRate(impressions: real, likes: real, comments: real, reposts: real): (r: Option<real>)
    ensures impressions > 0.0 ==> r.Some? && r.value * impressions == likes + comments + reposts
    ensures impressions <= 0.0 ==> r.None?
  {
    if impressions > 0.0 then Some((likes + comments + reposts) / impressions) else None
  }

  /**
   * `normalizePost`: each field from its column or the fallback column,
   * counts default to 0 and reposts fall back to shares; the engagement
   * rate is the sheet's own when present, else computed from the counts.
   */
  function NormalizePost(rec: Record): (p: Post)
    ensures p.title == Coalesce(Get(rec, "post title"), Get(rec, "title"))
    ensures p.link == Coalesce(Get(rec, "post link"), Get(rec, "link"))
    ensures p.postType == Coalesce(Coalesce(Get(rec, "post type"), Get(rec, "type")), Get(rec, "content type"))
    ensures p.createdAt == ParseDate(Coalesce(Get(rec, "created date"), Get(rec, "date")))
    ensures ParseNumber(Get(rec, "impressions")).Some? ==> p.impressions == ParseNumber(Get(rec, "impressions")).value
    ensures ParseNumber(Get(rec, "impressions")).None? ==> p.impressions == 0.0
    ensures ParseNumber(Get(rec, "likes")).Some? ==> p.likes == ParseNumber(Get(rec, "likes")).value
    ensures ParseNumber(Get(rec, "likes")).None? ==> p.likes == 0.0
    ensures ParseNumber(Get(rec, "comments")).Some? ==> p.comments == ParseNumber(Get(rec, "comments")).value
    ensures ParseNumber(Get(rec, "comments")).None? ==> p.comments == 0.0
    ensures ParseNumber(Get(rec, "reposts")).None? && ParseNumber(Get(rec, "shares")).None? ==> p.reposts == 0.0
    ensures ParseNumber(Get(rec, "reposts")).Some? ==> p.reposts == ParseNumber(Get(rec, "reposts")).value
    ensures ParseNumber(Get(rec, "reposts")).None? && ParseNumber(Get(rec, "shares")).Some? ==>
      p.reposts == ParseNumber(Get(rec, "shares")).value
    ensures HasRateColumn(rec) ==> p.engagementRate == ParseNumber(Get(rec, "engagement rate"))
    ensures !HasRateColumn(rec) ==> p.engagementRate == ComputedRate(p.impressions, p.likes, p.comments, p.reposts)
  {
    var impressions := ParseNumber(Get(rec, "impressions")).GetOr(0.0);
    var likes := ParseNumber(Get(rec, "likes")).GetOr(0.0);
    var comments := ParseNumber(Get(rec, "comments")).GetOr(0.0);
    var reposts :=
      match ParseNumber(Get(rec, "reposts"))
      case Some(n) => n
      case None => ParseNumber(Get(rec, "shares")).GetOr(0.0);
    Post(
      Coalesce(Get(rec, "post title"), Get(rec, "title")),
      Coalesce(Get(rec, "post link"), Get(rec, "link")),
      Coalesce(Coalesce(Get(rec, "post type"), Get(rec, "type")), Get(rec, "content type")),
      ParseDate(Coalesce(Get(rec, "created date"), Get(rec, "date"))),
      impressions, likes, comments, reposts,
      if HasRateColumn(rec) then ParseNumber(Get(rec, "engagement rate"))
      else ComputedRate(impressions, likes, comments, reposts))
  }

  /** A rate computed from non-negative counts is non-negative. */
  lemma RateOfNonNegativeCounts(impressions: real, likes: real, comments: real, reposts: real)
    requires likes >= 0.0 && comments >= 0.0 && reposts >= 0.0
    ensures ComputedRate(impressions, likes, comments, reposts).Some? ==>
      ComputedRate(impressions, likes, comments, reposts).value >= 0.0
  {
  }

  /** A post without a rate column whose counts are non-negative gets a non-negative computed rate. */
  lemma ComputedRateNonNegative(rec: Record)
    requires !HasRateColumn(rec)
    requires NormalizePost(rec).likes >= 0.0 && NormalizePost(rec).comments >= 0.0 && NormalizePost(rec).reposts >= 0.0
    ensures NormalizePost(rec).engagementRate.Some? ==> NormalizePost(rec).engagementRate.value >= 0.0
  {
    var p := NormalizePost(rec);
    RateOfNonNegativeCounts(p.impressions, p.likes, p.comments, p.reposts);
  }

  /** Whether `candidates[i]` is the first candidate the record has. */
  predicate FirstPresent(rec: Record, candidates: seq<string>, i: int)
    requires 0 <= i < |candidates|
  {
    Has(rec, candidates[i]) && forall j :: 0 <= j < i ==> !Has(rec, candidates[j])
  }

  /** `pick(rec, candidates)`: the value of the first candidate key the record has, else `undefined`. */
  function Pick(rec: Record, candidates: seq<string>): (v: Value)
    ensures (forall i :: 0 <= i < |candidates| ==> !Has(rec, candidates[i])) ==> v == Nil
    ensures forall i :: 0 <= i < |candidates| && FirstPresent(rec, candidates, i) ==> v == Get(rec, candidates[i])
  {
    if candidates == [] then Nil
    else if Has(rec, candidates[0]) then Get(rec, candidates[0])
    else
      var v := Pick(rec, candidates[1..]);
      assert forall i :: 1 <= i < |candidates| && FirstPresent(rec, candidates, i) ==>
        FirstPresent(rec, candidates[1..], i - 1);
      v
  }

  /** `keys.find((k) => k.startsWith(b))`, as a position. */
  function FindPrefixed(keys: seq<string>, b: string): (r: Option<nat>)
    ensures r.Some? ==> r.value < |keys| && StartsWith(keys[r.value], b)
    ensures r.Some? ==> forall j :: 0 <= j < r.value ==> !StartsWith(keys[j], b)
    ensures r.None? ==> forall j :: 0 <= j < |keys| ==> !StartsWith(keys[j], b)
  {
    if keys == [] then None
    else if StartsWith(keys[0], b) then Some(0)
    else
      match FindPrefixed(keys[1..], b)
      case None => None
      case Some(k) => Some(k + 1)
  }

  /** The key `keys.find` returns for prefix `b`, when it is a non-empty (truthy) key. */
  function PrefixedKey(rec: Record, b: string): Option<string> {
    match FindPrefixed(rec.keys, b)
    case Some(k) => if rec.keys[k] != "" then Some(rec.keys[k]) else None
    case None => None
  }

  /** Whether `bases[i]` is the first base with a (truthy) key that starts with it. */
  predicate FirstPrefixed(rec: Record, bases: seq<string>, i: int)
    requires 0 <= i < |bases|
  {
    PrefixedKey(rec, bases[i]).Some? && forall j :: 0 <= j < i ==> PrefixedKey(rec, bases[j]).None?
  }

  /**
   * `pickByStartsWith(rec, bases)`: for the first base some key starts
   * with, the value of the first such key in the record's key order.
   */
  function PickByStartsWith(rec: Record, bases: seq<string>): (v: Value)
    ensures (forall i :: 0 <= i < |bases| ==> PrefixedKey(rec, bases[i]).None?) ==> v == Nil
    ensures forall i :: 0 <= i < |bases| && FirstPrefixed(rec, bases, i) ==> v == Get(rec, PrefixedKey(rec, bases[i]).value)
  {
    if bases == [] then Nil
    else
      match PrefixedKey(rec, bases[0])
      case Some(k) => Get(rec, k)
      case None =>
        var v := PickByStartsWith(rec, bases[1..]);
        assert forall i :: 1 <= i < |bases| ==> bases[1..][i - 1] == bases[i];
        v
  }

  /** Where a daily metric is read from: exact header names first, then header prefixes. */
  datatype MetricSource = MetricSource(exact: seq<string>, prefixes: seq<string>)

  const ImpressionsSource := MetricSource(["impressions (total)", "impressions"], ["impressions (total", "impressions"])
  const ClicksSource := MetricSource(["clicks (total)", "clicks"], ["clicks (total", "clicks"])
  const ReactionsSource := MetricSource(["reactions (total)", "reactions"], ["reactions (total", "reactions"])
  const CommentsSource := MetricSource(["comments (total)", "comments"], ["comments (total", "comments"])
  const RepostsSource := MetricSource(
    ["reposts (total)", "reposts", "shares (total)", "shares"],
    ["reposts (total", "reposts", "shares (total", "shares"])
  const VideoViewsSource := MetricSource(["video views"], ["video views"])
  const EngagementRateSource := MetricSource(
    ["engagement rate (total)", "engagement rate"],
    ["engagement rate (total", "engagement rate"])

  /** `pick(rec, exact) ?? pickByStartsWith(rec, prefixes)`. */
  function RawMetric(rec: Record, src: MetricSource): (v: Value)
    ensures (exists i :: 0 <= i < |src.exact| && FirstPresent(rec, src.exact, i) && !Get(rec, src.exact[i]).Nil?) ==>
      v == Pick(rec, src.exact)
    ensures Pick(rec, src.exact).Nil? ==> v == PickByStartsWith(rec, src.prefixes)
  {
    Coalesce(Pick(rec, src.exact), PickByStartsWith(rec, src.prefixes))
  }

  datatype Daily = Daily(
    date: DateResult,
    impressions: real,
    clicks: Option<real>,
    reactions: Option<real>,
    comments: Option<real>,
    shares: Option<real>,
    videoViews: Option<real>,
    engagementRate: Option<real>)

  /** `normalizeDaily`: impressions default to 0, every other metric to `null`. */
  function NormalizeDaily(rec: Record): (d: Daily)
    ensures d.date == ParseDate(Get(rec, "date"))
    ensures d.impressions == ParseNumber(RawMetric(rec, ImpressionsSource)).GetOr(0.0)
    ensures d.clicks == ParseNumber(RawMetric(rec, ClicksSource))
    ensures d.reactions == ParseNumber(RawMetric(rec, ReactionsSource))
    ensures d.comments == ParseNumber(RawMetric(rec, CommentsSource))
    ensures d.shares == ParseNumber(RawMetric(rec, RepostsSource))
    ensures d.videoViews == ParseNumber(RawMetric(rec, VideoViewsSource))
    ensures d.engagementRate == ParseNumber(RawMetric(rec, EngagementRateSource))
  {
    Daily(
      ParseDate(Get(rec, "date")),
      ParseNumber(RawMetric(rec, ImpressionsSource)).GetOr(0.0),
      ParseNumber(RawMetric(rec, ClicksSource)),
      ParseNumber(RawMetric(rec, ReactionsSource)),
      ParseNumber(RawMetric(rec, CommentsSource)),
      ParseNumber(RawMetric(rec, RepostsSource)),
      ParseNumber(RawMetric(rec, VideoViewsSource)),
      ParseNumber(RawMetric(rec, EngagementRateSource)))
  }

  /** Every header a source can read starts with `p`. */
  predicate SourceUnder(src: MetricSource, p: string) {
    (forall i :: 0 <= i < |src.exact| ==> StartsWith(src.exact[i], p))
    && (forall i :: 0 <= i < |src.prefixes| ==> StartsWith(src.prefixes[i], p))
  }

  lemma StartsWithChain(k: string, b: string, p: string)
    requires StartsWith(b, p)
    ensures StartsWith(k, b) ==> StartsWith(k, p)
  {
    if StartsWith(k, b) {
      assert k[..|p|] == k[..|b|][..|p|];
    }
  }

  /** A record with no key that starts with `p` gives no value for any metric read under `p`. */
  lemma AbsentMetric(rec: Record, src: MetricSource, p: string)
    requires Valid(rec) && SourceUnder(src, p)
    requires forall i :: 0 <= i < |rec.keys| ==> !StartsWith(rec.keys[i], p)
    ensures RawMetric(rec, src) == Nil
  {
    forall i | 0 <= i < |src.exact|
      ensures !Has(rec, src.exact[i])
    {
      assert forall j :: 0 <= j < |rec.keys| ==> rec.keys[j] != src.exact[i];
    }
    forall i | 0 <= i < |src.prefixes|
      ensures PrefixedKey(rec, src.prefixes[i]).None?
    {
      var b := src.prefixes[i];
      forall j | 0 <= j < |rec.keys|
        ensures !StartsWith(rec.keys[j], b)
      {
        StartsWithChain(rec.keys[j], b, p);
      }
    }
  }

  lemma SourcesUnderTheirNames()
    ensures SourceUnder(ImpressionsSource, "impressions")
    ensures SourceUnder(ClicksSource, "clicks")
    ensures SourceUnder(VideoViewsSource, "video views")
  {
  }

  /** A day with no impressions column counts 0 impressions, and one with no clicks column has `null` clicks. */
  lemma DailyDefaults(rec: Record)
    requires Valid(rec)
    requires forall i :: 0 <= i < |rec.keys| ==> !StartsWith(rec.keys[i], "impressions")
    requires forall i :: 0 <= i < |rec.keys| ==> !StartsWith(rec.keys[i], "clicks")
    ensures NormalizeDaily(rec).impressions == 0.0
    ensures NormalizeDaily(rec).clicks == None
  {
    SourcesUnderTheirNames();
    AbsentMetric(rec, ImpressionsSource, "impressions");
    AbsentMetric(rec, ClicksSource, "clicks");
  }
}
