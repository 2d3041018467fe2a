/**
 * The content dashboard: stored posts are normalised into rows carrying a
 * content bucket, filtered by bucket, sorted by a chosen column, tallied
 * per bucket, summarised as insights and listed as per-bucket top posts.
 */
module ContentDashboard {
  import opened Text
  import opened Js
  import opened JsObject
  import opened Seqs
  import opened Sorting
  import opened Patterns
  import opened ContentClassification

  /** `BUCKET_ORDER`. */
  const BucketOrder: seq<Category> := [Video, Jobs, Funding, Newsletter, Regular]

  // ---------------------------------------------------------------------
  // The normalised rows

  datatype Row = Row(
    title: Value,
    link: Value,
    postedAt: Value,
    impressions: real,
    er: Option<real>,
    likes: real,
    comments: real,
    reposts: real,
    contentType: Category,
    bucket: Category)

  /**
   * The `allPosts.map` step: one row per stored post, its fields defaulted
   * as `RowOf` states, its content type derived from the post and its bucket
   * one of the five.
   */
  function Normalize(m: Matcher, p: Record): (row: Row)
    ensures row.contentType == DerivedType(m, Some(p))
    ensures row == RowOf(p, row.contentType)
    ensures row.bucket == BucketOf(row.contentType) && row.bucket in BucketOrder
  {
    RowOf(p, DerivedType(m, Some(p)))
  }

  /**
   * The row of a stored post whose content type is `contentType`: the
   * title or "(untitled)", a falsy link or date as `null`, a count that is
   * not a number as 0 and a rate that is not a number as `null`.
   */
  function RowOf(p: Record, contentType: Category): (row: Row)
    ensures Truthy(Get(p, "title")) ==> row.title == Get(p, "title")
    ensures !Truthy(Get(p, "title")) ==> row.title == Str("(untitled)")
    ensures Truthy(row.title) && Truthy(row.link) == Truthy(Get(p, "link")) && Truthy(row.postedAt) == Truthy(Get(p, "createdAt"))
    ensures Truthy(Get(p, "link")) ==> row.link == Get(p, "link")
    ensures !Truthy(Get(p, "link")) ==> row.link == Nil
    ensures Truthy(Get(p, "createdAt")) ==> row.postedAt == Get(p, "createdAt")
    ensures !Truthy(Get(p, "createdAt")) ==> row.postedAt == Nil
    ensures row.er.Some? <==> Get(p, "engagementRate").Num?
    ensures row.er.Some? ==> row.er.value == Get(p, "engagementRate").x
    ensures Get(p, "impressions").Num? ==> row.impressions == Get(p, "impressions").x
    ensures !Get(p, "impressions").Num? ==> row.impressions == 0.0
    ensures Get(p, "likes").Num? ==> row.likes == Get(p, "likes").x
    ensures !Get(p, "likes").Num? ==> row.likes == 0.0
    ensures Get(p, "comments").Num? ==> row.comments == Get(p, "comments").x
    ensures !Get(p, "comments").Num? ==> row.comments == 0.0
    ensures Get(p, "reposts").Num? ==> row.reposts == Get(p, "reposts").x
    ensures !Get(p, "reposts").Num? ==> row.reposts == 0.0
    ensures row.contentType == contentType
    ensures row.bucket == BucketOf(row.contentType) && row.bucket in BucketOrder
  {
    Row(
      Or(Get(p, "title"), Str("(untitled)")),
      Or(Get(p, "link"), Nil),
      Or(Get(p, "createdAt"), Nil),
      NumOrZero(Get(p, "impressions")),
      NumOrNull(Get(p, "engagementRate")),
      NumOrZero(Get(p, "likes")),
      NumOrZero(Get(p, "comments")),
      NumOrZero(Get(p, "reposts")),
      contentType,
      Bucketize(Str(CategoryName(contentType))))
  }

  function NormalizeAll(m: Matcher, posts: seq<Record>): seq<Row> {
    Map(posts, p => Normalize(m, p))
  }

  /** Every normalised row sits in one of the five buckets, the one its content type maps to. */
  lemma NormalizedBuckets(m: Matcher, posts: seq<Record>, i: nat)
    requires i < |posts|
    ensures |NormalizeAll(m, posts)| == |posts|
    ensures NormalizeAll(m, posts)[i].bucket in BucketOrder
    ensures NormalizeAll(m, posts)[i].bucket == BucketOf(DerivedType(m, Some(posts[i])))
  {
    MapAt(posts, p => Normalize(m, p), i);
  }

  // ---------------------------------------------------------------------
  // The content filter

  /** The `filterMap` lookup of the content filter. */
  function FilterBucket(filter: string): Option<Category> {
    if filter == "video" then Some(Video)
    else if filter == "jobs" then Some(Jobs)
    else if filter == "funding" then Some(Funding)
    else if filter == "newsletter" then Some(Newsletter)
    else if filter == "regular" then Some(Regular)
    else None
  }

  function InBucket(b: Category): Row -> bool {
    (r: Row) => r.bucket == b
  }

  /** `contentFilteredPosts`: `'all'` and an unknown filter keep every row, a bucket filter never adds one. */
  function ContentFiltered(rows: seq<Row>, filter: string): (kept: seq<Row>)
    ensures FilterBucket(filter).None? ==> kept == rows
    ensures |kept| <= |rows|
  {
    if filter == "all" then rows
    else if FilterBucket(filter).None? then rows
    else Filter(rows, InBucket(FilterBucket(filter).value))
  }

  /** A bucket filter keeps, in order, exactly the rows of that bucket. */
  lemma ContentFilterKeeps(rows: seq<Row>, filter: string)
    ensures FilterBucket(filter).Some? ==>
      var b := FilterBucket(filter).value;
      (forall i :: 0 <= i < |ContentFiltered(rows, filter)| ==>
         ContentFiltered(rows, filter)[i].bucket == b && ContentFiltered(rows, filter)[i] in rows)
      && (forall i :: 0 <= i < |rows| && rows[i].bucket == b ==> rows[i] in ContentFiltered(rows, filter))
      && multiset(ContentFiltered(rows, filter)) <= multiset(rows)
  {
    if FilterBucket(filter).Some? {
      FilterMembers(rows, InBucket(FilterBucket(filter).value));
    }
  }

  /**
   * Order and multiplicity: the filter of a concatenation is the
   * concatenation of the filters, and one row is kept, once, exactly when
   * it is in the bucket.
   */
  lemma ContentFilterInOrder(a: seq<Row>, b: seq<Row>, r: Row, filter: string)
    ensures ContentFiltered(a + b, filter) == ContentFiltered(a, filter) + ContentFiltered(b, filter)
    ensures FilterBucket(filter).Some? ==>
      ContentFiltered([r], filter) == if r.bucket == FilterBucket(filter).value then [r] else []
  {
    if FilterBucket(filter).Some? {
      FilterAppend(a, b, InBucket(FilterBucket(filter).value));
      assert [r][..0] == [];
    }
  }

  /** Filtering twice by the same bucket changes nothing. */
  lemma ContentFilterIdempotent(rows: seq<Row>, filter: string)
    ensures ContentFiltered(ContentFiltered(rows, filter), filter) == ContentFiltered(rows, filter)
  {
    if FilterBucket(filter).Some? {
      var kept := ContentFiltered(rows, filter);
      FilterMembers(rows, InBucket(FilterBucket(filter).value));
      FilterAll(kept, InBucket(FilterBucket(filter).value));
    }
  }

  // ---------------------------------------------------------------------
  // The sort toggle

  datatype Direction = Asc | Desc

  datatype SortConfig = SortConfig(key: string, direction: Direction)

  /** The configuration `handleSort(key)` installs. */
  function NextSort(c: SortConfig, key: string): (n: SortConfig)
    ensures n.key == key
    ensures n.direction == Desc <==> c.key == key && c.direction == Asc
  {
    SortConfig(key, if c.key == key && c.direction == Asc then Desc else Asc)
  }

  /**
   * Clicking a column twice returns to where it was when that column was
   * already the sort column, and leaves it descending otherwise.
   */
  lemma NextSortTwice(c: SortConfig, key: string)
    ensures NextSort(NextSort(c, key), key) == if c.key == key then c else SortConfig(key, Desc)
  {
  }

  /** The `sortConfig` state of the page. */
  class SortState {
    var config: SortConfig

    /** The initial state: newest posts first. */
    constructor ()
      ensures config == SortConfig("postedAt", Desc)
    {
      config := SortConfig("postedAt", Desc);
    }

    /** `handleSort(key)`. */
    method HandleSort(key: string)
      modifies this
      ensures config == NextSort(old(config), key)
    {
      var direction := Asc;
      if config.key == key && config.direction == Asc {
        direction := Desc;
      }
      config := SortConfig(key, direction);
    }
  }

  // ---------------------------------------------------------------------
  // The comparator of `sortedPosts`

  /** `row[key]`; an unknown key reads `undefined`. */
  function FieldOf(r: Row, key: string): Value {
    if key == "title" then r.title
    else if key == "link" then r.link
    else if key == "postedAt" then r.postedAt
    else if key == "impressions" then Num(r.impressions)
    else if key == "er" then (if r.er.Some? then Num(r.er.value) else Nil)
    else if key == "likes" then Num(r.likes)
    else if key == "comments" then Num(r.comments)
    else if key == "reposts" then Num(r.reposts)
    else if key == "contentType" then Str(CategoryName(r.contentType))
    else if key == "bucket" then Str(CategoryName(r.bucket))
    else Nil
  }

  /**
   * What `<` compares: numbers (dates by their time value, booleans as 0 or
   * 1), strings, or a value that compares false with everything (an invalid
   * date, whose time value is NaN).
   */
  datatype Cell = Number(x: real) | Text(s: string) | Incomparable

  function CellOf(v: Value): Cell {
    match v
    case Nil => Incomparable
    case Bool(b) => Number(if b then 1.0 else 0.0)
    case Num(x) => Number(x)
    case Big(n) => Number(n as real)
    case Str(s) => Text(s)
    case DateObj(ms, _) => Number(ms as real)
  }

  /** `a < b` on two cells of the same kind; cells of different kinds are not ordered. */
  predicate Less(a: Cell, b: Cell) {
    (a.Number? && b.Number? && a.x < b.x) || (a.Text? && b.Text? && LexLess(a.s, b.s))
  }

  /**
   * The cell the comparator compares for a non-missing value of column
   * `key`; `instant` is `new Date(v).getTime()` (`None` for an invalid
   * date), applied to the `postedAt` column.
   */
  function SortCell(key: string, instant: Value -> Option<int>, v: Value): Cell {
    if key == "postedAt" then (if instant(v).Some? then Number(instant(v).value as real) else Incomparable)
    else CellOf(v)
  }

  /**
   * The comparator of `sortedPosts` on the two values of the sort column:
   * -1, 0 or 1; missing values go last in both directions, and two missing
   * values are equal.
   */
  function Compare(c: SortConfig, instant: Value -> Option<int>, a: Value, b: Value): (r: int)
    ensures -1 <= r <= 1
    ensures a.Nil? && b.Nil? ==> r == 0
    ensures a.Nil? && !b.Nil? ==> r > 0
    ensures !a.Nil? && b.Nil? ==> r < 0
  {
    if a.Nil? && b.Nil? then 0
    else if a.Nil? then 1
    else if b.Nil? then -1
    else
      var x, y := SortCell(c.key, instant, a), SortCell(c.key, instant, b);
      if Less(x, y) then (if c.direction == Asc then -1 else 1)
      else if Less(y, x) then (if c.direction == Asc then 1 else -1)
      else 0
  }

  /** Swapping the arguments flips the sign. */
  lemma CompareAntisymmetric(c: SortConfig, instant: Value -> Option<int>, a: Value, b: Value)
    ensures Compare(c, instant, a, b) == -Compare(c, instant, b, a)
  {
    var x, y := SortCell(c.key, instant, a), SortCell(c.key, instant, b);
    if x.Text? && y.Text? {
      LexTrichotomy(x.s, y.s);
    }
  }

  /** "Not after" on two present cells: ascending puts smaller values first, descending larger ones. */
  predicate CellLe(d: Direction, x: Cell, y: Cell) {
    if d == Asc then !Less(y, x) else !Less(x, y)
  }

  /** `compare(a, b) <= 0`: a missing value only before another missing one, present values by their cells. */
  lemma CompareLe(c: SortConfig, instant: Value -> Option<int>, a: Value, b: Value)
    ensures Compare(c, instant, a, b) <= 0 <==>
      (a.Nil? ==> b.Nil?) && (!a.Nil? && !b.Nil? ==> CellLe(c.direction, SortCell(c.key, instant, a), SortCell(c.key, instant, b)))
  {
    var x, y := SortCell(c.key, instant, a), SortCell(c.key, instant, b);
    if x.Text? && y.Text? {
      LexTrichotomy(x.s, y.s);
    }
  }

  /** Cells of one kind that `<` can order: all numbers or all strings. */
  predicate SameKind(x: Cell, y: Cell) {
    (x.Number? && y.Number?) || (x.Text? && y.Text?)
  }

  lemma CellLeTransitive(d: Direction, x: Cell, y: Cell, z: Cell)
    requires SameKind(x, y) && SameKind(y, z)
    requires CellLe(d, x, y) && CellLe(d, y, z)
    ensures CellLe(d, x, z)
  {
    if x.Text? {
      LexTrichotomy(x.s, y.s);
      LexTrichotomy(y.s, z.s);
      LexTrichotomy(x.s, z.s);
      if LexLess(x.s, y.s) && LexLess(y.s, z.s) {
        LexTransitive(x.s, y.s, z.s);
      }
      if LexLess(z.s, y.s) && LexLess(y.s, x.s) {
        LexTransitive(z.s, y.s, x.s);
      }
    }
  }

  /** The comparator of `sortedPosts` on rows: "`a` may stay before `b`". */
  function RowLe(c: SortConfig, instant: Value -> Option<int>): (Row, Row) -> bool {
    (a: Row, b: Row) => Compare(c, instant, FieldOf(a, c.key), FieldOf(b, c.key)) <= 0
  }

  /** `sortedPosts`: no sort without a key, else a stable sort with the comparator; either way only a reordering. */
  function SortedPosts(rows: seq<Row>, c: SortConfig, instant: Value -> Option<int>): (sorted: seq<Row>)
    ensures c.key == "" ==> sorted == rows
    ensures multiset(sorted) == multiset(rows)
  {
    SortWithPermutation(rows, RowLe(c, instant));
    if c.key == "" then rows else SortWith(rows, RowLe(c, instant))
  }

  /**
   * The present values of the sort column are all numbers (or valid dates)
   * or all strings: `<` orders them, and the comparator is consistent.
   */
  predicate ComparableColumn(rows: seq<Row>, c: SortConfig, instant: Value -> Option<int>) {
    (forall i :: 0 <= i < |rows| && !FieldOf(rows[i], c.key).Nil? ==> SortCell(c.key, instant, FieldOf(rows[i], c.key)).Number?)
    || (forall i :: 0 <= i < |rows| && !FieldOf(rows[i], c.key).Nil? ==> SortCell(c.key, instant, FieldOf(rows[i], c.key)).Text?)
  }

  lemma RowLePreorder(rows: seq<Row>, c: SortConfig, instant: Value -> Option<int>)
    requires ComparableColumn(rows, c, instant)
    ensures PreorderOn(rows, RowLe(c, instant))
  {
    var le := RowLe(c, instant);
    forall a, b | a in rows && b in rows ensures le(a, b) || le(b, a) {
      CompareAntisymmetric(c, instant, FieldOf(a, c.key), FieldOf(b, c.key));
    }
    forall a, b, d | a in rows && b in rows && d in rows && le(a, b) && le(b, d) ensures le(a, d) {
      var va, vb, vd := FieldOf(a, c.key), FieldOf(b, c.key), FieldOf(d, c.key);
      CompareLe(c, instant, va, vb);
      CompareLe(c, instant, vb, vd);
      CompareLe(c, instant, va, vd);
      if !va.Nil? && !vb.Nil? && !vd.Nil? {
        CellLeTransitive(c.direction, SortCell(c.key, instant, va), SortCell(c.key, instant, vb), SortCell(c.key, instant, vd));
      }
    }
  }

  /** The rows whose sort field holds `v`. */
  function HasField(key: string, v: Value): Row -> bool {
    (r: Row) => FieldOf(r, key) == v
  }

  /**
   * Stability: rows with equal values in the sort column, and in particular
   * the rows missing it, keep their input order.
   */
  lemma SortedPostsStable(rows: seq<Row>, c: SortConfig, instant: Value -> Option<int>, v: Value)
    ensures Filter(SortedPosts(rows, c, instant), HasField(c.key, v)) == Filter(rows, HasField(c.key, v))
  {
    if c.key != "" {
      var x := SortCell(c.key, instant, v);
      if x.Text? {
        LexTrichotomy(x.s, x.s);
      }
      assert Compare(c, instant, v, v) == 0;
      SortWithStable(rows, RowLe(c, instant), HasField(c.key, v));
    }
  }

  /**
   * On a column `<` can order, rows with a missing value come last, and the
   * present values are ascending or descending as the direction says.
   */
  lemma SortedPostsOrder(rows: seq<Row>, c: SortConfig, instant: Value -> Option<int>)
    requires c.key != "" && ComparableColumn(rows, c, instant)
    ensures var sorted := SortedPosts(rows, c, instant);
      forall i, j :: 0 <= i < j < |sorted| ==>
        (FieldOf(sorted[i], c.key).Nil? ==> FieldOf(sorted[j], c.key).Nil?)
        && (!FieldOf(sorted[i], c.key).Nil? && !FieldOf(sorted[j], c.key).Nil? ==>
              CellLe(c.direction, SortCell(c.key, instant, FieldOf(sorted[i], c.key)), SortCell(c.key, instant, FieldOf(sorted[j], c.key))))
  {
    var sorted := SortedPosts(rows, c, instant);
    RowLePreorder(rows, c, instant);
    SortWithSorted(rows, RowLe(c, instant));
    forall i, j | 0 <= i < j < |sorted|
      ensures (FieldOf(sorted[i], c.key).Nil? ==> FieldOf(sorted[j], c.key).Nil?)
        && (!FieldOf(sorted[i], c.key).Nil? && !FieldOf(sorted[j], c.key).Nil? ==>
              CellLe(c.direction, SortCell(c.key, instant, FieldOf(sorted[i], c.key)), SortCell(c.key, instant, FieldOf(sorted[j], c.key))))
    {
      CompareLe(c, instant, FieldOf(sorted[i], c.key), FieldOf(sorted[j], c.key));
    }
  }

  // ---------------------------------------------------------------------
  // bucketStats

  /** The running totals `{ count, totalImpressions, totalER, validER }` of one bucket. */
  datatype Totals = Totals(count: nat, totalImpressions: real, totalER: real, validER: nat)

  const NoTotals := Totals(0, 0.0, 0.0, 0)

  /** One step of the `forEach`: count the row, add its impressions and, when present, its rate. */
  function AddRow(t: Totals, r: Row): Totals {
    Totals(
      t.count + 1,
      t.totalImpressions + r.impressions,
      if r.er.Some? then t.totalER + r.er.value else t.totalER,
      if r.er.Some? then t.validER + 1 else t.validER)
  }

  /** The bucket a row is tallied under: its own when listed in `BUCKET_ORDER`, else Regular. */
  function StatsBucket(c: Category): (b: Category)
    ensures b in BucketOrder
  {
    if c in BucketOrder then c else Regular
  }

  /** The totals of bucket `b` after the rows. */
  function Tally(rows: seq<Row>, b: Category): Totals {
    if rows == [] then NoTotals
    else
      var t := Tally(rows[..|rows| - 1], b);
      if StatsBucket(rows[|rows| - 1].bucket) == b then AddRow(t, rows[|rows| - 1]) else t
  }

  /** An entry of `bucketStats.entries`; `avgER` is `None` for `null`. */
  datatype BucketEntry = BucketEntry(
    bucket: Category, count: nat, share: real, totalImpressions: real, avgImpressions: real, avgER: Option<real>)

  function EntryOf(b: Category, t: Totals, totalPosts: nat): BucketEntry {
    BucketEntry(
      b,
      t.count,
      if totalPosts != 0 then (t.count as real / totalPosts as real) * 100.0 else 0.0,
      t.totalImpressions,
      if t.count != 0 then t.totalImpressions / t.count as real else 0.0,
      if t.validER != 0 then Some(t.totalER / t.validER as real) else None)
  }

  /** The value of `bucketStats.entries`: one entry per bucket of `BUCKET_ORDER`, in that order. */
  function BucketEntries(rows: seq<Row>): (entries: seq<BucketEntry>)
    ensures |entries| == |BucketOrder|
    ensures forall i :: 0 <= i < |entries| ==> entries[i] == EntryOf(BucketOrder[i], Tally(rows, BucketOrder[i]), |rows|)
  {
    seq(|BucketOrder|, i requires 0 <= i < |BucketOrder| => EntryOf(BucketOrder[i], Tally(rows, BucketOrder[i]), |rows|))
  }

  lemma TallySnoc(rows: seq<Row>, i: nat, b: Category)
    requires i < |rows|
    ensures Tally(rows[..i + 1], b) ==
      if StatsBucket(rows[i].bucket) == b then AddRow(Tally(rows[..i], b), rows[i]) else Tally(rows[..i], b)
  {
    assert rows[..i + 1][..i] == rows[..i];
  }

  /** The `forEach` of `bucketStats`: the per-bucket totals, updated row by row. */
  method TallyAll(rows: seq<Row>) returns (base: map<Category, Totals>)
    ensures forall b :: b in BucketOrder ==> b in base && base[b] == Tally(rows, b)
  {
    base := map[Video := NoTotals, Jobs := NoTotals, Funding := NoTotals, Newsletter := NoTotals, Regular := NoTotals];
    for i := 0 to |rows|
      invariant forall b :: b in BucketOrder ==> b in base && base[b] == Tally(rows[..i], b)
    {
      forall b | b in BucketOrder
        ensures Tally(rows[..i + 1], b) ==
          if StatsBucket(rows[i].bucket) == b then AddRow(Tally(rows[..i], b), rows[i]) else Tally(rows[..i], b)
      {
        TallySnoc(rows, i, b);
      }
      var bucket := if rows[i].bucket in BucketOrder then rows[i].bucket else Regular;
      base := base[bucket := AddRow(base[bucket], rows[i])];
    }
    assert rows[..|rows|] == rows;
  }

  /** `bucketStats`: the five entries and the number of rows. */
  method BucketStats(rows: seq<Row>) returns (entries: seq<BucketEntry>, totalPosts: nat)
    ensures totalPosts == |rows|
    ensures entries == BucketEntries(rows)
  {
    var base := TallyAll(rows);
    totalPosts := |rows|;
    entries := [];
    for j := 0 to |BucketOrder|
      invariant |entries| == j
      invariant forall k :: 0 <= k < j ==> entries[k] == EntryOf(BucketOrder[k], Tally(rows, BucketOrder[k]), |rows|)
    {
      var bucket := BucketOrder[j];
      entries := entries + [EntryOf(bucket, base[bucket], totalPosts)];
    }
  }

  /** The counts of the five buckets. */
  function CountsSum(rows: seq<Row>): nat {
    Tally(rows, Video).count + Tally(rows, Jobs).count + Tally(rows, Funding).count
    + Tally(rows, Newsletter).count + Tally(rows, Regular).count
  }

  /** Every row is counted in exactly one bucket: the counts add up to `totalPosts`. */
  lemma {:induction false} CountsAddUp(rows: seq<Row>)
    ensures CountsSum(rows) == |rows|
  {
    if rows != [] {
      CountsAddUp(rows[..|rows| - 1]);
    }
  }

  /** A row whose bucket is not listed is counted as Regular. */
  lemma UnlistedBucketIsRegular(rows: seq<Row>, r: Row)
    requires r.bucket !in BucketOrder
    ensures Tally(rows + [r], Regular).count == Tally(rows, Regular).count + 1
    ensures forall b :: b in BucketOrder && b != Regular ==> Tally(rows + [r], b) == Tally(rows, b)
  {
    assert (rows + [r])[..|rows|] == rows;
  }

  /** The rate totals use only the rows with a rate. */
  lemma {:induction false} TallyRates(rows: seq<Row>, b: Category)
    ensures Tally(rows, b).validER <= Tally(rows, b).count
    ensures Tally(rows, b).validER == 0 <==>
      forall i :: 0 <= i < |rows| && StatsBucket(rows[i].bucket) == b ==> rows[i].er.None?
  {
    if rows != [] {
      var init := rows[..|rows| - 1];
      TallyRates(init, b);
      assert forall i :: 0 <= i < |init| ==> init[i] == rows[i];
    }
  }

  lemma FiveShares(a: real, b: real, c: real, d: real, e: real, n: real)
    requires n > 0.0 && a + b + c + d + e == n
    ensures (a / n) * 100.0 + (b / n) * 100.0 + (c / n) * 100.0 + (d / n) * 100.0 + (e / n) * 100.0 == 100.0
  {
    assert a / n + b / n + c / n + d / n + e / n == (a + b + c + d + e) / n;
  }

  /** With rows present the bucket shares add up to 100. */
  lemma SharesAddUp(rows: seq<Row>)
    requires rows != []
    ensures var e := BucketEntries(rows);
      e[0].share + e[1].share + e[2].share + e[3].share + e[4].share == 100.0
  {
    CountsAddUp(rows);
    FiveShares(Tally(rows, Video).count as real, Tally(rows, Jobs).count as real, Tally(rows, Funding).count as real,
      Tally(rows, Newsletter).count as real, Tally(rows, Regular).count as real, |rows| as real);
  }

  /** The `i`-th entry is the tally of the `i`-th bucket; its average rate is `null` exactly when no row of it has a rate. */
  lemma EntryAverages(rows: seq<Row>, i: nat)
    requires i < |BucketOrder|
    ensures var e := BucketEntries(rows)[i];
      e.bucket == BucketOrder[i]
      && e.count == Tally(rows, e.bucket).count
      && (e.avgER.None? <==> forall k :: 0 <= k < |rows| && StatsBucket(rows[k].bucket) == e.bucket ==> rows[k].er.None?)
  {
    var t := Tally(rows, BucketOrder[i]);
    assert BucketEntries(rows)[i] == EntryOf(BucketOrder[i], t, |rows|);
    TallyRates(rows, BucketOrder[i]);
    EntryOfAverages(BucketOrder[i], t, |rows|);
  }

  /** An average times the count gives the total; an empty bucket averages 0, and no rates average `null`. */
  lemma EntryOfAverages(b: Category, t: Totals, totalPosts: nat)
    ensures EntryOf(b, t, totalPosts).avgER.None? <==> t.validER == 0
    ensures var e := EntryOf(b, t, totalPosts);
      (e.count != 0 ==> e.avgImpressions * e.count as real == e.totalImpressions)
      && (e.count == 0 ==> e.avgImpressions == 0.0)
  {
    if t.count != 0 {
      var avg := t.totalImpressions / t.count as real;
      assert avg * t.count as real == t.totalImpressions;
    }
  }

  // ---------------------------------------------------------------------
  // insights

  /** One line of the insights panel, with the percentage it reports. */
  datatype Insight =
    | VideoImpressionsLead(pct: real)
    | RegularImpressionsLead(pct: real)
    | VideoRateLead(pct: real)
    | RegularRateLead(pct: real)
    | NoVideo
    | LittleVideo
    | JobsShare(pct: real)
    | JobsImpressionsLead(pct: real)
    | JobsImpressionsTrail(pct: real)
    | SolidMix

  /** `((a / b) - 1) * 100`. */
  function Lift(a: real, b: real): real
    requires b != 0.0
  {
    (a / b - 1.0) * 100.0
  }

  /** The impressions comparison of video against regular posts, when the lift is at least 5%. */
  function ImpressionInsights(video: BucketEntry, regular: BucketEntry): seq<Insight> {
    if regular.avgImpressions > 0.0 && Abs(Lift(video.avgImpressions, regular.avgImpressions)) >= 5.0 then
      var lift := Lift(video.avgImpressions, regular.avgImpressions);
      [if lift > 0.0 then VideoImpressionsLead(lift) else RegularImpressionsLead(Abs(lift))]
    else []
  }

  /** `regularSummary.avgER && videoSummary.avgER`: both present and non-zero. */
  predicate BothRates(video: BucketEntry, regular: BucketEntry) {
    regular.avgER.Some? && regular.avgER.value != 0.0 && video.avgER.Some? && video.avgER.value != 0.0
  }

  /** The engagement-rate comparison of video against regular posts, when the lift is at least 5%. */
  function RateInsights(video: BucketEntry, regular: BucketEntry): seq<Insight> {
    if BothRates(video, regular) && Abs(Lift(video.avgER.value, regular.avgER.value)) >= 5.0 then
      var lift := Lift(video.avgER.value, regular.avgER.value);
      [if lift > 0.0 then VideoRateLead(lift) else RegularRateLead(Abs(lift))]
    else []
  }

  /** The jobs share, then the jobs impressions comparison when its lift is at least 10%. */
  function JobsInsights(jobs: BucketEntry, regular: BucketEntry): seq<Insight> {
    [JobsShare(jobs.share)]
    + if regular.avgImpressions > 0.0 && Abs(Lift(jobs.avgImpressions, regular.avgImpressions)) >= 10.0 then
        var lift := Lift(jobs.avgImpressions, regular.avgImpressions);
        [if lift > 0.0 then JobsImpressionsLead(lift) else JobsImpressionsTrail(Abs(lift))]
      else []
  }

  /** The `items` of `insights` before the cut to three. */
  function InsightItems(video: BucketEntry, regular: BucketEntry, jobs: BucketEntry, totalPosts: nat): seq<Insight> {
    var comparisons := if video.count > 0 && regular.count > 0 then ImpressionInsights(video, regular) + RateInsights(video, regular) else [];
    var videoAdvice :=
      if video.count == 0 && totalPosts > 0 then [NoVideo]
      else if video.count > 0 && video.share < 20.0 then [LittleVideo]
      else [];
    var jobsNotes := if jobs.count > 0 then JobsInsights(jobs, regular) else [];
    var items := comparisons + videoAdvice + jobsNotes;
    if items == [] && totalPosts > 0 then [SolidMix] else items
  }

  /**
   * `insights` for the rows of the period, from the Video, Regular and Jobs
   * entries: at most three lines; none exactly when the period has no posts,
   * and a period with posts but no video starts with the advice to try video.
   */
  function Insights(rows: seq<Row>): (lines: seq<Insight>)
    ensures |lines| <= 3
    ensures lines == [] <==> rows == []
    ensures rows != [] && Tally(rows, Video).count == 0 ==> lines[0] == NoVideo
  {
    var e := BucketEntries(rows);
    assert e[0] == EntryOf(Video, Tally(rows, Video), |rows|);
    assert e[1] == EntryOf(Jobs, Tally(rows, Jobs), |rows|);
    assert e[4] == EntryOf(Regular, Tally(rows, Regular), |rows|);
    var items := InsightItems(e[0], e[4], e[1], |rows|);
    assert items == [] <==> rows == [];
    Take(items, 3)
  }

  /** Against a positive base, the lift is positive exactly when the value beats the base, and 5% or more means at least 1.05 times or at most 0.95 times the base. */
  lemma LiftMeaning(a: real, b: real, pct: real)
    requires b > 0.0 && pct >= 0.0
    ensures Lift(a, b) > 0.0 <==> a > b
    ensures Abs(Lift(a, b)) >= pct <==> a * 100.0 >= b * (100.0 + pct) || a * 100.0 <= b * (100.0 - pct)
  {
    var q := a / b;
    assert q * b == a;
    assert Lift(a, b) == (q - 1.0) * 100.0;
    assert a > b <==> q > 1.0 by {
      assert a - b == (q - 1.0) * b;
    }
    assert a * 100.0 - b * (100.0 + pct) == b * ((q - 1.0) * 100.0 - pct);
    assert a * 100.0 - b * (100.0 - pct) == b * ((q - 1.0) * 100.0 + pct);
  }

  /**
   * With video and regular posts, and regular posts averaging some
   * impressions, a lift of 5% or more leads the insights: video's lead when
   * its average is higher, regular posts' lead otherwise.
   */
  lemma ImpressionsInsightFirst(rows: seq<Row>)
    requires Tally(rows, Video).count > 0 && Tally(rows, Regular).count > 0
    requires BucketEntries(rows)[4].avgImpressions > 0.0
    requires Abs(Lift(BucketEntries(rows)[0].avgImpressions, BucketEntries(rows)[4].avgImpressions)) >= 5.0
    ensures var video, regular := BucketEntries(rows)[0], BucketEntries(rows)[4];
      var lift := Lift(video.avgImpressions, regular.avgImpressions);
      Insights(rows)[0] == if video.avgImpressions > regular.avgImpressions then VideoImpressionsLead(lift) else RegularImpressionsLead(Abs(lift))
  {
    var e := BucketEntries(rows);
    assert e[0] == EntryOf(Video, Tally(rows, Video), |rows|);
    assert e[4] == EntryOf(Regular, Tally(rows, Regular), |rows|);
    LiftMeaning(e[0].avgImpressions, e[4].avgImpressions, 5.0);
  }

  // ---------------------------------------------------------------------
  // topPostsByBucket

  datatype TopList = TopList(bucket: Category, posts: seq<Row>)

  /** `(a, b) => b.impressions - a.impressions`. */
  function ByImpressions(r: Row): Rank {
    Descending(r.impressions)
  }

  /** The five rows of bucket `b` with the most impressions, ties in input order. */
  function TopOf(rows: seq<Row>, b: Category): (top: TopList)
    ensures top.bucket == b && |top.posts| <= 5
  {
    TopList(b, Take(SortBy(Filter(rows, InBucket(b)), ByImpressions), 5))
  }

  predicate HasPosts(t: TopList) {
    t.posts != []
  }

  /** `topPostsByBucket`: the top lists of the buckets in `BUCKET_ORDER`, empty ones dropped. */
  function TopPostsByBucket(rows: seq<Row>): (lists: seq<TopList>)
    ensures |lists| <= |BucketOrder|
  {
    Filter(Map(BucketOrder, b => TopOf(rows, b)), HasPosts)
  }

  /** A top list holds at most five rows of its bucket, most impressions first, and is empty only for an empty bucket. */
  lemma TopOfFacts(rows: seq<Row>, b: Category)
    ensures var top := TopOf(rows, b).posts;
      |top| <= 5
      && multiset(top) <= multiset(rows)
      && (forall i :: 0 <= i < |top| ==> top[i] in rows && top[i].bucket == b)
      && (forall i, j :: 0 <= i < j < |top| ==> top[i].impressions >= top[j].impressions)
      && (top == [] <==> forall k :: 0 <= k < |rows| ==> rows[k].bucket != b)
  {
    var kept := Filter(rows, InBucket(b));
    FilterMembers(rows, InBucket(b));
    TopNShape(kept, ByImpressions, 5);
    var top := TopOf(rows, b).posts;
    forall i | 0 <= i < |top| ensures top[i] in rows && top[i].bucket == b {
      assert top[i] in multiset(kept);
    }
    forall i, j | 0 <= i < j < |top| ensures top[i].impressions >= top[j].impressions {
      assert Le(ByImpressions(top[i]), ByImpressions(top[j]));
    }
    if k :| 0 <= k < |rows| && rows[k].bucket == b {
      assert rows[k] in kept;
      assert |top| > 0;
    }
  }

  /** Nothing better is left out: a row of the bucket is listed, or five rows with at least its impressions are. */
  lemma TopOfIsTop(rows: seq<Row>, b: Category, k: nat)
    requires k < |rows| && rows[k].bucket == b
    ensures var top := TopOf(rows, b).posts;
      rows[k] in top || (|top| == 5 && forall i :: 0 <= i < |top| ==> top[i].impressions >= rows[k].impressions)
  {
    var kept := Filter(rows, InBucket(b));
    FilterMembers(rows, InBucket(b));
    TopNShape(kept, ByImpressions, 5);
    var q :| 0 <= q < |kept| && kept[q] == rows[k];
    TopNIsTop(kept, ByImpressions, 5, q);
    var top := TopOf(rows, b).posts;
    if rows[k] !in top {
      forall i | 0 <= i < |top| ensures top[i].impressions >= rows[k].impressions {
        assert Le(ByImpressions(top[i]), ByImpressions(kept[q]));
      }
    }
  }

  /** The bucket a top list belongs to. */
  function BucketOfList(t: TopList): Category {
    t.bucket
  }

  /** The buckets whose top list is not empty. */
  function HasTopIn(rows: seq<Row>): Category -> bool {
    b => TopOf(rows, b).posts != []
  }

  /** The lists follow `BUCKET_ORDER`: their buckets are the listed buckets with rows, in that order. */
  lemma TopPostsByBucketOrder(rows: seq<Row>)
    ensures Map(TopPostsByBucket(rows), BucketOfList) == Filter(BucketOrder, HasTopIn(rows))
  {
    MapFilterMap(BucketOrder, b => TopOf(rows, b), HasPosts, BucketOfList, HasTopIn(rows));
  }

  /**
   * None of the lists is empty, each is its bucket's top list, and every
   * bucket with rows has its list.
   */
  lemma TopPostsByBucketFacts(rows: seq<Row>)
    ensures var lists := TopPostsByBucket(rows);
      (forall i :: 0 <= i < |lists| ==> lists[i].posts != [] && lists[i] == TopOf(rows, lists[i].bucket) && lists[i].bucket in BucketOrder)
      && (forall k :: 0 <= k < |rows| && rows[k].bucket in BucketOrder ==> TopOf(rows, rows[k].bucket) in lists)
  {
    var f := b => TopOf(rows, b);
    var all := Map(BucketOrder, f);
    var lists := TopPostsByBucket(rows);
    FilterMembers(all, HasPosts);
    forall i | 0 <= i < |lists|
      ensures lists[i].posts != [] && lists[i] == TopOf(rows, lists[i].bucket) && lists[i].bucket in BucketOrder
    {
      var m :| 0 <= m < |all| && all[m] == lists[i];
      MapAt(BucketOrder, f, m);
    }
    forall k | 0 <= k < |rows| && rows[k].bucket in BucketOrder ensures TopOf(rows, rows[k].bucket) in lists {
      var b := rows[k].bucket;
      var m :| 0 <= m < |BucketOrder| && BucketOrder[m] == b;
      MapAt(BucketOrder, f, m);
      TopOfFacts(rows, b);
    }
  }
}
