/**
 * Header detection and row records during upload (`scoreHeaders`,
 * `sheetToRows`, `classifySheet`). A sheet arrives as the grid of raw cells
 * the spreadsheet reader produces, one sequence of cells per row. The reader
 * leaves a blank cell out of its row array, a hole that reads as
 * `undefined`; in a grid here that is a `Nil` cell. The reader never ends a
 * row with a blank cell.
 */
module ParsingSheets {
  import opened Js
  import opened Seqs
  import opened JsObject
  import opened ParsingHeaders

  /** The keywords that mark a per-post export. */
  const KnownPostHeaders: seq<string> := [
    "post title", "post link", "post type", "posted by", "created date",
    "impressions", "likes", "comments", "reposts", "engagement rate", "content type"
  ]

  /** The keywords that mark a per-day export. */
  const KnownDailyHeaders: seq<string> := [
    "date", "impressions", "clicks", "reactions", "comments", "shares", "video views", "engagement rate"
  ]

  type Row = seq<Value>
  type Grid = seq<Row>

  /** The distinct normalised names of a row (`new Set(headers.map(normalizeHeader))`). */
  function HeaderSet(row: Row): set<string> {
    set i | 0 <= i < |row| :: NormalizeHeader(row[i])
  }

  /** The value `scoreHeaders(row, known)` computes: how many entries of `known` are header names. */
  function HeaderScore(row: Row, known: seq<string>): nat {
    CountIn(known, HeaderSet(row))
  }

  /** `scoreHeaders`: one point per known keyword that some header normalises to. */
  method ScoreHeaders(row: Row, known: seq<string>) returns (score: nat)
    ensures score == HeaderScore(row, known)
    ensures score <= |known|
  {
    var names := HeaderSet(row);
    score := 0;
    for i := 0 to |known|
      invariant score == CountIn(known[..i], names)
    {
      assert known[..i + 1][..i] == known[..i];
      if known[i] in names {
        score := score + 1;
      }
    }
    assert known[..|known|] == known;
  }

  /** The score depends only on which values the row holds: not on their order, nor on repeated headers. */
  lemma ScoreIgnoresOrderAndRepeats(r1: Row, r2: Row, known: seq<string>)
    requires forall v :: v in r1 <==> v in r2
    ensures HeaderScore(r1, known) == HeaderScore(r2, known)
  {
    assert HeaderSet(r1) == HeaderSet(r2) by {
      forall x | x in HeaderSet(r1) ensures x in HeaderSet(r2) {
        var i :| 0 <= i < |r1| && NormalizeHeader(r1[i]) == x;
        assert r1[i] in r2;
        var j :| 0 <= j < |r2| && r2[j] == r1[i];
      }
      forall x | x in HeaderSet(r2) ensures x in HeaderSet(r1) {
        var j :| 0 <= j < |r2| && NormalizeHeader(r2[j]) == x;
        assert r2[j] in r1;
        var i :| 0 <= i < |r1| && r1[i] == r2[j];
      }
    }
  }

  function Max(a: int, b: int): int {
    if a > b then a else b
  }

  /** The score that ranks candidate header rows. */
  function RowScore(row: Row): int {
    Max(HeaderScore(row, KnownPostHeaders), HeaderScore(row, KnownDailyHeaders))
  }

  /** The header row among the first `k` rows: the first row with the greatest score. */
  function BestRow(rows: Grid, k: nat): (b: nat)
    requires 0 < k <= |rows|
  {
    FirstMax(rows, RowScore, k)
  }

  /** When no candidate row scores, the first row is the header row. */
  lemma NoScoreMeansFirstRow(rows: Grid, k: nat)
    requires 0 < k <= |rows|
    requires forall j :: 0 <= j < k ==> RowScore(rows[j]) == 0
    ensures BestRow(rows, k) == 0
  {
    FirstMaxIsFirstGreatest(rows, RowScore, k);
    var b := BestRow(rows, k);
    assert RowScore(rows[0]) == 0 && RowScore(rows[b]) == 0;
  }

  function Entries(headers: seq<string>, row: Row): (entries: seq<(string, Value)>)
    ensures |entries| == |headers|
  {
    seq(|headers|, i requires 0 <= i < |headers| => (headers[i], if i < |row| then row[i] else Nil))
  }

  /** `Object.fromEntries(headers.map((h, i) => [h, r[i]]))`. */
  function RowRecord(headers: seq<string>, row: Row): (r: Record)
    ensures Valid(r)
  {
    FromEntries(Entries(headers, row))
  }

  /** A record has exactly the header names as keys, in first-occurrence order, whatever the row's length. */
  lemma RowRecordKeys(headers: seq<string>, row: Row)
    ensures RowRecord(headers, row).keys == FirstOccurrences(headers)
    ensures forall k :: Has(RowRecord(headers, row), k) <==> k in headers
  {
    assert Names(Entries(headers, row)) == headers;
    FromEntriesKeys(Entries(headers, row));
  }

  /**
   * The field of header `i` holds cell `i`, or `undefined` past the row's
   * end; of several columns with one name, the last decides.
   */
  lemma RowRecordCell(headers: seq<string>, row: Row, i: nat)
    requires i < |headers|
    requires forall j :: i < j < |headers| ==> headers[j] != headers[i]
    ensures Get(RowRecord(headers, row), headers[i]) == if i < |row| then row[i] else Nil
  {
    var entries := Entries(headers, row);
    assert IsLastFor(entries, i);
    FromEntriesLastWins(entries, i);
  }

  /** One record per row, in order. */
  function RowRecords(headers: seq<string>, rows: Grid): (data: seq<Record>)
    ensures |data| == |rows|
  {
    if rows == [] then [] else RowRecords(headers, rows[..|rows| - 1]) + [RowRecord(headers, rows[|rows| - 1])]
  }

  lemma {:induction false} RowRecordsAt(headers: seq<string>, rows: Grid, j: nat)
    requires j < |rows|
    ensures RowRecords(headers, rows)[j] == RowRecord(headers, rows[j])
  {
    if j < |rows| - 1 {
      RowRecordsAt(headers, rows[..|rows| - 1], j);
    }
  }

  /**
   * `headers.map(normalizeHeader)`. A blank cell stays a hole in the
   * JavaScript array and is named "" here; the names are only used when the
   * header row has no hole or the sheet has no data rows (`SheetThrows`).
   */
  function NormalizeRow(row: Row): (names: seq<string>)
    ensures |names| == |row|
    ensures forall i :: 0 <= i < |row| ==> names[i] == NormalizeHeader(row[i])
  {
    seq(|row|, i requires 0 <= i < |row| => NormalizeHeader(row[i]))
  }

  /** What `sheetToRows` returns: the normalised header names and one record per later row. */
  datatype SheetRows = SheetRows(headers: seq<string>, data: seq<Record>)

  function HeaderSearchLimit(rows: Grid): nat {
    if |rows| < 10 then |rows| else 10
  }

  /** The value of `sheetToRows(grid)` when it returns rather than throws (`SheetThrows`). */
  function ReadSheet(rows: Grid): (r: SheetRows)
    ensures rows == [] ==> r == SheetRows([], [])
    ensures rows != [] ==>
      var b := BestRow(rows, HeaderSearchLimit(rows));
      b < 10 && |r.headers| == |rows[b]| && |r.data| == |rows| - b - 1
      && r.headers == NormalizeRow(rows[b]) && r.data == RowRecords(r.headers, rows[b + 1..])
  {
    if rows == [] then SheetRows([], [])
    else
      var b := BestRow(rows, HeaderSearchLimit(rows));
      var headers := NormalizeRow(rows[b]);
      SheetRows(headers, RowRecords(headers, rows[b + 1..]))
  }

  /**
   * Whether `sheetToRows(grid)` throws a `TypeError`: a blank cell of the
   * header row stays a hole in `headers.map((h, i) => [h, r[i]])`, and
   * `Object.fromEntries` rejects the hole as an entry as soon as there is a
   * data row to build a record for.
   */
  predicate SheetThrows(rows: Grid) {
    rows != [] &&
    var b := BestRow(rows, HeaderSearchLimit(rows));
    HasHole(rows[b]) && b + 1 < |rows|
  }

  /** Some cell of the row is blank. */
  predicate HasHole(row: Row) {
    exists j :: 0 <= j < |row| && row[j] == Nil
  }

  /** What a call of `sheetToRows` ends with: its value, or the `TypeError` it throws. */
  datatype SheetOutcome = Returns(value: SheetRows) | ThrowsTypeError

  /** The header search of `sheetToRows`: the first of the first ten rows with the greatest score. */
  method FindHeaderRow(rows: Grid) returns (bestIdx: nat)
    requires rows != []
    ensures bestIdx == BestRow(rows, HeaderSearchLimit(rows))
  {
    bestIdx := 0;
    var bestScore := -1;
    var limit := if |rows| < 10 then |rows| else 10;
    for i := 0 to limit
      invariant i == 0 ==> bestIdx == 0 && bestScore == -1
      invariant i > 0 ==> bestIdx == FirstMax(rows, RowScore, i) && bestScore == RowScore(rows[bestIdx])
    {
      var postScore := ScoreHeaders(rows[i], KnownPostHeaders);
      var dailyScore := ScoreHeaders(rows[i], KnownDailyHeaders);
      var score := Max(postScore, dailyScore);
      if score > bestScore {
        bestScore := score;
        bestIdx := i;
      }
    }
  }

  /**
   * `sheetToRows`: search the first ten rows for the best header row, then
   * turn every later row into a record; the first record throws when the
   * header row has a blank cell.
   */
  method SheetToRows(rows: Grid) returns (r: SheetOutcome)
    ensures r == if SheetThrows(rows) then ThrowsTypeError else Returns(ReadSheet(rows))
  {
    if |rows| == 0 {
      return Returns(SheetRows([], []));
    }
    var bestIdx := FindHeaderRow(rows);
    var headers := NormalizeRow(rows[bestIdx]);
    var dataRows := rows[bestIdx + 1..];
    if |dataRows| > 0 && Nil in rows[bestIdx] {
      return ThrowsTypeError;
    }
    r := Returns(SheetRows(headers, RowRecords(headers, dataRows)));
  }

  /**
   * A header row with a blank cell between "Post title" and "Impressions",
   * over a blank data row (the reader keeps blank rows as empty arrays): the
   * header search picks the first row, and the sheet throws.
   */
  lemma HeaderHoleThrows()
    ensures SheetThrows([[Str("Post title"), Nil, Str("Impressions")], []])
  {
    var rows: Grid := [[Str("Post title"), Nil, Str("Impressions")], []];
    assert HeaderSet(rows[1]) == {};
    CountInNone(KnownPostHeaders);
    CountInNone(KnownDailyHeaders);
    assert BestRow(rows, HeaderSearchLimit(rows)) == 0;
    assert rows[0][1] == Nil;
  }

  /** Each record of a sheet comes from the row at the same distance below the header row. */
  lemma ReadSheetRecords(rows: Grid, j: nat)
    requires rows != []
    requires j < |ReadSheet(rows).data|
    ensures var b := BestRow(rows, HeaderSearchLimit(rows));
      ReadSheet(rows).data[j] == RowRecord(ReadSheet(rows).headers, rows[b + 1 + j])
  {
    var b := BestRow(rows, HeaderSearchLimit(rows));
    var headers := NormalizeRow(rows[b]);
    assert ReadSheet(rows) == SheetRows(headers, RowRecords(headers, rows[b + 1..]));
    RowRecordsAt(headers, rows[b + 1..], j);
  }

  datatype SheetKind = PostsSheet | DailySheet

  /** Header names as the cells `scoreHeaders` receives from `classifySheet`. */
  function AsCells(headers: seq<string>): (row: Row)
    ensures |row| == |headers|
  {
    seq(|headers|, i requires 0 <= i < |headers| => Str(headers[i]))
  }

  /** `classifySheet`: a per-post export unless the per-day keywords score strictly higher. */
  function ClassifySheet(headers: seq<string>): (kind: SheetKind)
    ensures kind == PostsSheet <==>
      HeaderScore(AsCells(headers), KnownPostHeaders) >= HeaderScore(AsCells(headers), KnownDailyHeaders)
  {
    var postScore := HeaderScore(AsCells(headers), KnownPostHeaders);
    var dailyScore := HeaderScore(AsCells(headers), KnownDailyHeaders);
    if postScore >= dailyScore then PostsSheet else DailySheet
  }

  lemma KnownHeadersDistinct()
    ensures Distinct(KnownPostHeaders) && Distinct(KnownDailyHeaders)
  {
  }

  /**
   * The sheet kind compares how many distinct keywords of each list the
   * headers contain; a sheet matching neither list counts as posts.
   */
  lemma ClassifyByOverlap(headers: seq<string>)
    ensures var names := HeaderSet(AsCells(headers));
      ClassifySheet(headers) == PostsSheet <==>
        |Elements(KnownPostHeaders) * names| >= |Elements(KnownDailyHeaders) * names|
  {
    KnownHeadersDistinct();
    CountInIsOverlap(KnownPostHeaders, HeaderSet(AsCells(headers)));
    CountInIsOverlap(KnownDailyHeaders, HeaderSet(AsCells(headers)));
  }
}
