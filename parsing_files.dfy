/**
 * The routing loop of `parseFiles`: every usable sheet of every workbook is
 * read, classified, and its records appended to the posts or the daily
 * metrics, in order. Reading the files and workbooks is outside the model:
 * a workbook arrives as its sheets' cell grids in sheet-name order.
 */
module ParsingFiles {
  import opened JsObject
  import opened Seqs
  import opened ParsingSheets
  import opened ParsingRecords

  type Workbook = seq<Grid>

  /** Sheets without headers or without data rows are skipped. */
  predicate Usable(s: SheetRows) {
    s.headers != [] && s.data != []
  }

  /** The posts one sheet contributes. */
  function SheetPosts(g: Grid): seq<Post> {
    var s := ReadSheet(g);
    if Usable(s) && ClassifySheet(s.headers) == PostsSheet then Map(s.data, NormalizePost) else []
  }

  /** The daily metrics one sheet contributes. */
  function SheetDaily(g: Grid): seq<Daily> {
    var s := ReadSheet(g);
    if Usable(s) && ClassifySheet(s.headers) == DailySheet then Map(s.data, NormalizeDaily) else []
  }

  function WorkbookPosts(sheets: Workbook): seq<Post> {
    ConcatMap(sheets, SheetPosts)
  }

  function WorkbookDaily(sheets: Workbook): seq<Daily> {
    ConcatMap(sheets, SheetDaily)
  }

  /** The posts of all files, file by file and sheet by sheet. */
  function AllPosts(files: seq<Workbook>): seq<Post> {
    ConcatMap(files, WorkbookPosts)
  }

  /** The daily metrics of all files, file by file and sheet by sheet. */
  function AllDaily(files: seq<Workbook>): seq<Daily> {
    ConcatMap(files, WorkbookDaily)
  }

  /** `for (const rec of data) posts.push(normalizePost(rec))`. */
  method PushPosts(posts: seq<Post>, data: seq<Record>) returns (posts': seq<Post>)
    ensures posts' == posts + Map(data, NormalizePost)
  {
    posts' := posts;
    for r := 0 to |data|
      invariant posts' == posts + Map(data[..r], NormalizePost)
    {
      MapSnoc(data, NormalizePost, r);
      AppendAssoc(posts, Map(data[..r], NormalizePost), [NormalizePost(data[r])]);
      posts' := posts' + [NormalizePost(data[r])];
    }
    assert data[..|data|] == data;
  }

  /** `for (const rec of data) daily.push(normalizeDaily(rec))`. */
  method PushDaily(daily: seq<Daily>, data: seq<Record>) returns (daily': seq<Daily>)
    ensures daily' == daily + Map(data, NormalizeDaily)
  {
    daily' := daily;
    for r := 0 to |data|
      invariant daily' == daily + Map(data[..r], NormalizeDaily)
    {
      MapSnoc(data, NormalizeDaily, r);
      AppendAssoc(daily, Map(data[..r], NormalizeDaily), [NormalizeDaily(data[r])]);
      daily' := daily' + [NormalizeDaily(data[r])];
    }
    assert data[..|data|] == data;
  }

  /** What a sheet contributes, in terms of what `sheetToRows` returned for it. */
  lemma SheetContribution(g: Grid, headers: seq<string>, data: seq<Record>)
    requires SheetRows(headers, data) == ReadSheet(g)
    ensures SheetPosts(g) == if headers != [] && data != [] && ClassifySheet(headers) == PostsSheet then Map(data, NormalizePost) else []
    ensures SheetDaily(g) == if headers != [] && data != [] && ClassifySheet(headers) == DailySheet then Map(data, NormalizeDaily) else []
  {
  }

  /** No sheet of the workbook makes `sheetToRows` throw. */
  predicate WorkbookReads(sheets: Workbook) {
    forall i :: 0 <= i < |sheets| ==> !SheetThrows(sheets[i])
  }

  /** No sheet of any file makes `sheetToRows` throw. */
  predicate FilesRead(files: seq<Workbook>) {
    forall f :: 0 <= f < |files| ==> WorkbookReads(files[f])
  }

  /** The sheets before `w + 1` read when those before `w` do and sheet `w` does. */
  lemma ReadsThrough(sheets: Workbook, w: nat)
    requires w < |sheets|
    requires forall i :: 0 <= i < w ==> !SheetThrows(sheets[i])
    requires !SheetThrows(sheets[w])
    ensures forall i :: 0 <= i < w + 1 ==> !SheetThrows(sheets[i])
  {
  }

  /** The files before `f + 1` read when those before `f` do and file `f` does. */
  lemma FilesReadThrough(files: seq<Workbook>, f: nat)
    requires f < |files|
    requires forall i :: 0 <= i < f ==> WorkbookReads(files[i])
    requires WorkbookReads(files[f])
    ensures forall i :: 0 <= i < f + 1 ==> WorkbookReads(files[i])
  {
  }

  /** What the promise of `parseFiles` settles to: the two lists, or a rejection with the `TypeError` of a sheet. */
  datatype Upload = Parsed(posts: seq<Post>, daily: seq<Daily>) | Rejected

  /**
   * One pass of `parseFiles`' sheet loop: read the sheet, skip it if unusable, else push its
   * records to the list of its kind. `ok` is false when reading the sheet throws, and the lists
   * are then of no further use.
   */
  method RouteSheet(g: Grid, posts: seq<Post>, daily: seq<Daily>) returns (ok: bool, posts': seq<Post>, daily': seq<Daily>)
    ensures ok == !SheetThrows(g)
    ensures ok ==> posts' == posts + SheetPosts(g) && daily' == daily + SheetDaily(g)
  {
    posts', daily' := posts, daily;
    var r := SheetToRows(g);
    if r.ThrowsTypeError? {
      return false, posts', daily';
    }
    ok := true;
    var headers, data := r.value.headers, r.value.data;
    SheetContribution(g, headers, data);
    if |headers| == 0 || |data| == 0 {
      assert posts + [] == posts && daily + [] == daily;
      return;
    }
    var kind := ClassifySheet(headers);
    if kind == PostsSheet {
      assert daily + [] == daily;
      posts' := PushPosts(posts, data);
    } else {
      assert posts + [] == posts;
      daily' := PushDaily(daily, data);
    }
  }

  /** `parseFiles`' loop over the sheets of one workbook, left at the first sheet that throws. */
  method RouteWorkbook(sheets: Workbook, posts: seq<Post>, daily: seq<Daily>) returns (ok: bool, posts': seq<Post>, daily': seq<Daily>)
    ensures ok == WorkbookReads(sheets)
    ensures ok ==> posts' == posts + WorkbookPosts(sheets) && daily' == daily + WorkbookDaily(sheets)
  {
    posts', daily' := posts, daily;
    for w := 0 to |sheets|
      invariant forall i :: 0 <= i < w ==> !SheetThrows(sheets[i])
      invariant posts' == posts + ConcatMap(sheets[..w], SheetPosts)
      invariant daily' == daily + ConcatMap(sheets[..w], SheetDaily)
    {
      var read;
      read, posts', daily' := RouteSheet(sheets[w], posts', daily');
      if !read {
        return false, posts', daily';
      }
      ReadsThrough(sheets, w);
      ConcatMapSnoc(sheets, SheetPosts, w);
      ConcatMapSnoc(sheets, SheetDaily, w);
      AppendAssoc(posts, ConcatMap(sheets[..w], SheetPosts), SheetPosts(sheets[w]));
      AppendAssoc(daily, ConcatMap(sheets[..w], SheetDaily), SheetDaily(sheets[w]));
    }
    assert sheets[..|sheets|] == sheets;
    ok := true;
  }

  /**
   * `parseFiles`: route every record of every usable sheet to the posts or the daily metrics.
   * There is no `catch`, so a sheet whose reading throws rejects the whole upload.
   */
  method ParseFiles(files: seq<Workbook>) returns (upload: Upload)
    ensures upload == if FilesRead(files) then Parsed(AllPosts(files), AllDaily(files)) else Rejected
  {
    var posts, daily := [], [];
    for f := 0 to |files|
      invariant forall i :: 0 <= i < f ==> WorkbookReads(files[i])
      invariant posts == ConcatMap(files[..f], WorkbookPosts)
      invariant daily == ConcatMap(files[..f], WorkbookDaily)
    {
      var read;
      read, posts, daily := RouteWorkbook(files[f], posts, daily);
      if !read {
        return Rejected;
      }
      FilesReadThrough(files, f);
      ConcatMapSnoc(files, WorkbookPosts, f);
      ConcatMapSnoc(files, WorkbookDaily, f);
    }
    assert files[..|files|] == files;
    upload := Parsed(posts, daily);
  }

  /** Uploading two batches of files together gives the results of each batch, one after the other. */
  lemma AllPostsAppend(a: seq<Workbook>, b: seq<Workbook>)
    ensures AllPosts(a + b) == AllPosts(a) + AllPosts(b)
    ensures AllDaily(a + b) == AllDaily(a) + AllDaily(b)
  {
    ConcatMapAppend(a, b, WorkbookPosts);
    ConcatMapAppend(a, b, WorkbookDaily);
  }

  /** A sheet feeds exactly one of the two lists, with one entry per record, or neither when it is skipped. */
  lemma SheetRouting(g: Grid)
    ensures var s := ReadSheet(g);
      if !Usable(s) then SheetPosts(g) == [] && SheetDaily(g) == []
      else if ClassifySheet(s.headers) == PostsSheet then |SheetPosts(g)| == |s.data| && SheetDaily(g) == []
      else SheetPosts(g) == [] && |SheetDaily(g)| == |s.data|
  {
  }

  /** The post of record `i` of a posts sheet is that record normalised. */
  lemma SheetPostAt(g: Grid, i: nat)
    requires Usable(ReadSheet(g)) && ClassifySheet(ReadSheet(g).headers) == PostsSheet
    requires i < |ReadSheet(g).data|
    ensures i < |SheetPosts(g)| && SheetPosts(g)[i] == NormalizePost(ReadSheet(g).data[i])
  {
    MapAt(ReadSheet(g).data, NormalizePost, i);
  }

  /** The records of the usable sheets of a workbook. */
  function WorkbookRecords(sheets: Workbook): nat {
    if sheets == [] then 0
    else
      var s := ReadSheet(sheets[|sheets| - 1]);
      WorkbookRecords(sheets[..|sheets| - 1]) + if Usable(s) then |s.data| else 0
  }

  /** No record is lost or duplicated: the two lists together hold one entry per record of a usable sheet. */
  lemma {:induction false} WorkbookCounts(sheets: Workbook)
    ensures |WorkbookPosts(sheets)| + |WorkbookDaily(sheets)| == WorkbookRecords(sheets)
  {
    if sheets != [] {
      var init := sheets[..|sheets| - 1];
      WorkbookCounts(init);
      ConcatMapSnoc(sheets, SheetPosts, |sheets| - 1);
      ConcatMapSnoc(sheets, SheetDaily, |sheets| - 1);
      assert sheets[..|sheets| - 1 + 1] == sheets;
      SheetRouting(sheets[|sheets| - 1]);
    }
  }
}
