/**
 * Content classification of a stored post (`deriveContentType`): an explicit
 * content-type column wins, then a column mentioning video, then posts
 * without text are Regular, and otherwise Funding, Jobs and Newsletter
 * compete on how often their phrase patterns match.
 */
module ContentClassification {
  import opened Text
  import opened Js
  import opened JsObject
  import opened Seqs
  import opened Sorting
  import opened Patterns

  datatype Category = Video | Jobs | Funding | Newsletter | Regular | Uncategorized

  function CategoryName(c: Category): string {
    match c
    case Video => "Video"
    case Jobs => "Jobs"
    case Funding => "Funding"
    case Newsletter => "Newsletter"
    case Regular => "Regular"
    case Uncategorized => "Uncategorized"
  }

  /**
   * `EXPLICIT_TYPE_MAP.get(column)`: defined on the map's eight keys only,
   * never Uncategorized, and Video for "video" alone.
   */
  function ExplicitType(column: string): (r: Option<Category>)
    ensures r.Some? <==> column in {"video", "jobs", "job", "hiring", "funding", "investment", "newsletter", "regular"}
    ensures r != Some(Uncategorized)
    ensures r == Some(Video) <==> column == "video"
  {
    if column == "video" then Some(Video)
    else if column == "jobs" || column == "job" || column == "hiring" then Some(Jobs)
    else if column == "funding" || column == "investment" then Some(Funding)
    else if column == "newsletter" then Some(Newsletter)
    else if column == "regular" then Some(Regular)
    else None
  }

  /** `normalizeString(value)`: trimmed and lower-cased strings; anything else is "". */
  function NormalizeString(v: Value): (r: string)
    ensures v.Str? ==> r == Lower(Trim(v.s))
    ensures !v.Str? ==> r == ""
  {
    if v.Str? then Lower(Trim(v.s)) else ""
  }

  lemma NormalizeStringShape(v: Value)
    ensures NoUpperCase(NormalizeString(v))
    ensures |NormalizeString(v)| <= (if v.Str? then |v.s| else 0)
  {
  }

  // ---------------------------------------------------------------------
  // collectText

  const TextFields: seq<string> := ["title", "summary", "description", "content", "text", "body", "caption"]

  /** The trimmed value of field `f` when it is a string with something besides white-space. */
  function TextPart(post: Record, f: string): Option<string> {
    var v := Get(post, f);
    if v.Str? && Trim(v.s) != "" then Some(Trim(v.s)) else None
  }

  function TextParts(post: Record, fields: seq<string>): (parts: seq<string>)
    ensures |parts| <= |fields|
  {
    if fields == [] then []
    else
      var rest := TextParts(post, fields[..|fields| - 1]);
      var part := TextPart(post, fields[|fields| - 1]);
      if part.Some? then rest + [part.value] else rest
  }

  /** Every part has text. */
  lemma {:induction false} TextPartsNonBlank(post: Record, fields: seq<string>)
    ensures forall i :: 0 <= i < |TextParts(post, fields)| ==> TextParts(post, fields)[i] != ""
  {
    if fields != [] {
      TextPartsNonBlank(post, fields[..|fields| - 1]);
    }
  }

  /** There is no part exactly when no field has text. */
  lemma {:induction false} TextPartsNone(post: Record, fields: seq<string>)
    ensures TextParts(post, fields) == [] <==> forall i :: 0 <= i < |fields| ==> TextPart(post, fields[i]).None?
  {
    if fields != [] {
      var init := fields[..|fields| - 1];
      TextPartsNone(post, init);
      if TextPart(post, fields[|fields| - 1]).None? {
        assert TextParts(post, fields) == TextParts(post, init);
        if TextParts(post, fields) == [] {
          forall i | 0 <= i < |fields| ensures TextPart(post, fields[i]).None? {
            if i < |init| {
              assert init[i] == fields[i] && TextPart(post, init[i]).None?;
            } else {
              assert i == |fields| - 1;
            }
          }
        }
      }
    }
  }

  /** The `raw` text `collectText` returns: the parts joined by single spaces. */
  function CollectedRaw(post: Option<Record>): string {
    if post.None? then "" else Join(TextParts(post.value, TextFields), " ")
  }

  lemma JoinedPartsEmpty(post: Record, fields: seq<string>)
    ensures Join(TextParts(post, fields), " ") == "" <==>
      forall i :: 0 <= i < |fields| ==> TextPart(post, fields[i]).None?
  {
    TextPartsNone(post, fields);
    TextPartsNonBlank(post, fields);
    JoinEmpty(TextParts(post, fields), " ");
  }

  /** A post has text exactly when one of its text fields is a string that is not blank. */
  lemma CollectedRawEmpty(post: Option<Record>)
    ensures CollectedRaw(post) == "" <==>
      post.None? || forall i :: 0 <= i < |TextFields| ==> TextPart(post.value, TextFields[i]).None?
  {
    if post.Some? {
      JoinedPartsEmpty(post.value, TextFields);
    }
  }

  /** The loop of `collectText`: the trimmed value of each field that has text, in order. */
  method CollectParts(post: Record, fields: seq<string>) returns (parts: seq<string>)
    ensures parts == TextParts(post, fields)
  {
    parts := [];
    for i := 0 to |fields|
      invariant parts == TextParts(post, fields[..i])
    {
      assert fields[..i + 1][..i] == fields[..i];
      var value := Get(post, fields[i]);
      if value.Str? && Trim(value.s) != "" {
        parts := parts + [Trim(value.s)];
      }
    }
    assert fields[..|fields|] == fields;
  }

  /** `collectText(post)`: the trimmed text fields in a fixed order, joined, and their lower-case form. */
  method CollectText(post: Option<Record>) returns (normalized: string, raw: string)
    ensures raw == CollectedRaw(post)
    ensures normalized == Lower(raw)
  {
    if post.None? {
      return "", "";
    }
    var parts := CollectParts(post.value, TextFields);
    raw := Join(parts, " ");
    normalized := Lower(raw);
  }

  // ---------------------------------------------------------------------
  // The phrase patterns

  const JobStrongPatterns: seq<Regex> := [
    Regex("\\bwe'?re hiring\\b", ""), Regex("\\bnow hiring\\b", ""), Regex("\\bhiring now\\b", ""),
    Regex("\\bhiring alert\\b", ""), Regex("\\bhiring for\\b", ""), Regex("\\bopen roles?\\b", ""),
    Regex("\\bopen positions?\\b", ""), Regex("\\bcareer opportunit(?:y|ies)\\b", ""),
    Regex("\\bjoin our team\\b", ""), Regex("\\bapply now\\b", ""), Regex("\\baccepting applications\\b", ""),
    Regex("\\brole available\\b", ""), Regex("\\bjob openings?\\b", ""), Regex("\\broles posted\\b", "")
  ]

  const JobWeakPatterns: seq<Regex> := [
    Regex("\\bhiring\\b", ""), Regex("\\bjobs\\b", ""), Regex("\\bhiring list\\b", ""), Regex("\\bhiring roundup\\b", "")
  ]

  const FundingPatterns: seq<Regex> := [
    Regex("\\bfunding\\b", ""), Regex("\\brais(?:e|ed|es)\\b", ""), Regex("\\bseries [a-z]\\b", ""),
    Regex("\\bpre-?seed\\b", ""), Regex("\\bseed round\\b", ""), Regex("\\bventure capital\\b", ""),
    Regex("\\bvc\\b", ""), Regex("\\binvestment\\b", ""), Regex("\\bround\\b", ""), Regex("\\bvaluation\\b", ""),
    Regex("\\bipo\\b", ""), Regex("\\bacquisition\\b", ""), Regex("\\bmerger\\b", ""),
    Regex("\\bdebt facility\\b", ""), Regex("\\blead investor\\b", ""), Regex("\\bpending close\\b", ""),
    Regex("\\bstrategic investment\\b", ""), Regex("\\bterm sheet\\b", "")
  ]

  const FundingCurrency := Regex("\\b(?:\\$|usd|us\\$|eur|€|gbp|£)\\s?\\d[\\d,]*(?:\\.\\d+)?\\b", "")

  const NewsletterPatterns: seq<Regex> := [Regex("\\bnew issue is live\\b", ""), Regex("\\bnewsletter\\b", "")]

  /**
   * `scoreFunding(text)`: the funding phrases, plus one point when any
   * currency amount occurs; 0 exactly when the text is empty or nothing
   * matches.
   */
  function ScoreFunding(m: Matcher, text: string): (r: nat)
    ensures text == "" ==> r == 0
    ensures r == 0 <==> (text == "" ||
      (!Test(m, FundingCurrency, text) && forall i :: 0 <= i < |FundingPatterns| ==> CountPatternMatches(m, text, FundingPatterns[i]) == 0))
  {
    if text == "" then 0
    else
      ScoreZeroIffNoMatch(m, text, FundingPatterns);
      ScorePatterns(m, text, FundingPatterns) + (if Test(m, FundingCurrency, text) then 1 else 0)
  }

  /** However many currency amounts a text holds, they add exactly one point. */
  lemma CurrencyCountsOnce(m: Matcher, text: string)
    requires text != ""
    ensures ScoreFunding(m, text) - ScorePatterns(m, text, FundingPatterns) ==
      if m(Global(FundingCurrency), text) > 0 then 1 else 0
  {
  }

  // ---------------------------------------------------------------------
  // detectCompanyList

  /** `text.split(/\r?\n/)`: the pieces between line breaks, a `\r` before a break dropped. */
  function Lines(s: string): (lines: seq<string>)
    ensures |lines| >= 1
    ensures forall k :: 0 <= k < |lines| ==> '\n' !in lines[k]
    decreases |s|
  {
    var i := RunEnd(s, 0, NotNewline);
    if i == |s| then [s] else [DropReturn(s[..i])] + Lines(s[i + 1..])
  }

  predicate NotNewline(c: char) {
    c != '\n'
  }

  function DropReturn(p: string): (q: string)
    ensures q == p || q + "\r" == p
  {
    if p != [] && p[|p| - 1] == '\r' then p[..|p| - 1] else p
  }

  /** `s` with every `\r` that comes just before a `\n` removed. */
  function CrLfToLf(s: string): string
    decreases |s|
  {
    if s == [] then []
    else if s[0] == '\r' && |s| >= 2 && s[1] == '\n' then CrLfToLf(s[1..])
    else [s[0]] + CrLfToLf(s[1..])
  }

  /** A text without line breaks has no `\r\n` to turn. */
  lemma {:induction false} CrLfToLfWithoutBreak(p: string)
    requires '\n' !in p
    ensures CrLfToLf(p) == p
  {
    if p != [] {
      CrLfToLfWithoutBreak(p[1..]);
    }
  }

  /** A line followed by a break: its `\r`, if any, goes with the break. */
  lemma {:induction false} CrLfToLfOfLine(p: string, rest: string)
    requires '\n' !in p
    ensures CrLfToLf(p + "\n" + rest) == DropReturn(p) + "\n" + CrLfToLf(rest)
  {
    var s := p + "\n" + rest;
    if p == [] {
      assert s == "\n" + rest;
      CrLfToLfOfBreak(rest);
    } else if |p| == 1 && p[0] == '\r' {
      assert p == "\r" && s == "\r\n" + rest;
      CrLfToLfOfReturn(rest);
    } else {
      assert '\n' !in p[1..] by {
        forall k | 0 <= k < |p| - 1 ensures p[1..][k] != '\n' {
          assert p[1..][k] == p[k + 1] && p[k + 1] in p;
        }
      }
      assert |p| >= 2 ==> p[1] != '\n' by {
        if |p| >= 2 { assert p[1] in p; }
      }
      CrLfToLfOfLine(p[1..], rest);
      CrLfToLfOfLineStep(p, rest);
      assert CrLfToLf(s) == DropReturn(p) + "\n" + CrLfToLf(rest);
    }
  }

  /** A leading line break is kept as it is. */
  lemma CrLfToLfOfBreak(rest: string)
    ensures CrLfToLf("\n" + rest) == "\n" + CrLfToLf(rest)
  {
    assert ("\n" + rest)[1..] == rest;
  }

  /** The `\r` of a leading `\r\n` is dropped. */
  lemma CrLfToLfOfReturn(rest: string)
    ensures CrLfToLf("\r\n" + rest) == "\n" + CrLfToLf(rest)
  {
    assert ("\r\n" + rest)[1..] == "\n" + rest;
    CrLfToLfOfBreak(rest);
  }

  /** One step of `CrLfToLfOfLine`: a first character that is not the `\r` of a `\r\n` is kept. */
  lemma CrLfToLfOfLineStep(p: string, rest: string)
    requires p != [] && !(|p| == 1 && p[0] == '\r') && (|p| >= 2 ==> p[1] != '\n')
    requires CrLfToLf(p[1..] + "\n" + rest) == DropReturn(p[1..]) + "\n" + CrLfToLf(rest)
    ensures CrLfToLf(p + "\n" + rest) == DropReturn(p) + "\n" + CrLfToLf(rest)
  {
    var a, c := DropReturn(p[1..]), CrLfToLf(rest);
    calc {
      CrLfToLf(p + "\n" + rest);
    == { FirstOfLineKept(p, rest); }
      [p[0]] + (a + "\n" + c);
    == { ConsAssoc(p[0], a, "\n", c); }
      ([p[0]] + a) + "\n" + c;
    == { DropReturnCons(p); }
      DropReturn(p) + "\n" + c;
    }
  }

  /** The first character of a line that is not the `\r` of a `\r\n` is kept. */
  lemma FirstOfLineKept(p: string, rest: string)
    requires p != [] && !(|p| == 1 && p[0] == '\r') && (|p| >= 2 ==> p[1] != '\n')
    ensures CrLfToLf(p + "\n" + rest) == [p[0]] + CrLfToLf(p[1..] + "\n" + rest)
  {
    var s := p + "\n" + rest;
    assert s[0] == p[0];
    assert |p| >= 2 ==> s[1] == p[1];
    assert s[1..] == p[1..] + "\n" + rest;
    CrLfToLfCons(s);
  }

  lemma ConsAssoc(x: char, a: string, b: string, c: string)
    ensures [x] + (a + b + c) == ([x] + a) + b + c
  {
  }

  lemma CrLfToLfCons(s: string)
    requires s != [] && !(s[0] == '\r' && |s| >= 2 && s[1] == '\n')
    ensures CrLfToLf(s) == [s[0]] + CrLfToLf(s[1..])
  {
  }

  lemma DropReturnCons(p: string)
    requires p != [] && !(|p| == 1 && p[0] == '\r')
    ensures DropReturn(p) == [p[0]] + DropReturn(p[1..])
  {
    if |p| >= 2 {
      assert p[1..][|p| - 2] == p[|p| - 1];
      assert (p[1..])[..|p| - 2] == p[1..|p| - 1];
    }
  }

  /** Joining the lines with `\n` gives the text back, each `\r` of a `\r\n` dropped. */
  lemma {:induction false} LinesRoundTrip(s: string)
    ensures Join(Lines(s), "\n") == CrLfToLf(s)
    decreases |s|
  {
    var i := RunEnd(s, 0, NotNewline);
    if i == |s| {
      assert '\n' !in s by {
        forall k | 0 <= k < |s| ensures s[k] != '\n' {
          assert NotNewline(s[k]);
        }
      }
      CrLfToLfWithoutBreak(s);
    } else {
      var p, rest := s[..i], s[i + 1..];
      assert '\n' !in p by {
        forall k | 0 <= k < i ensures p[k] != '\n' {
          assert NotNewline(s[k]);
        }
      }
      assert s == p + "\n" + rest;
      LinesRoundTrip(rest);
      CrLfToLfOfLine(p, rest);
      var ls := Lines(rest);
      assert Lines(s) == [DropReturn(p)] + ls;
      assert ([DropReturn(p)] + ls)[1..] == ls;
    }
  }

  /** The number of line breaks in `s`. */
  function Breaks(s: string): nat {
    if s == [] then 0 else (if s[0] == '\n' then 1 else 0) + Breaks(s[1..])
  }

  lemma {:induction false} BreaksOfRun(s: string, i: nat)
    requires i <= |s|
    requires forall k :: 0 <= k < i ==> s[k] != '\n'
    ensures Breaks(s) == Breaks(s[i..])
  {
    if i > 0 {
      BreaksOfRun(s[1..], i - 1);
      assert s[1..][i - 1..] == s[i..];
    }
  }

  /** One line more than there are line breaks. */
  lemma {:induction false} LinesCount(s: string)
    ensures |Lines(s)| == Breaks(s) + 1
    decreases |s|
  {
    var i := RunEnd(s, 0, NotNewline);
    BreaksOfRun(s, i);
    if i < |s| {
      LinesCount(s[i + 1..]);
      assert s[i..][1..] == s[i + 1..];
    } else {
      assert s[i..] == [];
    }
  }

  predicate IsBullet(c: char) {
    c == '-' || c == '*' || c == '•'
  }

  /**
   * Index just past the list marker that starts at `i`: up to three digits
   * and `.` or `)`, or one bullet character.
   */
  function MarkerEnd(line: string, i: nat): (r: Option<nat>)
    requires i <= |line|
    ensures r.Some? ==> i < r.value <= |line|
  {
    if i < |line| && IsBullet(line[i]) then Some(i + 1)
    else
      var d := RunEnd(line, i, IsDigit);
      if 1 <= d - i <= 3 && d < |line| && (line[d] == '.' || line[d] == ')') then Some(d + 1) else None
  }

  /**
   * The list-line pattern `^(?:\s*(?:\d{1,3}[.)]|[-*•]))\s+[A-Z0-9][^\n]{2,}`:
   * optional white-space, a marker, white-space, then an upper-case letter
   * or digit and at least two more characters.
   */
  predicate IsListLine(line: string)
    ensures IsListLine(line) ==> |line| >= 5
  {
    var i := RunEnd(line, 0, IsSpace);
    match MarkerEnd(line, i)
    case None => false
    case Some(e) =>
      var k := RunEnd(line, e, IsSpace);
      k > e && k + 2 < |line| && (('A' <= line[k] <= 'Z') || IsDigit(line[k]))
      && line[k + 1] != '\n' && line[k + 2] != '\n'
  }

  /** A numbered line followed by a capitalised name is a list line. */
  lemma NumberedLineIsListLine()
    ensures IsListLine("1. Acme")
  {
    assert RunEnd("1. Acme", 0, IsSpace) == 0;
    assert RunEnd("1. Acme", 0, IsDigit) == 1;
    assert RunEnd("1. Acme", 2, IsSpace) == 3;
  }

  /** A bullet followed by a lower-case name is not. */
  lemma LowerCaseNameIsNotListLine()
    ensures !IsListLine("- acme")
  {
    assert RunEnd("- acme", 0, IsSpace) == 0;
    assert RunEnd("- acme", 1, IsSpace) == 2;
  }

  /** A text made of lines joined by line breaks splits back into those lines. */
  lemma {:induction false} LinesOfJoin(ls: seq<string>)
    requires ls != []
    requires forall k :: 0 <= k < |ls| ==> '\n' !in ls[k] && DropReturn(ls[k]) == ls[k]
    ensures Lines(Join(ls, "\n")) == ls
  {
    if |ls| == 1 {
      LinesOfLine(ls[0]);
    } else {
      var tail := ls[1..];
      assert forall k :: 0 <= k < |tail| ==> tail[k] == ls[k + 1];
      var rest := Join(tail, "\n");
      assert Join(ls, "\n") == ls[0] + "\n" + rest;
      LinesOfJoin(tail);
      LinesCons(ls[0], rest);
      assert DropReturn(ls[0]) == ls[0];
    }
  }

  lemma LinesOfLine(p: string)
    requires '\n' !in p
    ensures Lines(p) == [p]
  {
    assert forall k :: 0 <= k < |p| ==> p[k] in p;
  }

  lemma LinesCons(p: string, rest: string)
    requires '\n' !in p
    ensures Lines(p + "\n" + rest) == [DropReturn(p)] + Lines(rest)
  {
    var s := p + "\n" + rest;
    assert forall k :: 0 <= k < |p| ==> s[k] == p[k];
    assert s[|p|] == '\n';
    var i := RunEnd(s, 0, NotNewline);
    assert i == |p|;
    assert s[..i] == p && s[i + 1..] == rest;
  }

  /** A numbered line, "d. Name…": a list line exactly when the name starts with a capital or a digit. */
  lemma NumberedLine(line: string)
    requires |line| >= 6 && '\n' !in line
    requires IsDigit(line[0]) && line[1] == '.' && line[2] == ' ' && !IsSpace(line[3])
    ensures IsListLine(line) <==> ('A' <= line[3] <= 'Z' || IsDigit(line[3]))
  {
    assert RunEnd(line, 0, IsSpace) == 0;
    assert RunEnd(line, 1, IsDigit) == 1;
    assert RunEnd(line, 0, IsDigit) == 1;
    assert RunEnd(line, 3, IsSpace) == 3;
    assert RunEnd(line, 2, IsSpace) == 3;
    assert line[4] in line && line[5] in line;
  }

  /** A line that starts with a number of two digits and a space has no list marker. */
  lemma CountedLine(line: string)
    requires |line| >= 3 && IsDigit(line[0]) && IsDigit(line[1]) && line[2] == ' '
    ensures !IsListLine(line)
  {
    assert RunEnd(line, 0, IsSpace) == 0;
    assert RunEnd(line, 2, IsDigit) == 2;
    assert RunEnd(line, 1, IsDigit) == 2;
    assert RunEnd(line, 0, IsDigit) == 2;
  }

  /**
   * The company list of tests/contentClassification.test.js:31-37: an
   * introduction and four numbered names, one of them ("micro1") lower-case.
   */
  const RoundupIntro := "40 " + "robotics companies hiring now " + "(roles posted in the last 7 days)" + "-from autonomy to humanoids."
  const Company1 := "FieldAI - " + "perception and autonomy stack"
  const Company2 := "micro1 - " + "AI engineering platform for teams"
  const Company3 := "Terranova - " + "off-road autonomy and mapping"
  const Company4 := "ASRobotix - " + "robot arms and automation cells"
  const RoundupLines := [RoundupIntro, "1. " + Company1, "2. " + Company2, "3. " + Company3, "4. " + Company4]

  /** The test's title: its lines joined by line breaks. */
  const RoundupText := Join(RoundupLines, "\n")

  /** A line without breaks or a trailing `\r`, as `Lines` returns them. */
  predicate PlainLine(line: string) {
    '\n' !in line && DropReturn(line) == line
  }

  lemma RoundupIntroShape()
    ensures PlainLine(RoundupIntro) && !IsListLine(RoundupIntro)
  {
    var line := RoundupIntro;
    assert line[0] == '4' && line[1] == '0' && line[2] == ' ';
    assert '\n' !in "40 " && '\n' !in "robotics companies hiring now ";
    assert '\n' !in "(roles posted in the last 7 days)" && '\n' !in "-from autonomy to humanoids.";
    assert line[|line| - 1] == '.';
    CountedLine(line);
  }

  /** "d. " and a name: a plain line, and a list line exactly when the name is capitalised. */
  lemma NumberedName(number: string, name: string)
    requires |number| == 3 && IsDigit(number[0]) && number[1] == '.' && number[2] == ' '
    requires |name| >= 3 && '\n' !in name && name[|name| - 1] != '\r' && !IsSpace(name[0])
    ensures PlainLine(number + name)
    ensures IsListLine(number + name) <==> ('A' <= name[0] <= 'Z' || IsDigit(name[0]))
  {
    var line := number + name;
    assert line[1] == '.' && line[2] == ' ' && IsDigit(line[0]) && line[3] == name[0];
    assert line[|line| - 1] == name[|name| - 1];
    assert '\n' !in number;
    NumberedLine(line);
  }

  lemma Company1Shape()
    ensures PlainLine("1. " + Company1) && IsListLine("1. " + Company1)
  {
    assert '\n' !in "FieldAI - " && '\n' !in "perception and autonomy stack";
    assert Company1[0] == 'F' && Company1[|Company1| - 1] == 'k';
    NumberedName("1. ", Company1);
  }

  lemma Company2Shape()
    ensures PlainLine("2. " + Company2) && !IsListLine("2. " + Company2)
  {
    assert '\n' !in "micro1 - " && '\n' !in "AI engineering platform for teams";
    assert Company2[0] == 'm' && Company2[|Company2| - 1] == 's';
    NumberedName("2. ", Company2);
  }

  lemma Company3Shape()
    ensures PlainLine("3. " + Company3) && IsListLine("3. " + Company3)
  {
    assert '\n' !in "Terranova - " && '\n' !in "off-road autonomy and mapping";
    assert Company3[0] == 'T' && Company3[|Company3| - 1] == 'g';
    NumberedName("3. ", Company3);
  }

  lemma Company4Shape()
    ensures PlainLine("4. " + Company4) && IsListLine("4. " + Company4)
  {
    assert '\n' !in "ASRobotix - " && '\n' !in "robot arms and automation cells";
    assert Company4[0] == 'A' && Company4[|Company4| - 1] == 's';
    NumberedName("4. ", Company4);
  }

  /** Five plain lines, of which the last three of four names are list lines, hold three list lines. */
  lemma ThreeOfFive(ls: seq<string>)
    requires |ls| == 5 && PlainLine(ls[0]) && PlainLine(ls[1]) && PlainLine(ls[2]) && PlainLine(ls[3]) && PlainLine(ls[4])
    requires !IsListLine(ls[0]) && IsListLine(ls[1]) && !IsListLine(ls[2]) && IsListLine(ls[3]) && IsListLine(ls[4])
    ensures forall k :: 0 <= k < |ls| ==> PlainLine(ls[k])
    ensures Count(ls, IsListLine) == 3
  {
    assert ls[..5] == ls;
    assert ls[..5][..4] == ls[..4] && ls[..4][..3] == ls[..3] && ls[..3][..2] == ls[..2] && ls[..2][..1] == ls[..1];
    assert ls[..1][..0] == [];
    assert Count(ls[..1], IsListLine) == 0;
    assert Count(ls[..2], IsListLine) == 1;
    assert Count(ls[..3], IsListLine) == 1;
    assert Count(ls[..4], IsListLine) == 2;
  }

  lemma RoundupLinesShape()
    ensures forall k :: 0 <= k < |RoundupLines| ==> PlainLine(RoundupLines[k])
    ensures Count(RoundupLines, IsListLine) == 3
  {
    RoundupIntroShape();
    Company1Shape();
    Company2Shape();
    Company3Shape();
    Company4Shape();
    ThreeOfFive(RoundupLines);
  }

  /** Three of its five lines are list-shaped, which gives a company-list signal of 1. */
  lemma RoundupListSignal()
    ensures Count(Lines(RoundupText), IsListLine) == 3
    ensures CompanyListSignal(RoundupText) == 1
  {
    RoundupLinesShape();
    LinesOfJoin(RoundupLines);
    assert RoundupText != "" by {
      assert |RoundupText| >= |RoundupLines[0]|;
    }
  }

  /** The list signal of `m` list-shaped lines: none below three, then one more per three lines. */
  function ListSignal(matches: nat): nat {
    if matches >= 3 then 1 + (matches - 3) / 3 else 0
  }

  /** The signal is a third of the list lines, rounded down. */
  lemma ListSignalIsThird(matches: nat)
    ensures ListSignal(matches) == matches / 3
  {
  }

  /**
   * The value of `detectCompanyList(raw)`: a third of the list-shaped lines,
   * rounded down, so nothing below three of them; at most a third of all lines.
   */
  function CompanyListSignal(raw: string): (r: nat)
    ensures raw == "" ==> r == 0
    ensures raw != "" ==> r == Count(Lines(raw), IsListLine) / 3
    ensures r >= 1 <==> raw != "" && Count(Lines(raw), IsListLine) >= 3
    ensures r <= (Breaks(raw) + 1) / 3
  {
    if raw == "" then 0
    else
      LinesCount(raw);
      ListSignalIsThird(Count(Lines(raw), IsListLine));
      ListSignal(Count(Lines(raw), IsListLine))
  }

  /** `detectCompanyList(raw)`: count the list-shaped lines of the case-preserved text. */
  method DetectCompanyList(raw: string) returns (signal: nat)
    ensures signal == CompanyListSignal(raw)
  {
    if raw == "" {
      return 0;
    }
    var lines := Lines(raw);
    var matches := 0;
    for i := 0 to |lines|
      invariant matches == Count(lines[..i], IsListLine)
    {
      assert lines[..i + 1][..i] == lines[..i];
      if IsListLine(lines[i]) {
        matches := matches + 1;
      }
    }
    assert lines[..|lines|] == lines;
    if matches >= 3 {
      return 1 + (matches - 3) / 3;
    }
    return 0;
  }

  // ---------------------------------------------------------------------
  // scoreJobs and the contest

  /** Whether the job phrases are strong enough to count at all. */
  predicate JobsQualify(strong: nat, weak: nat, listSignal: nat) {
    strong > 0 || weak >= 2 || (weak >= 1 && listSignal >= 1)
  }

  function JobsScore(strong: nat, weak: nat, listSignal: nat): nat {
    if JobsQualify(strong, weak, listSignal) then strong * 3 + weak + listSignal * 2 else 0
  }

  /** A qualifying text always scores, and a text that does not qualify never does. */
  lemma JobsScorePositive(strong: nat, weak: nat, listSignal: nat)
    ensures JobsScore(strong, weak, listSignal) > 0 <==> JobsQualify(strong, weak, listSignal)
  {
  }

  /**
   * `scoreJobs(normalized, raw)`: nothing for an empty text; otherwise the
   * strong phrases (three points each), the weak ones and the company list
   * signal (two points) once the gate is passed, and nothing before it. A
   * company list alone never scores, and a strong phrase is worth at least 3.
   */
  function ScoreJobs(m: Matcher, normalized: string, raw: string): (r: nat)
    ensures normalized == "" ==> r == 0
    ensures var strong, weak, list :=
        ScorePatterns(m, normalized, JobStrongPatterns), ScorePatterns(m, normalized, JobWeakPatterns), CompanyListSignal(raw);
      normalized != "" ==>
        r == if strong > 0 || weak >= 2 || (weak >= 1 && list >= 1) then strong * 3 + weak + list * 2 else 0
    ensures r > 0 ==> ScorePatterns(m, normalized, JobStrongPatterns) > 0 || ScorePatterns(m, normalized, JobWeakPatterns) > 0
    ensures normalized != "" && ScorePatterns(m, normalized, JobStrongPatterns) > 0 ==> r >= 3
  {
    if normalized == "" then 0
    else
      JobsScore(ScorePatterns(m, normalized, JobStrongPatterns), ScorePatterns(m, normalized, JobWeakPatterns),
                CompanyListSignal(raw))
  }

  /** A text with one weak job phrase, no strong one and no company list is not scored as Jobs. */
  lemma SingleWeakMentionIsNotJobs(m: Matcher, normalized: string, raw: string)
    requires ScorePatterns(m, normalized, JobStrongPatterns) == 0 && ScorePatterns(m, normalized, JobWeakPatterns) == 1
    requires CompanyListSignal(raw) == 0
    ensures ScoreJobs(m, normalized, raw) == 0
  {
  }

  datatype Scored = Scored(kind: Category, score: int)

  /** The order of `(a, b) => b.score - a.score`. */
  function ScoreKey(s: Scored): Rank {
    Descending(s.score as real)
  }

  /** Position `i` holds the highest score, and every earlier position scores strictly less. */
  predicate IsFirstTop(scores: seq<Scored>, i: int) {
    0 <= i < |scores|
    && (forall j :: 0 <= j < |scores| ==> scores[j].score <= scores[i].score)
    && (forall j :: 0 <= j < i ==> scores[j].score < scores[i].score)
  }

  /** The head of the stable sort comes from the one first-top position. */
  lemma FirstLeastIsFirstTop(scores: seq<Scored>)
    requires scores != []
    ensures IsFirstTop(scores, FirstLeast(scores, ScoreKey, |scores|))
    ensures forall i :: IsFirstTop(scores, i) ==> i == FirstLeast(scores, ScoreKey, |scores|)
  {
    var b := FirstLeast(scores, ScoreKey, |scores|);
    FirstLeastIsFirstSmallest(scores, ScoreKey, |scores|);
    forall j | 0 <= j < |scores| ensures scores[j].score <= scores[b].score {
      assert Le(ScoreKey(scores[b]), ScoreKey(scores[j]));
    }
    forall j | 0 <= j < b ensures scores[j].score < scores[b].score {
      assert Lt(ScoreKey(scores[b]), ScoreKey(scores[j]));
    }
  }

  /**
   * The type at the head of the stably sorted scores, when its score is
   * positive: the first highest score wins, and no positive score gives Regular.
   */
  function Winner(scores: seq<Scored>): (w: Category)
    requires scores != []
    ensures (forall j :: 0 <= j < |scores| ==> scores[j].score <= 0) ==> w == Regular
    ensures forall i :: IsFirstTop(scores, i) && scores[i].score > 0 ==> w == scores[i].kind
  {
    SortByHead(scores, ScoreKey);
    FirstLeastIsFirstTop(scores);
    var best := SortBy(scores, ScoreKey)[0];
    if best.score > 0 then best.kind else Regular
  }

  /**
   * The contest in its source order: Funding, Jobs, Newsletter. The highest
   * score wins; a tie goes to the type listed first; no score at all gives
   * Regular.
   */
  function Contest(f: nat, j: nat, n: nat): (r: seq<Scored>)
    ensures r != []
    ensures Winner(r) ==
      if f == 0 && j == 0 && n == 0 then Regular
      else if f >= j && f >= n then Funding
      else if j >= n then Jobs
      else Newsletter
  {
    var r := [Scored(Funding, f), Scored(Jobs, j), Scored(Newsletter, n)];
    SortByHead(r, ScoreKey);
    r
  }

  function ColumnOf(post: Record): string {
    NormalizeString(Coalesce(Get(post, "contentTypeColumn"), Get(post, "contentType")))
  }

  /** The value of `deriveContentType(post)`; `None` is a missing post, and only it is Uncategorized. */
  function DerivedType(m: Matcher, post: Option<Record>): (r: Category)
    ensures r == Uncategorized <==> post.None?
  {
    match post
    case None => Uncategorized
    case Some(p) =>
      var column := ColumnOf(p);
      if ExplicitType(column).Some? then ExplicitType(column).value
      else if column != "" && Contains(column, "video") then Video
      else TextType(m, CollectedRaw(post))
  }

  /** The text steps of `deriveContentType`: Regular without text, else the winner of the contest. */
  function TextType(m: Matcher, raw: string): (c: Category)
    ensures c != Uncategorized
  {
    var text := Lower(raw);
    if text == "" then Regular
    else Winner(Contest(ScoreFunding(m, text), ScoreJobs(m, text, raw), ScorePatterns(m, text, NewsletterPatterns)))
  }

  /** `deriveContentType(post)`, sorting the three scores in place as the source does. */
  method DeriveContentType(m: Matcher, post: Option<Record>) returns (c: Category)
    ensures c == DerivedType(m, post)
  {
    if post.None? {
      return Uncategorized;
    }
    var column := ColumnOf(post.value);
    var explicit := ExplicitType(column);
    if explicit.Some? {
      return explicit.value;
    }
    if column != "" && Contains(column, "video") {
      return Video;
    }
    var text, raw := CollectText(post);
    if text == "" {
      return Regular;
    }
    c := PickWinner(ScoreFunding(m, text), ScoreJobs(m, text, raw), ScorePatterns(m, text, NewsletterPatterns));
  }

  /** The end of `deriveContentType`: sort the three scores, best first, and take the head when it scored. */
  method PickWinner(funding: nat, jobs: nat, newsletter: nat) returns (c: Category)
    ensures c == Winner(Contest(funding, jobs, newsletter))
  {
    var scores := new Scored[3] [Scored(Funding, funding), Scored(Jobs, jobs), Scored(Newsletter, newsletter)];
    assert scores[..] == Contest(funding, jobs, newsletter);
    SortInPlace(scores, ScoreKey);
    var best := scores[0];
    if best.score > 0 {
      return best.kind;
    }
    return Regular;
  }

  /** An explicit column value decides, whatever the text says. */
  lemma ExplicitColumnWins(m: Matcher, post: Record)
    requires ExplicitType(ColumnOf(post)).Some?
    ensures DerivedType(m, Some(post)) == ExplicitType(ColumnOf(post)).value
  {
  }

  /** A post whose content-type column reads "video" is Video, whatever its text. */
  lemma VideoColumnIsVideo(m: Matcher, post: Record)
    requires Get(post, "contentTypeColumn") == Str("video")
    ensures DerivedType(m, Some(post)) == Video
  {
    VideoColumnReads(post);
    ExplicitColumnWins(m, post);
  }

  lemma VideoColumnReads(post: Record)
    requires Get(post, "contentTypeColumn") == Str("video")
    ensures ExplicitType(ColumnOf(post)) == Some(Video)
  {
    NormalOfVideo();
  }

  /** "video" is already trimmed and lower-case. */
  lemma NormalOfVideo()
    ensures Lower(Trim("video")) == "video"
  {
    var t := "video";
    assert !IsSpace(t[0]) && TrimStart(t) == t;
    assert !IsSpace(t[4]) && TrimEnd(t) == t;
    assert NoUpperCase(t) by {
      forall i | 0 <= i < |t| ensures !('A' <= t[i] <= 'Z') {
      }
    }
    LowerOfNoUpperCase(t);
  }

  /** Otherwise a column mentioning video gives Video. */
  lemma VideoColumn(m: Matcher, post: Record)
    requires ExplicitType(ColumnOf(post)).None? && Contains(ColumnOf(post), "video")
    ensures DerivedType(m, Some(post)) == Video
  {
  }

  /** Otherwise a post none of whose text fields holds a non-blank string is Regular. */
  lemma NoTextIsRegular(m: Matcher, post: Record)
    requires ExplicitType(ColumnOf(post)).None? && !Contains(ColumnOf(post), "video")
    requires forall i :: 0 <= i < |TextFields| ==> TextPart(post, TextFields[i]).None?
    ensures DerivedType(m, Some(post)) == Regular
  {
    CollectedRawEmpty(Some(post));
  }

  /** Otherwise the three scores decide as the contest does. */
  lemma ScoresDecide(m: Matcher, post: Record)
    requires ExplicitType(ColumnOf(post)).None? && !Contains(ColumnOf(post), "video")
    requires exists i :: 0 <= i < |TextFields| && TextPart(post, TextFields[i]).Some?
    ensures var raw := CollectedRaw(Some(post));
      var text := Lower(raw);
      var f, j, n := ScoreFunding(m, text), ScoreJobs(m, text, raw), ScorePatterns(m, text, NewsletterPatterns);
      DerivedType(m, Some(post)) ==
        if f == 0 && j == 0 && n == 0 then Regular
        else if f >= j && f >= n then Funding
        else if j >= n then Jobs
        else Newsletter
  {
    CollectedRawEmpty(Some(post));
  }

  /** `bucketizeContentType(value)`: the four special types are kept, everything else is Regular. */
  function Bucketize(v: Value): (c: Category)
    ensures c != Uncategorized
  {
    if v == Str("Video") then Video
    else if v == Str("Jobs") then Jobs
    else if v == Str("Funding") then Funding
    else if v == Str("Newsletter") then Newsletter
    else Regular
  }

  /** The bucket of a derived type. */
  function BucketOf(c: Category): Category {
    Bucketize(Str(CategoryName(c)))
  }

  /** Bucketing keeps the five buckets, sends Uncategorized to Regular, and is idempotent. */
  lemma BucketOfCategories(c: Category)
    ensures BucketOf(c) == if c == Uncategorized then Regular else c
    ensures BucketOf(BucketOf(c)) == BucketOf(c)
  {
  }

  /** Bucketing any value twice is bucketing it once. */
  lemma BucketizeIdempotent(v: Value)
    ensures Bucketize(Str(CategoryName(Bucketize(v)))) == Bucketize(v)
  {
  }

  /** `isVideoContent(value)`: exactly the values that bucket as Video. */
  predicate IsVideoContent(v: Value): (video: bool)
    ensures video <==> Bucketize(v) == Video
  {
    v == Str("Video")
  }
}
