# LinkedIn analytics core, modelled in Dafny

This project models the data core of a browser dashboard for LinkedIn
creator analytics. The dashboard reads the spreadsheet exports LinkedIn
offers, turns them into posts and daily metrics, classifies each post's
content, and computes the figures the post, content and leaderboard pages
show. The model covers these parts:

- **Upload parsing** (`src/features/upload/parsing.js`), in modules
  `ParsingHeaders`, `ParsingNumbers`, `ParsingDates`, `ParsingSheets`,
  `ParsingRecords` and `ParsingFiles`:
  - header normalisation;
  - the forgiving number reader;
  - spreadsheet serial dates;
  - the header-row search;
  - the choice between a posts sheet and a daily sheet;
  - the post and daily record normalisers;
  - the loop over files and sheets.
- **LinkedIn ids** (`src/lib/linkedinIds.js`), module `LinkedinIds`:
  - finding the activity id in a link;
  - reading an id as a BigInt;
  - decoding the id's time stamp, which is the id shifted right by 22 bits.
- **Content classification** (`src/lib/contentClassification.js`), modules
  `Patterns` and `ContentClassification`:
  - collecting a post's text;
  - the signal scores and the company-list detector;
  - the contest between categories;
  - the explicit content-type column;
  - the mapping onto the five dashboard buckets.
- **Post fingerprint** (`src/lib/postFingerprint.js`), module
  `PostFingerprint`: word, character, sentence, hashtag, mention, emoji and
  call-to-action counts, and media hints.
- **Grouping and the median** (`src/lib/group.js`, `src/lib/stats.js`),
  modules `Group` and `Stats`.
- **The post detail page** (`src/features/posts/PostDetailPage.jsx`),
  module `PostDetail`:
  - fingerprint averages;
  - the engagement mix;
  - tokenising and Jaccard overlap;
  - the similarity score and the list of similar posts.
- **The content page** (`src/features/dashboards/ContentPage.jsx`), module
  `ContentDashboard`:
  - row normalisation and the bucket filter;
  - the sort toggle and the nulls-last comparator;
  - per-bucket statistics;
  - the insight lines;
  - the top posts per bucket.
- **The leaderboards page**
  (`src/features/dashboards/LeaderboardsPage.jsx`), module `Leaderboards`:
  - the engagement-rate board;
  - the impressions board, which sorts an array in place.

Shared modules model the JavaScript the code relies on:

- `Js`: values, truthiness, `||`, `??` and `String(x)`.
- `JsObject`: objects whose keys keep insertion order (JavaScript's
  ordering of integer-like keys is not modelled), and `Object.fromEntries`.
- `Text`: `trim`, ASCII `toLowerCase`, `\s+` splitting and `Number` digit
  reading.
- `Seqs`: `filter`, `map` and `slice`.
- `Sorting`: a stable insertion sort ordered by a key, a sort ordered by a
  comparator, and an in-place array sort.
- `Calendar`: `Date.UTC`, with the month lengths of the proleptic
  Gregorian calendar proved of it.

Loops in the source are methods here. Each method is proved equal to a
function, and the lemmas state the properties of that function. Where a
component keeps state (the content page's sort setting, the leaderboards
page's two boards), the model has a class.

## Model

| member | source | states |
|---|---|---|
| LinkedinIds.RadixDigitValue | src/lib/linkedinIds.js:8 | a digit character of `BigInt`'s numerals has a value below 16, and a decimal digit has its decimal value |
| LinkedinIds.StringToBigInt | src/lib/linkedinIds.js:8 | `BigInt(text)` never accepts a decimal point, nor text that starts with anything but a digit or a sign: such text throws, which is no id |
| LinkedinIds.ParseBigInt | src/lib/linkedinIds.js:4-13 | `null` gives no id; a BigInt is kept; a number is truncated toward zero; a negative result is no id, so every id that comes back from something other than a BigInt is non-negative |
| LinkedinIds.FractionalStringIsNotAnId | src/lib/linkedinIds.js:8-11 | a string whose trimmed text holds a decimal point is no id |
| LinkedinIds.NonNumericStringIsNotAnId | src/lib/linkedinIds.js:8-11 | a string whose trimmed text starts with anything but a digit or a sign is no id |
| LinkedinIds.ParseBigIntOfDecimal | src/lib/linkedinIds.js:4-13 | reading back the decimal text of a natural number gives that number |
| LinkedinIds.ParseBigIntOfDigits | src/lib/linkedinIds.js:4-13 | a non-empty run of decimal digits parses to its decimal value |
| LinkedinIds.StringToBigIntOfDigits | src/lib/linkedinIds.js:8 | `BigInt` of a non-empty run of digits is its decimal value |
| LinkedinIds.SeparatorLength | src/lib/linkedinIds.js:1 | the separator after "activity" is ":" (1 character) or "%3A" in either case (3 characters), and it lies inside the text |
| LinkedinIds.DigitsAt | src/lib/linkedinIds.js:1 | the captured group of a match is a non-empty run of digits |
| LinkedinIds.FirstMatchFrom | src/lib/linkedinIds.js:18 | the position found is a match and no earlier position from the start matches; none is found only when no position matches |
| LinkedinIds.MatchActivity | src/lib/linkedinIds.js:18-21 | the pattern finds an id exactly when it matches somewhere in the text |
| LinkedinIds.ExtractActivityId | src/lib/linkedinIds.js:15-27 | a string gives the digits of its first match; a number or BigInt gives its decimal text; `null` and every other value give no id |
| LinkedinIds.BareDigitsHaveNoId | src/lib/linkedinIds.js:17-22 | a string of bare digits holds no activity id, since the keyword is required |
| LinkedinIds.ActivityIdToTimestamp | src/lib/linkedinIds.js:29-41 | an id that does not parse, or is zero, gives no time; a non-zero id whose shifted value is a valid date gives a time; a time found lies in the range of valid dates and is the id shifted right by 22 bits, that is, `t * 2^22 <= id < (t + 1) * 2^22` |
| LinkedinIds.DeriveActivityTimestamp | src/lib/linkedinIds.js:43-47 | no extracted id gives no time; otherwise the time is that of the extracted id |
| LinkedinIds.DeriveFromBigInt | src/lib/linkedinIds.js:43-47 | a BigInt id decodes the same whether passed directly or through its decimal text |
| LinkedinIds.SameIdSameTimestamp | src/lib/linkedinIds.js:29-41 | two inputs that parse to the same BigInt decode to the same time |
| LinkedinIds.NoMatchWithoutY | src/lib/linkedinIds.js:1 | no match can start where the `y` of "activity" would fall inside text without a `y` |
| LinkedinIds.LowerY | src/lib/linkedinIds.js:1 | the case-insensitive flag lets only `y` and `Y` stand for the keyword's `y` |
| LinkedinIds.KeywordAt | src/lib/linkedinIds.js:1 | "activity:" followed by a digit is a match |
| LinkedinIds.ActivityIdAfterPrefix | src/lib/linkedinIds.js:18-21 | after a prefix without a `y`, "activity:" and a run of digits that ends the text, the id found is exactly that run |
| LinkedinIds.NoEarlierMatch | src/lib/linkedinIds.js:18 | no match starts inside a prefix that has no `y` |
| LinkedinIds.DigitsToEnd | src/lib/linkedinIds.js:1 | `(\d+)` captures the whole digit run up to the end of the text |
| LinkedinIds.RunToEnd | src/lib/linkedinIds.js:1 | a run of digits that reaches the end of the text ends there |
| LinkedinIds.DecimalStep | src/lib/linkedinIds.js:8 | reading one more digit multiplies the value by ten and adds the digit |
| LinkedinIds.FixtureAllDigits | tests/linkedinIds.test.js:7 | the fixture id is all digits |
| LinkedinIds.FixtureDigits | tests/linkedinIds.test.js:7-16 | the fixture id text spells the fixture BigInt |
| LinkedinIds.FixtureInstant | tests/linkedinIds.test.js:8 | 2025-10-24T16:38:34.207Z is time value 1761323914207 |
| LinkedinIds.FixtureFromBigInt | tests/linkedinIds.test.js:15-17 | BigInt 7387527938654691329 decodes to 2025-10-24T16:38:34.207Z |
| LinkedinIds.NoLetterY | tests/linkedinIds.test.js:7 | the fixture link has no `y` before its keyword |
| LinkedinIds.FixtureIdParses | tests/linkedinIds.test.js:7 | the fixture id text parses to the fixture BigInt |
| LinkedinIds.FixtureUrlId | tests/linkedinIds.test.js:7 | the fixture feed link yields the fixture id text |
| LinkedinIds.FixtureFromFeedUrl | tests/linkedinIds.test.js:6-9 | the fixture feed link decodes to 2025-10-24T16:38:34.207Z |
| LinkedinIds.LinkWithoutActivityId | tests/linkedinIds.test.js:11-13 | `https://example.com/not-an-activity` decodes to nothing |
| ParsingHeaders.ReplaceNewlinesAt | src/features/upload/parsing.js:13 | each newline becomes a space, every other character stays in place, and the length is kept |
| ParsingHeaders.ReplaceNewlinesWithoutNewline | src/features/upload/parsing.js:13 | text without a newline is unchanged |
| ParsingHeaders.RunsOfReplaceNewlines | src/features/upload/parsing.js:13 | turning newlines into spaces keeps the same words (maximal runs of non-white-space characters), in order |
| ParsingHeaders.CollapseSpaces | src/features/upload/parsing.js:14 | every white-space run becomes one plain space: the words (maximal runs of non-white-space characters) are kept unchanged and in order, no two white-space characters are left in a row, the text starts and ends with white-space exactly when it did, it is never longer, and it is empty only for empty text |
| ParsingHeaders.CollapseOfCollapsed | src/features/upload/parsing.js:14 | collapsing already-collapsed text changes nothing |
| ParsingHeaders.CollapsedSlice | src/features/upload/parsing.js:14-15 | a slice of collapsed text is collapsed |
| ParsingHeaders.CollapsedTrim | src/features/upload/parsing.js:14-15 | trimming keeps text collapsed |
| ParsingHeaders.CollapsedLower | src/features/upload/parsing.js:14-16 | lower-casing keeps text collapsed |
| ParsingHeaders.LowerKeepsShape | src/features/upload/parsing.js:14-16 | lower-casing collapsed, trimmed text keeps it collapsed and trimmed and leaves no upper-case letter |
| ParsingHeaders.NormalizeText | src/features/upload/parsing.js:12-16 | the normal form is the words of the lower-cased text joined by single spaces; it is collapsed, has no white-space at its ends and no upper-case letter |
| ParsingHeaders.NormalizeHeader | src/features/upload/parsing.js:11-17 | a falsy cell, 0 included, gives the empty name; any other cell gives the words of its lower-cased string form joined by single spaces |
| ParsingHeaders.NormalizeTextOfNormal | src/features/upload/parsing.js:12-16 | text already in normal form is its own normal form |
| ParsingHeaders.NormalizeHeaderOfText | src/features/upload/parsing.js:11-17 | a string cell's name is the normal form of its text, or empty for the empty string |
| ParsingHeaders.NormalizeHeaderIdempotent | src/features/upload/parsing.js:11-17 | normalising a normalised header changes nothing |
| ParsingHeaders.CollapsedIsJoinedWords | src/features/upload/parsing.js:14-15 | collapsed, trimmed text is its own words joined by single spaces |
| ParsingHeaders.TwoLineHeader | src/features/upload/parsing.js:11-17 | the header cell "Post", newline, "Title" and two trailing blanks normalises to "post title" |
| ParsingNumbers.FirstIndex | src/features/upload/parsing.js:29 | the first occurrence of a character, which `replace(',', '.')` rewrites |
| ParsingNumbers.FractionValue | src/features/upload/parsing.js:36 | the digits after a decimal point are worth at least 0 and less than 1 |
| ParsingNumbers.UnsignedDecimal | src/features/upload/parsing.js:36 | an unsigned decimal literal that `Number` accepts reads as a non-negative value; empty text is no literal |
| ParsingNumbers.NumberOf | src/features/upload/parsing.js:36-37 | `Number` of the empty text is 0, and every result kept is finite |
| ParsingNumbers.ResolveSeparators | src/features/upload/parsing.js:27-33 | with a comma and no point, the first comma becomes the point; otherwise no comma is left |
| ParsingNumbers.CleanNumberText | src/features/upload/parsing.js:24-35 | the cleaned text holds only digits, signs and points |
| ParsingNumbers.ScaleIfPercent | src/features/upload/parsing.js:23-38 | a trimmed text ending in `%` scales the number by 1/100; otherwise the number is kept; no number stays no number |
| ParsingNumbers.ParseNumber | src/features/upload/parsing.js:19-38 | `null`, `undefined` and the empty string give `null`; a number is kept as it is; any other number read is finite |
| ParsingNumbers.CleanWithoutNumericChars | src/features/upload/parsing.js:24-35 | text with no digit, sign, point or comma cleans to nothing |
| ParsingNumbers.NoDigitsReadsAsZero | src/features/upload/parsing.js:19-38 | non-empty text with no digit, sign, point or comma (such as "abc" or "  ") reads as 0, because `Number('')` is 0 |
| ParsingNumbers.CleanOfNumericText | src/features/upload/parsing.js:24-35 | text of digits, signs and points survives cleaning unchanged |
| ParsingNumbers.ReadsCleaned | src/features/upload/parsing.js:22-38 | an unfolding step for the separator and percent lemmas: text without surrounding blanks reads as the number of its cleaned text, scaled when it ends in `%` |
| ParsingNumbers.ParseNumericText | src/features/upload/parsing.js:19-38 | numeric text that starts with a digit reads as what `Number` makes of it |
| ParsingNumbers.SeparatedAppend | src/features/upload/parsing.js:24-26 | joining two texts of digits and separators gives such a text |
| ParsingNumbers.KeepSeparated | src/features/upload/parsing.js:24-26 | digits and separators pass the removal of percent signs and blanks unchanged |
| ParsingNumbers.CleanDecimalComma | src/features/upload/parsing.js:28-29 | `a,b` cleans to `a.b` |
| ParsingNumbers.DecimalComma | src/features/upload/parsing.js:27-29 | with a comma and no point, the comma is the decimal separator: `a,b` reads as `a.b` |
| ParsingNumbers.ResolveTwoCommas | src/features/upload/parsing.js:28-29 | with two commas and no point, only the first comma becomes a point |
| ParsingNumbers.KeepDropsSecondComma | src/features/upload/parsing.js:35 | the final character filter drops the remaining comma |
| ParsingNumbers.CleanTwoCommas | src/features/upload/parsing.js:24-35 | `a,b,c` cleans to `a.bc` |
| ParsingNumbers.OnlyFirstCommaIsDecimal | src/features/upload/parsing.js:27-35 | only the first of several commas becomes the point and the others are dropped, so "1,234,567" reads as 1.234567 |
| ParsingNumbers.KeepsNumericText | src/features/upload/parsing.js:24-26 | `a,b.c` passes the removal of percent signs and blanks unchanged |
| ParsingNumbers.DropsThousandsCommas | src/features/upload/parsing.js:30-33 | with a point present, every comma is dropped |
| ParsingNumbers.CleanThousands | src/features/upload/parsing.js:24-35 | `a,b.c` cleans to `ab.c` |
| ParsingNumbers.ThousandsCommas | src/features/upload/parsing.js:30-33 | with a point present, commas are thousands separators, so "1,234.5" reads as 1234.5 |
| ParsingNumbers.CleanTrailingPercent | src/features/upload/parsing.js:24 | a trailing `%` is removed |
| ParsingNumbers.CleanLeadingPercent | src/features/upload/parsing.js:24 | a leading `%` is removed |
| ParsingNumbers.TrailingPercent | src/features/upload/parsing.js:23-38 | a trailing `%` scales the number by 1/100 |
| ParsingNumbers.ReadsCleanedUnscaled | src/features/upload/parsing.js:22-38 | an unfolding step for the separator lemmas: text without surrounding blanks and without a trailing `%` reads as the number of its cleaned text |
| ParsingNumbers.LeadingPercent | src/features/upload/parsing.js:23-24 | a leading `%` is dropped without scaling |
| ParsingNumbers.FirstIndexAfter | src/features/upload/parsing.js:29 | the first occurrence of a character comes right after a prefix that lacks it |
| ParsingNumbers.TwoPointsAreIllFormed | src/features/upload/parsing.js:36-37 | `Number` rejects text with two decimal points |
| ParsingNumbers.TwoPointsReadAsNothing | src/features/upload/parsing.js:19-38 | "1.2.3" gives `null` |
| ParsingNumbers.LoneSignReadsAsNothing | src/features/upload/parsing.js:19-38 | a lone `-` or `+` gives `null` |
| Calendar.FullYear | src/features/upload/parsing.js:43 | the year `Date.UTC` means is never one of 0..99 |
| Calendar.DateUtc | src/features/upload/parsing.js:43 | the date part is a whole number of days, and the days of January 1970 count from time 0 |
| Calendar.DaysInMonth | src/features/upload/parsing.js:43 | months have 28 to 31 days, and 29 only for February of a leap year |
| Calendar.CycleStep | src/features/upload/parsing.js:43 | inside a 400-year era, each year adds 365 days and one more for a leap year |
| Calendar.MarchToMarch | src/features/upload/parsing.js:43 | a year counted from March has 366 days exactly when the following February is leap |
| Calendar.CivilMonthLength | src/features/upload/parsing.js:43 | the first days of consecutive months lie that month's length apart |
| Calendar.CivilDecember | src/features/upload/parsing.js:43 | December 1 and the next January 1 lie 31 days apart |
| Calendar.DateUtcMonthLength | src/features/upload/parsing.js:43 | the first of month index `m + 1` is the first of month index `m` plus that month's length; index 12 is January of the next year |
| Calendar.DateUtcMonthCarry | src/features/upload/parsing.js:43 | a month index past December carries whole years into the year |
| Calendar.DateUtcTwoDigitYear | src/features/upload/parsing.js:43 | years 0..99 are the years of the 1900s |
| ParsingDates.CivilDaysOf1899And1900 | src/features/upload/parsing.js:43 | day counts of 1899-12-01 and 1900-02-01 from 1970-01-01 in the proleptic Gregorian calendar |
| ParsingDates.ExcelEpochValue | src/features/upload/parsing.js:43 | `Date.UTC(1899, 11, 30)` is -2209161600000 |
| ParsingDates.RoundHalfUp | src/features/upload/parsing.js:44 | `Math.round` lies within half a unit of its argument, with halves rounding up |
| ParsingDates.ExcelSerialToDate | src/features/upload/parsing.js:41-46 | a date exists exactly when the epoch plus the rounded milliseconds is in the valid range; it lies within half a millisecond of `serial` days after 1899-12-30 |
| ParsingDates.SerialDayShift | src/features/upload/parsing.js:41-46 | adding whole days to a serial moves the instant by whole days |
| ParsingDates.SerialZero | src/features/upload/parsing.js:42-45 | serial 0 is 1899-12-30 |
| ParsingDates.SerialSixty | src/features/upload/parsing.js:42-45 | serial 60 is 1900-02-28, because the spreadsheet's phantom 1900-02-29 is not reproduced |
| ParsingDates.SerialHalf | src/features/upload/parsing.js:42-45 | serial 0.5 is noon of 1899-12-30 |
| ParsingDates.OfTimeValue | src/features/upload/parsing.js:54-60 | an invalid date gives `null`, a valid one its instant |
| ParsingDates.ParseDate | src/features/upload/parsing.js:48-64 | a falsy cell other than 0 gives `null`; a date cell gives its own instant; a number is a serial date; for any other truthy cell, a trimmed string form matching `^\d+(\.\d+)?$` is the serial date it spells, and any other string form is read as a date string; any instant computed here is in the valid range |
| ParsingDates.SerialTextValue | src/features/upload/parsing.js:58-59 | the number a serial text spells is non-negative |
| ParsingDates.DigitsAreSerialText | src/features/upload/parsing.js:58 | a run of digits matches `^\d+(\.\d+)?$` and spells its decimal value |
| ParsingDates.SerialTextAsNumber | src/features/upload/parsing.js:51-61 | text of digits is read as the serial date it spells, the same as the number itself |
| ParsingDates.FractionalSerialText | src/features/upload/parsing.js:57-59 | digits, a point and digits match the serial pattern and spell the whole part plus the fraction |
| ParsingDates.FractionalTextAsNumber | src/features/upload/parsing.js:51-60 | the text "12.5" is read as the same date as the serial 12.5 |
| ParsingSheets.ScoreHeaders | src/features/upload/parsing.js:66-71 | the loop counts the known keywords found among the normalised headers, so the score is at most the number of keywords |
| ParsingSheets.ScoreIgnoresOrderAndRepeats | src/features/upload/parsing.js:67 | the score depends only on which values a row holds, not on their order nor on repeats |
| ParsingSheets.NoScoreMeansFirstRow | src/features/upload/parsing.js:78-87 | when no candidate row scores, the first row is the header row |
| ParsingSheets.Entries | src/features/upload/parsing.js:90 | one `[header, cell]` entry per header |
| ParsingSheets.RowRecord | src/features/upload/parsing.js:90 | the record built from a row is a well-formed object |
| ParsingSheets.RowRecordKeys | src/features/upload/parsing.js:90 | a record's keys are the header names, in order of first occurrence (exact for names that are not integer-like), whatever the row's length |
| ParsingSheets.RowRecordCell | src/features/upload/parsing.js:90 | the field of header `i` holds cell `i`, or `undefined` past the row's end; of several columns with one name, the last decides |
| ParsingSheets.RowRecords | src/features/upload/parsing.js:89-90 | one record per data row; `sheetToRows` builds them only when the header row has no blank cell or there is no data row (`ParsingSheets.SheetThrows`) |
| ParsingSheets.RowRecordsAt | src/features/upload/parsing.js:90 | record `j` comes from data row `j` |
| ParsingSheets.NormalizeRow | src/features/upload/parsing.js:88 | each header name is its cell normalised; a blank cell, a hole in the array, is named "" and is only used when no record is built from it |
| ParsingSheets.ReadSheet | src/features/upload/parsing.js:73-92 | the value `sheetToRows` returns when it does not throw: an empty grid gives no headers and no data; otherwise the header row is among the first ten rows, the headers are that row normalised cell by cell, and the data are the records of the rows below it, one per row |
| ParsingSheets.FindHeaderRow | src/features/upload/parsing.js:78-87 | the loop finds the first of the first ten rows with the greatest score |
| ParsingSheets.SheetToRows | src/features/upload/parsing.js:73-92 | `sheetToRows` throws a `TypeError` exactly when the chosen header row has a blank cell and at least one row lies below it; otherwise it returns the headers and records `ReadSheet` describes |
| ParsingSheets.HeaderHoleThrows | src/features/upload/parsing.js:75-90 | a header row "Post title", blank, "Impressions" over a blank row is picked as the header row, and reading the sheet throws |
| ParsingSheets.ReadSheetRecords | src/features/upload/parsing.js:89-90 | each record comes from the row at the same distance below the header row |
| ParsingSheets.AsCells | src/features/upload/parsing.js:95-96 | the header names become string cells, one per name |
| ParsingSheets.ClassifySheet | src/features/upload/parsing.js:94-99 | a sheet is a posts sheet exactly when its posts score is at least its daily score |
| ParsingSheets.KnownHeadersDistinct | src/features/upload/parsing.js:3-9 | neither keyword list repeats a keyword |
| ParsingSheets.ClassifyByOverlap | src/features/upload/parsing.js:94-99 | the kind compares how many distinct keywords of each list the headers contain, so a sheet matching neither list counts as posts |
| ParsingRecords.ComputedRate | src/features/upload/parsing.js:117-119 | with impressions, the rate times impressions is the sum of the counts; without impressions there is no rate |
| ParsingRecords.NormalizePost | src/features/upload/parsing.js:101-122 | each field comes from its column or the fallback column; dates and numbers are parsed; impressions, likes and comments are the number read, or 0 when none is; reposts fall back to shares and then to 0 |
| ParsingRecords.RateOfNonNegativeCounts | src/features/upload/parsing.js:117-119 | counts that are all non-negative give a non-negative rate |
| ParsingRecords.ComputedRateNonNegative | src/features/upload/parsing.js:113-120 | a rate computed from non-negative counts is non-negative |
| ParsingRecords.Pick | src/features/upload/parsing.js:124-129 | the value of the first candidate key the record has, or `undefined` when it has none |
| ParsingRecords.FindPrefixed | src/features/upload/parsing.js:134 | the first key that starts with the base, or none when no key does |
| ParsingRecords.PickByStartsWith | src/features/upload/parsing.js:131-138 | for the first base some truthy key starts with, the value of the first such key in key order; `undefined` when no base matches |
| ParsingRecords.RawMetric | src/features/upload/parsing.js:142-152 | a non-null value under an exact column name wins; when no exact column exists, the prefix search decides |
| ParsingRecords.NormalizeDaily | src/features/upload/parsing.js:140-164 | the date is parsed; impressions default to 0 and every other metric to `null` |
| ParsingRecords.StartsWithChain | src/features/upload/parsing.js:134 | starting with a base that starts with `p` means starting with `p` |
| ParsingRecords.AbsentMetric | src/features/upload/parsing.js:142-152 | a record with no key starting with `p` gives no value for any metric read under `p` |
| ParsingRecords.SourcesUnderTheirNames | src/features/upload/parsing.js:142-151 | every column read for impressions, clicks and video views starts with that metric's name |
| ParsingRecords.DailyDefaults | src/features/upload/parsing.js:154-163 | a day with no impressions column counts 0 impressions, and one with no clicks column has `null` clicks |
| ParsingFiles.PushPosts | src/features/upload/parsing.js:178 | the loop appends each record of the sheet, normalised, in order |
| ParsingFiles.PushDaily | src/features/upload/parsing.js:180 | the loop appends each record of the sheet, normalised, in order |
| ParsingFiles.SheetContribution | src/features/upload/parsing.js:174-181 | a usable posts sheet contributes its records as posts, a usable daily sheet as daily metrics, and an unusable sheet nothing |
| ParsingFiles.RouteSheet | src/features/upload/parsing.js:173-181 | one pass of the sheet loop fails exactly when reading the sheet throws; otherwise it appends exactly the sheet's contribution to each list |
| ParsingFiles.RouteWorkbook | src/features/upload/parsing.js:172-182 | the sheet loop fails exactly when some sheet of the workbook throws; otherwise it appends the workbook's contributions in sheet order |
| ParsingFiles.ParseFiles | src/features/upload/parsing.js:166-185 | the upload is rejected exactly when some sheet of some file throws, as nothing catches the `TypeError`; otherwise the lists hold the contributions of all files, file by file and sheet by sheet |
| ParsingFiles.AllPostsAppend | src/features/upload/parsing.js:166-185 | uploading two batches together gives the results of each batch, one after the other |
| ParsingFiles.SheetRouting | src/features/upload/parsing.js:175-181 | a sheet feeds exactly one of the two lists, with one entry per record, or neither when it is skipped |
| ParsingFiles.SheetPostAt | src/features/upload/parsing.js:178 | post `i` of a posts sheet is record `i` normalised |
| ParsingFiles.WorkbookCounts | src/features/upload/parsing.js:172-182 | no record is lost or duplicated: the two lists together hold one entry per record of a usable sheet |
| Group.GroupBy | src/lib/group.js:1-11 | the loop builds the grouping the step function describes |
| Group.GroupedKeys | src/lib/group.js:1-11 | the map is well formed, and its keys are the item keys in order of first occurrence |
| Group.GroupedBuckets | src/lib/group.js:1-11 | the bucket of each key holds exactly the items with that key, in input order; a key has a bucket only when some item has it |
| Group.NoEmptyBucket | src/lib/group.js:1-11 | no bucket is empty |
| Group.ItemInItsBucket | src/lib/group.js:4-8 | an item lands in the bucket of its key; an item whose key is `null` lands nowhere |
| Group.TotalOther | src/lib/group.js:6-8 | changing a bucket that is not listed leaves the listed total alone |
| Group.TotalGrow | src/lib/group.js:7 | pushing onto a listed bucket adds one to the total |
| Group.BucketSizesAddUp | src/lib/group.js:1-11 | the bucket sizes add up to the number of items with a key |
| Group.ToArray | src/lib/group.js:13-15 | one `{key, values}` entry per key, in the map's order |
| Group.GroupsListed | src/lib/group.js:1-15 | listing a grouping gives each key once, in order of first occurrence, next to the non-empty list of items with that key in input order |
| Stats.SortedCopy | src/lib/stats.js:3 | the ascending copy has the input's length |
| Stats.Median | src/lib/stats.js:1-7 | no median exactly when the input is missing or empty |
| Stats.SortedCopyFacts | src/lib/stats.js:3 | the copy is a permutation of the input, in ascending order |
| Stats.AscendingIsSortedCopy | src/lib/stats.js:3 | any ascending arrangement of the same values is the sorted copy |
| Stats.AscendingArrangementsAgree | src/lib/stats.js:3 | two ascending arrangements of the same values are one and the same sequence, so the sorted copy is unique |
| Stats.MedianIgnoresOrder | src/lib/stats.js:1-7 | the median depends only on the values, not on their order |
| Stats.SortedCopyEnds | src/lib/stats.js:3 | the first and last values of the copy are the smallest and largest input values |
| Stats.MedianWithinSortedCopy | src/lib/stats.js:4-6 | the median lies between the first and the last value of the sorted copy |
| Stats.MedianBetweenExtremes | src/lib/stats.js:1-7 | the median lies between the smallest and the largest input value |
| Stats.OddCount | src/lib/stats.js:6 | [3, 1, 2] has median 2 |
| Stats.EvenCount | src/lib/stats.js:5 | [3, 1] has median 2, the mean of the middle two |
| Patterns.CountPatternMatches | src/lib/contentClassification.js:83-89 | a pattern counts some matches exactly when the text is not empty and the pattern matches it |
| Patterns.ScorePatterns | src/lib/contentClassification.js:91-94 | the score is at least the matches of each pattern; with ScoreZeroIffNoMatch and ScorePatternsAppend, it is 0 exactly when nothing matches and it adds up over lists |
| Patterns.Global | src/lib/contentClassification.js:85-86 | the pattern keeps its source and flags and gains the `g` flag |
| Patterns.EmptyTextScoresZero | src/lib/contentClassification.js:91-94 | an empty text scores 0 against any patterns |
| Patterns.ScoreZeroIffNoMatch | src/lib/contentClassification.js:91-94 | the score is 0 exactly when no pattern matches |
| Patterns.ScorePatternsAppend | src/lib/contentClassification.js:91-94 | scoring against two lists is scoring against each list in turn |
| ContentClassification.ExplicitType | src/lib/contentClassification.js:1-10 | the map has exactly the eight listed keys; it never yields Uncategorized, and only "video" maps to Video |
| ContentClassification.NormalizeString | src/lib/contentClassification.js:66-68 | a string is trimmed and lower-cased; anything else normalises to "" |
| ContentClassification.NormalizeStringShape | src/lib/contentClassification.js:66-68 | the result has no upper-case letter and is never longer than the string |
| ContentClassification.TextParts | src/lib/contentClassification.js:72-78 | at most one part per text field |
| ContentClassification.TextPartsNonBlank | src/lib/contentClassification.js:75-76 | every part has text |
| ContentClassification.TextPartsNone | src/lib/contentClassification.js:72-78 | there are no parts exactly when no field holds a non-blank string |
| ContentClassification.JoinedPartsEmpty | src/lib/contentClassification.js:79 | the joined text is empty exactly when no field has text |
| ContentClassification.CollectedRawEmpty | src/lib/contentClassification.js:70-81 | a post has no text exactly when it is missing or none of its text fields is a non-blank string |
| ContentClassification.CollectParts | src/lib/contentClassification.js:72-78 | the loop collects the trimmed value of each field that has text, in field order |
| ContentClassification.CollectText | src/lib/contentClassification.js:70-81 | `raw` is the parts joined by spaces and `normalized` is its lower-case form |
| ContentClassification.ScoreFunding | src/lib/contentClassification.js:96-101 | empty text scores 0; a text scores 0 exactly when it is empty or neither the currency pattern nor any funding pattern matches |
| ContentClassification.CurrencyCountsOnce | src/lib/contentClassification.js:96-101 | however many currency amounts a text holds, they add exactly one point |
| ContentClassification.DropReturn | src/lib/contentClassification.js:105 | a line loses at most the `\r` before its break |
| ContentClassification.BreaksOfRun | src/lib/contentClassification.js:105 | skipping characters that are not breaks keeps the break count |
| ContentClassification.Lines | src/lib/contentClassification.js:105 | `split(/\r?\n/)` gives at least one line and no line holds a line break; LinesCount, LinesRoundTrip and LinesOfJoin fix the count and the inverse |
| ContentClassification.LinesCount | src/lib/contentClassification.js:105 | there is one line more than there are line breaks |
| ContentClassification.LinesRoundTrip | src/lib/contentClassification.js:105 | joining the lines with line breaks gives the text back, the `\r` of each `\r\n` dropped |
| ContentClassification.LinesOfJoin | src/lib/contentClassification.js:105 | lines without a line break or a trailing `\r`, joined by line breaks, split back into exactly those lines |
| ContentClassification.MarkerEnd | src/lib/contentClassification.js:107 | a list marker found takes at least one character and lies inside the line |
| ContentClassification.IsListLine | src/lib/contentClassification.js:107 | a list line has at least five characters |
| ContentClassification.NumberedLineIsListLine | src/lib/contentClassification.js:107 | "1. Acme" is a list line |
| ContentClassification.LowerCaseNameIsNotListLine | src/lib/contentClassification.js:107 | "- acme" is not a list line |
| ContentClassification.ListSignalIsThird | src/lib/contentClassification.js:113-116 | the list signal is the number of list lines divided by three, rounded down |
| ContentClassification.CompanyListSignal | src/lib/contentClassification.js:103-117 | empty text gives 0; otherwise the signal is the number of list-shaped lines divided by 3, rounded down, so it is at least 1 exactly when there are three such lines |
| ContentClassification.DetectCompanyList | src/lib/contentClassification.js:103-117 | the loop counts the list-shaped lines of the case-preserved text and turns the count into the signal |
| ContentClassification.RoundupListSignal | tests/contentClassification.test.js:31-37 | the robotics hiring round-up has three list-shaped lines (its lower-case "micro1" line is not one) and a signal of 1 |
| ContentClassification.ScoreJobs | src/lib/contentClassification.js:119-129 | empty text scores 0; otherwise the score is strong·3 + weak + list·2 when there is a strong phrase, two weak phrases, or a weak phrase and a company list, and 0 otherwise |
| ContentClassification.JobsScorePositive | src/lib/contentClassification.js:125-128 | a jobs score is positive exactly when the phrases qualify |
| ContentClassification.SingleWeakMentionIsNotJobs | src/lib/contentClassification.js:119-129 | a text with no strong phrase, a single weak one and no company list scores 0 as jobs |
| ContentClassification.Winner | src/lib/contentClassification.js:151-163 | the head of the stable sort by descending score wins when its score is positive: the first position holding the highest score decides, and no positive score gives Regular |
| ContentClassification.Contest | src/lib/contentClassification.js:151-163 | after the stable sort the highest score wins; ties go to the type listed first (Funding, then Jobs, then Newsletter); no score at all gives Regular |
| ContentClassification.DeriveContentType | src/lib/contentClassification.js:131-164 | the method, which sorts the three scores in place, returns the derived type |
| ContentClassification.PickWinner | src/lib/contentClassification.js:151-163 | sorting the scores in place and taking the head, when it scored, picks the contest's winner |
| ContentClassification.DerivedType | src/lib/contentClassification.js:131-164 | a post is Uncategorized exactly when it is missing |
| ContentClassification.TextType | src/lib/contentClassification.js:146-163 | deciding by the text never gives Uncategorized |
| ContentClassification.ExplicitColumnWins | src/lib/contentClassification.js:134-140 | an explicit column value decides, whatever the text says |
| ContentClassification.VideoColumn | src/lib/contentClassification.js:142-144 | otherwise a column that mentions video gives Video |
| ContentClassification.VideoColumnIsVideo | tests/contentClassification.test.js:22-28 | a post whose content-type column says "video" is a Video for every pattern matcher |
| ContentClassification.NoTextIsRegular | src/lib/contentClassification.js:146-149 | otherwise a post with no non-blank text field is Regular |
| ContentClassification.ScoresDecide | src/lib/contentClassification.js:146-163 | otherwise the three scores of the collected text decide, as the contest does |
| ContentClassification.Bucketize | src/lib/contentClassification.js:170-176 | bucketing never gives Uncategorized |
| ContentClassification.BucketOfCategories | src/lib/contentClassification.js:170-176 | the four special types keep their bucket, everything else is Regular, and bucketing twice is bucketing once |
| ContentClassification.BucketizeIdempotent | src/lib/contentClassification.js:170-176 | bucketing any value twice is bucketing it once |
| ContentClassification.IsVideoContent | src/lib/contentClassification.js:166-168 | a value is video content exactly when it buckets as Video |
| PostFingerprint.SafeText | src/lib/postFingerprint.js:18-21 | strings are kept and anything else reads as "" |
| PostFingerprint.TruthyTextHasText | src/lib/postFingerprint.js:33-35 | the truthiness test and the trim test together let through exactly the non-blank strings |
| PostFingerprint.FirstText | src/lib/postFingerprint.js:32-38 | the value returned is "" or has a non-space character |
| PostFingerprint.FirstTextPicksFirst | src/lib/postFingerprint.js:32-37 | the search returns the untrimmed value of the first field that has text |
| PostFingerprint.FirstTextEmpty | src/lib/postFingerprint.js:32-38 | the search returns "" exactly when no field has text |
| PostFingerprint.ComposePostText | src/lib/postFingerprint.js:29-39 | a missing record gives ""; the text found is empty or has a non-space character |
| PostFingerprint.ComposePostTextPicksFirst | src/lib/postFingerprint.js:29-39 | a post's text is the untrimmed value of the first of its body, title and similar fields that has text |
| PostFingerprint.ComposePostTextEmpty | src/lib/postFingerprint.js:29-39 | a post's text is empty exactly when the record is missing or none of those fields has text |
| PostFingerprint.SentenceMatchesAreRuns | src/lib/postFingerprint.js:15 | there is one sentence match per maximal run of characters other than `.`, `!` and `?` |
| PostFingerprint.SentenceMatchesHaveText | src/lib/postFingerprint.js:46-50 | in text that does not end in white-space, every sentence match has a non-space character |
| PostFingerprint.SentenceCountIsRuns | src/lib/postFingerprint.js:46-50 | for trimmed text, the sentence count is the number of such runs |
| PostFingerprint.CountAllZero | src/lib/postFingerprint.js:23-27 | the call-to-action total is 0 exactly when no pattern matches, and always for empty text |
| PostFingerprint.BlankTextCountsNothing | src/lib/postFingerprint.js:41-70 | text that is not a string, or is blank, has every count 0, and the media flag depends on the hint alone |
| PostFingerprint.Words | src/lib/postFingerprint.js:45 | splitting on white-space and dropping empty pieces gives one word per maximal non-space run |
| PostFingerprint.ComputeFingerprint | src/lib/postFingerprint.js:41-70 | the word count is the number of maximal non-space runs of the trimmed text, the character count is its length, there are never more words than characters, and the media flag is the hint test |
| PostFingerprint.SentencesAreRuns | src/lib/postFingerprint.js:43-50 | the sentence count is the number of maximal runs of characters other than `.`, `!` and `?` in the trimmed text |
| PostFingerprint.CtaCountZero | src/lib/postFingerprint.js:55 | no call to action is counted exactly when none of the eight patterns matches the trimmed text |
| PostFingerprint.HasMedia | src/lib/postFingerprint.js:57 | a hint with media is truthy and at least four characters long |
| PostFingerprint.HasMediaIgnoresCase | src/lib/postFingerprint.js:57 | the media test ignores case |
| PostFingerprint.NoHintNoMedia | src/lib/postFingerprint.js:57 | a missing or empty type hint never has media |
| PostFingerprint.UpperCaseVideoHasMedia | src/lib/postFingerprint.js:57 | the hint "VIDEO" has media |
| Text.LowerIdempotent | src/lib/postFingerprint.js:57 | lower-casing twice is lower-casing once |
| Text.Split | src/features/posts/PostDetailPage.jsx:222 | `split` on runs of non-token characters: there is one piece more than there are separator runs, every piece is made of token characters of the text, and the non-empty pieces are exactly the maximal token runs, in order |
| PostDetail.FieldTotalSnoc | src/features/posts/PostDetailPage.jsx:179-183 | one more post adds its value, or 0 when it has none, to the running total |
| PostDetail.FieldTotalBounds | src/features/posts/PostDetailPage.jsx:179-183 | when every post's value lies in `[lo, hi]`, the total lies between `n * lo` and `n * hi` |
| PostDetail.AddFields | src/features/posts/PostDetailPage.jsx:180-182 | the inner loop adds the post's value of each field to that field's total (a missing total counts as 0) and leaves every other total alone |
| PostDetail.TotalFields | src/features/posts/PostDetailPage.jsx:178-183 | the outer loop leaves, for each field, the total over all posts |
| PostDetail.Means | src/features/posts/PostDetailPage.jsx:184-187 | each field's average is its total divided by the number of posts |
| PostDetail.AggregateFingerprints | src/features/posts/PostDetailPage.jsx:176-189 | no posts give `null`; otherwise there is an average for every fingerprint field, which is the mean of the posts' values with a missing value counting as 0 |
| PostDetail.MeanWithinRange | src/features/posts/PostDetailPage.jsx:186 | an average lies between the least and the greatest value it averages |
| PostDetail.Quotient | src/features/posts/PostDetailPage.jsx:186 | a total between `n * lo` and `n * hi`, divided by `n`, lies between `lo` and `hi` |
| PostDetail.ThreeShares | src/features/posts/PostDetailPage.jsx:197-199 | three parts of a non-zero total, each divided by the total, add up to 1 and scale back to the part |
| PostDetail.EngagementMix | src/features/posts/PostDetailPage.jsx:191-201 | three slices, Likes, Comments and Reposts, valued at the post's counts (0 when missing); with no engagement every share is 0, otherwise each share is its part of the total and the shares add up to 1 |
| PostDetail.MissingPostMix | src/features/posts/PostDetailPage.jsx:192-194 | a missing post has no engagement and no shares |
| PostDetail.AggregateMix | src/features/posts/PostDetailPage.jsx:203-218 | `null` exactly when there are no posts or the three totals add up to 0 |
| PostDetail.TotalEngagement | src/features/posts/PostDetailPage.jsx:205-210 | the loop sums likes, comments and reposts over the posts, a missing count counting as 0 |
| PostDetail.AggregateEngagementMix | src/features/posts/PostDetailPage.jsx:203-218 | the method returns the aggregate mix of the posts |
| PostDetail.MixOf | src/features/posts/PostDetailPage.jsx:211-217 | shares exist exactly when the totals do not add up to 0; there are three, named Likes, Comments and Reposts; each times the sum is its total; they add up to 1 |
| PostDetail.InLowerNotUpper | src/features/posts/PostDetailPage.jsx:222 | lower-cased text holds no upper-case ASCII letter |
| PostDetail.PieceShape | src/features/posts/PostDetailPage.jsx:222 | a piece of the lower-cased text is letters and digits without an upper-case ASCII letter |
| PostDetail.Tokenize | src/features/posts/PostDetailPage.jsx:220-223 | the tokens are exactly the maximal runs of letters and digits of the lower-cased text that are longer than 2 characters, in order |
| PostDetail.TokenizeGreeting | src/features/posts/PostDetailPage.jsx:220-223 | "Hello, AI world" tokenizes to "hello" and "world", the two-letter "ai" dropped |
| PostDetail.TokensShape | src/features/posts/PostDetailPage.jsx:220-223 | every token is longer than 2 characters, holds only letters and digits, and has no upper-case ASCII letter |
| PostDetail.CountShared | src/features/posts/PostDetailPage.jsx:229-232 | the loop counts the distinct tokens of the first list that the second set holds |
| PostDetail.JaccardScore | src/features/posts/PostDetailPage.jsx:225-235 | the method returns the Jaccard score of the two token lists |
| PostDetail.SharedCount | src/features/posts/PostDetailPage.jsx:227-234 | the count the loop makes, and the union derived from it, give exactly the score the definition states |
| PostDetail.DistinctTokens | src/features/posts/PostDetailPage.jsx:227-232 | `new Set(a)` holds one entry per distinct token, and the loop counts exactly the tokens both lists share |
| PostDetail.UnionSize | src/features/posts/PostDetailPage.jsx:233 | for two sets, the size of the union plus the size of the intersection is the sum of the sizes |
| PostDetail.SubsetSize | src/features/posts/PostDetailPage.jsx:233-234 | a subset is no larger than its superset |
| PostDetail.JaccardIsOverlap | src/features/posts/PostDetailPage.jsx:225-235 | for two non-empty lists the union is not empty, and the score is the size of the intersection over the size of the union |
| PostDetail.Jaccard | src/features/posts/PostDetailPage.jsx:225-235 | an empty list scores 0, and every score lies in [0, 1] |
| PostDetail.JaccardSymmetric | src/features/posts/PostDetailPage.jsx:225-235 | the score does not depend on which list comes first |
| PostDetail.JaccardOfSameTokens | src/features/posts/PostDetailPage.jsx:225-235 | two non-empty lists with the same tokens score 1 |
| PostDetail.JaccardIgnoresRepeats | src/features/posts/PostDetailPage.jsx:227-228 | repeating or reordering tokens changes nothing |
| PostDetail.Closeness | src/features/posts/PostDetailPage.jsx:246-250 | the length and performance scores lie in [0, 1]; a score is 1 exactly when the two values are equal and 0 exactly when they differ by at least the first value (or 1) |
| PostDetail.ClosenessMonotone | src/features/posts/PostDetailPage.jsx:246-250 | the nearer a value lies to the first, the higher its score |
| PostDetail.Ratio | src/features/posts/PostDetailPage.jsx:233-234 | `intersection / union`, or 0 for an empty union; a part between 0 and its whole gives a ratio in [0, 1] |
| PostDetail.Similarity | src/features/posts/PostDetailPage.jsx:237-253 | the score is `-Infinity` exactly when the posts share an id or lie in different buckets; every other score is 0.6 times the token overlap plus 0.25 times the closeness of the word counts plus 0.15 times the closeness of the impressions, and lies in [0, 1] |
| PostDetail.SimilarityFollowsText | src/features/posts/PostDetailPage.jsx:242-252 | two candidates of the target's bucket with equal word counts and impressions differ in score by 0.6 times the difference of their token overlaps, so they rank by that overlap |
| PostDetail.WordsOf | src/features/posts/PostDetailPage.jsx:243-244 | a truthy numeric word count is taken as it is; otherwise the count is one more than the number of white-space runs of the full text, empty ends included |
| PostDetail.PaddedTextWordCount | src/features/posts/PostDetailPage.jsx:243-244 | a post without a word count whose text is " a b " counts four words |
| PostDetail.SimilarityOfLookAlikes | src/features/posts/PostDetailPage.jsx:243-252 | two posts of one bucket with the same tokens, word count and impressions score 1 |
| PostDetail.Ranking | src/features/posts/PostDetailPage.jsx:257-260 | no more entries than candidates, best score first |
| PostDetail.TopSimilar | src/features/posts/PostDetailPage.jsx:255-262 | a missing target gives no posts; at most `limit` posts and at most the candidates |
| PostDetail.TopSimilarDefault | src/features/posts/PostDetailPage.jsx:255 | without a limit, at most three posts |
| PostDetail.RankingMembers | src/features/posts/PostDetailPage.jsx:257-260 | each ranked entry is a candidate with its own score, and the score is positive |
| PostDetail.RankingComplete | src/features/posts/PostDetailPage.jsx:257-260 | every candidate that scores above 0 is ranked |
| PostDetail.TopSimilarFacts | src/features/posts/PostDetailPage.jsx:255-262 | each listed post is a candidate with a positive score, so never a post with the target's id nor one of another bucket; best first |
| PostDetail.TopSimilarIsTop | src/features/posts/PostDetailPage.jsx:255-262 | a candidate that scores above 0 is listed, or the list is full and every listed post scores at least as well |
| ContentDashboard.RowOf | src/features/dashboards/ContentPage.jsx:51-62 | a falsy title becomes "(untitled)"; a falsy link or date becomes `null`; a rate exists exactly when the stored rate is a number; each count is the stored number or 0; the bucket is the content type's bucket |
| ContentDashboard.Normalize | src/features/dashboards/ContentPage.jsx:49-63 | the row is built by `RowOf` from the post and its derived content type; the bucket is one of the five listed buckets |
| ContentDashboard.NormalizedBuckets | src/features/dashboards/ContentPage.jsx:49-63 | one row per post, each in the listed bucket of its derived type |
| ContentDashboard.ContentFiltered | src/features/dashboards/ContentPage.jsx:98-110 | 'all' and an unknown filter keep every row; no filter adds rows |
| ContentDashboard.ContentFilterKeeps | src/features/dashboards/ContentPage.jsx:100-109 | a bucket filter keeps every row of that bucket and only rows of that bucket, none more often than it occurs |
| ContentDashboard.ContentFilterInOrder | src/features/dashboards/ContentPage.jsx:100-109 | filtering a concatenation filters each part and keeps their order; a bucket filter keeps a single row exactly when it is in that bucket |
| ContentDashboard.ContentFilterIdempotent | src/features/dashboards/ContentPage.jsx:98-110 | filtering twice by the same filter changes nothing |
| ContentDashboard.NextSort | src/features/dashboards/ContentPage.jsx:112-118 | clicking a column makes it the sort column, descending exactly when it was already the sort column and ascending |
| ContentDashboard.NextSortTwice | src/features/dashboards/ContentPage.jsx:112-118 | clicking a column twice returns to the start when it was already the sort column, and leaves it descending otherwise |
| ContentDashboard.SortState.constructor | src/features/dashboards/ContentPage.jsx:19 | the page starts sorted by date, newest first |
| ContentDashboard.SortState.HandleSort | src/features/dashboards/ContentPage.jsx:112-118 | the state becomes the next sort setting |
| ContentDashboard.Compare | src/features/dashboards/ContentPage.jsx:123-145 | the comparator returns -1, 0 or 1; missing values go last in both directions, and two missing values compare equal |
| ContentDashboard.CompareAntisymmetric | src/features/dashboards/ContentPage.jsx:123-145 | swapping the arguments flips the comparator's sign |
| ContentDashboard.CompareLe | src/features/dashboards/ContentPage.jsx:123-145 | `a` may stay before `b` exactly when a missing `a` has a missing `b` after it, and two present values are in the direction's order |
| ContentDashboard.CellLeTransitive | src/features/dashboards/ContentPage.jsx:138-144 | for values of one kind, the direction's order is transitive |
| ContentDashboard.RowLePreorder | src/features/dashboards/ContentPage.jsx:123-145 | on a column whose present values are all numbers or valid dates, or all strings, the comparator is a total preorder |
| ContentDashboard.SortedPosts | src/features/dashboards/ContentPage.jsx:120-146 | without a sort key the rows are returned unchanged; with one, sorting only reorders them |
| ContentDashboard.SortedPostsStable | src/features/dashboards/ContentPage.jsx:120-146 | rows with equal values in the sort column, the rows missing it among them, keep their input order |
| ContentDashboard.SortedPostsOrder | src/features/dashboards/ContentPage.jsx:120-146 | on such a column, rows with a missing value come last and the present values are ascending or descending as the direction says |
| ContentDashboard.StatsBucket | src/features/dashboards/ContentPage.jsx:157 | a row is tallied under one of the five listed buckets |
| ContentDashboard.BucketEntries | src/features/dashboards/ContentPage.jsx:169-179 | one entry per listed bucket, in order, each built from that bucket's totals |
| ContentDashboard.TallySnoc | src/features/dashboards/ContentPage.jsx:156-165 | one more row updates the totals of its own bucket only |
| ContentDashboard.TallyAll | src/features/dashboards/ContentPage.jsx:149-165 | the loop leaves each listed bucket's totals over all rows |
| ContentDashboard.BucketStats | src/features/dashboards/ContentPage.jsx:148-182 | `totalPosts` is the number of rows and the entries are those of the rows |
| ContentDashboard.CountsAddUp | src/features/dashboards/ContentPage.jsx:156-167 | every row is counted in exactly one bucket, so the counts add up to `totalPosts` |
| ContentDashboard.UnlistedBucketIsRegular | src/features/dashboards/ContentPage.jsx:157 | a row whose bucket is not listed counts as Regular and changes no other bucket |
| ContentDashboard.TallyRates | src/features/dashboards/ContentPage.jsx:161-164 | no more rates than rows, and no rate exactly when no row of the bucket has one |
| ContentDashboard.FiveShares | src/features/dashboards/ContentPage.jsx:174 | five counts that add up to `n`, each as a percentage of `n`, add up to 100 |
| ContentDashboard.SharesAddUp | src/features/dashboards/ContentPage.jsx:167-179 | with rows present, the bucket shares add up to 100 |
| ContentDashboard.EntryAverages | src/features/dashboards/ContentPage.jsx:169-179 | entry `i` is that of bucket `i`, counts the bucket's rows, and has a `null` average rate exactly when no row of the bucket has a rate |
| ContentDashboard.EntryOfAverages | src/features/dashboards/ContentPage.jsx:170-178 | the average rate is `null` exactly when no rate was seen; the average impressions times the count is the total, and an empty bucket averages 0 |
| ContentDashboard.Insights | src/features/dashboards/ContentPage.jsx:212-266 | at most three insights; none exactly when the period has no posts; with posts but no video the first insight is the advice to try video |
| ContentDashboard.LiftMeaning | src/features/dashboards/ContentPage.jsx:216-220 | against a positive base, the lift is positive exactly when the value beats the base, and a lift of at least `pct`% means at least `1 + pct/100` or at most `1 - pct/100` times the base |
| ContentDashboard.ImpressionsInsightFirst | src/features/dashboards/ContentPage.jsx:215-226 | with video and regular posts, regular posts averaging some impressions and a lift of 5% or more, the first insight is video's lead when its average is higher and regular posts' lead otherwise |
| ContentDashboard.TopOf | src/features/dashboards/ContentPage.jsx:337-342 | the list is labelled with its bucket and holds at most five rows |
| ContentDashboard.TopPostsByBucket | src/features/dashboards/ContentPage.jsx:336-344 | at most one list per listed bucket |
| ContentDashboard.TopOfFacts | src/features/dashboards/ContentPage.jsx:337-342 | a top list holds at most five rows of its bucket, each no more often than in the input, most impressions first, and is empty exactly when the bucket has no rows |
| ContentDashboard.TopOfIsTop | src/features/dashboards/ContentPage.jsx:339-342 | a row of the bucket is listed, or five rows with at least its impressions are |
| ContentDashboard.TopPostsByBucketOrder | src/features/dashboards/ContentPage.jsx:336-344 | the lists' buckets are exactly the listed buckets with rows, in `BUCKET_ORDER` |
| ContentDashboard.TopPostsByBucketFacts | src/features/dashboards/ContentPage.jsx:336-344 | every list is non-empty, is the top list of its bucket, and has a listed bucket; every listed bucket with rows has its list |
| Leaderboards.Normalize | src/features/dashboards/LeaderboardsPage.jsx:14-22 | a falsy title becomes "(untitled)" and a falsy link `null`; each count is the stored number or 0; a rate exists exactly when the stored rate is a number, and is that number |
| Leaderboards.Boards | src/features/dashboards/LeaderboardsPage.jsx:14-29 | the rate board is taken before `norm` is sorted in place, and the impressions board after; both equal their specifications |
| Leaderboards.LeaderboardsPage.constructor | src/features/dashboards/LeaderboardsPage.jsx:6-7 | both boards start empty |
| Leaderboards.LeaderboardsPage.Load | src/features/dashboards/LeaderboardsPage.jsx:9-33 | without a dataset nothing changes; otherwise both boards are set from the dataset's posts |
| Leaderboards.TopByRate | src/features/dashboards/LeaderboardsPage.jsx:23-26 | at most twenty rows, and no more than there are |
| Leaderboards.TopByImpressions | src/features/dashboards/LeaderboardsPage.jsx:27-29 | the first twenty rows, or all of them when there are fewer |
| Leaderboards.TopByRateShape | src/features/dashboards/LeaderboardsPage.jsx:23-26 | the rate board holds at most twenty rows, each with a rate and with impressions and no more often than in the input, best rate first |
| Leaderboards.TopByRateIsTop | src/features/dashboards/LeaderboardsPage.jsx:23-26 | a row with a rate and impressions is on the rate board, or twenty rows with at least its rate are |
| Leaderboards.TopByImpressionsFacts | src/features/dashboards/LeaderboardsPage.jsx:27-29 | the impressions board holds the first twenty rows, or all of them when there are fewer, as a sub-multiset of the rows, most impressions first; a row is on it, or twenty rows with at least its impressions are |
| Sorting.SortInPlace | src/features/dashboards/LeaderboardsPage.jsx:28 | sorting an array in place leaves it holding the stable sort of its old contents |
| Sorting.SortByPermutation | src/lib/stats.js:3 | a stable sort is a permutation of its input |
| Sorting.SortBySorted | src/lib/stats.js:3 | a stable sort's result is in key order |
| Sorting.SortByStable | src/features/posts/PostDetailPage.jsx:260 | elements with equal keys keep their input order |
| Sorting.SortByHead | src/lib/contentClassification.js:156-158 | the head of a stable sort is the first element with the least key |
| Sorting.SortWithSorted | src/features/dashboards/ContentPage.jsx:123-145 | with a comparator that is a total preorder on the elements, the sort's result is in comparator order |
| Sorting.SortWithStable | src/features/dashboards/ContentPage.jsx:123-145 | elements the comparator ties keep their input order |
| Sorting.SortWithPermutation | src/features/dashboards/ContentPage.jsx:123 | sorting with a comparator is a permutation of the input |
| Sorting.TopNShape | src/features/dashboards/ContentPage.jsx:341-342 | `sort(...).slice(0, n)` holds at most `n` elements of the input, exactly `n` unless the input is shorter, in key order |
| Sorting.TopNIsTop | src/features/dashboards/ContentPage.jsx:341-342 | an element is taken, or `n` elements are taken and none of them ranks after it |
| JsObject.FromEntries | src/features/upload/parsing.js:90 | `Object.fromEntries` gives a well-formed object |
| JsObject.FromEntriesKeys | src/features/upload/parsing.js:90 | its keys are the entry names in order of first occurrence (exact for names that are not integer-like) |
| JsObject.FromEntriesLastWins | src/features/upload/parsing.js:90 | of several entries with one name, the last decides the value |

## Left out

- Regular expressions are not interpreted in general. The classifier's
  and fingerprint's patterns are kept verbatim as `Patterns.Regex`
  values, and a `Matcher` parameter stands for the engine: it counts a
  pattern's global matches in a text. The few patterns whose meaning a
  property depends on are written out exactly. These are the activity-id
  pattern, the media-hint pattern, `\s+` splitting, the sentence pattern,
  the list-line pattern and the line split.
- Unicode letter classes (`\p{L}`) are a parameter `isLetter`. Upper and
  lower case are ASCII only. Unicode case folding and normalisation are
  not modelled.
- Numbers are exact reals, not IEEE doubles. Rounding error, `NaN`,
  `Infinity` and `Number.isFinite` on a lift are not modelled. The
  similarity score's `-Infinity` is a separate result constructor.
- `new Date(text)` on free text depends on the engine and the time zone.
  The parser keeps such text as a symbolic `FromText` date, and the
  content page's date sort takes the instant of a value as a parameter.
- Reading files (`FileReader`, `XLSX.read`), `XLSX.utils.sheet_to_json`,
  storage, React state and effects, and the async `getPosts` and
  `getLatestDataset` calls are not modelled. A sheet is given as a grid of
  cells, in which a blank cell, left as a hole in the row array, is `Nil`.
  A page's loaded dataset is a parameter.
- The content page's time-range filter and `getCutoffDate`
  (`src/features/dashboards/ContentPage.jsx:65-96`) are not part of this
  model. Its rows are taken as already filtered.
- The insight sentences and the number formatting (`toFixed`, `fmtInt`,
  `fmtPct`) are not modelled. An insight is a constructor carrying its
  percentage.
- Js.NumberToString: writes every number in positional notation, to at
  most 20 decimals. JavaScript's exponent forms, used from 1e21 upwards
  and below 1e-6, are not produced. A numeric id that large is past the
  range where a double holds its digits anyway.
- PostDetail.TopSimilar: the limit is a natural number. A negative
  `limit`, which `slice` would count from the end, is not modelled.
- Strings are sequences of code points, whereas JavaScript's `.length`
  and `<` on strings count and compare UTF-16 code units. A character
  outside the Basic Multilingual Plane, such as an emoji, counts once in
  the model and twice on the page. This touches
  PostFingerprint.ComputeFingerprint's character count, PostDetail.Tokenize's
  `token.length > 2` and the string order ContentDashboard.Compare uses.
- PostDetail.EngagementMix: `post.likes || 0` and the like keep a truthy
  non-number, such as a numeric string, which `+` would then concatenate
  or coerce. The model reads any non-number as 0, here and in
  PostDetail.FieldTotal, PostDetail.TotalEngagement and, for `impressions`,
  PostDetail.Similarity.
- PostDetail.WordsOf: a truthy `wordCount` that is not a number, such as
  the text "12", is kept by `wordCount || …` and then coerced by the
  arithmetic of the word-count closeness. The model ignores it and counts
  the words of `fullText` instead, as it does for a missing or zero
  `wordCount`.
- PostDetail.Similarity: `target.id === candidate.id` tells `null` from
  `undefined`, so an `id: null` post and one without an id count as
  different posts on the page. Both are `Nil` in the model, which makes
  them the same post and scores the pair `-Infinity`.
- PostDetail.Similarity: a truthy `title` or `fullText` that is not a
  string, such as a number left in a title cell, makes `text.toLowerCase()`
  (src/features/posts/PostDetailPage.jsx:222) or `.split`
  (src/features/posts/PostDetailPage.jsx:244) throw a TypeError on the
  page. PostDetail.StringValue reads it as "" instead, and so do
  PostDetail.PostTokens and PostDetail.WordsOf, which feed the score.
- JsObject.FromEntries: JavaScript lists integer-like property names
  (such as "10" or "2024") first, in ascending numeric order, before the
  other names in insertion order. The model keeps insertion order for
  every name, so JsObject.FromEntriesKeys and ParsingSheets.RowRecordKeys
  are exact only for names that are not integer-like. The prefix search
  of src/features/upload/parsing.js:131-138 looks only for names that
  start with a letter, so its result does not depend on this.
- ParsingDates.ParseDate: a `Date` cell is taken to be a valid date and
  its time value is used as it is. The `RangeError` that `toISOString`
  throws for an invalid `Date` object (src/features/upload/parsing.js:50)
  is not modelled.
- Object identity is not modelled: the similarity ranking's "same post"
  test compares ids only.
- Property names inherited through the prototype (such as `constructor`
  in the content filter's lookup object) are not modelled. A lookup misses
  them.
- ContentDashboard.Normalize: `x || 0` and `x ?? null` keep a truthy
  non-number, such as a numeric string, as it is. The model reads such a
  count as 0 and such a rate as `null`.
- Leaderboards.Normalize: reads numbers the same way. A string engagement
  rate is therefore left off the rate board here, whereas the page would
  let it through the `!= null` filter.
- ContentDashboard.SortedPostsOrder: states order only for columns whose
  present values are all numbers or valid dates, or all strings. The
  mixed-type coercions of `<` on one column make the page's comparator
  inconsistent, so nothing is promised there. ContentDashboard.Compare
  itself returns 0 for a number against a string, where `<` would coerce
  the string (`5 < "10"` holds).
- PostDetail.AggregateMix: the shares are stated through the mix of the
  totals (`MixOf`). This is how the page builds them.
- ParsingRecords.NormalizePost: follows the code, which derives no
  activity id or time stamp from the post's link. The `LinkedinIds`
  functions are modelled on their own.
