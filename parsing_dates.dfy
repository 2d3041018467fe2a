/**
 * Spreadsheet-serial and other dates during upload (`excelSerialToDate`, `parseDate`).
 */
module ParsingDates {
  import opened Text
  import opened Js
  import opened Calendar
  import opened ParsingNumbers

  /** `Date.UTC(1899, 11, 30)`, day 0 of spreadsheet serial dates. */
  const ExcelEpoch := DateUtc(1899, 11, 30, 0, 0, 0, 0)

  lemma CivilDaysOf1899And1900()
    ensures DaysFromCivil(1899, 12, 1) == -25598
    ensures DaysFromCivil(1900, 2, 1) == -25536
  {
    assert 1899 / 400 == 4 && 1899 % 400 == 299 && 299 / 4 == 74 && 299 / 100 == 2;
    assert (12 + 9) % 12 == 9 && (153 * 9 + 2) / 5 == 275;
    assert (2 + 9) % 12 == 11 && (153 * 11 + 2) / 5 == 337;
  }

  lemma ExcelEpochValue()
    ensures ExcelEpoch == -2209161600000
  {
    CivilDaysOf1899And1900();
    assert 1899 + 11 / 12 == 1899 && 11 % 12 == 11;
  }

  /** `Math.round`: halves round up. */
  function RoundHalfUp(x: real): (n: int)
    ensures x - 0.5 < n as real <= x + 0.5
  {
    (x + 0.5).Floor
  }

  /** `excelSerialToDate(n)` as a time value; `None` stands for an `Invalid Date`. */
  function ExcelSerialToDate(x: real): (r: Option<int>)
    ensures r.Some? <==> InTimeRange(ExcelEpoch + RoundHalfUp(x * MsPerDay as real))
    ensures r.Some? ==> InTimeRange(r.value)
    ensures r.Some? ==> var ms := x * MsPerDay as real;
                        ms - 0.5 < (r.value - ExcelEpoch) as real <= ms + 0.5
  {
    var t := ExcelEpoch + RoundHalfUp(x * MsPerDay as real);
    if InTimeRange(t) then Some(t) else None
  }

  /** Whole days move the instant by whole days. */
  lemma SerialDayShift(x: real, days: int)
    requires ExcelSerialToDate(x).Some? && ExcelSerialToDate(x + days as real).Some?
    ensures ExcelSerialToDate(x + days as real).value == ExcelSerialToDate(x).value + days * MsPerDay
  {
    assert (x + days as real) * MsPerDay as real + 0.5 == (x * MsPerDay as real + 0.5) + (days * MsPerDay) as real;
  }

  /** Serial 0 is the epoch, 1899-12-30. */
  lemma SerialZero()
    ensures ExcelSerialToDate(0.0) == Some(DateUtc(1899, 11, 30, 0, 0, 0, 0))
  {
    ExcelEpochValue();
    assert RoundHalfUp(0.0 * MsPerDay as real) == 0;
  }

  /** Serial 60 is 1900-02-28: there is no phantom 1900-02-29. */
  lemma SerialSixty()
    ensures ExcelSerialToDate(60.0) == Some(DateUtc(1900, 1, 28, 0, 0, 0, 0))
  {
    ExcelEpochValue();
    assert RoundHalfUp(60.0 * MsPerDay as real) == 5184000000;
    CivilDaysOf1899And1900();
    assert 1900 + 1 / 12 == 1900 && 1 % 12 == 1;
  }

  /** A half serial is noon. */
  lemma SerialHalf()
    ensures ExcelSerialToDate(0.5) == Some(DateUtc(1899, 11, 30, 12, 0, 0, 0))
  {
    ExcelEpochValue();
    assert RoundHalfUp(0.5 * MsPerDay as real) == 43200000;
  }

  /** `^\d+(\.\d+)?$`. */
  predicate IsSerialText(s: string) {
    if '.' in s then
      var k := FirstIndex(s, '.');
      s[..k] != [] && AllDigits(s[..k]) && s[k + 1..] != [] && AllDigits(s[k + 1..])
    else s != [] && AllDigits(s)
  }

  /**
   * What `parseDate` yields: nothing, an instant (whose `toISOString` is
   * stored), or the instant `new Date(text)` gives for free text, which is
   * implementation-defined and left uninterpreted here.
   */
  datatype DateResult = NoDate | At(ms: int) | FromText(text: string)

  function OfTimeValue(t: Option<int>): (r: DateResult)
    ensures t.None? <==> r.NoDate?
    ensures t.Some? ==> r == At(t.value)
  {
    if t.Some? then At(t.value) else NoDate
  }

  /**
   * `parseDate(v)`: falsy cells other than 0 give nothing; a date cell gives
   * its instant; a number, or a text of digits with an optional fraction, is
   * a spreadsheet serial; any other text goes to the date parser.
   */
  function ParseDate(v: Value): (r: DateResult)
    ensures !Truthy(v) && v != Num(0.0) ==> r.NoDate?
    ensures v.DateObj? ==> r == At(v.ms)
    ensures v.Num? ==> r == OfTimeValue(ExcelSerialToDate(v.x))
    ensures Truthy(v) && !v.DateObj? && !v.Num? && IsSerialText(Trim(ToJsString(v))) ==>
      r == OfTimeValue(ExcelSerialToDate(SerialTextValue(Trim(ToJsString(v)))))
    ensures Truthy(v) && !v.DateObj? && !v.Num? && !IsSerialText(Trim(ToJsString(v))) ==>
      r == FromText(Trim(ToJsString(v)))
    ensures r.At? && !v.DateObj? ==> InTimeRange(r.ms)
  {
    if !Truthy(v) && v != Num(0.0) then NoDate
    else if v.DateObj? then At(v.ms)
    else if v.Num? then OfTimeValue(ExcelSerialToDate(v.x))
    else
      var s := Trim(ToJsString(v));
      if IsSerialText(s) then OfTimeValue(ExcelSerialToDate(SerialTextValue(s)))
      else FromText(s)
  }

  /** `Number(s)` for a serial text. */
  function SerialTextValue(s: string): (x: real)
    requires IsSerialText(s)
    ensures x >= 0.0
  {
    UnsignedDecimal(s).value
  }

  /** A text of digits is a serial text, and its value is the number it spells. */
  lemma DigitsAreSerialText(digits: string)
    requires digits != [] && AllDigits(digits)
    ensures IsSerialText(digits) && SerialTextValue(digits) == DecimalValue(digits) as real
  {
    assert forall k :: 0 <= k < |digits| ==> digits[k] != '.';
  }

  /** A whole-number text is read as the serial it spells. */
  lemma SerialTextAsNumber(digits: string)
    requires digits != [] && AllDigits(digits)
    ensures ParseDate(Str(digits)) == ParseDate(Num(DecimalValue(digits) as real))
  {
    assert IsDigit(digits[0]) && IsDigit(digits[|digits| - 1]);
    TrimOfTrimmed(digits);
    DigitsAreSerialText(digits);
  }

  /** A text of digits, a point and digits is a serial text, and its value is the decimal it spells. */
  lemma FractionalSerialText(ip: string, fp: string)
    requires ip != [] && AllDigits(ip) && fp != [] && AllDigits(fp)
    ensures IsSerialText(ip + "." + fp)
    ensures SerialTextValue(ip + "." + fp) == DecimalValue(ip) as real + FractionValue(fp)
  {
    var s := ip + "." + fp;
    assert forall k :: 0 <= k < |ip| ==> s[k] == ip[k] && ip[k] != '.';
    assert s[|ip|] == '.';
    assert FirstIndex(s, '.') == |ip|;
    assert s[..|ip|] == ip && s[|ip| + 1..] == fp;
  }

  lemma TwelveAndAHalf()
    ensures IsSerialText("12.5") && SerialTextValue("12.5") == 12.5
  {
    assert "12.5" == "12" + "." + "5";
    assert AllDigits("12") && AllDigits("5");
    FractionalSerialText("12", "5");
    assert "12"[..1] == "1";
    assert DecimalValue("12") == 12;
    assert FractionValue("5") == 0.5;
  }

  /** Fractional serial text is read as the fractional serial: "12.5" is noon on day 12. */
  lemma FractionalTextAsNumber()
    ensures ParseDate(Str("12.5")) == ParseDate(Num(12.5))
  {
    var s := "12.5";
    assert IsDigit(s[0]) && IsDigit(s[|s| - 1]);
    TrimOfTrimmed(s);
    TwelveAndAHalf();
    var v := Str(s);
    assert Truthy(v) && ToJsString(v) == s;
  }
}
