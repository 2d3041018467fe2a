/**
 * LinkedIn activity ids: finding the id in a post link and decoding the
 * creation instant stored in its upper bits (the id shifted right by 22).
 */
module LinkedinIds {
  import opened Text
  import opened Js
  import opened Calendar

  /** `2^22`: shifting right by 22 bits is flooring division by this. */
  const ShiftDivisor: nat := 4194304

  // ---------------------------------------------------------------------
  // BigInt(string)

  /** Value of a digit character in bases up to 16, or -1. */
  function RadixDigitValue(c: char): (d: int)
    ensures -1 <= d < 16
    ensures IsDigit(c) ==> d == DigitValue(c)
  {
    if '0' <= c <= '9' then c as int - '0' as int
    else if 'a' <= c <= 'f' then c as int - 'a' as int + 10
    else if 'A' <= c <= 'F' then c as int - 'A' as int + 10
    else -1
  }

  predicate AllRadixDigits(s: string, base: nat) {
    forall i :: 0 <= i < |s| ==> 0 <= RadixDigitValue(s[i]) < base
  }

  function NumeralValue(s: string, base: nat): nat
    requires AllRadixDigits(s, base)
  {
    if s == [] then 0 else NumeralValue(s[..|s| - 1], base) * base + RadixDigitValue(s[|s| - 1])
  }

  /** Base of a `0x`/`0o`/`0b` prefix (either case), or 0 when there is none. */
  function RadixPrefix(s: string): nat {
    if |s| >= 2 && s[0] == '0' then
      if s[1] == 'x' || s[1] == 'X' then 16
      else if s[1] == 'o' || s[1] == 'O' then 8
      else if s[1] == 'b' || s[1] == 'B' then 2
      else 0
    else 0
  }

  /**
   * `BigInt(s)` for a string without surrounding white-space: the empty
   * string is 0; a radix prefix needs at least one digit and takes no sign;
   * otherwise an optional sign and at least one decimal digit. Anything else
   * throws, which is `None` here.
   */
  function StringToBigInt(s: string): (r: Option<int>)
    ensures '.' in s ==> r.None?
    ensures s != [] && !('0' <= s[0] <= '9') && s[0] != '+' && s[0] != '-' ==> r.None?
  {
    if s == [] then Some(0)
    else if RadixPrefix(s) != 0 then
      var digits := s[2..];
      if digits != [] && AllRadixDigits(digits, RadixPrefix(s)) then Some(NumeralValue(digits, RadixPrefix(s)))
      else None
    else
      var negative := s[0] == '-';
      var digits := if s[0] == '+' || s[0] == '-' then s[1..] else s;
      if digits != [] && AllDigits(digits) then
        var magnitude: int := DecimalValue(digits);
        Some(if negative then -magnitude else magnitude)
      else
        assert '.' in s ==> '.' in digits;
        None
  }

  /**
   * `parseBigInt(value)`: a BigInt is returned as it is; a number is
   * truncated and a string (or any other value, through `String`) is trimmed
   * and read with `BigInt`; negative results and failed conversions are
   * `None`.
   */
  function ParseBigInt(v: Value): (r: Option<int>)
    ensures v.Nil? ==> r.None?
    ensures v.Big? ==> r == Some(v.n)
    ensures v.Num? ==> r == (if Trunc(v.x) >= 0 then Some(Trunc(v.x)) else None)
    ensures !v.Big? && r.Some? ==> r.value >= 0
  {
    match v
    case Nil => None
    case Big(n) => Some(n)
    case Num(x) => if Trunc(x) >= 0 then Some(Trunc(x)) else None
    case _ =>
      match StringToBigInt(Trim(ToJsString(v)))
      case Some(n) => if n >= 0 then Some(n) else None
      case None => None
  }

  /** A string with a decimal point is never an id, whatever surrounds it. */
  lemma FractionalStringIsNotAnId(s: string)
    requires '.' in Trim(s)
    ensures ParseBigInt(Str(s)) == None
  {
  }

  /** Text that, once trimmed, starts with neither a digit nor a sign is never an id. */
  lemma NonNumericStringIsNotAnId(s: string)
    requires Trim(s) != [] && !('0' <= Trim(s)[0] <= '9') && Trim(s)[0] != '+' && Trim(s)[0] != '-'
    ensures ParseBigInt(Str(s)) == None
  {
  }

  /** Reading back the decimal text of a natural number gives the number. */
  lemma ParseBigIntOfDecimal(n: nat)
    ensures ParseBigInt(Str(NatToString(n))) == Some(n)
  {
    DecimalOfNatToString(n);
    ParseBigIntOfDigits(NatToString(n));
  }

  /** A non-empty run of decimal digits parses to its decimal value. */
  lemma ParseBigIntOfDigits(s: string)
    requires s != [] && AllDigits(s)
    ensures ParseBigInt(Str(s)) == Some(DecimalValue(s))
  {
    assert IsDigit(s[0]) && IsDigit(s[|s| - 1]);
    TrimOfTrimmed(s);
    StringToBigIntOfDigits(s);
  }

  lemma StringToBigIntOfDigits(s: string)
    requires s != [] && AllDigits(s)
    ensures StringToBigInt(s) == Some(DecimalValue(s))
  {
    assert RadixPrefix(s) == 0 by {
      if |s| >= 2 {
        assert IsDigit(s[1]);
      }
    }
    assert IsDigit(s[0]);
  }

  // ---------------------------------------------------------------------
  // The activity pattern: "activity", then ":" or "%3A", then digits, with
  // letters matched in either case.

  /** Whether `s` has `p` at `i`, ignoring the case of letters (`p` in lower case). */
  predicate HasLowerAt(s: string, i: nat, p: string) {
    i + |p| <= |s| && forall k :: 0 <= k < |p| ==> LowerChar(s[i + k]) == p[k]
  }

  /** Length of the separator at `j`: 1 for ":", 3 for "%3A" in either case, 0 for none. */
  function SeparatorLength(s: string, j: nat): (n: nat)
    ensures n == 0 || n == 1 || n == 3
    ensures n > 0 ==> j + n <= |s|
  {
    if j < |s| && s[j] == ':' then 1
    else if HasLowerAt(s, j, "%3a") then 3
    else 0
  }

  /** The pattern matches at `i`: keyword, separator and at least one digit. */
  predicate MatchesAt(s: string, i: nat) {
    HasLowerAt(s, i, "activity")
    && var n := SeparatorLength(s, i + 8);
       n > 0 && i + 8 + n < |s| && IsDigit(s[i + 8 + n])
  }

  /** The captured group of a match at `i`: the whole run of digits after the separator. */
  function DigitsAt(s: string, i: nat): (d: string)
    requires MatchesAt(s, i)
    ensures d != [] && AllDigits(d) && |d| < |s|
  {
    var start := i + 8 + SeparatorLength(s, i + 8);
    s[start..RunEnd(s, start, IsDigit)]
  }

  /** The leftmost match at or after `from`. */
  function FirstMatchFrom(s: string, from: nat): (r: Option<nat>)
    ensures r.Some? ==> from <= r.value < |s| && MatchesAt(s, r.value)
    ensures r.Some? ==> forall j :: from <= j < r.value ==> !MatchesAt(s, j)
    ensures r.None? ==> forall j :: from <= j < |s| ==> !MatchesAt(s, j)
    decreases |s| - from
  {
    if from >= |s| then None
    else if MatchesAt(s, from) then Some(from)
    else FirstMatchFrom(s, from + 1)
  }

  /** `input.match(ACTIVITY_REGEX)?.[1]` for a string. */
  function MatchActivity(s: string): (r: Option<string>)
    ensures r.Some? <==> exists i :: 0 <= i < |s| && MatchesAt(s, i)
    ensures r.Some? ==> exists i :: 0 <= i < |s| && MatchesAt(s, i)
                                    && (forall j :: 0 <= j < i ==> !MatchesAt(s, j))
                                    && r.value == DigitsAt(s, i)
  {
    match FirstMatchFrom(s, 0)
    case Some(i) => Some(DigitsAt(s, i))
    case None => None
  }

  /**
   * `extractActivityId(input)`: the digits of the first match in a string;
   * the decimal text of a number or BigInt; `None` for anything else.
   */
  function ExtractActivityId(v: Value): (r: Option<string>)
    ensures v.Str? ==> r == MatchActivity(v.s)
    ensures v.Num? ==> r == Some(NumberToString(v.x))
    ensures v.Big? ==> r == Some(IntToString(v.n))
    ensures v.Nil? || v.Bool? || v.DateObj? ==> r.None?
  {
    match v
    case Str(s) => MatchActivity(s)
    case Num(x) => Some(NumberToString(x))
    case Big(n) => Some(IntToString(n))
    case _ => None
  }

  /** A string of bare digits holds no activity id. */
  lemma BareDigitsHaveNoId(s: string)
    requires AllDigits(s)
    ensures ExtractActivityId(Str(s)) == None
  {
    forall i | 0 <= i < |s|
      ensures !MatchesAt(s, i)
    {
      assert IsDigit(LowerChar(s[i])) && "activity"[0] == 'a';
    }
  }

  /**
   * `activityIdToTimestampIso(id)` as a time value: the id shifted right by
   * 22 bits, when the id parses, is not zero and the instant is a valid date.
   */
  function ActivityIdToTimestamp(v: Value): (r: Option<int>)
    ensures ParseBigInt(v).None? || ParseBigInt(v) == Some(0) ==> r.None?
    ensures r.Some? ==> InTimeRange(r.value)
    ensures r.Some? ==> var id := ParseBigInt(v).value;
                        r.value * ShiftDivisor <= id < (r.value + 1) * ShiftDivisor
    ensures (ParseBigInt(v).Some? && ParseBigInt(v).value != 0 &&
             InTimeRange(ParseBigInt(v).value / ShiftDivisor)) ==> r.Some?
  {
    match ParseBigInt(v)
    case None => None
    case Some(id) =>
      if id == 0 then None
      else
        var t := id / ShiftDivisor;
        if InTimeRange(t) then Some(t) else None
  }

  /** `deriveActivityTimestamp(value)`: decode the id extracted from the value. */
  function DeriveActivityTimestamp(v: Value): (r: Option<int>)
    ensures ExtractActivityId(v).None? ==> r.None?
    ensures ExtractActivityId(v).Some? && ExtractActivityId(v).value != ""
            ==> r == ActivityIdToTimestamp(Str(ExtractActivityId(v).value))
  {
    match ExtractActivityId(v)
    case None => None
    case Some(id) => if id == "" then None else ActivityIdToTimestamp(Str(id))
  }

  /** A BigInt id decodes the same way whether passed directly or through its link text. */
  lemma DeriveFromBigInt(n: nat)
    ensures DeriveActivityTimestamp(Big(n)) == ActivityIdToTimestamp(Big(n))
  {
    var text := NatToString(n);
    assert IntToString(n) == text;
    assert ExtractActivityId(Big(n)) == Some(text) && text != "";
    ParseBigIntOfDecimal(n);
    SameIdSameTimestamp(Str(text), Big(n));
  }

  lemma SameIdSameTimestamp(v: Value, w: Value)
    requires ParseBigInt(v) == ParseBigInt(w)
    ensures ActivityIdToTimestamp(v) == ActivityIdToTimestamp(w)
  {
  }

  /** No match can start where the `y` of "activity" would fall on a string without a `y`. */
  lemma NoMatchWithoutY(a: string, b: string)
    requires 'y' !in a && 'Y' !in a
    ensures forall i :: 0 <= i && i + 7 < |a| ==> !MatchesAt(a + b, i)
  {
    forall i | 0 <= i && i + 7 < |a|
      ensures !MatchesAt(a + b, i)
    {
      var c := (a + b)[i + 7];
      assert c == a[i + 7];
      LowerY(c);
      assert "activity"[7] == 'y';
    }
  }

  lemma LowerY(c: char)
    ensures LowerChar(c) == 'y' ==> c == 'y' || c == 'Y'
  {
  }

  /** "activity:" followed by a digit is a match. */
  lemma KeywordAt(pre: string, digits: string)
    requires digits != [] && AllDigits(digits)
    ensures MatchesAt(pre + "activity:" + digits, |pre|)
  {
    var s := pre + "activity:" + digits;
    var i := |pre|;
    assert forall k :: 0 <= k < 9 ==> s[i + k] == "activity:"[k];
    assert HasLowerAt(s, i, "activity");
    assert s[i + 9] == digits[0];
  }

  /**
   * After a prefix without the letter y, "activity:" and a run of digits
   * that ends the string, the id found is exactly that run.
   */
  lemma ActivityIdAfterPrefix(pre: string, digits: string)
    requires 'y' !in pre && 'Y' !in pre
    requires digits != [] && AllDigits(digits)
    ensures MatchActivity(pre + "activity:" + digits) == Some(digits)
  {
    var s := pre + "activity:" + digits;
    var i := |pre|;
    KeywordAt(pre, digits);
    NoEarlierMatch(pre, digits);
    assert FirstMatchFrom(s, 0) == Some(i);
    DigitsToEnd(pre, digits);
  }

  lemma NoEarlierMatch(pre: string, digits: string)
    requires 'y' !in pre && 'Y' !in pre
    ensures forall j :: 0 <= j < |pre| ==> !MatchesAt(pre + "activity:" + digits, j)
  {
    var s := pre + "activity:" + digits;
    var a := pre + "activit";
    assert 'y' !in a && 'Y' !in a;
    NoMatchWithoutY(a, "y:" + digits);
    assert s == a + ("y:" + digits);
  }

  lemma DigitsToEnd(pre: string, digits: string)
    requires digits != [] && AllDigits(digits)
    requires MatchesAt(pre + "activity:" + digits, |pre|)
    ensures DigitsAt(pre + "activity:" + digits, |pre|) == digits
  {
    var s := pre + "activity:" + digits;
    var start := |pre| + 9;
    assert s[|pre| + 8] == ':';
    assert s[start..] == digits;
    RunToEnd(s, start);
  }

  // ---------------------------------------------------------------------
  // The fixture: urn:li:activity:7387527938654691329 was created at
  // 2025-10-24T16:38:34.207Z.

  const FixtureId := 7387527938654691329
  const FixtureIdText := "7387527938654691329"
  const FixtureHost := "https://www.linkedin.com"
  const FixturePath := "/feed/update/urn:li:"
  const FixtureUrl := FixtureHost + FixturePath + "activity:" + FixtureIdText

  lemma DecimalStep(s: string, k: nat, n: nat)
    requires k < |s| && AllDigits(s)
    requires DecimalValue(s[..k]) == n
    ensures DecimalValue(s[..k + 1]) == n * 10 + DigitValue(s[k])
  {
    assert s[..k + 1][..k] == s[..k];
  }

  lemma FixtureAllDigits()
    ensures AllDigits(FixtureIdText)
  {
    var s := FixtureIdText;
    forall i | 0 <= i < |s|
      ensures IsDigit(s[i])
    {
      assert s[i] in s;
    }
  }

  lemma FixtureDigits()
    ensures AllDigits(FixtureIdText)
    ensures DecimalValue(FixtureIdText) == FixtureId
  {
    var s := FixtureIdText;
    FixtureAllDigits();
    assert s[..0] == [];
    DecimalStep(s, 0, 0);
    DecimalStep(s, 1, 7);
    DecimalStep(s, 2, 73);
    DecimalStep(s, 3, 738);
    DecimalStep(s, 4, 7387);
    DecimalStep(s, 5, 73875);
    DecimalStep(s, 6, 738752);
    DecimalStep(s, 7, 7387527);
    DecimalStep(s, 8, 73875279);
    DecimalStep(s, 9, 738752793);
    DecimalStep(s, 10, 7387527938);
    DecimalStep(s, 11, 73875279386);
    DecimalStep(s, 12, 738752793865);
    DecimalStep(s, 13, 7387527938654);
    DecimalStep(s, 14, 73875279386546);
    DecimalStep(s, 15, 738752793865469);
    DecimalStep(s, 16, 7387527938654691);
    DecimalStep(s, 17, 73875279386546913);
    DecimalStep(s, 18, 738752793865469132);
    assert s[..19] == s;
  }

  /** 2025-10-24T16:38:34.207Z as a time value. */
  lemma FixtureInstant()
    ensures DateUtc(2025, 9, 24, 16, 38, 34, 207) == 1761323914207
  {
    assert 2025 + 9 / 12 == 2025 && 9 % 12 == 9;
    assert 2025 / 400 == 5 && 2025 % 400 == 25 && 25 / 4 == 6 && 25 / 100 == 0;
    assert (10 + 9) % 12 == 7 && (153 * 7 + 2) / 5 == 214;
    assert DaysFromCivil(2025, 10, 1) == 20362;
  }

  /** The fixture id, given as a BigInt, decodes to 2025-10-24T16:38:34.207Z. */
  lemma FixtureFromBigInt()
    ensures ActivityIdToTimestamp(Big(FixtureId)) == Some(DateUtc(2025, 9, 24, 16, 38, 34, 207))
  {
    FixtureInstant();
    assert FixtureId / ShiftDivisor == 1761323914207;
  }

  lemma NoLetterY()
    ensures 'y' !in FixtureHost + FixturePath && 'Y' !in FixtureHost + FixturePath
  {
    assert 'y' !in FixtureHost && 'Y' !in FixtureHost;
    assert 'y' !in FixturePath && 'Y' !in FixturePath;
  }

  lemma FixtureIdParses()
    ensures ParseBigInt(Str(FixtureIdText)) == Some(FixtureId)
  {
    FixtureDigits();
    ParseBigIntOfDigits(FixtureIdText);
  }

  lemma FixtureUrlId()
    ensures MatchActivity(FixtureUrl) == Some(FixtureIdText)
  {
    NoLetterY();
    FixtureAllDigits();
    ActivityIdAfterPrefix(FixtureHost + FixturePath, FixtureIdText);
  }

  /** The feed link of the fixture post decodes to 2025-10-24T16:38:34.207Z. */
  lemma FixtureFromFeedUrl()
    ensures DeriveActivityTimestamp(Str(FixtureUrl)) == Some(DateUtc(2025, 9, 24, 16, 38, 34, 207))
  {
    FixtureUrlId();
    assert ExtractActivityId(Str(FixtureUrl)) == Some(FixtureIdText);
    FixtureIdParses();
    FixtureFromBigInt();
    SameIdSameTimestamp(Str(FixtureIdText), Big(FixtureId));
  }

  lemma {:induction false} RunToEnd(s: string, i: nat)
    requires i <= |s|
    requires forall k :: i <= k < |s| ==> IsDigit(s[k])
    ensures RunEnd(s, i, IsDigit) == |s|
    decreases |s| - i
  {
    if i < |s| {
      RunToEnd(s, i + 1);
    }
  }

  const ExampleHost := "https://example.com"
  const NoActivityLink := ExampleHost + "/not-an-" + "activity"

  /** A link whose only "activity" is not followed by a separator and digits decodes to nothing. */
  lemma LinkWithoutActivityId()
    ensures DeriveActivityTimestamp(Str(NoActivityLink)) == None
  {
    var a := ExampleHost + "/not-an-" + "activit";
    assert 'y' !in ExampleHost && 'Y' !in ExampleHost;
    assert 'y' !in a && 'Y' !in a;
    assert "activity" == "activit" + "y";
    assert NoActivityLink == a + "y";
    NoMatchWithoutY(a, "y");
    assert forall i :: 0 <= i < |NoActivityLink| ==> !MatchesAt(NoActivityLink, i);
  }
}
