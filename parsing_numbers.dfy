/**
 * Locale-tolerant number cleaning during upload (`parseNumber`).
 */
module ParsingNumbers {
  import opened Text
  import opened Js
  import opened Seqs

  /**
   * Magnitudes at or above 2^1024 - 2^970 round to an infinite double, which
   * `isFinite` rejects.
   */
  const OverflowThreshold: real := 179769313486231580793728971405303415079934132710037826936173778980444968292764750946649017977587207096330286416692887910946555547851940402630657488671505820681908902000708383676273854845817711531764475730270069855571366959622842914819860834936475292719074168444365510704342711559699508093042880177904174497792.0

  predicate IsFiniteDouble(x: real) {
    -OverflowThreshold < x < OverflowThreshold
  }

  /** Position of the first `c` in `s`. */
  function FirstIndex(s: string, c: char): (k: nat)
    requires c in s
    ensures k < |s| && s[k] == c
    ensures forall i :: 0 <= i < k ==> s[i] != c
  {
    if s[0] == c then 0
    else
      assert s == [s[0]] + s[1..];
      1 + FirstIndex(s[1..], c)
  }

  /** The value of the digits after a decimal point. */
  function FractionValue(fp: string): (x: real)
    requires AllDigits(fp)
    ensures 0.0 <= x < 1.0
  {
    if fp == [] then 0.0 else (DigitValue(fp[0]) as real + FractionValue(fp[1..])) / 10.0
  }

  /**
   * An unsigned decimal literal as `Number` reads it, without exponent:
   * digits with an optional fraction part, or a point and at least one
   * digit.
   */
  function UnsignedDecimal(b: string): (r: Option<real>)
    ensures b == [] ==> r.None?
    ensures r.Some? ==> r.value >= 0.0
  {
    if '.' !in b then
      if b != [] && AllDigits(b) then Some(DecimalValue(b) as real) else None
    else
      var k := FirstIndex(b, '.');
      var ip, fp := b[..k], b[k + 1..];
      if AllDigits(ip) && AllDigits(fp) && (ip != [] || fp != []) then
        Some(DecimalValue(ip) as real + FractionValue(fp))
      else None
  }

  /**
   * `Number(s)` for a text made of digits, signs and points, with non-finite
   * results as `None`: the empty text is 0, one optional sign may lead.
   */
  function NumberOf(s: string): (r: Option<real>)
    ensures s == [] ==> r == Some(0.0)
    ensures r.Some? ==> IsFiniteDouble(r.value)
  {
    if s == [] then Some(0.0)
    else
      var body := if s[0] == '+' || s[0] == '-' then s[1..] else s;
      match UnsignedDecimal(body)
      case None => None
      case Some(x) =>
        var v := if s[0] == '-' then -x else x;
        if IsFiniteDouble(v) then Some(v) else None
  }

  predicate IsNumericChar(c: char) {
    IsDigit(c) || c == '+' || c == '-' || c == '.'
  }

  predicate NotPercent(c: char) { c != '%' }
  predicate NotComma(c: char) { c != ',' }

  /** Separator inference: a comma with no point is the decimal comma (the first one only); otherwise commas are dropped. */
  function ResolveSeparators(s: string): (r: string)
    ensures ',' in s && '.' !in s ==> r == ReplaceFirst(s, ',', '.')
    ensures !(',' in s && '.' !in s) ==> ',' !in r
  {
    if ',' in s && '.' !in s then ReplaceFirst(s, ',', '.') else Keep(s, NotComma)
  }

  /** The cleaning steps of `parseNumber`, applied to the trimmed text. */
  function CleanNumberText(s: string): (r: string)
    ensures forall i :: 0 <= i < |r| ==> IsNumericChar(r[i])
  {
    Keep(ResolveSeparators(Keep(Keep(s, NotPercent), NotSpace)), IsNumericChar)
  }

  /** A trailing percent sign on the trimmed text scales the number by 1/100. */
  function ScaleIfPercent(s: string, n: Option<real>): (r: Option<real>)
    ensures n.None? <==> r.None?
    ensures n.Some? && !(s != [] && s[|s| - 1] == '%') ==> r == n
    ensures n.Some? && s != [] && s[|s| - 1] == '%' ==> r == Some(n.value / 100.0)
  {
    if n.None? then None
    else if s != [] && s[|s| - 1] == '%' then Some(n.value / 100.0)
    else n
  }

  /** `parseNumber` for the text of a non-number cell. */
  function ParseNumberText(text: string): Option<real> {
    var s := Trim(text);
    ScaleIfPercent(s, NumberOf(CleanNumberText(s)))
  }

  /**
   * `parseNumber(v)`: nothing for an empty cell, a number as it is, and the
   * cleaned text of anything else.
   */
  function ParseNumber(v: Value): (r: Option<real>)
    ensures v.Nil? || v == Str("") ==> r.None?
    ensures v.Num? ==> r == Some(v.x)
    ensures !v.Num? && r.Some? ==> IsFiniteDouble(r.value)
  {
    if v.Nil? || v == Str("") then None
    else if v.Num? then Some(v.x)
    else ParseNumberText(ToJsString(v))
  }

  lemma CleanWithoutNumericChars(s: string)
    requires forall c :: c in s ==> !IsNumericChar(c) && c != ','
    ensures CleanNumberText(s) == []
  {
    var noPercent := Keep(s, NotPercent);
    KeepMembers(s, NotPercent);
    var noSpaces := Keep(noPercent, NotSpace);
    KeepMembers(noPercent, NotSpace);
    assert ',' !in noSpaces;
    var resolved := ResolveSeparators(noSpaces);
    KeepMembers(noSpaces, NotComma);
    assert forall i :: 0 <= i < |resolved| ==> resolved[i] in noSpaces;
    KeepNone(resolved, IsNumericChar);
  }

  /** Text with no digit, sign, point or comma cleans to nothing and reads as 0 (so "abc" and "  " give 0). */
  lemma NoDigitsReadsAsZero(text: string)
    requires text != ""
    requires forall i :: 0 <= i < |text| ==> !IsNumericChar(text[i]) && text[i] != ','
    ensures ParseNumber(Str(text)) == Some(0.0)
  {
    TrimChars(text);
    CleanWithoutNumericChars(Trim(text));
  }

  /** A text of digits, signs and points survives cleaning unchanged. */
  lemma CleanOfNumericText(s: string)
    requires forall i :: 0 <= i < |s| ==> IsNumericChar(s[i])
    ensures CleanNumberText(s) == s
  {
    KeepAll(s, NotPercent);
    KeepAll(s, NotSpace);
    KeepAll(s, NotComma);
    KeepAll(s, IsNumericChar);
  }

  /** A text with no surrounding blanks reads as the number of its cleaned text, scaled when it ends in a percent sign. */
  lemma ReadsCleaned(s: string)
    requires s != [] && !IsSpace(s[0]) && !IsSpace(s[|s| - 1])
    ensures ParseNumber(Str(s)) == ScaleIfPercent(s, NumberOf(CleanNumberText(s)))
  {
    TrimOfTrimmed(s);
  }

  /** A numeric text that starts with a digit and ends with a digit or point reads through `NumberOf`. */
  lemma ParseNumericText(s: string)
    requires s != [] && IsDigit(s[0]) && IsNumericChar(s[|s| - 1])
    requires forall i :: 0 <= i < |s| ==> IsNumericChar(s[i])
    ensures ParseNumber(Str(s)) == NumberOf(s)
  {
    ReadsCleaned(s);
    CleanOfNumericText(s);
  }

  /** Digits and separators only. */
  predicate Separated(s: string) {
    forall i :: 0 <= i < |s| ==> IsDigit(s[i]) || s[i] == ',' || s[i] == '.'
  }

  lemma SeparatedAppend(x: string, y: string)
    requires Separated(x) && Separated(y)
    ensures Separated(x + y)
  {
  }

  /** Digits and separators pass the percent and blank removal unchanged. */
  lemma KeepSeparated(s: string)
    requires Separated(s)
    ensures Keep(Keep(s, NotPercent), NotSpace) == s
  {
    KeepAll(s, NotPercent);
    KeepAll(s, NotSpace);
  }

  lemma CleanDecimalComma(a: string, b: string)
    requires AllDigits(a) && AllDigits(b)
    ensures CleanNumberText(a + "," + b) == a + "." + b
  {
    var s := a + "," + b;
    assert Separated(a) && Separated(b);
    SeparatedAppend(a, ",");
    SeparatedAppend(a + ",", b);
    KeepSeparated(s);
    assert ',' !in a && '.' !in a && '.' !in b;
    assert ',' in s && '.' !in s;
    ReplaceFirstAt(a, ',', '.', b);
    KeepAll(a + "." + b, IsNumericChar);
  }

  /** With a comma and no point, the comma is the decimal separator. */
  lemma DecimalComma(a: string, b: string)
    requires a != [] && AllDigits(a) && b != [] && AllDigits(b)
    ensures ParseNumber(Str(a + "," + b)) == ParseNumber(Str(a + "." + b))
  {
    var s := a + "," + b;
    assert s[|s| - 1] == b[|b| - 1];
    ReadsCleaned(s);
    CleanDecimalComma(a, b);
    ParseNumericText(a + "." + b);
  }

  lemma ResolveTwoCommas(a: string, b: string, c: string)
    requires AllDigits(a) && AllDigits(b) && AllDigits(c)
    ensures var s := a + "," + b + "," + c;
      Keep(Keep(s, NotPercent), NotSpace) == s && ResolveSeparators(s) == a + "." + (b + "," + c)
  {
    var s := a + "," + b + "," + c;
    assert Separated(a) && Separated(b) && Separated(c);
    SeparatedAppend(a, ",");
    SeparatedAppend(a + ",", b);
    SeparatedAppend(a + "," + b, ",");
    SeparatedAppend(a + "," + b + ",", c);
    KeepSeparated(s);
    assert ',' !in a && '.' !in a && '.' !in b && '.' !in c;
    assert ',' in s && '.' !in s;
    AppendAssoc(a + ",", b, ",");
    AppendAssoc(a + ",", b + ",", c);
    ReplaceFirstAt(a, ',', '.', b + "," + c);
  }

  lemma KeepDropsSecondComma(a: string, b: string, c: string)
    requires AllDigits(a) && AllDigits(b) && AllDigits(c)
    ensures Keep(a + "." + (b + "," + c), IsNumericChar) == a + "." + b + c
  {
    var tail := b + "," + c;
    KeepAppend(a + ".", tail, IsNumericChar);
    KeepAll(a + ".", IsNumericChar);
    KeepAppend(b + ",", c, IsNumericChar);
    KeepAppend(b, ",", IsNumericChar);
    KeepAll(b, IsNumericChar);
    KeepNone(",", IsNumericChar);
    KeepAll(c, IsNumericChar);
    assert b + [] == b;
    AppendAssoc(a + ".", b, c);
  }

  lemma CleanTwoCommas(a: string, b: string, c: string)
    requires AllDigits(a) && AllDigits(b) && AllDigits(c)
    ensures CleanNumberText(a + "," + b + "," + c) == a + "." + b + c
  {
    ResolveTwoCommas(a, b, c);
    KeepDropsSecondComma(a, b, c);
  }

  /** Only the first of several commas becomes the point; the others are dropped ("1,234,567" reads as 1.234567). */
  lemma OnlyFirstCommaIsDecimal(a: string, b: string, c: string)
    requires a != [] && AllDigits(a) && AllDigits(b) && c != [] && AllDigits(c)
    ensures ParseNumber(Str(a + "," + b + "," + c)) == ParseNumber(Str(a + "." + b + c))
  {
    var s := a + "," + b + "," + c;
    assert s[|s| - 1] == c[|c| - 1];
    ReadsCleaned(s);
    CleanTwoCommas(a, b, c);
    var t := a + "." + b + c;
    assert t[|t| - 1] == c[|c| - 1];
    ParseNumericText(t);
  }

  lemma KeepsNumericText(a: string, b: string, c: string)
    requires AllDigits(a) && AllDigits(b) && AllDigits(c)
    ensures Keep(Keep(a + "," + b + "." + c, NotPercent), NotSpace) == a + "," + b + "." + c
  {
    assert Separated(a) && Separated(b) && Separated(c);
    SeparatedAppend(a, ",");
    SeparatedAppend(a + ",", b);
    SeparatedAppend(a + "," + b, ".");
    SeparatedAppend(a + "," + b + ".", c);
    KeepSeparated(a + "," + b + "." + c);
  }

  lemma DropsThousandsCommas(a: string, b: string, c: string)
    requires AllDigits(a) && AllDigits(b) && AllDigits(c)
    ensures ResolveSeparators(a + "," + b + "." + c) == a + b + "." + c
  {
    var s := a + "," + b + "." + c;
    assert s[|a| + 1 + |b|] == '.';
    assert ResolveSeparators(s) == Keep(s, NotComma);
    DigitsHaveNoComma(a);
    DigitsHaveNoComma(b);
    DigitsHaveNoComma(c);
    assert Keep(",", NotComma) == [] && Keep(".", NotComma) == ".";
    calc {
      Keep(s, NotComma);
      { KeepAppend(a + "," + b + ".", c, NotComma); }
      Keep(a + "," + b + ".", NotComma) + c;
      { KeepAppend(a + "," + b, ".", NotComma); }
      Keep(a + "," + b, NotComma) + "." + c;
      { KeepAppend(a + ",", b, NotComma); }
      Keep(a + ",", NotComma) + b + "." + c;
      { KeepAppend(a, ",", NotComma); assert a + [] == a; }
      a + b + "." + c;
    }
  }

  lemma DigitsHaveNoComma(s: string)
    requires AllDigits(s)
    ensures Keep(s, NotComma) == s
  {
    KeepAll(s, NotComma);
  }

  lemma CleanThousands(a: string, b: string, c: string)
    requires AllDigits(a) && AllDigits(b) && AllDigits(c)
    ensures CleanNumberText(a + "," + b + "." + c) == a + b + "." + c
  {
    KeepsNumericText(a, b, c);
    DropsThousandsCommas(a, b, c);
    KeepAll(a + b + "." + c, IsNumericChar);
  }

  /** With a point present, every comma is a thousands separator ("1,234.5" reads as 1234.5). */
  lemma ThousandsCommas(a: string, b: string, c: string)
    requires a != [] && AllDigits(a) && AllDigits(b) && AllDigits(c)
    ensures ParseNumber(Str(a + "," + b + "." + c)) == ParseNumber(Str(a + b + "." + c))
  {
    var s := a + "," + b + "." + c;
    assert s[|s| - 1] in c || s[|s| - 1] == '.';
    ReadsCleaned(s);
    CleanThousands(a, b, c);
    var t := a + b + "." + c;
    assert t[|t| - 1] in c || t[|t| - 1] == '.';
    ParseNumericText(t);
  }

  lemma CleanTrailingPercent(t: string)
    requires forall i :: 0 <= i < |t| ==> IsNumericChar(t[i])
    ensures CleanNumberText(t + "%") == t
  {
    KeepNone("%", NotPercent);
    KeepAll(t, NotPercent);
    KeepAppend(t, "%", NotPercent);
    assert t + [] == t;
    CleanOfNumericText(t);
  }

  lemma CleanLeadingPercent(t: string)
    requires forall i :: 0 <= i < |t| ==> IsNumericChar(t[i])
    ensures CleanNumberText("%" + t) == t
  {
    KeepNone("%", NotPercent);
    KeepAll(t, NotPercent);
    KeepAppend("%", t, NotPercent);
    assert [] + t == t;
    CleanOfNumericText(t);
  }

  /** A trailing percent sign scales by 1/100. */
  lemma TrailingPercent(t: string)
    requires t != [] && IsDigit(t[0])
    requires forall i :: 0 <= i < |t| ==> IsNumericChar(t[i])
    ensures ParseNumber(Str(t + "%")) == ScaleIfPercent("%", NumberOf(t))
  {
    var s := t + "%";
    CleanTrailingPercent(t);
    ReadsCleaned(s);
  }

  /** A text with no surrounding blanks and no trailing percent sign reads as the number of its cleaned text. */
  lemma ReadsCleanedUnscaled(s: string)
    requires s != [] && !IsSpace(s[0]) && !IsSpace(s[|s| - 1]) && s[|s| - 1] != '%'
    ensures ParseNumber(Str(s)) == NumberOf(CleanNumberText(s))
  {
    ReadsCleaned(s);
  }

  /** A leading percent sign is dropped without scaling. */
  lemma LeadingPercent(t: string)
    requires t != [] && IsNumericChar(t[|t| - 1])
    requires forall i :: 0 <= i < |t| ==> IsNumericChar(t[i])
    ensures ParseNumber(Str("%" + t)) == NumberOf(t)
  {
    var p := "%" + t;
    assert p[|p| - 1] == t[|t| - 1];
    CleanLeadingPercent(t);
    ReadsCleanedUnscaled(p);
  }

  /** The first `c` in `a + [c] + b`, when `a` holds none, is the one after `a`. */
  lemma FirstIndexAfter(a: string, c: char, b: string)
    requires c !in a
    ensures FirstIndex(a + [c] + b, c) == |a|
  {
    var s := a + [c] + b;
    assert s[|a|] == c;
    assert forall i :: 0 <= i < |a| ==> s[i] == a[i];
  }

  lemma TwoPointsAreIllFormed(a: string, b: string, c: string)
    requires AllDigits(a) && AllDigits(b) && c != [] && AllDigits(c)
    ensures NumberOf(a + "." + b + "." + c) == None
  {
    var s := a + "." + b + "." + c;
    var tail := b + "." + c;
    assert '.' !in a;
    assert s == a + ['.'] + tail;
    FirstIndexAfter(a, '.', tail);
    assert s[|a| + 1..] == tail;
    assert !AllDigits(tail) by {
      assert tail[|b|] == '.';
    }
  }

  /** Two decimal points make the text ill-formed ("1.2.3" gives nothing). */
  lemma TwoPointsReadAsNothing(a: string, b: string, c: string)
    requires a != [] && AllDigits(a) && AllDigits(b) && c != [] && AllDigits(c)
    ensures ParseNumber(Str(a + "." + b + "." + c)) == None
  {
    var s := a + "." + b + "." + c;
    assert s[|s| - 1] == c[|c| - 1];
    ParseNumericText(s);
    TwoPointsAreIllFormed(a, b, c);
  }

  /** A lone sign is ill-formed. */
  lemma LoneSignReadsAsNothing(sign: char)
    requires sign == '-' || sign == '+'
    ensures ParseNumber(Str([sign])) == None
  {
    var text := [sign];
    assert NumberOf(text) == None by {
      assert |text[1..]| == 0;
    }
    ReadsCleaned(text);
    CleanOfNumericText(text);
    assert ParseNumber(Str(text)) == ScaleIfPercent(text, None);
  }
}
