/**
 * String helpers shared by the whole model: JavaScript's white-space class,
 * `trim`, ASCII case mapping, substring tests, splitting on white-space runs
 * and decimal digits.
 */
module Text {

  /** JavaScript's `\s` class, which is also the set `String.prototype.trim` removes. */
  predicate IsSpace(c: char) {
    c == '\t' || c == '\n' || c == '\U{000B}' || c == '\U{000C}' || c == '\r' || c == ' '
    || c == '\U{00A0}' || c == '\U{1680}' || ('\U{2000}' <= c <= '\U{200A}')
    || c == '\U{2028}' || c == '\U{2029}' || c == '\U{202F}' || c == '\U{205F}'
    || c == '\U{3000}' || c == '\U{FEFF}'
  }

  predicate NotSpace(c: char) {
    !IsSpace(c)
  }

  predicate IsDigit(c: char) {
    '0' <= c <= '9'
  }

  predicate AllDigits(s: string) {
    forall i :: 0 <= i < |s| ==> IsDigit(s[i])
  }

  predicate IsAsciiLetter(c: char) {
    ('a' <= c <= 'z') || ('A' <= c <= 'Z')
  }

  /** Lower-case mapping of ASCII letters; every other character is kept. */
  function LowerChar(c: char): (r: char)
    ensures IsAsciiLetter(c) <==> IsAsciiLetter(r)
    ensures !('A' <= r <= 'Z')
    ensures IsDigit(c) <==> IsDigit(r)
    ensures IsSpace(c) <==> IsSpace(r)
  {
    if 'A' <= c <= 'Z' then (c as int - 'A' as int + 'a' as int) as char else c
  }

  function Lower(s: string): (r: string)
    ensures |r| == |s|
    ensures forall i :: 0 <= i < |s| ==> r[i] == LowerChar(s[i])
  {
    if s == [] then [] else [LowerChar(s[0])] + Lower(s[1..])
  }

  lemma {:induction false} LowerAppend(a: string, b: string)
    ensures Lower(a + b) == Lower(a) + Lower(b)
  {
    var l := Lower(a + b);
    assert forall i :: 0 <= i < |a + b| ==> l[i] == (Lower(a) + Lower(b))[i];
  }

  predicate NoUpperCase(s: string) {
    forall i :: 0 <= i < |s| ==> !('A' <= s[i] <= 'Z')
  }

  lemma LowerOfNoUpperCase(s: string)
    requires NoUpperCase(s)
    ensures Lower(s) == s
  {
  }

  /** Lower-casing twice is lower-casing once. */
  lemma LowerIdempotent(s: string)
    ensures Lower(Lower(s)) == Lower(s)
  {
    LowerOfNoUpperCase(Lower(s));
  }

  /** Case-insensitive equality of two strings (ASCII letters only fold). */
  predicate EqualsIgnoreCase(s: string, t: string) {
    Lower(s) == Lower(t)
  }

  function TrimStart(s: string): (r: string)
    ensures |r| <= |s| && r == s[|s| - |r|..]
    ensures forall i :: 0 <= i < |s| - |r| ==> IsSpace(s[i])
    ensures r != [] ==> !IsSpace(r[0])
  {
    if s == [] || !IsSpace(s[0]) then s else TrimStart(s[1..])
  }

  function TrimEnd(s: string): (r: string)
    ensures |r| <= |s| && r == s[..|r|]
    ensures forall i :: |r| <= i < |s| ==> IsSpace(s[i])
    ensures r != [] ==> !IsSpace(r[|r| - 1])
  {
    if s == [] || !IsSpace(s[|s| - 1]) then s else TrimEnd(s[..|s| - 1])
  }

  /** `String.prototype.trim`. */
  function Trim(s: string): (r: string)
    ensures |r| <= |s|
    ensures r != [] ==> !IsSpace(r[0]) && !IsSpace(r[|r| - 1])
  {
    TrimEnd(TrimStart(s))
  }

  lemma TrimBlank(s: string)
    ensures TrimEnd(TrimStart(s)) == [] <==> forall i :: 0 <= i < |s| ==> IsSpace(s[i])
  {
    var t := TrimStart(s);
    if t != [] {
      assert s[|s| - |t|] == t[0];
    }
  }

  /** Trimming only removes characters. */
  lemma TrimChars(s: string)
    ensures forall c :: c in Trim(s) ==> c in s
  {
    var t := TrimStart(s);
    assert forall c :: c in TrimEnd(t) ==> c in t;
    assert forall c :: c in t ==> c in s;
  }

  predicate IsTrimmed(s: string) {
    s != [] ==> !IsSpace(s[0]) && !IsSpace(s[|s| - 1])
  }

  lemma {:induction false} TrimOfTrimmed(s: string)
    requires IsTrimmed(s)
    ensures Trim(s) == s
  {
  }

  predicate StartsWith(s: string, prefix: string) {
    |prefix| <= |s| && s[..|prefix|] == prefix
  }

  /** `s.includes(p)`. */
  predicate Contains(s: string, p: string) {
    exists i :: 0 <= i <= |s| - |p| && StartsWith(s[i..], p)
  }

  /** `parts.join(sep)`. */
  function Join(parts: seq<string>, sep: string): (r: string)
    ensures parts == [] ==> r == ""
    ensures |parts| == 1 ==> r == parts[0]
  {
    if parts == [] then ""
    else if |parts| == 1 then parts[0]
    else parts[0] + sep + Join(parts[1..], sep)
  }

  lemma {:induction false} JoinEmpty(parts: seq<string>, sep: string)
    requires forall i :: 0 <= i < |parts| ==> parts[i] != ""
    ensures Join(parts, sep) == "" <==> parts == []
  {
    if |parts| > 1 {
      assert |Join(parts, sep)| >= |parts[0]| > 0;
    }
  }

  /** Keeps the characters satisfying `keep`, in order (a global `replace` with ''). */
  function Keep(s: string, keep: char -> bool): (r: string)
    ensures |r| <= |s|
    ensures forall i :: 0 <= i < |r| ==> keep(r[i])
  {
    if s == [] then []
    else if keep(s[0]) then [s[0]] + Keep(s[1..], keep)
    else Keep(s[1..], keep)
  }

  lemma {:induction false} KeepMembers(s: string, keep: char -> bool)
    ensures forall c :: c in Keep(s, keep) <==> c in s && keep(c)
  {
    if s != [] {
      KeepMembers(s[1..], keep);
      assert forall c :: c in s <==> c == s[0] || c in s[1..];
    }
  }

  lemma {:induction false} KeepAppend(a: string, b: string, keep: char -> bool)
    ensures Keep(a + b, keep) == Keep(a, keep) + Keep(b, keep)
  {
    if a != [] {
      assert (a + b)[0] == a[0] && (a + b)[1..] == a[1..] + b;
      KeepAppend(a[1..], b, keep);
    } else {
      assert a + b == b;
    }
  }

  lemma {:induction false} KeepAll(s: string, keep: char -> bool)
    requires forall i :: 0 <= i < |s| ==> keep(s[i])
    ensures Keep(s, keep) == s
  {
    if s != [] {
      KeepAll(s[1..], keep);
    }
  }

  lemma {:induction false} KeepNone(s: string, keep: char -> bool)
    requires forall i :: 0 <= i < |s| ==> !keep(s[i])
    ensures Keep(s, keep) == []
  {
    if s != [] {
      KeepNone(s[1..], keep);
    }
  }

  /** Replaces the first occurrence of `c` by `d` (`replace` with a one-character string pattern). */
  function ReplaceFirst(s: string, c: char, d: char): (r: string)
    ensures |r| == |s|
    ensures c !in s ==> r == s
  {
    if s == [] then []
    else if s[0] == c then [d] + s[1..]
    else [s[0]] + ReplaceFirst(s[1..], c, d)
  }

  /** Only the first occurrence is replaced: what precedes it has none, what follows is kept. */
  lemma {:induction false} ReplaceFirstAt(a: string, c: char, d: char, b: string)
    requires c !in a
    ensures ReplaceFirst(a + [c] + b, c, d) == a + [d] + b
  {
    if a != [] {
      assert (a + [c] + b)[1..] == a[1..] + [c] + b;
      ReplaceFirstAt(a[1..], c, d, b);
    } else {
      assert (a + [c] + b)[1..] == b;
    }
  }

  /** Index just past the run of characters satisfying `p` that starts at `i`. */
  function RunEnd(s: string, i: nat, p: char -> bool): (j: nat)
    requires i <= |s|
    ensures i <= j <= |s|
    ensures forall k :: i <= k < j ==> p(s[k])
    ensures j < |s| ==> !p(s[j])
    decreases |s| - i
  {
    if i < |s| && p(s[i]) then RunEnd(s, i + 1, p) else i
  }

  /** Number of maximal runs of characters satisfying `p`. */
  function RunCount(s: string, p: char -> bool): (n: nat)
    ensures n <= |s|
    ensures n == 0 <==> forall i :: 0 <= i < |s| ==> !p(s[i])
    decreases |s|
  {
    if s == [] then 0
    else if !p(s[0]) then RunCount(s[1..], p)
    else
      var j := RunEnd(s, 0, p);
      assert forall i :: 0 <= i < |s| - j ==> s[j..][i] == s[j + i];
      1 + RunCount(s[j..], p)
  }

  /** The maximal runs of characters satisfying `p`, in order. */
  function Runs(s: string, p: char -> bool): (runs: seq<string>)
    ensures s != [] && p(s[0]) ==> runs != []
    decreases |s|
  {
    if s == [] then []
    else if !p(s[0]) then Runs(s[1..], p)
    else
      var rest := Runs(s[1..], p);
      if |s| == 1 || !p(s[1]) then [[s[0]]] + rest
      else [[s[0]] + rest[0]] + rest[1..]
  }

  /** A leading run of length `j` is the first of the runs. */
  lemma {:induction false} RunsOfRun(s: string, j: nat, p: char -> bool)
    requires 0 < j <= |s|
    requires forall k :: 0 <= k < j ==> p(s[k])
    requires j < |s| ==> !p(s[j])
    ensures Runs(s, p) == [s[..j]] + Runs(s[j..], p)
    decreases j
  {
    if j == 1 {
      assert s[..1] == [s[0]];
    } else {
      var t := s[1..];
      RunsOfRun(t, j - 1, p);
      assert t[..j - 1] == s[1..j];
      assert t[j - 1..] == s[j..];
      assert s[..j] == [s[0]] + s[1..j];
    }
  }

  /** Characters outside `p` at the front start no run. */
  lemma {:induction false} RunsSkip(s: string, j: nat, p: char -> bool)
    requires j <= |s|
    requires forall k :: 0 <= k < j ==> !p(s[k])
    ensures Runs(s, p) == Runs(s[j..], p)
    decreases j
  {
    if j > 0 {
      RunsSkip(s[1..], j - 1, p);
      assert s[1..][j - 1..] == s[j..];
    }
  }

  /** Characters outside `p` at the end start no run. */
  lemma {:induction false} RunsDropTrailing(s: string, n: nat, p: char -> bool)
    requires n <= |s|
    requires forall k :: n <= k < |s| ==> !p(s[k])
    ensures Runs(s, p) == Runs(s[..n], p)
    decreases |s|
  {
    if s == [] {
    } else if n == 0 {
      RunsSkip(s, |s|, p);
      assert s[|s|..] == [] == s[..0];
    } else {
      var t := s[1..];
      RunsDropTrailing(t, n - 1, p);
      assert s[..n][1..] == t[..n - 1];
      if n == 1 && |s| > 1 {
        assert !p(s[1]);
      }
    }
  }

  /** The runs of a leading run followed by a stretch outside `p`. */
  lemma RunsAfterSeparator(s: string, i: nat, j: nat, p: char -> bool)
    requires i <= j <= |s|
    requires forall k :: 0 <= k < i ==> p(s[k])
    requires forall k :: i <= k < j ==> !p(s[k])
    requires i < j || j == |s|
    ensures Runs(s, p) == (if i == 0 then [] else [s[..i]]) + Runs(s[j..], p)
  {
    if i == 0 {
      RunsSkip(s, j, p);
    } else {
      RunsOfRun(s, i, p);
      RunsSkip(s[i..], j - i, p);
      assert s[i..][j - i..] == s[j..];
    }
  }

  /** There is one run per maximal run that `RunCount` counts. */
  lemma {:induction false} RunsCount(s: string, p: char -> bool)
    ensures |Runs(s, p)| == RunCount(s, p)
    decreases |s|
  {
    if s != [] {
      if !p(s[0]) {
        RunsCount(s[1..], p);
      } else {
        var j := RunEnd(s, 0, p);
        RunsOfRun(s, j, p);
        RunsCount(s[j..], p);
      }
    }
  }

  /** Trimming white-space changes no run of non-white-space characters. */
  lemma RunsOfTrim(s: string)
    ensures Runs(Trim(s), NotSpace) == Runs(s, NotSpace)
  {
    var t := TrimStart(s);
    RunsSkip(s, |s| - |t|, NotSpace);
    var u := TrimEnd(t);
    RunsDropTrailing(t, |u|, NotSpace);
  }

  /** `ws.map(w => w.toLowerCase())`. */
  function LowerAll(ws: seq<string>): (r: seq<string>)
    ensures |r| == |ws|
    ensures forall k :: 0 <= k < |ws| ==> r[k] == Lower(ws[k])
  {
    if ws == [] then [] else [Lower(ws[0])] + LowerAll(ws[1..])
  }

  /** The words of lower-cased text are the lower-cased words. */
  lemma {:induction false} RunsOfLower(s: string)
    ensures Runs(Lower(s), NotSpace) == LowerAll(Runs(s, NotSpace))
    decreases |s|
  {
    if s != [] {
      var t := s[1..];
      RunsOfLower(t);
      assert Lower(s)[1..] == Lower(t);
      if NotSpace(s[0]) {
        var r := Runs(t, NotSpace);
        assert Lower([s[0]]) == [LowerChar(s[0])];
        if |s| > 1 && NotSpace(s[1]) {
          LowerAppend([s[0]], r[0]);
          assert LowerAll([[s[0]] + r[0]] + r[1..]) == [Lower([s[0]] + r[0])] + LowerAll(r)[1..];
        } else {
          assert LowerAll([[s[0]]] + r) == [Lower([s[0]])] + LowerAll(r);
        }
      }
    }
  }

  /** `c => !p(c)`. */
  function Not(p: char -> bool): char -> bool {
    c => !p(c)
  }

  /**
   * `s.split(re)` where `re` matches maximal runs of characters outside
   * `keep`: dropping the empty pieces leaves exactly the runs of `keep`.
   */
  function Split(s: string, keep: char -> bool): (pieces: seq<string>)
    ensures |pieces| >= 1
    ensures forall k :: 0 <= k < |pieces| ==> forall i :: 0 <= i < |pieces[k]| ==> keep(pieces[k][i]) && pieces[k][i] in s
    ensures NonEmpty(pieces) == Runs(s, keep)
    ensures |pieces| == RunCount(s, Not(keep)) + 1
    decreases |s|
  {
    var i := RunEnd(s, 0, keep);
    if i == |s| then
      RunsAfterSeparator(s, i, i, keep);
      assert s[..i] == s;
      NoSeparatorRun(s, keep);
      [s]
    else
      var j := RunEnd(s, i, Not(keep));
      SeparatorRunEnd(s, i, keep);
      SplitStep(s, i, j, keep, Split(s[j..], keep));
      [s[..i]] + Split(s[j..], keep)
  }

  /** The separator run that starts at `i` holds no kept character and ends at one. */
  lemma SeparatorRunEnd(s: string, i: nat, keep: char -> bool)
    requires i < |s| && !keep(s[i])
    ensures var j := RunEnd(s, i, Not(keep));
      i < j && (forall k :: i <= k < j ==> !keep(s[k])) && (j < |s| ==> keep(s[j]))
  {
    var j := RunEnd(s, i, Not(keep));
    NotOf(keep, s[i]);
    forall k | i <= k < j ensures !keep(s[k]) {
      NotOf(keep, s[k]);
    }
    if j < |s| {
      NotOf(keep, s[j]);
    }
  }

  /** The pieces of `s` are its leading word followed by the pieces after the separator run. */
  lemma SplitStep(s: string, i: nat, j: nat, keep: char -> bool, rest: seq<string>)
    requires i < j <= |s|
    requires forall k :: 0 <= k < i ==> keep(s[k])
    requires forall k :: i <= k < j ==> !keep(s[k])
    requires j < |s| ==> keep(s[j])
    requires |rest| >= 1
    requires forall k :: 0 <= k < |rest| ==> forall m :: 0 <= m < |rest[k]| ==> keep(rest[k][m]) && rest[k][m] in s[j..]
    requires NonEmpty(rest) == Runs(s[j..], keep)
    requires |rest| == RunCount(s[j..], Not(keep)) + 1
    ensures var pieces := [s[..i]] + rest;
      (forall k :: 0 <= k < |pieces| ==> forall m :: 0 <= m < |pieces[k]| ==> keep(pieces[k][m]) && pieces[k][m] in s)
      && NonEmpty(pieces) == Runs(s, keep)
      && |pieces| == RunCount(s, Not(keep)) + 1
  {
    var pieces := [s[..i]] + rest;
    assert forall c :: c in s[j..] ==> c in s;
    RunsAfterSeparator(s, i, j, keep);
    SeparatorRunCount(s, i, j, keep);
    assert pieces[1..] == rest;
    forall k | 0 <= k < |pieces| ensures forall m :: 0 <= m < |pieces[k]| ==> keep(pieces[k][m]) && pieces[k][m] in s {
      if k > 0 {
        assert pieces[k] == rest[k - 1];
      }
    }
  }

  lemma NotOf(keep: char -> bool, c: char)
    ensures Not(keep)(c) == !keep(c)
  {
  }

  /** Text made only of kept characters has no separator run. */
  lemma NoSeparatorRun(s: string, keep: char -> bool)
    requires forall k :: 0 <= k < |s| ==> keep(s[k])
    ensures RunCount(s, Not(keep)) == 0
  {
    forall k | 0 <= k < |s| ensures !Not(keep)(s[k]) {
      NotOf(keep, s[k]);
    }
  }

  /** A word, then a separator run: one separator run more than after it. */
  lemma SeparatorRunCount(s: string, i: nat, j: nat, keep: char -> bool)
    requires i < j <= |s|
    requires forall k :: 0 <= k < i ==> keep(s[k])
    requires forall k :: i <= k < j ==> !keep(s[k])
    requires j < |s| ==> keep(s[j])
    ensures RunCount(s, Not(keep)) == 1 + RunCount(s[j..], Not(keep))
  {
    SkipWord(s, i, keep);
    var t := s[i..];
    assert forall k :: 0 <= k < j - i ==> t[k] == s[i + k];
    assert j - i < |t| ==> t[j - i] == s[j];
    LeadingSeparator(t, j - i, keep);
    assert t[j - i..] == s[j..];
  }

  /** Kept characters before the first separator do not change the count of separator runs. */
  lemma SkipWord(s: string, i: nat, keep: char -> bool)
    requires i <= |s|
    requires forall k :: 0 <= k < i ==> keep(s[k])
    ensures RunCount(s, Not(keep)) == RunCount(s[i..], Not(keep))
  {
    var q := Not(keep);
    forall k | 0 <= k < i ensures !q(s[k]) {
      NotOf(keep, s[k]);
    }
    RunsSkip(s, i, q);
    RunsCount(s, q);
    RunsCount(s[i..], q);
  }

  /** A leading separator run of length `n` is one run. */
  lemma LeadingSeparator(t: string, n: nat, keep: char -> bool)
    requires 0 < n <= |t|
    requires forall k :: 0 <= k < n ==> !keep(t[k])
    requires n < |t| ==> keep(t[n])
    ensures RunCount(t, Not(keep)) == 1 + RunCount(t[n..], Not(keep))
  {
    var q := Not(keep);
    forall k | 0 <= k < n ensures q(t[k]) {
      NotOf(keep, t[k]);
    }
    if n < |t| {
      NotOf(keep, t[n]);
    }
    RunsOfRun(t, n, q);
    RunsCount(t, q);
    RunsCount(t[n..], q);
  }

  function NonEmpty(pieces: seq<string>): (r: seq<string>)
    ensures forall k :: 0 <= k < |r| ==> r[k] != ""
    ensures |r| <= |pieces|
  {
    if pieces == [] then []
    else if pieces[0] == "" then NonEmpty(pieces[1..])
    else [pieces[0]] + NonEmpty(pieces[1..])
  }

  function DigitChar(d: nat): (c: char)
    requires d < 10
    ensures IsDigit(c)
  {
    ('0' as int + d) as char
  }

  function DigitValue(c: char): (d: nat)
    requires IsDigit(c)
    ensures d < 10
  {
    c as int - '0' as int
  }

  /** The value of a string of decimal digits. */
  function DecimalValue(s: string): nat
    requires AllDigits(s)
  {
    if s == [] then 0 else DecimalValue(s[..|s| - 1]) * 10 + DigitValue(s[|s| - 1])
  }

  /** Decimal rendering of a natural number, without leading zeros. */
  function NatToString(n: nat): (s: string)
    ensures |s| > 0 && AllDigits(s)
    ensures |s| > 1 ==> s[0] != '0'
  {
    if n < 10 then [DigitChar(n)] else NatToString(n / 10) + [DigitChar(n % 10)]
  }

  /** Reading back a rendered number gives the number. */
  lemma {:induction false} DecimalOfNatToString(n: nat)
    ensures DecimalValue(NatToString(n)) == n
  {
    if n >= 10 {
      DecimalOfNatToString(n / 10);
      var s := NatToString(n);
      assert s[..|s| - 1] == NatToString(n / 10);
    }
  }

  /** `s < t` on two strings: lexicographic order of their characters. */
  predicate LexLess(s: string, t: string)
    decreases |s|
  {
    t != [] && (s == [] || s[0] < t[0] || (s[0] == t[0] && LexLess(s[1..], t[1..])))
  }

  /** Exactly one of `s < t`, `t < s` and `s == t` holds. */
  lemma {:induction false} LexTrichotomy(s: string, t: string)
    ensures LexLess(s, t) || LexLess(t, s) || s == t
    ensures !(LexLess(s, t) && LexLess(t, s))
    ensures s == t ==> !LexLess(s, t)
    decreases |s|
  {
    if s != [] && t != [] && s[0] == t[0] {
      LexTrichotomy(s[1..], t[1..]);
      if s[1..] == t[1..] {
        assert s == [s[0]] + s[1..] && t == [t[0]] + t[1..];
      }
    }
  }

  lemma {:induction false} LexTransitive(s: string, t: string, u: string)
    requires LexLess(s, t) && LexLess(t, u)
    ensures LexLess(s, u)
    decreases |s|
  {
    if s != [] && s[0] == t[0] && t[0] == u[0] {
      LexTransitive(s[1..], t[1..], u[1..]);
    }
  }
}
