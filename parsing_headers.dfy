/**
 * Header normalisation during upload (`normalizeHeader`).
 */
module ParsingHeaders {
  import opened Text
  import opened Js

  /** `s.replace(/\n/g, ' ')`. */
  function ReplaceNewlines(s: string): (r: string)
  {
    if s == [] then [] else [if s[0] == '\n' then ' ' else s[0]] + ReplaceNewlines(s[1..])
  }

  /** Each newline becomes a space and every other character stays in place. */
  lemma {:induction false} ReplaceNewlinesAt(s: string)
    ensures |ReplaceNewlines(s)| == |s|
    ensures forall i :: 0 <= i < |s| ==> ReplaceNewlines(s)[i] == if s[i] == '\n' then ' ' else s[i]
  {
    if s != [] {
      ReplaceNewlinesAt(s[1..]);
    }
  }

  /** Replacing newlines, which are white-space, by spaces changes no word. */
  lemma {:induction false} RunsOfReplaceNewlines(s: string)
    ensures Runs(ReplaceNewlines(s), NotSpace) == Runs(s, NotSpace)
    decreases |s|
  {
    if s != [] {
      RunsOfReplaceNewlines(s[1..]);
      assert ReplaceNewlines(s)[1..] == ReplaceNewlines(s[1..]);
      if |s| > 1 {
        assert ReplaceNewlines(s[1..])[0] == if s[1] == '\n' then ' ' else s[1];
      }
    }
  }

  lemma {:induction false} ReplaceNewlinesWithoutNewline(s: string)
    requires '\n' !in s
    ensures ReplaceNewlines(s) == s
  {
    if s != [] {
      ReplaceNewlinesWithoutNewline(s[1..]);
    }
  }

  /** Every white-space character is a plain space, and none is followed by another. */
  ghost predicate Collapsed(s: string) {
    (forall i :: 0 <= i < |s| && IsSpace(s[i]) ==> s[i] == ' ')
    && (forall i, j :: 0 <= i < j < |s| && j == i + 1 ==> !(IsSpace(s[i]) && IsSpace(s[j])))
  }

  /**
   * `s.replace(/\s+/g, ' ')`: every white-space run becomes one plain space
   * and the words between the runs are kept, so the result has the text's
   * words, starts and ends with white-space exactly when the text does, and
   * is collapsed.
   */
  function CollapseSpaces(s: string): (r: string)
    ensures |r| <= |s|
    ensures r == [] <==> s == []
    ensures r != [] ==> (IsSpace(r[0]) <==> IsSpace(s[0]))
    ensures r != [] ==> (IsSpace(r[|r| - 1]) <==> IsSpace(s[|s| - 1]))
    ensures Runs(r, NotSpace) == Runs(s, NotSpace)
    ensures Collapsed(r)
    decreases |s|
  {
    if s == [] then []
    else if IsSpace(s[0]) then
      var j := RunEnd(s, 0, IsSpace);
      var t := CollapseSpaces(s[j..]);
      CollapseAfterSpaces(s, j, t);
      [' '] + t
    else
      var t := CollapseSpaces(s[1..]);
      CollapseAfterWordChar(s, t);
      [s[0]] + t
  }

  /** One space for a leading white-space run `s[..j]`, followed by `t`, the collapsed rest. */
  lemma CollapseAfterSpaces(s: string, j: nat, t: string)
    requires 0 < j <= |s|
    requires forall k :: 0 <= k < j ==> IsSpace(s[k])
    requires j < |s| ==> !IsSpace(s[j])
    requires |t| <= |s[j..]| && (t == [] <==> s[j..] == [])
    requires t != [] ==> (IsSpace(t[0]) <==> IsSpace(s[j..][0]))
    requires t != [] ==> (IsSpace(t[|t| - 1]) <==> IsSpace(s[j..][|s[j..]| - 1]))
    requires Runs(t, NotSpace) == Runs(s[j..], NotSpace)
    requires Collapsed(t)
    ensures var r := [' '] + t;
      |r| <= |s| && IsSpace(r[0]) && (IsSpace(r[|r| - 1]) <==> IsSpace(s[|s| - 1]))
      && Runs(r, NotSpace) == Runs(s, NotSpace) && Collapsed(r)
  {
    var r := [' '] + t;
    RunsSkip(s, j, NotSpace);
    RunsAfterSpace(' ', t);
    if t != [] {
      assert s[j..][0] == s[j];
      assert r[|r| - 1] == t[|t| - 1];
      assert s[j..][|s[j..]| - 1] == s[|s| - 1];
    }
    forall i | 0 <= i < |r| && IsSpace(r[i])
      ensures r[i] == ' ' && (i + 1 < |r| ==> !IsSpace(r[i + 1]))
    {
      if i > 0 {
        assert r[i] == t[i - 1];
      }
    }
  }

  /** A leading word character is kept, followed by `t`, the collapsed rest. */
  lemma CollapseAfterWordChar(s: string, t: string)
    requires s != [] && NotSpace(s[0])
    requires |t| <= |s[1..]| && (t == [] <==> s[1..] == [])
    requires t != [] ==> (IsSpace(t[0]) <==> IsSpace(s[1..][0]))
    requires t != [] ==> (IsSpace(t[|t| - 1]) <==> IsSpace(s[1..][|s[1..]| - 1]))
    requires Runs(t, NotSpace) == Runs(s[1..], NotSpace)
    requires Collapsed(t)
    ensures var r := [s[0]] + t;
      |r| <= |s| && (IsSpace(r[|r| - 1]) <==> IsSpace(s[|s| - 1]))
      && Runs(r, NotSpace) == Runs(s, NotSpace) && Collapsed(r)
  {
    var r := [s[0]] + t;
    assert s == [s[0]] + s[1..];
    RunsAfterWordChar(s[0], t, s[1..]);
    if t != [] {
      assert r[|r| - 1] == t[|t| - 1];
      assert s[1..][|s[1..]| - 1] == s[|s| - 1];
    }
    forall i | 0 <= i < |r| && IsSpace(r[i])
      ensures r[i] == ' ' && (i + 1 < |r| ==> !IsSpace(r[i + 1]))
    {
      assert i > 0 && r[i] == t[i - 1];
    }
  }

  /** A leading white-space character starts no word. */
  lemma RunsAfterSpace(c: char, x: string)
    requires IsSpace(c)
    ensures Runs([c] + x, NotSpace) == Runs(x, NotSpace)
  {
    assert ([c] + x)[1..] == x;
  }

  /** Two texts with the same words and the same kind of first character keep the same words behind a word character. */
  lemma RunsAfterWordChar(c: char, x: string, y: string)
    requires NotSpace(c)
    requires Runs(x, NotSpace) == Runs(y, NotSpace)
    requires (x == [] || IsSpace(x[0])) <==> (y == [] || IsSpace(y[0]))
    ensures Runs([c] + x, NotSpace) == Runs([c] + y, NotSpace)
  {
    assert ([c] + x)[1..] == x;
    assert ([c] + y)[1..] == y;
  }

  lemma {:induction false} CollapseOfCollapsed(s: string)
    requires Collapsed(s)
    ensures CollapseSpaces(s) == s
    decreases |s|
  {
    if s != [] {
      CollapsedSlice(s, 1, |s|);
      CollapseOfCollapsed(s[1..]);
      if IsSpace(s[0]) {
        CollapseOfLoneSpace(s);
      } else {
        CollapseOfWordChar(s);
      }
    }
  }

  /** A lone leading space stays one space. */
  lemma CollapseOfLoneSpace(s: string)
    requires Collapsed(s) && s != [] && IsSpace(s[0])
    requires CollapseSpaces(s[1..]) == s[1..]
    ensures CollapseSpaces(s) == s
  {
    assert RunEnd(s, 0, IsSpace) == 1 by {
      if |s| > 1 {
        assert !IsSpace(s[1]);
      }
    }
    assert s == [' '] + s[1..];
  }

  /** A leading word character stays in place. */
  lemma CollapseOfWordChar(s: string)
    requires s != [] && NotSpace(s[0])
    requires CollapseSpaces(s[1..]) == s[1..]
    ensures CollapseSpaces(s) == s
  {
  }

  lemma CollapsedSlice(s: string, a: nat, b: nat)
    requires Collapsed(s) && a <= b <= |s|
    ensures Collapsed(s[a..b])
  {
    forall i | 0 <= i < b - a && IsSpace(s[a..b][i])
      ensures s[a..b][i] == ' ' && (i + 1 < b - a ==> !IsSpace(s[a..b][i + 1]))
    {
      assert s[a..b][i] == s[a + i];
    }
  }

  lemma CollapsedTrim(s: string)
    requires Collapsed(s)
    ensures Collapsed(Trim(s))
  {
    var t := TrimStart(s);
    CollapsedSlice(s, |s| - |t|, |s|);
    CollapsedSlice(t, 0, |TrimEnd(t)|);
  }

  lemma CollapsedLower(s: string)
    requires Collapsed(s)
    ensures Collapsed(Lower(s))
  {
  }

  lemma LowerKeepsShape(t: string)
    requires Collapsed(t) && IsTrimmed(t)
    ensures Collapsed(Lower(t)) && IsTrimmed(Lower(t)) && NoUpperCase(Lower(t))
  {
    CollapsedLower(t);
    if t != [] {
      assert Lower(t)[0] == LowerChar(t[0]);
      assert Lower(t)[|t| - 1] == LowerChar(t[|t| - 1]);
    }
  }

  /** Collapsed, trimmed text is its words joined by single spaces. */
  lemma {:induction false} CollapsedIsJoinedWords(r: string)
    requires Collapsed(r) && IsTrimmed(r)
    ensures r == Join(Runs(r, NotSpace), " ")
    decreases |r|
  {
    if |r| == 1 {
    } else if |r| > 1 {
      var t := r[1..];
      if NotSpace(r[1]) {
        CollapsedSlice(r, 1, |r|);
        CollapsedIsJoinedWords(t);
        var w := Runs(t, NotSpace);
        assert w != [];
        if |w| == 1 {
          assert Join([[r[0]] + w[0]] + w[1..], " ") == [r[0]] + w[0];
        } else {
          assert Join([[r[0]] + w[0]] + w[1..], " ") == ([r[0]] + w[0]) + " " + Join(w[1..], " ");
        }
        assert r == [r[0]] + t;
      } else {
        assert r[1] == ' ' && |r| > 2 && NotSpace(r[2]);
        var u := r[2..];
        CollapsedSlice(r, 2, |r|);
        CollapsedIsJoinedWords(u);
        assert t[1..] == u;
        var w := Runs(u, NotSpace);
        assert w != [];
        assert Join([[r[0]]] + w, " ") == [r[0]] + " " + Join(w, " ");
        assert r == [r[0]] + " " + u;
      }
    }
  }

  /**
   * The text steps of `normalizeHeader`: spaces for newlines, collapsed
   * white-space, trimmed, lower case. The result is the words of the
   * lower-cased text joined by single spaces.
   */
  function NormalizeText(text: string): (r: string)
    ensures Runs(r, NotSpace) == Runs(Lower(text), NotSpace)
    ensures r == Join(Runs(Lower(text), NotSpace), " ")
    ensures Collapsed(r) && IsTrimmed(r) && NoUpperCase(r)
  {
    var c := CollapseSpaces(ReplaceNewlines(text));
    CollapsedTrim(c);
    LowerKeepsShape(Trim(c));
    RunsOfReplaceNewlines(text);
    RunsOfTrim(c);
    RunsOfLower(Trim(c));
    RunsOfLower(text);
    CollapsedIsJoinedWords(Lower(Trim(c)));
    Lower(Trim(c))
  }

  /**
   * `normalizeHeader(h)`: the normalised text of a truthy cell; a falsy cell
   * (including 0) is the empty header.
   */
  function NormalizeHeader(v: Value): (r: string)
    ensures !Truthy(v) ==> r == ""
    ensures Truthy(v) ==> r == Join(Runs(Lower(ToJsString(v)), NotSpace), " ")
    ensures Collapsed(r) && IsTrimmed(r) && NoUpperCase(r)
  {
    assert ReplaceNewlines("") == "";
    NormalizeText(if Truthy(v) then ToJsString(v) else "")
  }

  /** A text already in normal form is its own normal form. */
  lemma NormalizeTextOfNormal(r: string)
    requires Collapsed(r) && IsTrimmed(r) && NoUpperCase(r)
    ensures NormalizeText(r) == r
  {
    assert '\n' !in r by {
      forall i | 0 <= i < |r| ensures r[i] != '\n' {
        if IsSpace(r[i]) {
          assert r[i] == ' ';
        }
      }
    }
    ReplaceNewlinesWithoutNewline(r);
    CollapseOfCollapsed(r);
    TrimOfTrimmed(r);
    LowerOfNoUpperCase(r);
  }

  lemma NormalizeHeaderOfText(s: string)
    ensures NormalizeHeader(Str(s)) == if s == "" then "" else NormalizeText(s)
  {
    assert ToJsString(Str(s)) == s;
  }

  /** Normalising a normalised header changes nothing. */
  lemma NormalizeHeaderIdempotent(v: Value)
    ensures NormalizeHeader(Str(NormalizeHeader(v))) == NormalizeHeader(v)
  {
    var r := NormalizeHeader(v);
    NormalizeHeaderOfText(r);
    if r != "" {
      NormalizeTextOfNormal(r);
    }
  }

  /** A word followed by nothing or by white-space is the first run. */
  lemma WordThen(w: string, rest: string)
    requires w != []
    requires forall i :: 0 <= i < |w| ==> NotSpace(w[i])
    requires rest == [] || IsSpace(rest[0])
    ensures Runs(w + rest, NotSpace) == [w] + Runs(rest, NotSpace)
  {
    var s := w + rest;
    assert forall k :: 0 <= k < |w| ==> NotSpace(s[k]);
    assert |w| < |s| ==> s[|w|] == rest[0];
    RunsOfRun(s, |w|, NotSpace);
    assert s[..|w|] == w;
    assert s[|w|..] == rest;
  }

  /** Leading white-space starts no run. */
  lemma SpacesThen(gap: string, rest: string)
    requires forall i :: 0 <= i < |gap| ==> IsSpace(gap[i])
    ensures Runs(gap + rest, NotSpace) == Runs(rest, NotSpace)
  {
    var s := gap + rest;
    assert forall k :: 0 <= k < |gap| ==> !NotSpace(s[k]);
    RunsSkip(s, |gap|, NotSpace);
    assert s[|gap|..] == rest;
  }

  /** A word, a white-space run, a word and trailing white-space hold exactly the two words. */
  lemma TwoWords(a: string, gap: string, b: string, tail: string)
    requires a != [] && b != [] && gap != []
    requires forall i :: 0 <= i < |a| ==> NotSpace(a[i])
    requires forall i :: 0 <= i < |b| ==> NotSpace(b[i])
    requires forall i :: 0 <= i < |gap| ==> IsSpace(gap[i])
    requires forall i :: 0 <= i < |tail| ==> IsSpace(tail[i])
    ensures Runs(a + gap + b + tail, NotSpace) == [a, b]
  {
    var rest := gap + (b + tail);
    assert a + gap + b + tail == a + rest;
    assert Runs(rest, NotSpace) == Runs(b + tail, NotSpace) by {
      SpacesThen(gap, b + tail);
    }
    assert Runs(b + tail, NotSpace) == [b] by {
      assert Runs(tail + [], NotSpace) == [] by {
        SpacesThen(tail, []);
      }
      assert tail + [] == tail;
      WordThen(b, tail);
    }
    assert rest[0] == gap[0];
    WordThen(a, rest);
  }

  /** The lower-cased cell of the two-line fixture. */
  lemma LowerOfTwoLines(t: string)
    requires t == "Post\nTitle  "
    ensures Lower(t) == "post\ntitle  "
  {
    var l := Lower(t);
    forall i | 0 <= i < |t|
      ensures l[i] == "post\ntitle  "[i]
    {
      assert l[i] == LowerChar(t[i]);
    }
  }

  /** The words of the lower-cased two-line fixture. */
  lemma RunsOfTwoLines()
    ensures Runs("post\ntitle  ", NotSpace) == ["post", "title"]
  {
    assert "post\ntitle  " == "post" + "\n" + "title" + "  ";
    TwoWords("post", "\n", "title", "  ");
  }

  /** Two parts are joined by one separator. */
  lemma JoinTwo(a: string, b: string, sep: string)
    ensures Join([a, b], sep) == a + sep + b
  {
    assert [a, b][1..] == [b];
  }

  /** A truthy cell normalises to its words joined by single spaces. */
  lemma HeaderOfWords(v: Value, words: seq<string>)
    requires Truthy(v) && Runs(Lower(ToJsString(v)), NotSpace) == words
    ensures NormalizeHeader(v) == Join(words, " ")
  {
  }

  /** A header cell spread over two lines with trailing blanks. */
  lemma TwoLineHeader()
    ensures NormalizeHeader(Str("Post\nTitle  ")) == "post title"
  {
    assert Join(["post", "title"], " ") == "post title" by {
      JoinTwo("post", "title", " ");
    }
    var v := Str("Post\nTitle  ");
    assert Truthy(v) && Runs(Lower(ToJsString(v)), NotSpace) == ["post", "title"] by {
      assert ToJsString(v) == "Post\nTitle  ";
      LowerOfTwoLines(ToJsString(v));
      RunsOfTwoLines();
    }
    HeaderOfWords(v, ["post", "title"]);
  }
}
