/**
 * The text fingerprint of a post (`composePostText`, `computeFingerprint`):
 * which text a post is judged by, and the counts of words, characters,
 * sentences, emoji, hashtags, mentions, links and calls to action in it.
 */
module PostFingerprint {
  import opened Text
  import opened Js
  import opened JsObject
  import opened Seqs
  import opened Patterns

  /** `safeText(value)`: strings are kept, anything else reads as the empty string. */
  function SafeText(v: Value): (s: string)
    ensures v.Str? ==> s == v.s
    ensures !v.Str? ==> s == ""
  {
    if v.Str? then v.s else ""
  }

  // ---------------------------------------------------------------------
  // composePostText

  const PostTextFields: seq<string> := ["post body", "body", "text", "content", "post text", "description", "post title", "title"]

  /** Some character is not white-space, so trimming leaves something. */
  predicate HasNonSpace(s: string) {
    exists i :: 0 <= i < |s| && !IsSpace(s[i])
  }

  /** A field value a post's text can come from: a string that is not blank. */
  predicate HasText(v: Value) {
    v.Str? && HasNonSpace(v.s)
  }

  /** The early-return search of `composePostText` over `fields`: empty, or a text with a non-blank character. */
  function FirstText(rec: Record, fields: seq<string>): (r: string)
    ensures r == "" || HasNonSpace(r)
  {
    if fields == [] then ""
    else
      var v := Get(rec, fields[0]);
      TruthyTextHasText(v);
      if Truthy(v) && Trim(SafeText(v)) != "" then SafeText(v) else FirstText(rec, fields[1..])
  }

  /** `composePostText(rec)`; `None` is a missing record, whose text is empty. */
  function ComposePostText(rec: Option<Record>): (r: string)
    ensures rec.None? ==> r == ""
    ensures r == "" || HasNonSpace(r)
  {
    if rec.None? then "" else FirstText(rec.value, PostTextFields)
  }

  /** The truthiness test before `safeText` lets through exactly the values that have text. */
  lemma TruthyTextHasText(v: Value)
    ensures Truthy(v) && Trim(SafeText(v)) != "" <==> HasText(v)
  {
    TrimBlank(SafeText(v));
  }

  /** The search yields the untrimmed value of the first field that has text. */
  lemma {:induction false} FirstTextPicksFirst(rec: Record, fields: seq<string>, i: nat)
    requires i < |fields| && HasText(Get(rec, fields[i]))
    requires forall j :: 0 <= j < i ==> !HasText(Get(rec, fields[j]))
    ensures FirstText(rec, fields) == Get(rec, fields[i]).s
  {
    TruthyTextHasText(Get(rec, fields[0]));
    if i > 0 {
      forall j | 0 <= j < i - 1 ensures !HasText(Get(rec, fields[1..][j])) {
        assert fields[1..][j] == fields[j + 1];
      }
      FirstTextPicksFirst(rec, fields[1..], i - 1);
    }
  }

  /** It yields the empty string exactly when no field has text. */
  lemma {:induction false} FirstTextEmpty(rec: Record, fields: seq<string>)
    ensures FirstText(rec, fields) == "" <==> forall i :: 0 <= i < |fields| ==> !HasText(Get(rec, fields[i]))
  {
    if fields != [] {
      TruthyTextHasText(Get(rec, fields[0]));
      FirstTextEmpty(rec, fields[1..]);
      assert forall i :: 1 <= i < |fields| ==> fields[1..][i - 1] == fields[i];
    }
  }

  /** A post's text is the untrimmed value of the first of its body, title and similar fields that has text. */
  lemma ComposePostTextPicksFirst(rec: Record, i: nat)
    requires i < |PostTextFields| && HasText(Get(rec, PostTextFields[i]))
    requires forall j :: 0 <= j < i ==> !HasText(Get(rec, PostTextFields[j]))
    ensures ComposePostText(Some(rec)) == Get(rec, PostTextFields[i]).s
  {
    FirstTextPicksFirst(rec, PostTextFields, i);
  }

  /** A post's text is empty exactly when none of those fields has text, and always for a missing record. */
  lemma ComposePostTextEmpty(rec: Option<Record>)
    ensures ComposePostText(rec) == "" <==>
      rec.None? || forall i :: 0 <= i < |PostTextFields| ==> !HasText(Get(rec.value, PostTextFields[i]))
  {
    if rec.Some? {
      FirstTextEmpty(rec.value, PostTextFields);
    }
  }

  // ---------------------------------------------------------------------
  // Sentences

  predicate NotTerminator(c: char) {
    c != '.' && c != '!' && c != '?'
  }

  /**
   * The matches of the global pattern `[^.!?]+[.!?]?`: each maximal run of
   * characters other than `.`, `!` and `?`, with the terminator that follows
   * it when there is one; terminators that follow no such run are skipped.
   */
  function SentenceMatches(s: string): seq<string>
    decreases |s|
  {
    if s == [] then []
    else if !NotTerminator(s[0]) then SentenceMatches(s[1..])
    else
      var j := RunEnd(s, 0, NotTerminator);
      var e := if j < |s| then j + 1 else j;
      [s[..e]] + SentenceMatches(s[e..])
  }

  /** One match per maximal run of non-terminators. */
  lemma {:induction false} SentenceMatchesAreRuns(s: string)
    ensures |SentenceMatches(s)| == RunCount(s, NotTerminator)
    decreases |s|
  {
    if s != [] && NotTerminator(s[0]) {
      var j := RunEnd(s, 0, NotTerminator);
      if j < |s| {
        SentenceMatchesAreRuns(s[j + 1..]);
        assert s[j..] != [] && !NotTerminator(s[j..][0]);
        assert s[j..][1..] == s[j + 1..];
      } else {
        SentenceMatchesAreRuns(s[j..]);
      }
    } else if s != [] {
      SentenceMatchesAreRuns(s[1..]);
    }
  }

  /** `s.trim().length > 0`. */
  predicate NonBlank(s: string) {
    |Trim(s)| > 0
  }

  predicate EndsNonBlank(s: string) {
    s == [] || !IsSpace(s[|s| - 1])
  }

  /** In a text that does not end in white-space, every match ends in a terminator or a non-space. */
  lemma {:induction false} SentenceMatchesHaveText(s: string)
    requires EndsNonBlank(s)
    ensures forall k :: 0 <= k < |SentenceMatches(s)| ==> HasNonSpace(SentenceMatches(s)[k])
    decreases |s|
  {
    if s != [] && NotTerminator(s[0]) {
      var j := RunEnd(s, 0, NotTerminator);
      var e := if j < |s| then j + 1 else j;
      var m := s[..e];
      assert m[e - 1] == s[e - 1] && !IsSpace(m[e - 1]);
      assert s[e..] == [] || s[e..][|s[e..]| - 1] == s[|s| - 1];
      SentenceMatchesHaveText(s[e..]);
    } else if s != [] {
      assert s[1..] == [] || s[1..][|s[1..]| - 1] == s[|s| - 1];
      SentenceMatchesHaveText(s[1..]);
    }
  }

  /** `normalized.match(SENTENCE_REGEX) || []`, then the non-blank sentences. */
  function SentenceCount(normalized: string): nat {
    if normalized == "" then 0 else |Filter(SentenceMatches(normalized), NonBlank)|
  }

  /** For trimmed text the sentence count is the number of maximal runs of non-terminators. */
  lemma SentenceCountIsRuns(normalized: string)
    requires IsTrimmed(normalized)
    ensures SentenceCount(normalized) == RunCount(normalized, NotTerminator)
  {
    if normalized != "" {
      var matches := SentenceMatches(normalized);
      SentenceMatchesHaveText(normalized);
      forall k | 0 <= k < |matches| ensures NonBlank(matches[k]) {
        TrimBlank(matches[k]);
      }
      FilterAll(matches, NonBlank);
      SentenceMatchesAreRuns(normalized);
    }
  }

  // ---------------------------------------------------------------------
  // computeFingerprint

  const CtaPatterns: seq<Regex> := [
    Regex("apply now", "gi"), Regex("sign up", "gi"), Regex("book a demo", "gi"), Regex("get started", "gi"),
    Regex("join the waitlist", "gi"), Regex("download (?:the )?(?:guide|whitepaper|report)", "gi"),
    Regex("register today", "gi"), Regex("learn more", "gi")
  ]

  const LinkRegex := Regex("https?:\\/\\/[^\\s)]+", "gi")
  const HashtagRegex := Regex("#[\\p{L}0-9_]+", "giu")
  const MentionRegex := Regex("@[\\w.%-]+", "g")
  const EmojiRegex := Regex("[\\p{Extended_Pictographic}]", "gu")

  /** `countMatches(text, regex)` for a pattern that is already global. */
  function CountMatches(m: Matcher, text: string, r: Regex): nat {
    if text == "" then 0 else m(r, text)
  }

  /** `patterns.reduce((sum, p) => sum + countMatches(text, p), 0)`. */
  function CountAll(m: Matcher, text: string, patterns: seq<Regex>): nat {
    if patterns == [] then 0
    else CountAll(m, text, patterns[..|patterns| - 1]) + CountMatches(m, text, patterns[|patterns| - 1])
  }

  /** The total is 0 exactly when no pattern matches; in particular an empty text counts nothing. */
  lemma {:induction false} CountAllZero(m: Matcher, text: string, patterns: seq<Regex>)
    ensures CountAll(m, text, patterns) == 0 <==> forall i :: 0 <= i < |patterns| ==> CountMatches(m, text, patterns[i]) == 0
    ensures text == "" ==> CountAll(m, text, patterns) == 0
  {
    if patterns != [] {
      var init := patterns[..|patterns| - 1];
      CountAllZero(m, text, init);
      assert forall i :: 0 <= i < |init| ==> init[i] == patterns[i];
    }
  }

  predicate HasMediaWord(t: string) {
    Contains(t, "video") || Contains(t, "image") || Contains(t, "rich") || Contains(t, "carousel") || Contains(t, "document")
  }

  /**
   * `Boolean(typeHint && /video|image|rich|carousel|document/i.test(typeHint))`.
   * A case-insensitive match of these ASCII words is a match in the ASCII
   * lower-case form: without the `u` flag no other character folds to them.
   */
  predicate HasMedia(typeHint: Value)
    ensures HasMedia(typeHint) ==> Truthy(typeHint) && |ToJsString(typeHint)| >= 4
  {
    Truthy(typeHint) && HasMediaWord(Lower(ToJsString(typeHint)))
  }

  datatype Fingerprint = Fingerprint(
    wordCount: nat,
    charCount: nat,
    sentenceCount: nat,
    emojiCount: nat,
    hashtagCount: nat,
    mentionCount: nat,
    linkCount: nat,
    ctaCount: nat,
    hasMedia: bool)

  /** `normalized.split(/\s+/).filter(Boolean)`, or none for empty text. */
  function Words(normalized: string): (words: seq<string>)
    ensures words == Runs(normalized, NotSpace)
    ensures |words| == RunCount(normalized, NotSpace)
  {
    RunsCount(normalized, NotSpace);
    if normalized == "" then [] else NonEmpty(Split(normalized, NotSpace))
  }

  /**
   * `computeFingerprint(text, typeHint)`. The word count is the number of
   * maximal non-white-space runs of the trimmed text, and the character
   * count is that text's length, so there are never more words than
   * characters.
   */
  function ComputeFingerprint(m: Matcher, text: Value, typeHint: Value): (fp: Fingerprint)
    ensures fp.wordCount == RunCount(Trim(SafeText(text)), NotSpace)
    ensures fp.charCount == |Trim(SafeText(text))| && fp.wordCount <= fp.charCount
    ensures fp.hasMedia == HasMedia(typeHint)
  {
    var normalized := Trim(SafeText(text));
    Fingerprint(
      |Words(normalized)|,
      |normalized|,
      SentenceCount(normalized),
      CountMatches(m, normalized, EmojiRegex),
      CountMatches(m, normalized, HashtagRegex),
      CountMatches(m, normalized, MentionRegex),
      CountMatches(m, normalized, LinkRegex),
      CountAll(m, normalized, CtaPatterns),
      HasMedia(typeHint))
  }

  /** Text that is not a string, or only white-space, has every count 0. */
  lemma BlankTextCountsNothing(m: Matcher, text: Value, typeHint: Value)
    requires !HasText(text)
    ensures var fp := ComputeFingerprint(m, text, typeHint);
      fp.wordCount == 0 && fp.charCount == 0 && fp.sentenceCount == 0 && fp.emojiCount == 0
      && fp.hashtagCount == 0 && fp.mentionCount == 0 && fp.linkCount == 0 && fp.ctaCount == 0
      && fp.hasMedia == HasMedia(typeHint)
  {
    var normalized := Trim(SafeText(text));
    TrimBlank(SafeText(text));
    CountAllZero(m, normalized, CtaPatterns);
    var fp := ComputeFingerprint(m, text, typeHint);
    assert fp.wordCount == 0 && fp.charCount == 0 && fp.sentenceCount == 0;
    assert fp.ctaCount == 0;
  }

  /** The sentence count is the number of maximal runs of characters other than `.`, `!` and `?`. */
  lemma SentencesAreRuns(m: Matcher, text: Value, typeHint: Value)
    ensures ComputeFingerprint(m, text, typeHint).sentenceCount == RunCount(Trim(SafeText(text)), NotTerminator)
  {
    SentenceCountIsRuns(Trim(SafeText(text)));
  }

  /** No call to action is counted exactly when none of the eight patterns matches the trimmed text. */
  lemma CtaCountZero(m: Matcher, text: Value, typeHint: Value)
    ensures ComputeFingerprint(m, text, typeHint).ctaCount == 0 <==>
      forall i :: 0 <= i < |CtaPatterns| ==> CountMatches(m, Trim(SafeText(text)), CtaPatterns[i]) == 0
  {
    CountAllZero(m, Trim(SafeText(text)), CtaPatterns);
  }

  /** The media test ignores case. */
  lemma HasMediaIgnoresCase(s: string)
    ensures HasMedia(Str(Lower(s))) == HasMedia(Str(s))
  {
    LowerIdempotent(s);
  }

  /** A missing or empty type hint never has media. */
  lemma NoHintNoMedia()
    ensures !HasMedia(Nil) && !HasMedia(Str(""))
  {
  }

  /** An upper-case "VIDEO" hint has media. */
  lemma UpperCaseVideoHasMedia()
    ensures HasMedia(Str("VIDEO"))
  {
    var l := Lower("VIDEO");
    assert l[0] == 'v' && l[1] == 'i' && l[2] == 'd' && l[3] == 'e' && l[4] == 'o';
    assert l == "video";
    assert StartsWith(l[0..], "video");
  }
}
