/**
 * The comparisons on a post's detail page: fingerprint averages over peer
 * posts, the engagement mix of one post and of a cohort, token overlap
 * between texts, and the ranking of similar posts.
 */
module PostDetail {
  import opened Text
  import opened Js
  import opened JsObject
  import opened Seqs
  import opened Sorting
  import ContentClassification

  /** `FINGERPRINT_FIELDS.map(({ key }) => key)`. */
  const FingerprintFields: seq<string> :=
    ["wordCount", "charCount", "sentenceCount", "emojiCount", "hashtagCount", "mentionCount", "linkCount", "ctaCount"]

  /** `post[key] || 0` added up over the posts. */
  function FieldTotal(posts: seq<Record>, key: string): real {
    if posts == [] then 0.0 else FieldTotal(posts[..|posts| - 1], key) + NumOrZero(Get(posts[|posts| - 1], key))
  }

  lemma FieldTotalSnoc(posts: seq<Record>, i: nat, key: string)
    requires i < |posts|
    ensures FieldTotal(posts[..i + 1], key) == FieldTotal(posts[..i], key) + NumOrZero(Get(posts[i], key))
  {
    assert posts[..i + 1][..i] == posts[..i];
  }

  /** When every post's value lies in `[lo, hi]`, so does the mean. */
  lemma {:induction false} FieldTotalBounds(posts: seq<Record>, key: string, lo: real, hi: real)
    requires forall i :: 0 <= i < |posts| ==> lo <= NumOrZero(Get(posts[i], key)) <= hi
    ensures |posts| as real * lo <= FieldTotal(posts, key) <= |posts| as real * hi
  {
    if posts != [] {
      FieldTotalBounds(posts[..|posts| - 1], key, lo, hi);
    }
  }

  // ---------------------------------------------------------------------
  // aggregateFingerprints

  /** `totals[key] || 0`. */
  function TotalOr0(totals: map<string, real>, key: string): real {
    if key in totals then totals[key] else 0.0
  }

  /** The inner `forEach` of `aggregateFingerprints`: add one post's values of `fields` to the totals. */
  method AddFields(totals: map<string, real>, post: Record, fields: seq<string>) returns (next: map<string, real>)
    requires Distinct(fields)
    ensures next.Keys == totals.Keys + Elements(fields)
    ensures forall key :: key in fields ==> next[key] == TotalOr0(totals, key) + NumOrZero(Get(post, key))
    ensures forall key :: key in totals && key !in fields ==> next[key] == totals[key]
  {
    next := totals;
    for j := 0 to |fields|
      invariant Added(totals, next, post, fields[..j])
    {
      assert fields[..j + 1] == fields[..j] + [fields[j]];
      assert fields[j] !in fields[..j];
      AddStep(totals, next, post, fields[..j], fields[j]);
      next := next[fields[j] := TotalOr0(next, fields[j]) + NumOrZero(Get(post, fields[j]))];
    }
    assert fields[..|fields|] == fields;
  }

  /** `next` is `totals` with the post's values of `done` added. */
  predicate Added(totals: map<string, real>, next: map<string, real>, post: Record, done: seq<string>) {
    && next.Keys == totals.Keys + Elements(done)
    && (forall key :: key in done ==> key in next && next[key] == TotalOr0(totals, key) + NumOrZero(Get(post, key)))
    && (forall key :: key in totals && key !in done ==> key in next && next[key] == totals[key])
  }

  lemma AddStep(totals: map<string, real>, next: map<string, real>, post: Record, done: seq<string>, k: string)
    requires k !in done
    requires Added(totals, next, post, done)
    ensures Added(totals, next[k := TotalOr0(next, k) + NumOrZero(Get(post, k))], post, done + [k])
  {
    var next' := next[k := TotalOr0(next, k) + NumOrZero(Get(post, k))];
    ElementsSnoc(done + [k]);
    assert (done + [k])[..|done|] == done;
    forall key | key in done + [k]
      ensures key in next' && next'[key] == TotalOr0(totals, key) + NumOrZero(Get(post, key))
    {
      if key != k {
        assert key in done;
      }
    }
  }

  /** The outer `forEach`: the running totals of `fields` over all the posts. */
  method TotalFields(posts: seq<Record>, fields: seq<string>) returns (totals: map<string, real>)
    requires posts != [] && Distinct(fields)
    ensures totals.Keys == Elements(fields)
    ensures forall key :: key in fields ==> totals[key] == FieldTotal(posts, key)
  {
    totals := map[];
    for i := 0 to |posts|
      invariant totals.Keys <= Elements(fields)
      invariant i > 0 ==> totals.Keys == Elements(fields)
      invariant forall key :: key in fields ==> TotalOr0(totals, key) == FieldTotal(posts[..i], key)
    {
      forall key | key in fields
        ensures FieldTotal(posts[..i + 1], key) == FieldTotal(posts[..i], key) + NumOrZero(Get(posts[i], key))
      {
        FieldTotalSnoc(posts, i, key);
      }
      totals := AddFields(totals, posts[i], fields);
    }
    assert posts[..|posts|] == posts;
  }

  /** Each total divided by the number of posts. */
  method Means(totals: map<string, real>, fields: seq<string>, n: nat) returns (means: map<string, real>)
    requires n > 0 && Elements(fields) <= totals.Keys
    ensures means.Keys == Elements(fields)
    ensures forall key :: key in means ==> means[key] == totals[key] / n as real
  {
    means := map[];
    for j := 0 to |fields|
      invariant means.Keys == Elements(fields[..j])
      invariant forall key :: key in means ==> means[key] == totals[key] / n as real
    {
      ElementsSnoc(fields[..j + 1]);
      assert fields[..j + 1][..j] == fields[..j];
      means := means[fields[j] := totals[fields[j]] / n as real];
    }
    assert fields[..|fields|] == fields;
  }

  /**
   * `aggregateFingerprints(posts)`: nothing for no posts, else the mean of
   * every fingerprint field over the posts, a missing value counting as 0.
   */
  method AggregateFingerprints(posts: seq<Record>) returns (averages: Option<map<string, real>>)
    ensures averages.None? <==> posts == []
    ensures averages.Some? ==> averages.value.Keys == Elements(FingerprintFields)
    ensures averages.Some? ==>
      forall key :: key in averages.value ==> averages.value[key] == FieldTotal(posts, key) / |posts| as real
  {
    if |posts| == 0 {
      return None;
    }
    var totals := TotalFields(posts, FingerprintFields);
    var means := Means(totals, FingerprintFields, |posts|);
    return Some(means);
  }

  /** A mean lies between the least and the greatest value it averages. */
  lemma MeanWithinRange(posts: seq<Record>, key: string, lo: real, hi: real)
    requires posts != []
    requires forall i :: 0 <= i < |posts| ==> lo <= NumOrZero(Get(posts[i], key)) <= hi
    ensures lo <= FieldTotal(posts, key) / |posts| as real <= hi
  {
    FieldTotalBounds(posts, key, lo, hi);
    Quotient(FieldTotal(posts, key), |posts| as real, lo, hi);
  }

  lemma Quotient(t: real, n: real, lo: real, hi: real)
    requires n > 0.0 && n * lo <= t <= n * hi
    ensures lo <= t / n <= hi
  {
    var q := t / n;
    assert q * n == t;
    assert (q - lo) * n >= 0.0;
    assert (hi - q) * n >= 0.0;
  }

  // ---------------------------------------------------------------------
  // computeEngagementMix and aggregateEngagementMix

  datatype Slice = Slice(name: string, value: real, share: real)

  /** `total ? value / total : 0`. */
  function ShareOf(value: real, total: real): real {
    if total != 0.0 then value / total else 0.0
  }

  /**
   * `computeEngagementMix(post)`; `None` is a missing post, and a missing
   * count is 0. Three slices, Likes, Comments and Reposts: with no
   * engagement every share is 0, otherwise each share is the slice's part of
   * the total and the shares add up to 1.
   */
  function EngagementMix(post: Option<Record>): (mix: seq<Slice>)
    ensures |mix| == 3
    ensures mix[0].name == "Likes" && mix[1].name == "Comments" && mix[2].name == "Reposts"
    ensures mix[0].value == (if post.None? then 0.0 else NumOrZero(Get(post.value, "likes")))
    ensures mix[1].value == (if post.None? then 0.0 else NumOrZero(Get(post.value, "comments")))
    ensures mix[2].value == (if post.None? then 0.0 else NumOrZero(Get(post.value, "reposts")))
    ensures var total := mix[0].value + mix[1].value + mix[2].value;
      (total == 0.0 ==> mix[0].share == 0.0 && mix[1].share == 0.0 && mix[2].share == 0.0)
      && (total != 0.0 ==>
            mix[0].share + mix[1].share + mix[2].share == 1.0
            && forall k :: 0 <= k < 3 ==> mix[k].share * total == mix[k].value)
  {
    var likes := if post.None? then 0.0 else NumOrZero(Get(post.value, "likes"));
    var comments := if post.None? then 0.0 else NumOrZero(Get(post.value, "comments"));
    var reposts := if post.None? then 0.0 else NumOrZero(Get(post.value, "reposts"));
    var total := likes + comments + reposts;
    var mix := [Slice("Likes", likes, ShareOf(likes, total)), Slice("Comments", comments, ShareOf(comments, total)),
                Slice("Reposts", reposts, ShareOf(reposts, total))];
    if total != 0.0 then ThreeShares(likes, comments, reposts); mix else mix
  }

  /** Three parts of a non-zero total, each over the total, add up to 1 and scale back to the part. */
  lemma ThreeShares(a: real, b: real, c: real)
    requires a + b + c != 0.0
    ensures a / (a + b + c) + b / (a + b + c) + c / (a + b + c) == 1.0
    ensures a / (a + b + c) * (a + b + c) == a
    ensures b / (a + b + c) * (a + b + c) == b
    ensures c / (a + b + c) * (a + b + c) == c
  {
    var s := a + b + c;
    assert a / s + b / s + c / s == (a + b + c) / s;
  }

  /** A missing post has no engagement. */
  lemma MissingPostMix()
    ensures forall k :: 0 <= k < |EngagementMix(None)| ==> EngagementMix(None)[k].value == 0.0 && EngagementMix(None)[k].share == 0.0
  {
  }

  datatype Share = Share(name: string, share: real)

  /**
   * The shares of three engagement totals: they exist exactly when the totals
   * do not add up to 0; each is its part of the sum, and they add up to 1.
   */
  function MixOf(likes: real, comments: real, reposts: real): (mix: Option<seq<Share>>)
    ensures mix.None? <==> likes + comments + reposts == 0.0
    ensures mix.Some? ==>
      var m := mix.value;
      var sum := likes + comments + reposts;
      |m| == 3 && m[0].name == "Likes" && m[1].name == "Comments" && m[2].name == "Reposts"
      && m[0].share + m[1].share + m[2].share == 1.0
      && m[0].share * sum == likes && m[1].share * sum == comments && m[2].share * sum == reposts
  {
    var sum := likes + comments + reposts;
    if sum == 0.0 then None
    else
      ThreeShares(likes, comments, reposts);
      Some([Share("Likes", likes / sum), Share("Comments", comments / sum), Share("Reposts", reposts / sum)])
  }

  /** The value of `aggregateEngagementMix(posts)`. */
  function AggregateMix(posts: seq<Record>): (mix: Option<seq<Share>>)
    ensures mix.None? <==>
      posts == [] || FieldTotal(posts, "likes") + FieldTotal(posts, "comments") + FieldTotal(posts, "reposts") == 0.0
  {
    if posts == [] then None
    else MixOf(FieldTotal(posts, "likes"), FieldTotal(posts, "comments"), FieldTotal(posts, "reposts"))
  }

  /** Sums three totals over the posts, one pass. */
  method TotalEngagement(posts: seq<Record>) returns (likes: real, comments: real, reposts: real)
    ensures likes == FieldTotal(posts, "likes")
    ensures comments == FieldTotal(posts, "comments")
    ensures reposts == FieldTotal(posts, "reposts")
  {
    likes, comments, reposts := 0.0, 0.0, 0.0;
    for i := 0 to |posts|
      invariant likes == FieldTotal(posts[..i], "likes")
      invariant comments == FieldTotal(posts[..i], "comments")
      invariant reposts == FieldTotal(posts[..i], "reposts")
    {
      FieldTotalSnoc(posts, i, "likes");
      FieldTotalSnoc(posts, i, "comments");
      FieldTotalSnoc(posts, i, "reposts");
      likes := likes + NumOrZero(Get(posts[i], "likes"));
      comments := comments + NumOrZero(Get(posts[i], "comments"));
      reposts := reposts + NumOrZero(Get(posts[i], "reposts"));
    }
    assert posts[..|posts|] == posts;
  }

  /** `aggregateEngagementMix(posts)`: total the three counts over the posts, then share them out. */
  method AggregateEngagementMix(posts: seq<Record>) returns (mix: Option<seq<Share>>)
    ensures mix == AggregateMix(posts)
  {
    if |posts| == 0 {
      return None;
    }
    var likes, comments, reposts := TotalEngagement(posts);
    var sum := likes + comments + reposts;
    if sum == 0.0 {
      return None;
    }
    return Some([Share("Likes", likes / sum), Share("Comments", comments / sum), Share("Reposts", reposts / sum)]);
  }

  // ---------------------------------------------------------------------
  // tokenize and jaccardScore

  /**
   * A character of a token: a letter (`\p{L}`, a parameter of the model) or
   * an ASCII digit.
   */
  function TokenChar(isLetter: char -> bool): char -> bool {
    c => isLetter(c) || IsDigit(c)
  }

  lemma TokenCharOf(isLetter: char -> bool, c: char)
    ensures TokenChar(isLetter)(c) <==> isLetter(c) || IsDigit(c)
  {
  }

  predicate LongToken(t: string) {
    |t| > 2
  }

  /** Empty pieces are never long, so dropping them first changes nothing. */
  lemma {:induction false} LongPieces(pieces: seq<string>)
    ensures Filter(pieces, LongToken) == Filter(NonEmpty(pieces), LongToken)
  {
    if pieces != [] {
      var head := pieces[0];
      var tail := pieces[1..];
      LongPieces(tail);
      assert pieces == [head] + tail;
      FilterAppend([head], tail, LongToken);
      if head == "" {
        assert Filter([head], LongToken) == [];
      } else {
        FilterAppend([head], NonEmpty(tail), LongToken);
      }
    }
  }

  /**
   * `tokenize(text)`: lower-case, split on non-token characters, keep the
   * tokens longer than 2. The tokens are exactly the maximal runs of token
   * characters of the lower-cased text that are longer than 2, in order.
   */
  function Tokenize(isLetter: char -> bool, text: string): (tokens: seq<string>)
    ensures tokens == Filter(Runs(Lower(text), TokenChar(isLetter)), LongToken)
    ensures text == "" ==> tokens == []
    ensures forall k :: 0 <= k < |tokens| ==> |tokens[k]| > 2
  {
    var pieces := Split(Lower(text), TokenChar(isLetter));
    FilterMembers(pieces, LongToken);
    LongPieces(pieces);
    if text == "" then
      assert Lower(text) == [];
      []
    else
      Filter(pieces, LongToken)
  }

  /** A word of token characters followed by a gap of other characters is the first token run. */
  lemma WordThenGap(a: string, gap: string, rest: string, p: char -> bool)
    requires a != [] && forall k :: 0 <= k < |a| ==> p(a[k])
    requires gap != [] && forall k :: 0 <= k < |gap| ==> !p(gap[k])
    ensures Runs(a + gap + rest, p) == [a] + Runs(rest, p)
  {
    var s := a + gap + rest;
    assert forall k :: 0 <= k < |a| ==> s[k] == a[k];
    assert forall k :: |a| <= k < |a| + |gap| ==> s[k] == gap[k - |a|];
    RunsAfterSeparator(s, |a|, |a| + |gap|, p);
    assert s[..|a|] == a && s[|a| + |gap|..] == rest;
  }

  /** A lower-case ASCII word is one token run. */
  lemma LowerWord(w: string)
    requires w != [] && forall k :: 0 <= k < |w| ==> 'a' <= w[k] <= 'z'
    ensures forall k :: 0 <= k < |w| ==> TokenChar(IsAsciiLetter)(w[k])
    ensures Runs(w, TokenChar(IsAsciiLetter)) == [w]
  {
    var p := TokenChar(IsAsciiLetter);
    forall k | 0 <= k < |w| ensures p(w[k]) {
      TokenCharOf(IsAsciiLetter, w[k]);
    }
    RunsOfRun(w, |w|, p);
    assert w[..|w|] == w && w[|w|..] == [];
  }

  /** The tokenizer fixture: "Hello, AI world". */
  const Greeting := "Hello" + ", " + "AI" + " " + "world"

  lemma LowerOfGreeting()
    ensures Lower(Greeting) == "hello" + ", " + "ai" + " " + "world"
  {
    LowerAppend("Hello" + ", " + "AI" + " ", "world");
    LowerAppend("Hello" + ", " + "AI", " ");
    LowerAppend("Hello" + ", ", "AI");
    LowerAppend("Hello", ", ");
    var h, l := "Hello", Lower("Hello");
    assert l[0] == LowerChar(h[0]) && l[1] == LowerChar(h[1]) && l[2] == LowerChar(h[2]);
    assert l[3] == LowerChar(h[3]) && l[4] == LowerChar(h[4]);
    assert l == "hello";
    var ai := Lower("AI");
    assert ai[0] == LowerChar('A') && ai[1] == LowerChar('I');
    assert ai == "ai";
    assert Lower(", ") == ", " && Lower(" ") == " ";
    assert NoUpperCase("world");
    LowerOfNoUpperCase("world");
  }

  lemma GreetingWords()
    ensures var p := TokenChar(IsAsciiLetter);
      (forall k :: 0 <= k < 5 ==> p("hello"[k])) && (forall k :: 0 <= k < 2 ==> p("ai"[k]))
      && Runs("world", p) == ["world"]
  {
    forall k | 0 <= k < 5 ensures 'a' <= "hello"[k] <= 'z' && 'a' <= "world"[k] <= 'z' {
      assert "hello"[k] in "hello" && "world"[k] in "world";
    }
    LowerWord("hello");
    LowerWord("world");
    LowerWord("ai");
  }

  /** Its token runs, with ASCII letters as the letters: "hello", "ai" and "world". */
  lemma RunsOfGreeting()
    ensures Runs("hello" + ", " + "ai" + " " + "world", TokenChar(IsAsciiLetter)) == ["hello", "ai", "world"]
  {
    var p := TokenChar(IsAsciiLetter);
    GreetingWords();
    TokenCharOf(IsAsciiLetter, ',');
    TokenCharOf(IsAsciiLetter, ' ');
    assert !p(", "[0]) && !p(", "[1]);
    WordThenGap("ai", " ", "world", p);
    assert "hello" + ", " + "ai" + " " + "world" == "hello" + ", " + ("ai" + " " + "world");
    WordThenGap("hello", ", ", "ai" + " " + "world", p);
  }

  /** `tokenize("Hello, AI world")` keeps "hello" and "world" and drops the two-letter "ai". */
  lemma TokenizeGreeting()
    ensures Tokenize(IsAsciiLetter, Greeting) == ["hello", "world"]
  {
    LowerOfGreeting();
    RunsOfGreeting();
    var runs := ["hello", "ai", "world"];
    assert runs[..2][..1][..0] == [] && runs[..2][..1] == ["hello"] && runs[..2] == ["hello", "ai"];
    assert Filter(runs[..2][..1], LongToken) == ["hello"];
    assert Filter(runs[..2], LongToken) == ["hello"];
  }

  /** A character of a lower-cased string is not an ASCII upper-case letter. */
  lemma InLowerNotUpper(c: char, s: string)
    requires c in Lower(s)
    ensures !('A' <= c <= 'Z')
  {
    var j :| 0 <= j < |Lower(s)| && Lower(s)[j] == c;
  }

  /** One piece of the lower-cased text. */
  lemma PieceShape(isLetter: char -> bool, text: string, t: string)
    requires t in Split(Lower(text), TokenChar(isLetter))
    ensures NoUpperCase(t) && forall i :: 0 <= i < |t| ==> isLetter(t[i]) || IsDigit(t[i])
  {
    var pieces := Split(Lower(text), TokenChar(isLetter));
    var m :| 0 <= m < |pieces| && pieces[m] == t;
    forall i | 0 <= i < |t| ensures !('A' <= t[i] <= 'Z') && (isLetter(t[i]) || IsDigit(t[i])) {
      InLowerNotUpper(t[i], text);
    }
  }

  /** Every token is longer than 2, holds only letters and digits, and no ASCII upper-case letter. */
  lemma TokensShape(isLetter: char -> bool, text: string)
    ensures forall k :: 0 <= k < |Tokenize(isLetter, text)| ==>
      var t := Tokenize(isLetter, text)[k];
      |t| > 2 && NoUpperCase(t) && forall i :: 0 <= i < |t| ==> isLetter(t[i]) || IsDigit(t[i])
  {
    if text != "" {
      var pieces := Split(Lower(text), TokenChar(isLetter));
      FilterMembers(pieces, LongToken);
      forall k | 0 <= k < |Tokenize(isLetter, text)|
        ensures var t := Tokenize(isLetter, text)[k];
          |t| > 2 && NoUpperCase(t) && forall i :: 0 <= i < |t| ==> isLetter(t[i]) || IsDigit(t[i])
      {
        PieceShape(isLetter, text, Tokenize(isLetter, text)[k]);
      }
    }
  }

  /**
   * `jaccardScore(a, b)`: shared distinct tokens over all distinct tokens, 0
   * when either list is empty; the score lies in [0, 1].
   */
  function Jaccard(a: seq<string>, b: seq<string>): (score: real)
    ensures a == [] || b == [] ==> score == 0.0
    ensures 0.0 <= score <= 1.0
  {
    if a == [] || b == [] then 0.0
    else
      var setA, setB := Elements(a), Elements(b);
      var intersection := |setA * setB|;
      SubsetSize(setA * setB, setA);
      SubsetSize(setA * setB, setB);
      assert b[0] in setB;
      Ratio(intersection, |setA| + |setB| - intersection)
  }

  /** `part / whole`, or 0 when the whole is 0; a part of a whole is a fraction in [0, 1]. */
  function Ratio(part: int, whole: int): (r: real)
    ensures 0 <= part <= whole ==> 0.0 <= r <= 1.0
  {
    if whole == 0 then 0.0
    else if 0 <= part <= whole then
      Quotient(part as real, whole as real, 0.0, 1.0);
      part as real / whole as real
    else part as real / whole as real
  }

  /** The tokens of `xs` that are in `names`, counted one by one. */
  method CountShared(xs: seq<string>, names: set<string>) returns (n: nat)
    ensures n == CountIn(xs, names)
  {
    n := 0;
    for i := 0 to |xs|
      invariant n == CountIn(xs[..i], names)
    {
      assert xs[..i + 1][..i] == xs[..i];
      if xs[i] in names {
        n := n + 1;
      }
    }
    assert xs[..|xs|] == xs;
  }

  /** `jaccardScore(a, b)`: count the tokens of the first set, in insertion order, found in the second. */
  method JaccardScore(a: seq<string>, b: seq<string>) returns (score: real)
    ensures score == Jaccard(a, b)
  {
    if |a| == 0 || |b| == 0 {
      return 0.0;
    }
    var setA := FirstOccurrences(a);
    var setB := Elements(b);
    var intersection := CountShared(setA, setB);
    var union := |setA| + |setB| - intersection;
    SharedCount(a, b, intersection, union);
    score := if union != 0 then intersection as real / union as real else 0.0;
  }

  /** Counting the distinct tokens of `a` found in `b` gives the size of the intersection the score uses. */
  lemma SharedCount(a: seq<string>, b: seq<string>, intersection: nat, union: int)
    requires a != [] && b != []
    requires intersection == CountIn(FirstOccurrences(a), Elements(b))
    requires union == |FirstOccurrences(a)| + |Elements(b)| - intersection
    ensures Jaccard(a, b) == if union != 0 then intersection as real / union as real else 0.0
  {
    DistinctTokens(a, b);
    assert Jaccard(a, b) == Ratio(|Elements(a) * Elements(b)|, |Elements(a)| + |Elements(b)| - |Elements(a) * Elements(b)|);
  }

  /** The first occurrences of `a` are as many as its distinct tokens, and as many of them are in `b` as the lists share. */
  lemma DistinctTokens(a: seq<string>, b: seq<string>)
    ensures |FirstOccurrences(a)| == |Elements(a)|
    ensures CountIn(FirstOccurrences(a), Elements(b)) == |Elements(a) * Elements(b)|
  {
    FirstOccurrencesElements(a);
    CountInIsOverlap(FirstOccurrences(a), Elements(b));
    DistinctSize(FirstOccurrences(a));
  }

  /** Inclusion and exclusion for two finite sets. */
  lemma {:induction false} UnionSize<T>(x: set<T>, y: set<T>)
    ensures |x + y| + |x * y| == |x| + |y|
    decreases |x|
  {
    if x != {} {
      var e :| e in x;
      var x' := x - {e};
      UnionSize(x', y);
      if e in y {
        assert x + y == x' + y;
        assert x * y == x' * y + {e};
      } else {
        assert x + y == (x' + y) + {e};
        assert x * y == x' * y;
      }
    }
  }

  lemma {:induction false} SubsetSize<T>(x: set<T>, y: set<T>)
    requires x <= y
    ensures |x| <= |y|
    decreases |x|
  {
    if x != {} {
      var e :| e in x;
      SubsetSize(x - {e}, y - {e});
    }
  }

  /** For two non-empty token lists the score is the size of the intersection over the size of the union. */
  lemma JaccardIsOverlap(a: seq<string>, b: seq<string>)
    requires a != [] && b != []
    ensures |Elements(a) + Elements(b)| > 0
    ensures Jaccard(a, b) == |Elements(a) * Elements(b)| as real / |Elements(a) + Elements(b)| as real
  {
    assert a[0] in Elements(a) + Elements(b);
    UnionSize(Elements(a), Elements(b));
  }

  /** The score does not depend on which list comes first. */
  lemma JaccardSymmetric(a: seq<string>, b: seq<string>)
    ensures Jaccard(a, b) == Jaccard(b, a)
  {
    if a != [] && b != [] {
      assert Elements(a) * Elements(b) == Elements(b) * Elements(a);
    }
  }

  /** Two non-empty lists with the same tokens score 1. */
  lemma JaccardOfSameTokens(a: seq<string>, b: seq<string>)
    requires a != [] && Elements(a) == Elements(b)
    ensures Jaccard(a, b) == 1.0
  {
    assert a[0] in Elements(b);
    JaccardIsOverlap(a, b);
    assert Elements(a) * Elements(b) == Elements(a) + Elements(b);
    var n := |Elements(a) + Elements(b)|;
    assert |Elements(a) * Elements(b)| == n;
    assert n > 0 && Jaccard(a, b) == n as real / n as real;
    Quotient(n as real, n as real, 1.0, 1.0);
  }

  /** Repeating tokens or reordering them changes nothing. */
  lemma JaccardIgnoresRepeats(a: seq<string>, a': seq<string>, b: seq<string>)
    requires Elements(a) == Elements(a')
    ensures Jaccard(a, b) == Jaccard(a', b)
  {
    if a != [] {
      assert a[0] in Elements(a');
    }
    if a' != [] {
      assert a'[0] in Elements(a);
    }
  }

  // ---------------------------------------------------------------------
  // computeSimilarity and getTopSimilarPosts

  /**
   * A text field read as a string. The stored posts hold strings here; any
   * other truthy value would make the string methods throw, and reads as "".
   */
  function StringValue(v: Value): string {
    if v.Str? then v.s else ""
  }

  /** `post.contentType || 'Regular'`, bucketed. */
  function BucketOfPost(p: Record): ContentClassification.Category {
    ContentClassification.Bucketize(Or(Get(p, "contentType"), Str("Regular")))
  }

  /** The tokens of `post.fullText || post.title || ''`. */
  function PostTokens(isLetter: char -> bool, p: Record): seq<string> {
    Tokenize(isLetter, StringValue(Or(Or(Get(p, "fullText"), Get(p, "title")), Str(""))))
  }

  /** `post.wordCount || (post.fullText || '').split(/\s+/).length`. */
  function WordsOf(p: Record): (r: real)
    ensures Truthy(Get(p, "wordCount")) && Get(p, "wordCount").Num? ==> r == Get(p, "wordCount").x
    ensures !(Truthy(Get(p, "wordCount")) && Get(p, "wordCount").Num?) ==>
      r == (RunCount(StringValue(Or(Get(p, "fullText"), Str(""))), Not(NotSpace)) + 1) as real
  {
    var count := Get(p, "wordCount");
    if Truthy(count) && count.Num? then count.x
    else |Split(StringValue(Or(Get(p, "fullText"), Str(""))), NotSpace)| as real
  }

  /**
   * `1 - Math.min(Math.abs(a - b) / Math.max(a || 1, 1), 1)`: how close `b`
   * is to `a`, relative to `a`. It lies in [0, 1]; it is 1 exactly when the
   * two are equal and 0 exactly when they differ by at least `a` (or 1).
   */
  function Closeness(a: real, b: real): (c: real)
    ensures 0.0 <= c <= 1.0
    ensures c == 1.0 <==> a == b
    ensures c == 0.0 <==> Abs(a - b) >= Max(if a != 0.0 then a else 1.0, 1.0)
  {
    var scale := Max(if a != 0.0 then a else 1.0, 1.0);
    QuotientZeroOrOne(Abs(a - b), scale);
    1.0 - Min(Abs(a - b) / scale, 1.0)
  }

  lemma QuotientZeroOrOne(t: real, n: real)
    requires n > 0.0 && t >= 0.0
    ensures t / n >= 0.0
    ensures t / n == 0.0 <==> t == 0.0
    ensures t / n >= 1.0 <==> t >= n
  {
    Quotient(t, n, 0.0, t / n);
    var q := t / n;
    assert q * n == t;
    if q >= 1.0 {
      assert (q - 1.0) * n >= 0.0;
    }
  }

  /** The nearer `b` lies to `a`, the closer it is. */
  lemma ClosenessMonotone(a: real, b1: real, b2: real)
    requires Abs(a - b1) <= Abs(a - b2)
    ensures Closeness(a, b2) <= Closeness(a, b1)
  {
    var scale := Max(if a != 0.0 then a else 1.0, 1.0);
    QuotientMonotone(Abs(a - b1), Abs(a - b2), scale);
  }

  lemma QuotientMonotone(t1: real, t2: real, n: real)
    requires n > 0.0 && t1 <= t2
    ensures t1 / n <= t2 / n
  {
    var q1, q2 := t1 / n, t2 / n;
    assert q1 * n == t1 && q2 * n == t2;
  }

  /** `-Infinity` or a finite score. */
  datatype Score = NegInf | Finite(x: real)

  /**
   * `computeSimilarity(target, candidate)`. A post is never similar to
   * itself or to a post of another bucket (both `-Infinity`); every other
   * pair scores in [0, 1].
   */
  function Similarity(isLetter: char -> bool, target: Record, candidate: Record): (s: Score)
    ensures s.NegInf? <==> Get(target, "id") == Get(candidate, "id") || BucketOfPost(target) != BucketOfPost(candidate)
    ensures s.Finite? ==> 0.0 <= s.x <= 1.0
    ensures s.Finite? ==>
      s.x == 0.6 * Jaccard(PostTokens(isLetter, target), PostTokens(isLetter, candidate))
             + 0.25 * Closeness(WordsOf(target), WordsOf(candidate))
             + 0.15 * Closeness(NumOrZero(Get(target, "impressions")), NumOrZero(Get(candidate, "impressions")))
  {
    if Get(target, "id") == Get(candidate, "id") then NegInf
    else if BucketOfPost(target) != BucketOfPost(candidate) then NegInf
    else
      var textScore := Jaccard(PostTokens(isLetter, target), PostTokens(isLetter, candidate));
      var lengthScore := Closeness(WordsOf(target), WordsOf(candidate));
      var performanceScore := Closeness(NumOrZero(Get(target, "impressions")), NumOrZero(Get(candidate, "impressions")));
      Finite(textScore * 0.6 + lengthScore * 0.25 + performanceScore * 0.15)
  }

  /** Two posts of one bucket with the same tokens, length and impressions score 1. */
  lemma SimilarityOfLookAlikes(isLetter: char -> bool, target: Record, candidate: Record)
    requires Get(target, "id") != Get(candidate, "id") && BucketOfPost(target) == BucketOfPost(candidate)
    requires PostTokens(isLetter, target) != [] && Elements(PostTokens(isLetter, target)) == Elements(PostTokens(isLetter, candidate))
    requires WordsOf(target) == WordsOf(candidate)
    requires NumOrZero(Get(target, "impressions")) == NumOrZero(Get(candidate, "impressions"))
    ensures Similarity(isLetter, target, candidate) == Finite(1.0)
  {
    JaccardOfSameTokens(PostTokens(isLetter, target), PostTokens(isLetter, candidate));
  }

  /**
   * Two candidates of the target's bucket with the same length and the same
   * impressions are ordered by their token overlap with the target.
   */
  lemma SimilarityFollowsText(isLetter: char -> bool, target: Record, c1: Record, c2: Record)
    requires Get(target, "id") != Get(c1, "id") && BucketOfPost(target) == BucketOfPost(c1)
    requires Get(target, "id") != Get(c2, "id") && BucketOfPost(target) == BucketOfPost(c2)
    requires WordsOf(c1) == WordsOf(c2)
    requires NumOrZero(Get(c1, "impressions")) == NumOrZero(Get(c2, "impressions"))
    ensures Similarity(isLetter, target, c1).Finite? && Similarity(isLetter, target, c2).Finite?
    ensures Similarity(isLetter, target, c1).x - Similarity(isLetter, target, c2).x ==
      0.6 * (Jaccard(PostTokens(isLetter, target), PostTokens(isLetter, c1)) - Jaccard(PostTokens(isLetter, target), PostTokens(isLetter, c2)))
    ensures Similarity(isLetter, target, c1).x <= Similarity(isLetter, target, c2).x <==>
      Jaccard(PostTokens(isLetter, target), PostTokens(isLetter, c1)) <= Jaccard(PostTokens(isLetter, target), PostTokens(isLetter, c2))
  {
  }

  /** A post without a word count and with text " a b " counts four words: `split` keeps the empty ends. */
  lemma PaddedTextWordCount()
    ensures WordsOf(Record(["fullText"], map["fullText" := Str(" a b ")])) == 4.0
  {
    var p := Record(["fullText"], map["fullText" := Str(" a b ")]);
    assert Get(p, "wordCount") == Nil;
    assert StringValue(Or(Get(p, "fullText"), Str(""))) == " a b ";
    PaddedTextGaps();
  }

  /** " a b " has three white-space runs. */
  lemma PaddedTextGaps()
    ensures RunCount(" a b ", Not(NotSpace)) == 3
  {
    assert " a b " == [' ', 'a'] + ([' ', 'b'] + " ");
    GapThenWord(' ', 'a', [' ', 'b'] + " ");
    GapThenWord(' ', 'b', " ");
    LeadingSeparator(" ", 1, NotSpace);
    assert " "[1..] == [];
  }

  /** A white-space character, then a word character: one white-space run. */
  lemma GapThenWord(g: char, w: char, rest: string)
    requires IsSpace(g) && NotSpace(w)
    ensures RunCount([g, w] + rest, Not(NotSpace)) == 1 + RunCount(rest, Not(NotSpace))
  {
    var s := [g, w] + rest;
    LeadingSeparator(s, 1, NotSpace);
    SkipWord(s[1..], 1, NotSpace);
    assert s[1..][1..] == rest;
  }

  datatype Ranked = Ranked(candidate: Record, score: Score)

  function ScoreAgainst(isLetter: char -> bool, target: Record): Record -> Ranked {
    c => Ranked(c, Similarity(isLetter, target, c))
  }

  /** `entry.score > 0`; `-Infinity` is not. */
  predicate Positive(e: Ranked) {
    e.score.Finite? && e.score.x > 0.0
  }

  /** `(a, b) => b.score - a.score` on the entries that pass the filter. */
  function ByScore(e: Ranked): Rank {
    Descending(if e.score.Finite? then e.score.x else 0.0)
  }

  function CandidateOf(e: Ranked): Record {
    e.candidate
  }

  /** The scored candidates with a positive score, best first, ties in input order. */
  function Ranking(isLetter: char -> bool, target: Record, candidates: seq<Record>): (ranking: seq<Ranked>)
    ensures |ranking| <= |candidates|
    ensures SortedBy(ranking, ByScore)
  {
    SortBySorted(Filter(Map(candidates, ScoreAgainst(isLetter, target)), Positive), ByScore);
    SortBy(Filter(Map(candidates, ScoreAgainst(isLetter, target)), Positive), ByScore)
  }

  /** The `limit` of `getTopSimilarPosts` when the caller gives none. */
  const DefaultSimilarLimit: nat := 3

  /** `getTopSimilarPosts(target, candidates, limit)`: at most `limit` candidates; none for a missing target. */
  function TopSimilar(isLetter: char -> bool, target: Option<Record>, candidates: seq<Record>, limit: nat): (top: seq<Record>)
    ensures target.None? ==> top == []
    ensures |top| <= limit && |top| <= |candidates|
  {
    if target.None? then []
    else Map(Take(Ranking(isLetter, target.value, candidates), limit), CandidateOf)
  }

  /** `getTopSimilarPosts(target, candidates)` with the default limit: at most three posts. */
  function TopSimilarDefault(isLetter: char -> bool, target: Option<Record>, candidates: seq<Record>): (top: seq<Record>)
    ensures |top| <= 3
  {
    TopSimilar(isLetter, target, candidates, DefaultSimilarLimit)
  }

  /** Each entry of the ranking is a candidate with its positive score. */
  lemma RankingMembers(isLetter: char -> bool, target: Record, candidates: seq<Record>, i: nat)
    requires i < |Ranking(isLetter, target, candidates)|
    ensures var e := Ranking(isLetter, target, candidates)[i];
      e.candidate in candidates && Positive(e) && e.score == Similarity(isLetter, target, e.candidate)
  {
    var f := ScoreAgainst(isLetter, target);
    var scored := Map(candidates, f);
    var kept := Filter(scored, Positive);
    var e := Ranking(isLetter, target, candidates)[i];
    SortByPermutation(kept, ByScore);
    FilterMembers(scored, Positive);
    assert e in multiset(kept);
    var k :| 0 <= k < |kept| && kept[k] == e;
    var m :| 0 <= m < |scored| && scored[m] == e;
    MapAt(candidates, f, m);
  }

  /** Every candidate that scores above 0 is ranked. */
  lemma RankingComplete(isLetter: char -> bool, target: Record, candidates: seq<Record>, j: nat)
    requires j < |candidates| && Positive(ScoreAgainst(isLetter, target)(candidates[j]))
    ensures ScoreAgainst(isLetter, target)(candidates[j]) in Ranking(isLetter, target, candidates)
  {
    var f := ScoreAgainst(isLetter, target);
    var scored := Map(candidates, f);
    var kept := Filter(scored, Positive);
    SortByPermutation(kept, ByScore);
    FilterMembers(scored, Positive);
    MapAt(candidates, f, j);
    assert f(candidates[j]) in kept;
    assert f(candidates[j]) in multiset(Ranking(isLetter, target, candidates));
  }

  /**
   * Each post is a candidate with a positive score (so never the target
   * itself nor a post of another bucket), best first.
   */
  lemma TopSimilarFacts(isLetter: char -> bool, target: Option<Record>, candidates: seq<Record>, limit: nat)
    ensures target.Some? ==>
      var top := TopSimilar(isLetter, target, candidates, limit);
      forall i :: 0 <= i < |top| ==>
        top[i] in candidates && Similarity(isLetter, target.value, top[i]).Finite?
        && Similarity(isLetter, target.value, top[i]).x > 0.0
        && Get(top[i], "id") != Get(target.value, "id") && BucketOfPost(top[i]) == BucketOfPost(target.value)
    ensures target.Some? ==>
      var top := TopSimilar(isLetter, target, candidates, limit);
      forall i, j :: 0 <= i < j < |top| ==>
        Similarity(isLetter, target.value, top[i]).Finite? && Similarity(isLetter, target.value, top[j]).Finite?
        && Similarity(isLetter, target.value, top[i]).x >= Similarity(isLetter, target.value, top[j]).x
  {
    if target.Some? {
      var t := target.value;
      var ranking := Ranking(isLetter, t, candidates);
      var top := TopSimilar(isLetter, target, candidates, limit);
      forall i | 0 <= i < |top|
        ensures top[i] == ranking[i].candidate && top[i] in candidates
        ensures Similarity(isLetter, t, top[i]) == ranking[i].score && Positive(ranking[i])
      {
        MapAt(Take(ranking, limit), CandidateOf, i);
        RankingMembers(isLetter, t, candidates, i);
      }
    }
  }

  /**
   * Nothing better is left out: a candidate that scores above 0 is listed,
   * or the list is full and every listed post scores at least as well.
   */
  lemma TopSimilarIsTop(isLetter: char -> bool, target: Record, candidates: seq<Record>, limit: nat, j: nat)
    requires j < |candidates| && Similarity(isLetter, target, candidates[j]).Finite?
    requires Similarity(isLetter, target, candidates[j]).x > 0.0
    ensures var top := TopSimilar(isLetter, Some(target), candidates, limit);
      candidates[j] in top
      || (|top| == limit && forall i :: 0 <= i < |top| ==>
            Similarity(isLetter, target, top[i]).Finite?
            && Similarity(isLetter, target, top[i]).x >= Similarity(isLetter, target, candidates[j]).x)
  {
    var ranking := Ranking(isLetter, target, candidates);
    var top := TopSimilar(isLetter, Some(target), candidates, limit);
    var e := ScoreAgainst(isLetter, target)(candidates[j]);
    RankingComplete(isLetter, target, candidates, j);
    var p :| 0 <= p < |ranking| && ranking[p] == e;
    TopIsRankingPrefix(isLetter, target, candidates, limit);
    if p < limit {
      assert top[p] == candidates[j];
    } else {
      RankedAbove(ranking, limit, p);
    }
  }

  /** The listed posts are the candidates of the ranking's first `limit` entries. */
  lemma TopIsRankingPrefix(isLetter: char -> bool, target: Record, candidates: seq<Record>, limit: nat)
    ensures var ranking := Ranking(isLetter, target, candidates);
      var top := TopSimilar(isLetter, Some(target), candidates, limit);
      |top| == (if limit <= |ranking| then limit else |ranking|)
      && forall i :: 0 <= i < |top| ==>
           top[i] == ranking[i].candidate && Similarity(isLetter, target, top[i]) == ranking[i].score
           && Positive(ranking[i])
  {
    var ranking := Ranking(isLetter, target, candidates);
    var top := TopSimilar(isLetter, Some(target), candidates, limit);
    forall i | 0 <= i < |top|
      ensures top[i] == ranking[i].candidate && Similarity(isLetter, target, top[i]) == ranking[i].score
      ensures Positive(ranking[i])
    {
      MapAt(Take(ranking, limit), CandidateOf, i);
      RankingMembers(isLetter, target, candidates, i);
    }
  }

  /** In a ranking best first, the first `limit` entries score at least as well as any later one. */
  lemma RankedAbove(ranking: seq<Ranked>, limit: nat, p: nat)
    requires SortedBy(ranking, ByScore) && limit <= p < |ranking|
    requires Positive(ranking[p]) && forall i :: 0 <= i < limit ==> Positive(ranking[i])
    ensures forall i :: 0 <= i < limit ==> ranking[i].score.x >= ranking[p].score.x
  {
  }
}
