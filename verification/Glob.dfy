/**
 * The `*`-glob of suppression rules (packages/otlp-ingester/src/suppression.ts): finding each segment
 * leftmost, without backtracking, decides exactly whether the stars can be filled in.
 */
module Glob {
  import opened Vlq
  import opened Texts

  const STAR: CodeUnit := 42

  // ---------- what a glob means ----------

  /** Each segment after its gap. */
  function After(segments: seq<Text>, gaps: seq<Text>): Text
    requires |segments| == |gaps|
  {
    if segments == [] then [] else gaps[0] + segments[0] + After(segments[1..], gaps[1..])
  }

  ghost predicate IsAfter(segments: seq<Text>, gaps: seq<Text>, t: Text) {
    |segments| == |gaps| && t == After(segments, gaps)
  }

  /** The segments in order, with `gaps` in place of the stars. */
  ghost predicate Fills(segments: seq<Text>, gaps: seq<Text>, text: Text) {
    |segments| == |gaps| + 1 && text == segments[0] + After(segments[1..], gaps)
  }

  /** Some choice of strings for the stars makes the pattern the text. */
  ghost predicate Means(pattern: Text, text: Text) {
    exists gaps :: Fills(Split(pattern, STAR), gaps, text)
  }

  // ---------- placing segments ----------

  /** The segments fit in order from `at` on, the last one at the end of the text. */
  ghost predicate Placed(segments: seq<Text>, text: Text, at: nat)
    requires segments != []
    decreases |segments|
  {
    if |segments| == 1 then at + |segments[0]| <= |text| && StartsAt(text, segments[0], |text| - |segments[0]|)
    else exists p: nat :: at <= p && StartsAt(text, segments[0], p) && Placed(segments[1..], text, p + |segments[0]|)
  }

  /** What fits later also fits when the search starts earlier. */
  lemma {:induction false} PlacedEarlier(segments: seq<Text>, text: Text, at: nat, earlier: nat)
    requires segments != [] && Placed(segments, text, at) && earlier <= at
    ensures Placed(segments, text, earlier)
  {
    if |segments| > 1 {
      var p: nat :| at <= p && StartsAt(text, segments[0], p) && Placed(segments[1..], text, p + |segments[0]|);
      assert earlier <= p;
    }
  }

  /** Placing a segment leftmost loses nothing. */
  lemma LeftmostIsEnough(segments: seq<Text>, text: Text, at: nat)
    requires |segments| > 1
    ensures Placed(segments, text, at) <==>
              var p := IndexOf(text, segments[0], at);
              p >= 0 && Placed(segments[1..], text, p + |segments[0]|)
  {
    var p := IndexOf(text, segments[0], at);
    if Placed(segments, text, at) {
      var q: nat :| at <= q && StartsAt(text, segments[0], q) && Placed(segments[1..], text, q + |segments[0]|);
      assert 0 <= p <= q;
      PlacedEarlier(segments[1..], text, q + |segments[0]|, p + |segments[0]|);
    }
  }

  lemma AfterOne(segment: Text, rest: seq<Text>, gap: Text, gaps: seq<Text>)
    requires |rest| == |gaps|
    ensures After([segment] + rest, [gap] + gaps) == gap + segment + After(rest, gaps)
  {
    assert ([segment] + rest)[1..] == rest && ([gap] + gaps)[1..] == gaps;
  }

  lemma CutTwice(text: Text, at: nat, p: nat, end: nat)
    requires at <= p <= end <= |text|
    ensures text[at..] == text[at..p] + text[p..end] + text[end..]
  {}

  /** Placing from `at` is filling in the text from `at`, each segment after a gap. */
  lemma {:induction false} PlacedFills(segments: seq<Text>, text: Text, at: nat) returns (gaps: seq<Text>)
    requires segments != [] && at <= |text| && Placed(segments, text, at)
    ensures IsAfter(segments, gaps, text[at..])
  {
    var p: nat, rest: seq<Text> := 0, [];
    if |segments| == 1 {
      p := |text| - |segments[0]|;
    } else {
      p :| at <= p && StartsAt(text, segments[0], p) && Placed(segments[1..], text, p + |segments[0]|);
      rest := PlacedFills(segments[1..], text, p + |segments[0]|);
    }
    var end := p + |segments[0]|;
    gaps := [text[at..p]] + rest;
    CutTwice(text, at, p, end);
    AfterOne(segments[0], segments[1..], text[at..p], rest);
    assert segments == [segments[0]] + segments[1..];
    assert text[end..] == After(segments[1..], rest);
  }

  lemma {:induction false} FillsPlaced(segments: seq<Text>, gaps: seq<Text>, text: Text, at: nat)
    requires segments != [] && at <= |text| && IsAfter(segments, gaps, text[at..])
    ensures Placed(segments, text, at)
    decreases |segments|
  {
    var p := at + |gaps[0]|;
    var end := p + |segments[0]|;
    var tail := After(segments[1..], gaps[1..]);
    assert text[at..] == gaps[0] + segments[0] + tail;
    assert text[p..end] == segments[0] by { assert text[p..end] == text[at..][|gaps[0]|..|gaps[0]| + |segments[0]|]; }
    assert text[end..] == tail by { assert text[end..] == text[at..][|gaps[0]| + |segments[0]|..]; }
    if |segments| > 1 {
      FillsPlaced(segments[1..], gaps[1..], text, end);
      assert StartsAt(text, segments[0], p);
    }
  }

  /** A pattern with a star fits when its first segment starts the text and the others can be placed after it. */
  lemma MeansPlaced(pattern: Text, text: Text)
    requires |Split(pattern, STAR)| > 1
    ensures Means(pattern, text) <==>
              StartsAt(text, Split(pattern, STAR)[0], 0)
              && Placed(Split(pattern, STAR)[1..], text, |Split(pattern, STAR)[0]|)
  {
    var segments := Split(pattern, STAR);
    var n := |segments[0]|;
    if StartsAt(text, segments[0], 0) && Placed(segments[1..], text, n) {
      var gaps := PlacedFills(segments[1..], text, n);
      assert text == text[0..n] + text[n..];
      assert Fills(segments, gaps, text);
    }
    if Means(pattern, text) {
      var gaps :| Fills(segments, gaps, text);
      assert text[0..n] == segments[0] && text[n..] == After(segments[1..], gaps);
      FillsPlaced(segments[1..], gaps, text, n);
    }
  }

  lemma NoStar(pattern: Text, text: Text)
    requires |Split(pattern, STAR)| == 1
    ensures Means(pattern, text) <==> pattern == text
  {
    var segments := Split(pattern, STAR);
    assert segments[0] == Join(segments, STAR) == pattern;
    assert Fills(segments, [], pattern);
  }

  /** An empty segment, between two stars, can go anywhere. */
  lemma EmptySegment(segments: seq<Text>, text: Text, at: nat)
    requires |segments| > 1 && segments[0] == [] && at <= |text|
    ensures Placed(segments, text, at) == Placed(segments[1..], text, at)
  {
    assert StartsAt(text, segments[0], at);
    if Placed(segments, text, at) {
      var p: nat :| at <= p && StartsAt(text, segments[0], p) && Placed(segments[1..], text, p + |segments[0]|);
      PlacedEarlier(segments[1..], text, p, at);
    }
  }

  /** `globMatch`: true exactly when the stars can be filled in. */
  method GlobMatch(pattern: Text, text: Text) returns (r: bool)
    ensures r <==> Means(pattern, text)
  {
    var segments := Split(pattern, STAR);
    if |segments| == 1 {
      NoStar(pattern, text);
      return pattern == text;
    }
    MeansPlaced(pattern, text);
    var first, last := segments[0], segments[|segments| - 1];
    if !StartsAt(text, first, 0) { return false; }
    var at: nat := |first|;
    for i := 1 to |segments| - 1
      invariant at <= |text|
      invariant Placed(segments[1..], text, |first|) <==> Placed(segments[i..], text, at)
    {
      var segment := segments[i];
      assert segments[i..][1..] == segments[i + 1..];
      if segment == [] {
        EmptySegment(segments[i..], text, at);
        continue;
      }
      LeftmostIsEnough(segments[i..], text, at);
      var found := IndexOf(text, segment, at);
      if found == -1 { return false; }
      at := found + |segment|;
    }
    assert segments[|segments| - 1..] == [last];
    r := |text| - |last| >= at && StartsAt(text, last, |text| - |last|);
  }

  // ---------- character by character ----------

  /** The pattern read one character at a time: a star is any string, anything else is itself. */
  predicate Reads(pattern: Text, text: Text)
    decreases |pattern| + |text|
  {
    if pattern == [] then text == []
    else if pattern[0] == STAR then Reads(pattern[1..], text) || (text != [] && Reads(pattern, text[1..]))
    else text != [] && text[0] == pattern[0] && Reads(pattern[1..], text[1..])
  }

  lemma {:induction false} StarReads(pattern: Text, text: Text)
    requires pattern != [] && pattern[0] == STAR
    ensures Reads(pattern, text) <==> exists k | 0 <= k <= |text| :: Reads(pattern[1..], text[k..])
    decreases |text|
  {
    assert text[0..] == text;
    if text != [] {
      StarReads(pattern, text[1..]);
      assert forall k | 0 <= k <= |text[1..]| :: text[1..][k..] == text[k + 1..];
      if k :| 0 <= k <= |text| && Reads(pattern[1..], text[k..]) {
        if k > 0 { assert text[1..][k - 1..] == text[k..]; }
      }
    }
  }

  lemma LetterMeans(pattern: Text, text: Text)
    requires pattern != [] && pattern[0] != STAR
    ensures Means(pattern, text) <==> text != [] && text[0] == pattern[0] && Means(pattern[1..], text[1..])
  {
    var c, rest, segments := pattern[0], Split(pattern[1..], STAR), Split(pattern, STAR);
    assert segments == [[c] + rest[0]] + rest[1..] && segments[1..] == rest[1..];
    if Means(pattern, text) {
      var gaps :| Fills(segments, gaps, text);
      assert text == [c] + (rest[0] + After(rest[1..], gaps));
      assert Fills(rest, gaps, text[1..]);
    }
    if text != [] && text[0] == c && Means(pattern[1..], text[1..]) {
      var gaps :| Fills(rest, gaps, text[1..]);
      assert text == [c] + text[1..];
      assert Fills(segments, gaps, text);
    }
  }

  lemma Associates(a: Text, b: Text, c: Text)
    ensures a + b + c == a + (b + c)
  {}

  lemma GapThenRest(rest: seq<Text>, gap: Text, gaps: seq<Text>)
    requires rest != [] && |rest| == |gaps| + 1
    ensures After(rest, [gap] + gaps) == gap + (rest[0] + After(rest[1..], gaps))
  {
    var first, more := rest[0], rest[1..];
    assert rest == [first] + more;
    AfterOne(first, more, gap, gaps);
    Associates(gap, first, After(more, gaps));
  }

  lemma StarFills(rest: seq<Text>, gap: Text, gaps: seq<Text>, text: Text)
    requires rest != [] && |rest| == |gaps| + 1
    ensures Fills([[]] + rest, [gap] + gaps, text) <==> |gap| <= |text| && text[..|gap|] == gap && Fills(rest, gaps, text[|gap|..])
  {
    GapThenRest(rest, gap, gaps);
    assert ([[]] + rest)[1..] == rest;
    if |gap| <= |text| && text[..|gap|] == gap { assert text == gap + text[|gap|..]; }
    if Fills([[]] + rest, [gap] + gaps, text) {
      assert text == gap + (rest[0] + After(rest[1..], gaps));
    }
  }

  lemma StarMeans(pattern: Text, text: Text)
    requires pattern != [] && pattern[0] == STAR
    ensures Means(pattern, text) <==> exists k | 0 <= k <= |text| :: Means(pattern[1..], text[k..])
  {
    var rest := Split(pattern[1..], STAR);
    assert Split(pattern, STAR) == [[]] + rest;
    if Means(pattern, text) {
      var gaps :| Fills([[]] + rest, gaps, text);
      assert gaps == [gaps[0]] + gaps[1..];
      StarFills(rest, gaps[0], gaps[1..], text);
    }
    if k :| 0 <= k <= |text| && Means(pattern[1..], text[k..]) {
      var gaps :| Fills(rest, gaps, text[k..]);
      StarFills(rest, text[..k], gaps, text);
    }
  }

  /** Filling in the stars and reading character by character agree on every pattern and text. */
  lemma {:induction false} MeansReads(pattern: Text, text: Text)
    ensures Means(pattern, text) <==> Reads(pattern, text)
    decreases |pattern|
  {
    if pattern == [] {
      NoStar(pattern, text);
    } else if pattern[0] == STAR {
      StarMeans(pattern, text);
      StarReads(pattern, text);
      forall k | 0 <= k <= |text| ensures Means(pattern[1..], text[k..]) == Reads(pattern[1..], text[k..]) {
        MeansReads(pattern[1..], text[k..]);
      }
    } else {
      LetterMeans(pattern, text);
      if text != [] { MeansReads(pattern[1..], text[1..]); }
    }
  }
}
