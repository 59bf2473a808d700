/**
 * Where a run puts what it adds to a bundle (packages/runtime-cli/src/inject.ts, debug-id.ts): the snippet's line, the
 * comment's line, and the id, with every other line in its place and order.
 */
module InjectPlace {
  import opened Wrappers
  import opened Vlq
  import opened Texts
  import opened InjectBundle
  import opened InjectRerun
  import opened InjectStrip
  import ShiftMappings

  // ---------- a line of its own ----------

  /** `text` is a new line `k`; the others stay in order. */
  predicate HasNewLine(lines: seq<Text>, out: seq<Text>, k: nat, text: Text) {
    k <= |lines| && out == lines[..k] + [text] + lines[k..]
  }

  lemma FirstBreak(code: Text, nl: nat)
    requires IndexOf(code, [NEWLINE], 0) == nl
    ensures nl < |code| && code[nl] == NEWLINE && Lines(code) == [code[..nl]] + Lines(code[nl + 1..])
  {
    FirstLine(code, nl);
    CutAt(code, nl);
    SplitAppend(code[..nl], code[nl + 1..], NEWLINE);
    SplitOne(code[..nl], NEWLINE);
  }

  lemma NoLineBreak(code: Text)
    requires IndexOf(code, [NEWLINE], 0) < 0
    ensures |Lines(code)| == 1
  {
    forall i | 0 <= i < |code| ensures code[i] != NEWLINE { assert !StartsAt(code, [NEWLINE], i) && code[i..i + 1] == [code[i]]; }
    SplitOne(code, NEWLINE);
  }

  lemma {:induction false} IndexFrom(code: Text, what: Text, offset: nat, from: nat)
    requires offset <= from <= |code|
    ensures IndexOf(code, what, from)
         == if IndexOf(code[offset..], what, from - offset) < 0 then -1
            else offset + IndexOf(code[offset..], what, from - offset)
    decreases |code| - from
  {
    if from + |what| <= |code| {
      assert code[offset..][from - offset..from - offset + |what|] == code[from..from + |what|];
      if !StartsAt(code, what, from) && from < |code| {
        IndexFrom(code, what, offset, from + 1);
      }
    }
  }

  lemma InsertedFirst(code: Text, text: Text)
    requires NEWLINE !in text
    ensures HasNewLine(Lines(code), Lines(text + [NEWLINE] + code), 0, text)
  {
    SplitAppend(text, code, NEWLINE);
    SplitOne(text, NEWLINE);
  }

  /** The start of line `n`, counted from a line's start, is where a text becomes line `n`. */
  lemma {:induction false} InsertedAt(code: Text, n: nat, offset: nat, text: Text)
    requires offset <= |code| && n < |Lines(code[offset..])| && NEWLINE !in text
    ensures offset <= LineOffset(code, n, offset)
    ensures var r := LineOffset(code, n, offset);
            HasNewLine(Lines(code[offset..]), Lines(code[offset..r] + text + [NEWLINE] + code[r..]), n, text)
    decreases n
  {
    hide IndexOf, Lines;
    var rest := code[offset..];
    if n == 0 {
      InsertedFirst(rest, text);
      assert code[offset..offset] + text + [NEWLINE] + rest == text + [NEWLINE] + rest;
    } else {
      if IndexOf(rest, [NEWLINE], 0) < 0 { NoLineBreak(rest); }
      var nl := IndexOf(rest, [NEWLINE], 0);
      FirstBreak(rest, nl);
      IndexFrom(code, [NEWLINE], offset, offset);
      var next := offset + nl + 1;
      InsertedAt(code, n - 1, next, text);
      var r := LineOffset(code, n - 1, next);
      assert rest == rest[..nl] + [NEWLINE] + code[next..] by { CutAt(rest, nl); assert rest[nl + 1..] == code[next..]; }
      assert NEWLINE !in rest[..nl] by { FirstLine(rest, nl); }
      SplitAt(code, offset, nl, r);
      Regrouped(rest[..nl], code[next..r], text, code[r..]);
      InsertedBelow(rest[..nl], code[next..], code[next..r] + text + [NEWLINE] + code[r..], n - 1, text);
    }
  }

  lemma InsertedBelow(first: Text, below: Text, out: Text, k: nat, text: Text)
    requires NEWLINE !in first && HasNewLine(Lines(below), Lines(out), k, text)
    ensures HasNewLine(Lines(first + [NEWLINE] + below), Lines(first + [NEWLINE] + out), k + 1, text)
  {
    SplitAppend(first, below, NEWLINE);
    SplitAppend(first, out, NEWLINE);
    SplitOne(first, NEWLINE);
    hide HasNewLine;
    NewLineBelow(first, Lines(below), Lines(out), k, text);
  }

  lemma SplitAt(code: Text, offset: nat, nl: nat, r: nat)
    requires offset + nl + 1 <= r <= |code| && code[offset..][nl] == NEWLINE
    ensures code[offset..r] == code[offset..][..nl] + [NEWLINE] + code[offset + nl + 1..r]
  {}

  lemma Regrouped(first: Text, a: Text, text: Text, b: Text)
    ensures (first + [NEWLINE] + a) + text + [NEWLINE] + b == first + [NEWLINE] + (a + text + [NEWLINE] + b)
  {}

  lemma NewLineBelow(first: Text, lines: seq<Text>, out: seq<Text>, k: nat, text: Text)
    requires HasNewLine(lines, out, k, text)
    ensures HasNewLine([first] + lines, [first] + out, k + 1, text)
  {
    assert ([first] + lines)[..k + 1] == [first] + lines[..k] && ([first] + lines)[k + 1..] == lines[k..];
  }

  // ---------- before the trailing comments ----------

  /** `text` is a line below the first `at`; what follows it starts with the first of the others that is not empty. */
  predicate Appended(lines: seq<Text>, out: seq<Text>, at: nat, text: Text) {
    exists m | at <= m <= |lines| ::
      && (forall i | at <= i < m :: lines[i] == [])
      && out == lines[..at] + [text] + (if m == |lines| then [[]] else lines[m..])
  }

  lemma {:induction false} BlanksDropped(lines: seq<Text>) returns (m: nat)
    requires lines != [] && forall i | 0 <= i < |lines| :: NEWLINE !in lines[i]
    ensures m < |lines| && (forall i | 0 <= i < m :: lines[i] == [])
    ensures DropNewlines(Join(lines, NEWLINE)) == Join(lines[m..], NEWLINE)
    decreases |lines|
  {
    var t := Join(lines, NEWLINE);
    if |lines| > 1 && lines[0] == [] {
      var k := BlanksDropped(lines[1..]);
      m := k + 1;
      assert t[0] == NEWLINE && t[1..] == Join(lines[1..], NEWLINE);
      assert lines[1..][k..] == lines[m..];
      forall i | 0 <= i < m ensures lines[i] == [] { if i > 0 { assert lines[i] == lines[1..][i - 1]; } }
    } else {
      m := 0;
      assert lines[0..] == lines;
      assert t != [] ==> t[0] != NEWLINE by { if lines[0] != [] { assert t[0] == lines[0][0] && lines[0][0] in lines[0]; } }
    }
  }

  lemma BelowLines(tail: seq<Text>, rest: Text) returns (m: nat)
    requires forall i | 0 <= i < |tail| :: NEWLINE !in tail[i]
    requires var t := Join(tail, NEWLINE); rest == if t != [] then DropNewlines(t) else []
    ensures m <= |tail| && (forall i | 0 <= i < m :: tail[i] == [])
    ensures Lines(rest) == if m == |tail| then [[]] else tail[m..]
  {
    if tail == [] {
      m := 0;
    } else {
      m := BlanksDropped(tail);
      SplitJoin(tail[m..], NEWLINE);
      if Join(tail, NEWLINE) == [] { assert DropNewlines([]) == []; }
    }
  }

  lemma {:induction false} TrailOk(lines: seq<Text>, n: nat)
    requires n <= |lines|
    ensures var at := TrailStart(lines, n);
            at <= n && (forall i | at <= i < n :: Trailing(lines[i])) && (at > 0 ==> !Trailing(lines[at - 1]))
  {
    if n > 0 && Trailing(lines[n - 1]) { TrailOk(lines, n - 1); }
  }

  lemma {:induction false} JoinEnds(lines: seq<Text>)
    requires lines != [] && lines[|lines| - 1] != [] && NEWLINE !in lines[|lines| - 1]
    ensures Join(lines, NEWLINE) != [] && !EndsWithNewline(Join(lines, NEWLINE))
  {
    var last := lines[|lines| - 1];
    assert last[|last| - 1] in last;
    if |lines| > 1 {
      assert lines[1..][|lines[1..]| - 1] == last;
      JoinEnds(lines[1..]);
    }
  }

  lemma HeadLines(head: seq<Text>, below: Text)
    requires forall i | 0 <= i < |head| :: NEWLINE !in head[i]
    requires head != [] ==> head[|head| - 1] != []
    ensures var h := Join(head, NEWLINE);
            Lines(h + (if h != [] && !EndsWithNewline(h) then [NEWLINE] else []) + below) == head + Lines(below)
  {
    var h := Join(head, NEWLINE);
    if head == [] {
      assert h + [] + below == below;
    } else {
      JoinEnds(head);
      SplitJoin(head, NEWLINE);
      SplitAppend(h, below, NEWLINE);
    }
  }

  lemma BlankTrails()
    ensures Trailing([])
  {}

  /** Appended, the text is the line above the run of blank and `//#` or `//@` lines that ends the bundle. */
  lemma AppendedBeforeTrailing(code: Text, text: Text) returns (at: nat)
    requires NEWLINE !in text
    ensures at <= |Lines(code)| && (forall i | at <= i < |Lines(code)| :: Trailing(Lines(code)[i]))
    ensures at > 0 ==> !Trailing(Lines(code)[at - 1])
    ensures Appended(Lines(code), Lines(InsertBeforeTrailing(code, text)), at, text)
  {
    var lines := Lines(code);
    at := TrailStart(lines, |lines|);
    TrailOk(lines, |lines|);
    assert at > 0 ==> lines[at - 1] != [] by { BlankTrails(); }
    assert InsertBeforeTrailing(code, text) == Between(Join(lines[..at], NEWLINE), text, Join(lines[at..], NEWLINE));
    hide Trailing, InsertBeforeTrailing, Between, Appended, TrailStart;
    BetweenLines(lines, at, text);
  }

  lemma BetweenLines(lines: seq<Text>, at: nat, text: Text)
    requires at <= |lines| && NEWLINE !in text && forall i | 0 <= i < |lines| :: NEWLINE !in lines[i]
    requires at > 0 ==> lines[at - 1] != []
    ensures Appended(lines, Lines(Between(Join(lines[..at], NEWLINE), text, Join(lines[at..], NEWLINE))), at, text)
  {
    hide Lines, Appended, Between, Join, DropNewlines;
    var head, tail := lines[..at], lines[at..];
    var t := Join(tail, NEWLINE);
    var rest := if t != [] then DropNewlines(t) else [];
    assert forall i | 0 <= i < |tail| :: NEWLINE !in tail[i];
    var m := BelowLines(tail, rest);
    HeadLines(head, text + [NEWLINE] + rest);
    InsertedFirst(rest, text);
    BetweenIs(Join(head, NEWLINE), text, t);
    FirstNewLine(Lines(rest), Lines(text + [NEWLINE] + rest), text);
    AppendedAt(lines, at, m, text, Lines(rest));
  }

  lemma FirstNewLine(lines: seq<Text>, out: seq<Text>, text: Text)
    requires HasNewLine(lines, out, 0, text)
    ensures out == [text] + lines
  {}

  lemma BetweenIs(h: Text, text: Text, t: Text)
    ensures Between(h, text, t) == h + (if h != [] && !EndsWithNewline(h) then [NEWLINE] else [])
                                   + (text + [NEWLINE] + (if t != [] then DropNewlines(t) else []))
  {
    var sep := if h != [] && !EndsWithNewline(h) then [NEWLINE] else [];
    var rest := if t != [] then DropNewlines(t) else [];
    assert [NEWLINE] + [] == [NEWLINE];
    assert h + sep + text + ([NEWLINE] + rest) == h + sep + (text + [NEWLINE] + rest);
  }

  lemma AppendedAt(lines: seq<Text>, at: nat, m: nat, text: Text, below: seq<Text>)
    requires at <= |lines| && m <= |lines[at..]| && forall i | 0 <= i < m :: lines[at..][i] == []
    requires below == if m == |lines[at..]| then [[]] else lines[at..][m..]
    ensures Appended(lines, lines[..at] + ([text] + below), at, text)
  {
    assert m < |lines[at..]| ==> lines[at..][m..] == lines[at + m..];
    forall i | at <= i < at + m ensures lines[i] == [] { assert lines[i] == lines[at..][i - at]; }
    assert lines[..at] + ([text] + below) == lines[..at] + [text] + below;
    assert at <= at + m <= |lines|;
  }

  // ---------- the id that is read ----------

  /** `id` is `raw` in lower case. */
  predicate LowerOf(raw: Text, id: Text) {
    |id| == |raw| && forall i | 0 <= i < |raw| :: id[i] == if 65 <= raw[i] <= 90 then raw[i] + 32 else raw[i]
  }

  /** A line is a debug id comment exactly when it is `//# debugId=`, an id in any case, and blanks. */
  lemma CommentExactly(line: Text, id: Text)
    ensures CommentOn(line) == Some(id) <==>
              exists raw: Text, blanks: Text ::
                && line == COMMENT + raw + blanks && LowerOf(raw, id) && IsDebugId(id)
                && forall i | 0 <= i < |blanks| :: blanks[i] == 32 || blanks[i] == 9
  {
    if CommentOn(line) == Some(id) {
      var raw, blanks := line[12..48], line[48..];
      assert line == COMMENT + raw + blanks && LowerOf(raw, id);
    }
    forall raw: Text, blanks: Text | line == COMMENT + raw + blanks && LowerOf(raw, id) && IsDebugId(id)
                                     && forall i | 0 <= i < |blanks| :: blanks[i] == 32 || blanks[i] == 9
      ensures CommentOn(line) == Some(id)
    {
      CommentRead(line, raw, blanks, id);
    }
  }

  lemma CommentRead(line: Text, raw: Text, blanks: Text, id: Text)
    requires line == COMMENT + raw + blanks && LowerOf(raw, id) && IsDebugId(id)
    requires forall i | 0 <= i < |blanks| :: blanks[i] == 32 || blanks[i] == 9
    ensures CommentOn(line) == Some(id)
  {
    assert line[..12] == COMMENT && line[12..48] == raw && Lower(raw) == id;
    forall i | 12 <= i < 48 ensures IsHexOrDash(line[i]) {
      assert line[i] == raw[i - 12] && (id[i - 12] == 45 || IsLowerHex(id[i - 12]));
    }
    forall i | 48 <= i < |line| ensures line[i] == 32 || line[i] == 9 { assert line[i] == blanks[i - 48]; }
  }

  /** `code[i..j]` is a line, whatever kind of line break ends it. */
  predicate LineAt(code: Text, i: nat, j: nat) {
    && i <= j <= |code| && (i == 0 || IsBreak(code[i - 1])) && (j == |code| || IsBreak(code[j])) && Plain(code[i..j])
  }

  predicate CommentLineAt(code: Text, i: nat, j: nat) {
    i <= j <= |code| && LineAt(code, i, j) && CommentOn(code[i..j]).Some?
  }

  lemma LineBelow(code: Text, k: nat, i: nat, j: nat)
    requires k < |code| && IsBreak(code[k]) && i <= j && j <= |code| - (k + 1)
    ensures LineAt(code[k + 1..], i, j) <==> LineAt(code, k + 1 + i, k + 1 + j)
    ensures code[k + 1..][i..j] == code[k + 1 + i..k + 1 + j]
  {
    var rest := code[k + 1..];
    assert rest[i..j] == code[k + 1 + i..k + 1 + j];
    assert j < |rest| ==> rest[j] == code[k + 1 + j];
    assert i > 0 ==> rest[i - 1] == code[k + i];
  }

  lemma NoBreakWithin(code: Text, i: nat, j: nat, x: nat)
    requires i <= x < j <= |code| && Plain(code[i..j])
    ensures !IsBreak(code[x])
  {
    assert code[i..j][x - i] == code[x];
  }

  lemma OnlyFirst(code: Text, k: nat, i: nat, j: nat)
    requires k == BreakAt(code) && LineAt(code, i, j) && i <= k
    ensures i == 0 && j == k
  {
    if k < j { NoBreakWithin(code, i, j, k); }
  }

  /** Below the first line break, the comment lines are those of the rest. */
  lemma CommentBelow(code: Text, k: nat, i: nat, j: nat)
    requires k < |code| && IsBreak(code[k]) && i <= j <= |code| - (k + 1)
    ensures CommentLineAt(code[k + 1..], i, j) <==> CommentLineAt(code, k + 1 + i, k + 1 + j)
    ensures code[k + 1..][i..j] == code[k + 1 + i..k + 1 + j]
  {
    LineBelow(code, k, i, j);
    hide LineAt, CommentOn, Plain;
  }

  /** The id read is that of the last line that is a debug id comment; there is none when no line is one. */
  lemma {:induction false} LastCommentIsRead(code: Text) returns (i: nat, j: nat)
    ensures if ReadComment(code).Some?
            then CommentLineAt(code, i, j) && CommentOn(code[i..j]) == ReadComment(code)
                 && forall a: nat, b: nat :: CommentLineAt(code, a, b) ==> a <= i
            else forall a: nat, b: nat :: !CommentLineAt(code, a, b)
    decreases |code|
  {
    hide CommentOn, LineAt;
    var k := BreakAt(code);
    i, j := 0, k;
    assert code[..k] == code[0..k] && code[0..|code|] == code;
    assert LineAt(code, 0, k) by { FirstIsLine(code, k); }
    assert ReadComment(code) == if k == |code| then CommentOn(code) else OrElse(ReadComment(code[k + 1..]), CommentOn(code[..k]));
    hide ReadComment, BreakAt, Plain;
    if k == |code| {
      forall a: nat, b: nat | CommentLineAt(code, a, b) ensures a == 0 && b == k { OnlyFirst(code, k, a, b); }
    } else {
      var rest := code[k + 1..];
      var i1, j1 := LastCommentIsRead(rest);
      if ReadComment(rest).Some? {
        i, j := k + 1 + i1, k + 1 + j1;
        CommentBelow(code, k, i1, j1);
      }
      forall a: nat, b: nat | CommentLineAt(code, a, b)
        ensures if a <= k then a == 0 && b == k else CommentLineAt(rest, a - k - 1, b - k - 1)
      {
        if a <= k { OnlyFirst(code, k, a, b); } else { CommentBelow(code, k, a - k - 1, b - k - 1); }
      }
    }
  }

  lemma FirstIsLine(code: Text, k: nat)
    requires k == BreakAt(code)
    ensures LineAt(code, 0, k)
  {}

  // ---------- a whole run ----------

  /** Line `n`, counted from the first again past the last of `count` lines. */
  function Wrapped(n: nat, count: nat): (r: nat)
    requires count > 0
    ensures r < count && (n < count ==> r == n)
  {
    if n < count then n else Wrapped(n - count, count)
  }

  /** The snippet becomes a line; the map remembers which when it did not yet, and only then do its lines move. */
  predicate OnLine(env: Env, f: Files, body: Text, m: MapFile, id: Text, line: nat)
    requires f.map_.SourceMap? && m.SourceMap?
  {
    && HasNewLine(Lines(f.code), Lines(body), Wrapped(line, |Lines(f.code)|), Snippet(env, id))
    && m.snippetLine == Some(line)
    && m.mappings == (if f.map_.snippetLine.Some? then f.map_.mappings
                      else if f.map_.mappings.Some? then Some(ShiftMappings.Shifted(f.map_.mappings.value, line, 1)) else None)
  }

  /** The snippet is above the trailing comments, and no line of the map moves. */
  ghost predicate AtEnd(env: Env, f: Files, body: Text, m: MapFile, id: Text)
    requires f.map_.SourceMap? && m.SourceMap?
  {
    && m.snippetLine == f.map_.snippetLine && m.mappings == f.map_.mappings
    && exists at: nat | at <= |Lines(f.code)| ::
         && (forall i | at <= i < |Lines(f.code)| :: Trailing(Lines(f.code)[i]))
         && (at > 0 ==> !Trailing(Lines(f.code)[at - 1]))
         && Appended(Lines(f.code), Lines(body), at, Snippet(env, id))
  }

  /** The bundle and its map with the snippet in place. A recorded line past the last is counted from the first again. */
  ghost predicate SnippetPlaced(env: Env, f: Files, body: Text, m: MapFile, id: Text)
    requires f.map_.SourceMap? && m.SourceMap?
  {
    var recorded, place := f.map_.snippetLine, LineOfSnippet(f.code);
    if HasSnippet(env, f.code) then
      body == f.code && m.snippetLine == recorded && m.mappings == f.map_.mappings
    else if recorded.Some? && recorded.value >= 0 then
      OnLine(env, f, body, m, id, recorded.value)
    else if recorded.None? && place >= 0 && f.map_.mappings.Some? && !f.map_.sections then
      OnLine(env, f, body, m, id, place)
    else AtEnd(env, f, body, m, id)
  }

  /** Counted past the last line, the search for a line starts over. */
  lemma {:induction false} OffsetWraps(code: Text, n: nat, offset: nat)
    requires offset <= |code| && n >= |Lines(code[offset..])|
    ensures LineOffset(code, n, offset) == LineOffset(code, n - |Lines(code[offset..])|, 0)
    decreases |code| - offset
  {
    hide Lines, IndexOf;
    var rest := code[offset..];
    IndexFrom(code, [NEWLINE], offset, offset);
    if IndexOf(rest, [NEWLINE], 0) < 0 {
      NoLineBreak(rest);
    } else {
      var nl := IndexOf(rest, [NEWLINE], 0);
      FirstBreak(rest, nl);
      assert rest[nl + 1..] == code[offset + nl + 1..];
      OffsetWraps(code, n - 1, offset + nl + 1);
    }
  }

  lemma {:induction false} SameOffset(code: Text, n: nat)
    ensures LineOffset(code, n, 0) == LineOffset(code, Wrapped(n, |Lines(code)|), 0)
  {
    assert code[0..] == code;
    hide Lines, LineOffset;
    if n >= |Lines(code)| {
      OffsetWraps(code, n, 0);
      SameOffset(code, n - |Lines(code)|);
    }
  }

  lemma PlaceIsLine(code: Text)
    requires LineOfSnippet(code) >= 0
    ensures LineOfSnippet(code) < |Lines(code)|
  {
    if LineOfSnippet(code) == 1 {
      if IndexOf(code, [NEWLINE], 0) >= 0 { FirstBreak(code, IndexOf(code, [NEWLINE], 0)); }
    }
  }

  lemma InsertedOnLine(code: Text, line: nat, text: Text)
    requires line < |Lines(code)| && NEWLINE !in text
    ensures HasNewLine(Lines(code), Lines(InsertLine(code, line, text)), line, text)
  {
    assert code[0..] == code;
    InsertedAt(code, line, 0, text);
    var r := LineOffset(code, line, 0);
    assert code[0..r] == code[..r];
  }

  lemma SnippetGoes(env: Env, f: Files, id: Text)
    requires EnvOk(env) && f.map_.SourceMap? && id == IdOf(env, f)
    ensures SnippetPlaced(env, f, WithSnippet(env, f), NewMap(env, f), id)
  {
    SnippetIsOneLine(env, id);
    if !HasSnippet(env, f.code) {
      var line := InsertionLine(f);
      if line.Some? {
        if f.map_.snippetLine.None? { PlaceIsLine(f.code); }
        SameOffset(f.code, line.value);
        InsertedOnLine(f.code, Wrapped(line.value, |Lines(f.code)|), Snippet(env, id));
      } else {
        var at := AppendedBeforeTrailing(f.code, Snippet(env, id));
      }
    }
  }

  /** The last line of `out`, below `body`, is the comment with the id. */
  predicate CommentAdded(body: Text, out: Text, id: Text) {
    out == body + (if EndsWithNewline(body) then [] else [NEWLINE]) + COMMENT + id + [NEWLINE]
  }

  /**
   * What a run adds, and where. The id is that of the bundle's last valid comment, or its content's hash; the map has it
   * too. A bundle without the snippet gets it on the line recorded in the map, else on the line found for it, with the
   * map's lines moved, else above the trailing comments; a bundle without a comment gets one at its end. Nothing else of
   * either file changes, but for the reference that is taken out on request.
   */
  lemma RunAdds(env: Env, f: Files, strip: bool)
    requires EnvOk(env) && f.map_.SourceMap?
    ensures var id := if ReadComment(f.code).Some? then ReadComment(f.code).value else env.hash(f.code);
            var plain, g := Injected(env, f, false), Injected(env, f, strip);
            && g.map_ == plain.map_ && g.code == (if strip then Strip(plain.code) else plain.code)
            && plain.map_.SourceMap? && plain.map_.debugId == Some(id) && plain.map_.sections == f.map_.sections
            && exists body ::
                 && SnippetPlaced(env, f, body, plain.map_, id)
                 && (if ReadComment(f.code).Some? then plain.code == body else CommentAdded(body, plain.code, id))
  {
    SnippetGoes(env, f, IdOf(env, f));
    var body := WithSnippet(env, f);
    var sep := if EndsWithNewline(body) then [] else [NEWLINE];
    assert body + sep + (COMMENT + IdOf(env, f) + [NEWLINE]) == body + sep + COMMENT + IdOf(env, f) + [NEWLINE];
    assert SnippetPlaced(env, f, body, Injected(env, f, false).map_, IdOf(env, f));
  }
}
