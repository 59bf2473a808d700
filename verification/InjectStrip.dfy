/**
 * Running the injection again with `stripSourceMappingUrl` (packages/runtime-cli/src/inject.ts, debug-id.ts): each
 * run takes one reference out, with its whole line, so a further run changes nothing only when no other reference
 * is left and the line took nothing else with it.
 */
module InjectStrip {
  import opened Wrappers
  import opened Vlq
  import opened Texts
  import opened InjectBundle
  import opened InjectRerun

  function Lines(code: Text): (r: seq<Text>)
    ensures r != [] && Join(r, NEWLINE) == code && forall i | 0 <= i < |r| :: NEWLINE !in r[i]
  {
    Split(code, NEWLINE)
  }

  function Reference(code: Text): (r: Option<nat>)
    ensures r.Some? ==> r.value < |Lines(code)| && IsReference(Trim(Lines(code)[r.value]))
  {
    ReferenceLine(Lines(code), |Lines(code)|)
  }

  function Without(lines: seq<Text>, k: nat): (r: seq<Text>)
    requires k < |lines|
    ensures |r| == |lines| - 1 && forall i | 0 <= i < |r| :: r[i] == lines[if i < k then i else i + 1]
  {
    lines[..k] + lines[k + 1..]
  }

  // ---------- a line and its text ----------

  predicate Bounds(before: Text, after: Text) {
    (before == [] || EndsWithNewline(before)) && (after == [] || after[0] == NEWLINE)
  }

  lemma FirstLineOf(line: Text, after: Text)
    requires (after == [] || after[0] == NEWLINE) && NEWLINE !in line
    ensures line in Lines(line + after)
  {
    SplitOne(line, NEWLINE);
    if after != [] {
      assert line + after == line + [NEWLINE] + after[1..];
      SplitAppend(line, after[1..], NEWLINE);
    } else {
      assert line + after == line;
    }
  }

  lemma OwnLine(before: Text, line: Text, after: Text)
    requires Bounds(before, after) && NEWLINE !in line
    ensures line in Lines(before + line + after)
  {
    FirstLineOf(line, after);
    if before != [] {
      var head := before[..|before| - 1];
      assert before + line + after == head + [NEWLINE] + (line + after);
      SplitAppend(head, line + after, NEWLINE);
    } else {
      assert before + line + after == line + after;
    }
  }

  lemma Around(lines: seq<Text>, k: nat) returns (before: Text, after: Text)
    requires k < |lines|
    ensures Bounds(before, after) && Join(lines, NEWLINE) == before + lines[k] + after
  {
    var head, tail := lines[..k], lines[k + 1..];
    before := if head == [] then [] else Join(head, NEWLINE) + [NEWLINE];
    after := if tail == [] then [] else [NEWLINE] + Join(tail, NEWLINE);
    assert lines == head + ([lines[k]] + tail);
    assert Join([lines[k]], NEWLINE) == lines[k];
    if tail != [] { JoinAppend([lines[k]], tail); } else { assert [lines[k]] + tail == [lines[k]]; }
    assert Join([lines[k]] + tail, NEWLINE) == lines[k] + after;
    if head != [] { JoinAppend(head, [lines[k]] + tail); } else { assert head + ([lines[k]] + tail) == [lines[k]] + tail; }
  }

  // ---------- what a line carries ----------

  /** Only the code units of a mark matter. */
  lemma MarkMoves(env: Env, t: Text, i: nat, s: Text, k: nat)
    requires MarkAt(env, t, i) && k + |env.mark| + 9 <= |s|
    requires s[k..k + |env.mark| + 9] == t[i..i + |env.mark| + 9]
    ensures MarkAt(env, s, k)
  {
    var n := |env.mark|;
    var inT, inS := t[i..i + n + 9], s[k..k + n + 9];
    assert inS[..n] == s[k..k + n] && inT[..n] == t[i..i + n];
    forall j | k <= j < k + n + 9 ensures s[j] == t[j - k + i] { assert inS[j - k] == inT[j - k]; }
  }

  lemma MarkShifts(env: Env, before: Text, code: Text, after: Text, i: nat)
    requires i < |code| && MarkAt(env, code, i)
    ensures HasSnippet(env, before + code + after)
  {
    MarkMoves(env, code, i, before + code + after, |before| + i);
  }

  lemma MarkIsPlain(env: Env, t: Text, i: nat, j: nat)
    requires EnvOk(env) && MarkAt(env, t, i) && i <= j < i + |env.mark| + 9
    ensures t[j] != NEWLINE
  {
    if j < i + |env.mark| { assert t[j] == env.mark[j - i]; }
  }

  /** The mark of a snippet lies within one line. */
  lemma MarkInOne(env: Env, a: Text, b: Text)
    requires EnvOk(env) && HasSnippet(env, a + [NEWLINE] + b)
    ensures HasSnippet(env, a) || HasSnippet(env, b)
  {
    var t := a + [NEWLINE] + b;
    var i: nat :| i < |t| && MarkAt(env, t, i);
    assert t[|a| + 1..] == b && t[..|a|] == a;
    if |a| < i {
      assert b[i - |a| - 1..i - |a| + |env.mark| + 8] == t[i..i + |env.mark| + 9];
      MarkMoves(env, t, i, b, i - |a| - 1);
    } else {
      if |a| < i + |env.mark| + 9 { MarkIsPlain(env, t, i, |a|); }
      MarkMoves(env, t, i, a, i);
    }
  }

  lemma {:induction false} SnippetOnLine(env: Env, lines: seq<Text>)
    requires EnvOk(env)
    ensures HasSnippet(env, Join(lines, NEWLINE)) <==> exists k | 0 <= k < |lines| :: HasSnippet(env, lines[k])
  {
    if |lines| > 1 && HasSnippet(env, Join(lines, NEWLINE)) {
      SnippetOnLine(env, lines[1..]);
      MarkInOne(env, lines[0], Join(lines[1..], NEWLINE));
    }
    forall k | 0 <= k < |lines| && HasSnippet(env, lines[k]) ensures HasSnippet(env, Join(lines, NEWLINE)) {
      var before, after := Around(lines, k);
      var i: nat :| i < |lines[k]| && MarkAt(env, lines[k], i);
      MarkShifts(env, before, lines[k], after, i);
    }
  }

  lemma CommentWithin(before: Text, line: Text, after: Text)
    requires Bounds(before, after) && ReadComment(line).Some?
    ensures ReadComment(before + line + after).Some?
  {
    ReadSplit(before, line + after);
    assert before + line + after == before + (line + after);
    if after != [] {
      assert line + after == line + [NEWLINE] + after[1..];
      ReadAfterBreak(line, NEWLINE, after[1..]);
    } else {
      assert line + after == line;
    }
  }

  lemma SomeComment(lines: seq<Text>, k: nat)
    requires k < |lines| && ReadComment(lines[k]).Some?
    ensures ReadComment(Join(lines, NEWLINE)).Some?
  {
    var before, after := Around(lines, k);
    CommentWithin(before, lines[k], after);
  }

  // ---------- lines that stay ----------

  lemma {:induction false} TrimEndIsPrefix(t: Text)
    ensures TrimEnd(t) <= t
    ensures t != [] && !IsSpace(t[0]) ==> TrimEnd(t) != []
  {
    if t != [] && IsSpace(t[|t| - 1]) { TrimEndIsPrefix(t[..|t| - 1]); }
  }

  /** A line of ours is no reference. */
  lemma OursStays(env: Env, id: Text)
    requires EnvOk(env) && IsDebugId(id)
    ensures !IsReference(Trim(Snippet(env, id))) && !IsReference(Trim(COMMENT + id))
    ensures NEWLINE !in Snippet(env, id) && NEWLINE !in COMMENT + id
  {
    SnippetIsOneLine(env, id);
    var line := Snippet(env, id);
    assert line[0] == env.head[0];
    TrimEndIsPrefix(line);
    assert |TrimEnd(line)| >= 3 ==> TrimEnd(line)[..3][0] == line[0] == 59;
    var comment := COMMENT + id;
    assert comment[0] == 47 && comment[4] == 100;
    TrimEndIsPrefix(comment);
    assert URL_KEY[1] == 115 && (|TrimEnd(comment)| >= 21 ==> TrimEnd(comment)[3..21][1] == comment[4]);
    forall i | 0 <= i < |id| ensures id[i] != NEWLINE { assert IsLowerHex(id[i]) || id[i] == 45; }
  }

  lemma StripLines(code: Text, k: nat)
    requires Reference(code) == Some(k) && |Lines(code)| > 1
    ensures Lines(Strip(code)) == Without(Lines(code), k)
  {
    SplitJoin(Without(Lines(code), k), NEWLINE);
  }

  lemma StaysIn(lines: seq<Text>, k: nat, line: Text)
    requires k < |lines| && line in lines && line != lines[k]
    ensures line in Without(lines, k)
  {
    var i :| 0 <= i < |lines| && lines[i] == line;
    assert Without(lines, k)[if i < k then i else i - 1] == line;
  }

  lemma StripKeepsLine(code: Text, line: Text)
    requires line in Lines(code) && !IsReference(Trim(line))
    ensures line in Lines(Strip(code))
  {
    var at := Reference(code);
    if at.Some? {
      StaysIn(Lines(code), at.value, line);
      StripLines(code, at.value);
    }
  }

  /** A bundle without the snippet, or without an id, gets its own line of each, and stripping leaves that. */
  lemma MissingIsAdded(env: Env, g: Files)
    requires EnvOk(env) && g.map_.SourceMap?
    ensures !HasSnippet(env, g.code) ==> Snippet(env, IdOf(env, g)) in Lines(NewCode(env, g, false))
    ensures ReadComment(g.code).None? ==> COMMENT + IdOf(env, g) in Lines(NewCode(env, g, false))
  {
    hide WithSnippet;
    var id := IdOf(env, g);
    OursStays(env, id);
    if !HasSnippet(env, g.code) { SnippetIsAdded(env, g, Ending(env, g)); }
    if ReadComment(g.code).None? {
      var out := WithSnippet(env, g);
      var above := out + (if EndsWithNewline(out) then [] else [NEWLINE]);
      assert NewCode(env, g, false) == above + (COMMENT + id) + [NEWLINE];
      OwnLine(above, COMMENT + id, [NEWLINE]);
    }
  }

  /** What a run appends after the snippet went in. */
  function Ending(env: Env, g: Files): (r: Text)
    requires g.map_.SourceMap?
    ensures NewCode(env, g, false) == WithSnippet(env, g) + r
  {
    var out := WithSnippet(env, g);
    if ReadComment(g.code).Some? then [] else (if EndsWithNewline(out) then [] else [NEWLINE]) + CommentLine(IdOf(env, g))
  }

  lemma SnippetIsAdded(env: Env, g: Files, end: Text)
    requires EnvOk(env) && g.map_.SourceMap? && !HasSnippet(env, g.code)
    ensures Snippet(env, IdOf(env, g)) in Lines(WithSnippet(env, g) + end)
  {
    var text := Snippet(env, IdOf(env, g));
    OursStays(env, IdOf(env, g));
    var before, after := SnippetLineIn(env, g);
    assert before + text + after + end == before + text + (after + end);
    OwnLine(before, text, after + end);
  }

  lemma SnippetLineIn(env: Env, g: Files) returns (before: Text, after: Text)
    requires g.map_.SourceMap? && !HasSnippet(env, g.code)
    ensures WithSnippet(env, g) == before + Snippet(env, IdOf(env, g)) + after
    ensures Bounds(before, after) && after != []
  {
    var text := Snippet(env, IdOf(env, g));
    var line := InsertionLine(g);
    if line.Some? {
      OffsetIsLineStart(g.code, line.value, 0);
      var offset := LineOffset(g.code, line.value, 0);
      before, after := g.code[..offset], [NEWLINE] + g.code[offset..];
      assert InsertLine(g.code, line.value, text) == before + text + after;
    } else {
      var lines := Lines(g.code);
      var at := TrailStart(lines, |lines|);
      var head, tail := Join(lines[..at], NEWLINE), Join(lines[at..], NEWLINE);
      before := head + (if head != [] && !EndsWithNewline(head) then [NEWLINE] else []);
      after := if tail != [] then [NEWLINE] + DropNewlines(tail) else [NEWLINE];
    }
  }

  // ---------- what a run leaves alone ----------

  /** The snippet is there, the bundle's id is the map's, and, when stripping, no reference is left. */
  predicate Settled(env: Env, g: Files, strip: bool)
    requires g.map_.SourceMap?
  {
    && HasSnippet(env, g.code)
    && ReadComment(g.code).Some? && g.map_.debugId == ReadComment(g.code)
    && (strip ==> Reference(g.code).None?)
  }

  lemma StripShortens(code: Text)
    ensures Strip(code) == code <==> Reference(code).None?
  {
    var at := Reference(code);
    if at.Some? {
      var lines := Lines(code);
      var before, after := Around(lines, at.value);
      var rest := Without(lines, at.value);
      if rest != [] { SplitJoin(rest, NEWLINE); }
      assert |rest| < |lines|;
      if rest == [] { assert lines == [lines[0]] && Trim([]) == []; }
    }
  }

  /** A run changes nothing exactly when the two files are settled; a caller can check it before the run. */
  lemma ChangesNothingExactly(env: Env, g: Files, strip: bool)
    requires EnvOk(env) && g.map_.SourceMap?
    ensures Injected(env, g, strip) == g <==> Settled(env, g, strip)
  {
    var id, u := IdOf(env, g), NewCode(env, g, false);
    StripShortens(g.code);
    if Injected(env, g, strip) == g {
      InjectedIsMarked(env, g);
      MissingIsAdded(env, g);
      OursStays(env, id);
      OwnCommentReads(id);
      assert g.code == if strip then Strip(u) else u;
      if !HasSnippet(env, g.code) { SnippetSurvives(env, g, id, u); }
      if ReadComment(g.code).None? { CommentSurvives(env, g, id, u); }
    }
  }

  lemma SnippetSurvives(env: Env, g: Files, id: Text, u: Text)
    requires EnvOk(env) && IsDebugId(id) && Snippet(env, id) in Lines(u)
    ensures HasSnippet(env, Strip(u))
  {
    OursStays(env, id);
    StripKeepsLine(u, Snippet(env, id));
    SnippetIsFound(env, id, [], []);
    assert [] + Snippet(env, id) + [] == Snippet(env, id);
    SnippetOnLine(env, Lines(Strip(u)));
  }

  lemma CommentSurvives(env: Env, g: Files, id: Text, u: Text)
    requires EnvOk(env) && IsDebugId(id) && COMMENT + id in Lines(u)
    ensures ReadComment(Strip(u)).Some?
  {
    OursStays(env, id);
    StripKeepsLine(u, COMMENT + id);
    OwnCommentReads(id);
    var k :| 0 <= k < |Lines(Strip(u))| && Lines(Strip(u))[k] == COMMENT + id;
    SomeComment(Lines(Strip(u)), k);
  }

  // ---------- main results ----------

  /** Of the lines an unstripped run would leave: one reference at most, and its line carries nothing of ours. */
  predicate OneBareReference(env: Env, lines: seq<Text>, id: Text) {
    var at := ReferenceLine(lines, |lines|);
    at.Some? ==>
      var k := at.value;
      && ReferenceLine(lines, k).None?
      && (exists i | 0 <= i < |lines| :: i != k && HasSnippet(env, lines[i]))
      && OrElse(ReadComment(Join(lines[k + 1..], NEWLINE)), ReadComment(Join(lines[..k], NEWLINE))) == Some(id)
  }

  /** What the search passes over below the first reference, it passes over again. */
  lemma {:induction false} SearchGoesOn(lines: seq<Text>, rest: seq<Text>, k: nat, n: nat)
    requires k <= n <= |rest| && |lines| == |rest| + 1 && rest[..k] == lines[..k]
    requires forall i | k <= i < n :: rest[i] == lines[i + 1]
    requires ReferenceLine(lines, n + 1) == Some(k)
    ensures ReferenceLine(rest, n) == ReferenceLine(rest, k)
  {
    if n > k {
      assert Trim(lines[n]) == [] || (StartsAt(Trim(lines[n]), [47, 47, 35], 0) && !IsReference(Trim(lines[n])));
      SearchGoesOn(lines, rest, k, n - 1);
    }
  }

  lemma {:induction false} SamePrefix(a: seq<Text>, b: seq<Text>, n: nat)
    requires n <= |a| && n <= |b| && a[..n] == b[..n]
    ensures ReferenceLine(a, n) == ReferenceLine(b, n)
  {
    if n > 0 {
      assert a[n - 1] == a[..n][n - 1] && b[n - 1] == b[..n][n - 1];
      assert a[..n - 1] == a[..n][..n - 1] && b[..n - 1] == b[..n][..n - 1];
      SamePrefix(a, b, n - 1);
    }
  }

  lemma NextReference(code: Text, k: nat)
    requires Reference(code) == Some(k) && |Lines(code)| > 1
    ensures Reference(Strip(code)) == ReferenceLine(Lines(code), k)
  {
    var lines := Lines(code);
    var rest := Without(lines, k);
    StripLines(code, k);
    SearchGoesOn(lines, rest, k, |rest|);
    SamePrefix(lines, rest, k);
  }

  lemma SnippetElsewhere(env: Env, lines: seq<Text>, k: nat)
    requires k < |lines|
    ensures (exists i | 0 <= i < |lines| - 1 :: HasSnippet(env, Without(lines, k)[i]))
       <==> (exists i | 0 <= i < |lines| :: i != k && HasSnippet(env, lines[i]))
  {
    forall i | 0 <= i < |lines| && i != k ensures lines[i] == Without(lines, k)[if i < k then i else i - 1] {}
  }

  lemma SnippetLeft(env: Env, u: Text, k: nat)
    requires EnvOk(env) && Reference(u) == Some(k) && |Lines(u)| > 1
    ensures HasSnippet(env, Strip(u)) <==> exists i | 0 <= i < |Lines(u)| :: i != k && HasSnippet(env, Lines(u)[i])
  {
    SnippetOnLine(env, Without(Lines(u), k));
    SnippetElsewhere(env, Lines(u), k);
  }

  lemma CommentLeft(u: Text, k: nat)
    requires Reference(u) == Some(k) && |Lines(u)| > 1
    ensures ReadComment(Strip(u)) == OrElse(ReadComment(Join(Lines(u)[k + 1..], NEWLINE)),
                                            ReadComment(Join(Lines(u)[..k], NEWLINE)))
  {
    var lines, rest := Lines(u), Without(Lines(u), k);
    StripLines(u, k);
    ReadCut(Strip(u), k);
    assert rest[k..] == lines[k + 1..] && rest[..k] == lines[..k];
  }

  /** What stripping leaves is settled exactly when the one reference was bare. */
  lemma StrippedSettles(env: Env, u: Text, id: Text)
    requires EnvOk(env) && Reference(u).Some?
    ensures HasSnippet(env, Strip(u)) && ReadComment(Strip(u)) == Some(id) && Reference(Strip(u)).None?
       <==> OneBareReference(env, Lines(u), id)
  {
    var k := Reference(u).value;
    if |Lines(u)| > 1 {
      SnippetLeft(env, u, k);
      CommentLeft(u, k);
      NextReference(u, k);
    } else {
      assert Without(Lines(u), k) == [] && Strip(u) == [];
    }
  }

  /**
   * A further run with stripping changes nothing exactly when the bundle the first run had before it stripped held
   * one reference at most, on a line without the snippet and without the id comment that is read.
   */
  lemma StripRerunExactly(env: Env, f: Files)
    requires EnvOk(env) && f.map_.SourceMap?
    ensures var g := Injected(env, f, true);
            Injected(env, g, true) == g <==> OneBareReference(env, Lines(NewCode(env, f, false)), IdOf(env, f))
  {
    var u := NewCode(env, f, false);
    var g := Injected(env, f, true);
    assert g.code == Strip(u) && g.map_.debugId == Some(IdOf(env, f));
    ChangesNothingExactly(env, g, true);
    if Reference(u).Some? { StrippedSettles(env, u, IdOf(env, f)); } else { InjectedIsMarked(env, f); }
  }

  lemma CommentIsNoReference(line: Text)
    requires |line| >= 12 && line[..12] == COMMENT
    ensures !IsReference(Trim(line))
  {
    assert line[0] == line[..12][0] == 47 && line[4] == line[..12][4] == 100;
    TrimEndIsPrefix(line);
    assert URL_KEY[1] == 115 && (|TrimEnd(line)| >= 21 ==> TrimEnd(line)[3..21][1] == line[4]);
  }

  lemma ReferenceIsNoComment(line: Text)
    requires IsReference(Trim(line)) && Plain(line)
    ensures ReadComment(line).None?
  {
    ReadPlain(line);
    if CommentOn(line).Some? { CommentIsNoReference(line); }
  }

  /** Reading a text with a line taken out, and that line, in the order of the text. */
  lemma ReadThree(u: Text, k: nat)
    requires k < |Lines(u)|
    ensures ReadComment(u) == OrElse(ReadComment(Join(Lines(u)[k + 1..], NEWLINE)),
                                     OrElse(ReadComment(Lines(u)[k]), ReadComment(Join(Lines(u)[..k], NEWLINE))))
  {
    var lines := Lines(u);
    var upper := lines[..k + 1];
    ReadCut(u, k + 1);
    SplitJoin(upper, NEWLINE);
    ReadCut(Join(upper, NEWLINE), k);
    assert upper[k..] == [lines[k]] && upper[..k] == lines[..k];
  }

  /** When the reference has its line to itself, only the number of references decides. */
  lemma OnlyReferencesCount(env: Env, f: Files, k: nat)
    requires EnvOk(env) && f.map_.SourceMap? && Reference(NewCode(env, f, false)) == Some(k)
    requires Plain(Lines(NewCode(env, f, false))[k]) && !HasSnippet(env, Lines(NewCode(env, f, false))[k])
    ensures var g := Injected(env, f, true);
            Injected(env, g, true) == g <==> ReferenceLine(Lines(NewCode(env, f, false)), k).None?
  {
    var u := NewCode(env, f, false);
    StripRerunExactly(env, f);
    InjectedIsMarked(env, f);
    SnippetOnLine(env, Lines(u));
    ReadThree(u, k);
    ReferenceIsNoComment(Lines(u)[k]);
  }

  // ---------- two bundles on which a rerun changes something ----------

  /** `//# sourceMappingURL=x` */
  const URL: Text := [47, 47, 35] + URL_KEY + [120]

  lemma UrlIsReference()
    ensures IsReference(Trim(URL)) && NEWLINE !in URL
  {
    assert URL[0] == 47 && URL[21] == 120 && |URL| == 22;
    assert Trim(URL) == URL;
    assert URL[..3] == [47, 47, 35] && URL[3..21] == URL_KEY;
  }

  /** A bundle that has the snippet and an id, as a map without further fields goes with. */
  function Marked(code: Text): Files {
    Files(code, SourceMap(None, false, None, None))
  }

  ghost predicate RerunChanges(env: Env, f: Files) {
    f.map_.SourceMap? && Injected(env, Injected(env, f, true), true) != Injected(env, f, true)
  }

  lemma MarkedStays(env: Env, lines: seq<Text>, i: nat, j: nat)
    requires EnvOk(env) && i < |lines| && j < |lines| && forall k | 0 <= k < |lines| :: NEWLINE !in lines[k]
    requires HasSnippet(env, lines[i]) && ReadComment(lines[j]).Some?
    ensures var f := Marked(Join(lines, NEWLINE));
            && NewCode(env, f, false) == f.code && Lines(f.code) == lines
            && (RerunChanges(env, f) <==> !OneBareReference(env, lines, IdOf(env, f)))
  {
    var f := Marked(Join(lines, NEWLINE));
    SnippetOnLine(env, lines);
    SomeComment(lines, j);
    SplitJoin(lines, NEWLINE);
    StripRerunExactly(env, f);
  }

  lemma SnippetLineReads(env: Env, id: Text)
    requires EnvOk(env) && IsDebugId(id)
    ensures HasSnippet(env, Snippet(env, id)) && NEWLINE !in Snippet(env, id) && ReadComment(Snippet(env, id)).None?
  {
    OursStays(env, id);
    SnippetIsFound(env, id, [], []);
    assert [] + Snippet(env, id) + [] == Snippet(env, id);
    SnippetIsNoComment(env, id);
  }

  /** With two references a second run takes out the second: the snippet, the id comment and two references. */
  lemma TwoReferences(env: Env) returns (f: Files)
    requires EnvOk(env)
    ensures var id := env.hash([]);
            f == Marked(Join([Snippet(env, id), COMMENT + id, URL, URL], NEWLINE)) && RerunChanges(env, f)
  {
    hide Snippet;
    var id := env.hash([]);
    var lines := [Snippet(env, id), COMMENT + id, URL, URL];
    OursStays(env, id);
    SnippetLineReads(env, id);
    OwnCommentReads(id);
    UrlIsReference();
    f := Marked(Join(lines, NEWLINE));
    MarkedStays(env, lines, 0, 1);
    assert ReferenceLine(lines, 4) == Some(3) && ReferenceLine(lines, 3) == Some(2);
  }

  /** With one reference whose line also holds the id comment, after a carriage return, a second run adds the id again. */
  lemma CommentOnTheSameLine(env: Env) returns (f: Files)
    requires EnvOk(env)
    ensures var id := env.hash([]);
            && f == Marked(Join([Snippet(env, id), URL + [13] + (COMMENT + id)], NEWLINE)) && RerunChanges(env, f)
            && NewCode(env, f, false) == f.code && Reference(f.code) == Some(1) && ReferenceLine(Lines(f.code), 1).None?
  {
    var id := env.hash([]);
    var lines := [Snippet(env, id), URL + [13] + (COMMENT + id)];
    SnippetLineReads(env, id);
    OwnCommentReads(id);
    ReadAfterBreak(URL, 13, COMMENT + id);
    BothIsReference(id);
    MarkedStays(env, lines, 0, 1);
    f := Marked(Join(lines, NEWLINE));
    NotBare(env, id, lines, IdOf(env, f));
  }

  lemma NotBare(env: Env, id: Text, lines: seq<Text>, other: Text)
    requires EnvOk(env) && IsDebugId(id) && |lines| == 2 && lines[0] == Snippet(env, id) && IsReference(Trim(lines[1]))
    ensures ReferenceLine(lines, 2) == Some(1) && ReferenceLine(lines, 1).None?
    ensures !OneBareReference(env, lines, other)
  {
    SnippetEndsSearch(env, id, lines);
    assert ReferenceLine(lines, 2) == Some(1);
    NothingElseReads(env, id, lines);
  }

  lemma NothingElseReads(env: Env, id: Text, lines: seq<Text>)
    requires EnvOk(env) && IsDebugId(id) && |lines| == 2 && lines[0] == Snippet(env, id)
    ensures ReadComment(Join(lines[2..], NEWLINE)).None? && ReadComment(Join(lines[..1], NEWLINE)).None?
  {
    SnippetLineReads(env, id);
    assert lines[2..] == [] && lines[..1] == [Snippet(env, id)];
  }

  lemma BothIsReference(id: Text)
    requires IsDebugId(id)
    ensures var both := URL + [13] + (COMMENT + id); IsReference(Trim(both)) && NEWLINE !in both
  {
    var both := URL + [13] + (COMMENT + id);
    UrlIsReference();
    forall i | 0 <= i < |id| ensures id[i] != NEWLINE && !IsSpace(id[i]) { assert IsLowerHex(id[i]) || id[i] == 45; }
    assert both[0] == 47 && both[|both| - 1] == id[35];
    assert Trim(both) == both;
    assert both[..3] == URL[..3] && both[3..21] == URL[3..21];
  }

  lemma SnippetEndsSearch(env: Env, id: Text, lines: seq<Text>)
    requires EnvOk(env) && IsDebugId(id) && lines != [] && lines[0] == Snippet(env, id)
    ensures ReferenceLine(lines, 1).None?
  {
    var line := Snippet(env, id);
    OursStays(env, id);
    assert line[0] == env.head[0];
    TrimEndIsPrefix(line);
    var t := Trim(line);
    assert t[0] == 59;
    assert |t| >= 3 ==> t[0..3][0] == 59;
  }
}
