/**
 * Running the injection again (packages/runtime-cli/src/inject.ts): after a crash between the two writes it
 * ends where an uninterrupted run ends, and after a complete run it changes nothing.
 */
module InjectRerun {
  import opened Wrappers
  import opened Vlq
  import opened Texts
  import opened ShiftMappings
  import opened InjectBundle
  import opened Mappings

  // ---------- comments, line by line ----------

  /** Text after a line break is read on its own, and wins. */
  lemma {:induction false} ReadAfterBreak(a: Text, c: CodeUnit, b: Text)
    requires IsBreak(c)
    ensures ReadComment(a + [c] + b) == OrElse(ReadComment(b), ReadComment(a))
    decreases |a|
  {
    var t := a + [c] + b;
    var k := BreakAt(t);
    assert t[|a|] == c;
    if k == |a| {
      assert t[..k] == a && t[k + 1..] == b;
      assert BreakAt(a) == |a| by { assert forall i | 0 <= i < |a| :: a[i] == t[i]; }
    } else {
      assert k < |a| && a[k] == t[k];
      assert BreakAt(a) == k by { assert forall i | 0 <= i <= k :: a[i] == t[i]; }
      assert t[..k] == a[..k] && t[k + 1..] == a[k + 1..] + [c] + b;
      ReadAfterBreak(a[k + 1..], c, b);
    }
  }

  lemma ReadNothing()
    ensures ReadComment([]) == None
  {}

  lemma ReadBeforeNewline(a: Text)
    ensures ReadComment(a + [NEWLINE]) == ReadComment(a)
  {
    ReadAfterBreak(a, NEWLINE, []);
    assert a + [NEWLINE] + [] == a + [NEWLINE];
  }

  lemma ReadPlain(t: Text)
    requires Plain(t)
    ensures ReadComment(t) == CommentOn(t)
  {
    NoBreak(t);
  }

  lemma {:induction false} NoBreak(t: Text)
    requires Plain(t)
    ensures BreakAt(t) == |t|
  {
    if t != [] { NoBreak(t[1..]); }
  }

  /** The snippet is one line, and no comment. */
  lemma SnippetIsNoComment(env: Env, id: Text)
    requires EnvOk(env) && IsDebugId(id)
    ensures ReadComment(Snippet(env, id)) == None
  {
    var t := Snippet(env, id);
    assert Plain(id) by {
      forall i | 0 <= i < |id| ensures !IsBreak(id[i]) { assert IsLowerHex(id[i]) || id[i] == 45; }
    }
    PlainAppend(env.head, env.mark);
    PlainAppend(env.head + env.mark, id);
    PlainAppend(env.head + env.mark + id, env.tail);
    ReadPlain(t);
    assert t[0] == env.head[0];
    assert |t| >= 12 ==> t[..12][0] == 59 && COMMENT[0] == 47;
  }

  lemma PlainAppend(a: Text, b: Text)
    requires Plain(a) && Plain(b)
    ensures Plain(a + b)
  {}

  /** A comment line of ours reads back its id. */
  lemma OwnCommentReads(id: Text)
    requires IsDebugId(id)
    ensures ReadComment(COMMENT + id) == Some(id)
  {
    var t := COMMENT + id;
    forall i | 0 <= i < 36 ensures IsHexOrDash(id[i]) && !IsBreak(id[i]) && Lower(id)[i] == id[i] {
      assert if i == 8 || i == 13 || i == 18 || i == 23 then id[i] == 45 else IsLowerHex(id[i]);
    }
    PlainAppend(COMMENT, id);
    ReadPlain(t);
    assert t[..12] == COMMENT && t[12..48] == id && Lower(id) == id;
    forall i | 12 <= i < 48 ensures IsHexOrDash(t[i]) { assert t[i] == id[i - 12]; }
  }

  // ---------- the snippet does not touch the id that is read ----------

  predicate AtLineStart(code: Text, offset: nat) {
    offset <= |code| && (offset > 0 ==> code[offset - 1] == NEWLINE)
  }

  lemma NextLineStart(code: Text, offset: nat)
    ensures AtLineStart(code, IndexOf(code, [NEWLINE], offset) + 1)
  {
    var nl := IndexOf(code, [NEWLINE], offset);
    if nl >= 0 { assert code[nl] == code[nl..nl + 1][0]; }
  }

  lemma {:induction false} OffsetIsLineStart(code: Text, n: int, offset: nat)
    requires AtLineStart(code, offset)
    ensures AtLineStart(code, LineOffset(code, n, offset))
    decreases n
  {
    if n > 0 {
      NextLineStart(code, offset);
      OffsetIsLineStart(code, n - 1, IndexOf(code, [NEWLINE], offset) + 1);
    }
  }

  lemma ReadSplit(head: Text, rest: Text)
    requires head == [] || EndsWithNewline(head)
    ensures ReadComment(head + rest) == OrElse(ReadComment(rest), ReadComment(head))
  {
    if head == [] {
      assert head + rest == rest;
      ReadNothing();
    } else {
      var h := head[..|head| - 1];
      assert head == h + [NEWLINE];
      assert head + rest == h + [NEWLINE] + rest;
      ReadAfterBreak(h, NEWLINE, rest);
      ReadBeforeNewline(h);
    }
  }

  /** A line between others is read in its place. */
  lemma ReadSandwich(head: Text, text: Text, rest: Text)
    requires head == [] || EndsWithNewline(head)
    ensures ReadComment(head + text + [NEWLINE] + rest)
         == OrElse(OrElse(ReadComment(rest), ReadComment(text)), ReadComment(head))
  {
    hide ReadComment;
    ReadAfterBreak(text, NEWLINE, rest);
    ReadSplit(head, text + [NEWLINE] + rest);
    assert head + text + [NEWLINE] + rest == head + (text + [NEWLINE] + rest);
  }

  lemma InsertLineKeepsComment(env: Env, code: Text, line: int, id: Text)
    requires EnvOk(env) && IsDebugId(id)
    ensures ReadComment(InsertLine(code, line, Snippet(env, id))) == ReadComment(code)
  {
    OffsetIsLineStart(code, line, 0);
    var offset := LineOffset(code, line, 0);
    var head, rest := code[..offset], code[offset..];
    assert code == head + rest;
    SnippetIsNoComment(env, id);
    ReadSandwich(head, Snippet(env, id), rest);
    ReadSplit(head, rest);
  }

  lemma {:induction false} DroppedNewlines(t: Text)
    ensures ReadComment(DropNewlines(t)) == ReadComment(t)
  {
    if t != [] && t[0] == NEWLINE {
      assert t == [] + [NEWLINE] + t[1..];
      ReadAfterBreak([], NEWLINE, t[1..]);
      ReadNothing();
      DroppedNewlines(t[1..]);
    }
  }

  lemma {:induction false} JoinAppend(a: seq<Text>, b: seq<Text>)
    requires a != [] && b != []
    ensures Join(a + b, NEWLINE) == Join(a, NEWLINE) + [NEWLINE] + Join(b, NEWLINE)
    decreases |a|
  {
    assert (a + b)[1..] == a[1..] + b;
    if |a| > 1 {
      JoinAppend(a[1..], b);
      calc {
        Join(a + b, NEWLINE);
        a[0] + [NEWLINE] + (Join(a[1..], NEWLINE) + [NEWLINE] + Join(b, NEWLINE));
        (a[0] + [NEWLINE] + Join(a[1..], NEWLINE)) + [NEWLINE] + Join(b, NEWLINE);
      }
    } else {
      assert a[1..] + b == b;
    }
  }

  /** A text cut between two of its lines is read as its two parts. */
  lemma ReadCut(code: Text, at: nat)
    requires at <= |Split(code, NEWLINE)|
    ensures ReadComment(code) == OrElse(ReadComment(Join(Split(code, NEWLINE)[at..], NEWLINE)),
                                        ReadComment(Join(Split(code, NEWLINE)[..at], NEWLINE)))
  {
    var lines := Split(code, NEWLINE);
    ReadNothing();
    if at == 0 {
      assert lines[at..] == lines;
    } else if at == |lines| {
      assert lines[..at] == lines;
    } else {
      assert lines == lines[..at] + lines[at..];
      JoinAppend(lines[..at], lines[at..]);
      ReadAfterBreak(Join(lines[..at], NEWLINE), NEWLINE, Join(lines[at..], NEWLINE));
    }
  }

  lemma ReadAround(head: Text, text: Text, tail: Text)
    requires ReadComment(text) == None
    ensures ReadComment(Between(head, text, tail)) == OrElse(ReadComment(tail), ReadComment(head))
  {
    var above := head + (if head != [] && !EndsWithNewline(head) then [NEWLINE] else []);
    var rest := if tail != [] then DropNewlines(tail) else [];
    assert Between(head, text, tail) == above + text + [NEWLINE] + rest;
    assert ReadComment(rest) == ReadComment(tail) by { DroppedNewlines(tail); }
    assert ReadComment(above) == ReadComment(head) by {
      ReadBeforeNewline(head);
      assert head + [] == head;
    }
    ReadSandwich(above, text, rest);
  }

  lemma AppendKeepsComment(env: Env, code: Text, id: Text)
    requires EnvOk(env) && IsDebugId(id)
    ensures ReadComment(InsertBeforeTrailing(code, Snippet(env, id))) == ReadComment(code)
  {
    var lines := Split(code, NEWLINE);
    var at := TrailStart(lines, |lines|);
    SnippetIsNoComment(env, id);
    ReadAround(Join(lines[..at], NEWLINE), Snippet(env, id), Join(lines[at..], NEWLINE));
    ReadCut(code, at);
  }

  // ---------- the snippet is found again ----------

  lemma SnippetIsFound(env: Env, id: Text, before: Text, after: Text)
    requires IsDebugId(id)
    ensures HasSnippet(env, before + Snippet(env, id) + after)
  {
    var t := before + Snippet(env, id) + after;
    var i := |before| + |env.head|;
    var m := i + |env.mark|;
    assert t[i..m] == env.mark;
    assert t[m..m + 36] == id;
    forall j | m <= j < m + 8 ensures IsLowerHex(t[j]) { assert t[j] == id[j - m]; }
    assert t[m + 8] == id[8];
    assert MarkAt(env, t, i);
  }

  lemma FoundInLonger(env: Env, code: Text, after: Text)
    requires HasSnippet(env, code)
    ensures HasSnippet(env, code + after)
  {
    var i: nat :| i < |code| && MarkAt(env, code, i);
    var t := code + after;
    assert t[i..i + |env.mark|] == code[i..i + |env.mark|];
    assert MarkAt(env, t, i);
  }

  lemma WithSnippetGood(env: Env, f: Files)
    requires EnvOk(env) && f.map_.SourceMap?
    ensures ReadComment(WithSnippet(env, f)) == ReadComment(f.code)
    ensures HasSnippet(env, WithSnippet(env, f))
  {
    var id := IdOf(env, f);
    if !HasSnippet(env, f.code) {
      var line := InsertionLine(f);
      var text := Snippet(env, id);
      if line.Some? {
        InsertLineKeepsComment(env, f.code, line.value, id);
        var offset := LineOffset(f.code, line.value, 0);
        SnippetIsFound(env, id, f.code[..offset], [NEWLINE] + f.code[offset..]);
        assert InsertLine(f.code, line.value, text) == f.code[..offset] + text + ([NEWLINE] + f.code[offset..]);
      } else {
        AppendKeepsComment(env, f.code, id);
        var lines := Split(f.code, NEWLINE);
        var at := TrailStart(lines, |lines|);
        var head, tail := Join(lines[..at], NEWLINE), Join(lines[at..], NEWLINE);
        SnippetIsFound(env, id, head + (if head != [] && !EndsWithNewline(head) then [NEWLINE] else []),
                       if tail != [] then [NEWLINE] + DropNewlines(tail) else [NEWLINE]);
      }
    }
  }

  /** The comment appended last is the one read. */
  lemma AppendedComment(env: Env, out: Text, id: Text)
    requires IsDebugId(id) && HasSnippet(env, out)
    ensures var t := out + (if EndsWithNewline(out) then [] else [NEWLINE]) + CommentLine(id);
            HasSnippet(env, t) && ReadComment(t) == Some(id)
  {
    var above := out + (if EndsWithNewline(out) then [] else [NEWLINE]);
    assert above + CommentLine(id) == above + (COMMENT + id) + [NEWLINE] + [];
    OwnCommentReads(id);
    ReadNothing();
    ReadSandwich(above, COMMENT + id, []);
    FoundInLonger(env, out, if EndsWithNewline(out) then [] else [NEWLINE]);
    FoundInLonger(env, above, CommentLine(id));
  }

  /** What a complete run leaves behind: the snippet, and a comment with the id the map has too. */
  lemma InjectedIsMarked(env: Env, f: Files)
    requires EnvOk(env) && f.map_.SourceMap?
    ensures var g := Injected(env, f, false);
            && HasSnippet(env, g.code)
            && ReadComment(g.code) == Some(IdOf(env, f)) && g.map_.debugId == Some(IdOf(env, f))
  {
    WithSnippetGood(env, f);
    if ReadComment(f.code).None? { AppendedComment(env, WithSnippet(env, f), IdOf(env, f)); }
  }

  // ---------- main results ----------

  /** A run after a crash between the two writes ends where an uninterrupted run ends. */
  lemma CrashThenRerun(env: Env, f: Files, strip: bool)
    ensures Injected(env, Interrupted(env, f), strip) == Injected(env, f, strip)
    ensures Interrupted(env, Interrupted(env, f)) == Interrupted(env, f)
  {
    if f.map_.SourceMap? {
      var g := Interrupted(env, f);
      assert IdOf(env, g) == IdOf(env, f);
      if !HasSnippet(env, f.code) {
        assert InsertionLine(f).Some? ==> InsertionLine(g) == InsertionLine(f);
        assert InsertionLine(f).None? ==> InsertionLine(g).None?;
      }
      assert WithSnippet(env, g) == WithSnippet(env, f);
      assert NewMap(env, g) == NewMap(env, f);
    }
  }

  /** Without stripping, a further run changes nothing. */
  lemma SecondRunChangesNothing(env: Env, f: Files)
    requires EnvOk(env)
    ensures var g := Injected(env, f, false); Injected(env, g, false) == g
  {
    if f.map_.SourceMap? { InjectedIsMarked(env, f); }
  }

  lemma CutAt(code: Text, nl: nat)
    requires nl < |code| && code[nl] == NEWLINE
    ensures code == code[..nl] + [NEWLINE] + code[nl + 1..]
  {}

  lemma FirstLine(code: Text, nl: nat)
    requires IndexOf(code, [NEWLINE], 0) == nl
    ensures nl < |code| && code[nl] == NEWLINE && NEWLINE !in code[..nl]
  {
    assert code[nl] == code[nl..nl + 1][0];
    forall i | 0 <= i < nl ensures code[i] != NEWLINE {
      assert !StartsAt(code, [NEWLINE], i) && code[i..i + 1] == [code[i]];
    }
  }

  lemma Regroup(first: Text, rest: Text, text: Text)
    ensures var code := first + [NEWLINE] + rest;
            code[..|first| + 1] + text + [NEWLINE] + code[|first| + 1..] == first + [NEWLINE] + (text + [NEWLINE] + rest)
  {
    var code := first + [NEWLINE] + rest;
    assert code[..|first| + 1] == first + [NEWLINE] && code[|first| + 1..] == rest;
  }

  lemma InsertedSecond(first: Text, rest: Text, text: Text)
    requires NEWLINE !in first && NEWLINE !in text
    ensures Split(first + [NEWLINE] + rest, NEWLINE) == [first] + Split(rest, NEWLINE)
    ensures Split(first + [NEWLINE] + (text + [NEWLINE] + rest), NEWLINE) == [first] + ([text] + Split(rest, NEWLINE))
  {
    SplitAppend(first, rest, NEWLINE);
    SplitAppend(first, text + [NEWLINE] + rest, NEWLINE);
    SplitAppend(text, rest, NEWLINE);
    SplitOne(first, NEWLINE);
    SplitOne(text, NEWLINE);
  }

  lemma SnippetIsOneLine(env: Env, id: Text)
    requires EnvOk(env) && IsDebugId(id)
    ensures NEWLINE !in Snippet(env, id)
  {
    forall i | 0 <= i < |id| ensures id[i] != NEWLINE { assert IsLowerHex(id[i]) || id[i] == 45; }
  }

  ghost predicate LinesMoved(lines: seq<Text>, moved: seq<Text>, line: nat, text: Text) {
    && line < |lines| && |moved| == |lines| + 1 && moved[line] == text
    && forall l | 0 <= l < |lines| :: moved[Move(l, line, 1)] == lines[l]
  }

  ghost predicate MeaningMoved(mappings: Text, moved: Text, line: nat) {
    && (Segments(mappings).Success? <==> Segments(moved).Success?)
    && (Segments(mappings).Success? ==>
          var before, after := Segments(mappings).value, Segments(moved).value;
          forall l: nat, column :: Lookup(after, Move(l, line, 1), column) == Lookup(before, l, column))
  }

  lemma ShiftMovesMeaning(mappings: Text, line: nat)
    ensures MeaningMoved(mappings, Shifted(mappings, line, 1), line)
  {
    ShiftPreservesMeaning(mappings, line, 1);
  }

  lemma MovedByOne(lines: seq<Text>, moved: seq<Text>, line: nat, text: Text)
    requires line < |lines| && moved == lines[..line] + [text] + lines[line..]
    ensures LinesMoved(lines, moved, line, text)
  {}

  lemma InsertSecondMoves(first: Text, rest: Text, code: Text, text: Text)
    requires code == first + [NEWLINE] + rest && NEWLINE !in first && NEWLINE !in text
    ensures LinesMoved(Split(code, NEWLINE), Split(code[..|first| + 1] + text + [NEWLINE] + code[|first| + 1..], NEWLINE), 1, text)
  {
    Regroup(first, rest, text);
    InsertedSecond(first, rest, text);
    MovedSecond(first, Split(rest, NEWLINE), text);
  }

  lemma InsertFirstMoves(code: Text, text: Text)
    requires NEWLINE !in text
    ensures LinesMoved(Split(code, NEWLINE), Split(InsertLine(code, 0, text), NEWLINE), 0, text)
  {
    var lines := Split(code, NEWLINE);
    assert InsertLine(code, 0, text) == text + [NEWLINE] + code by { assert code[0..] == code; }
    SplitAppend(text, code, NEWLINE);
    SplitOne(text, NEWLINE);
    assert [text] + lines == lines[..0] + [text] + lines[0..];
    MovedByOne(lines, [text] + lines, 0, text);
  }

  /** Inserted as its own line, the snippet moves the lines at and after it down by one. */
  lemma InsertMovesLines(code: Text, line: nat, text: Text)
    requires LineOfSnippet(code) == line && NEWLINE !in text
    ensures LinesMoved(Split(code, NEWLINE), Split(InsertLine(code, line, text), NEWLINE), line, text)
  {
    if line == 0 {
      InsertFirstMoves(code, text);
    } else {
      var nl := IndexOf(code, [NEWLINE], 0);
      FirstLine(code, nl);
      CutAt(code, nl);
      InsertSecondMoves(code[..nl], code[nl + 1..], code, text);
      assert LineOffset(code, 1, 0) == nl + 1 by { assert LineOffset(code, 0, nl + 1) == nl + 1; }
    }
  }

  lemma MovedSecond(first: Text, below: seq<Text>, text: Text)
    requires below != []
    ensures LinesMoved([first] + below, [first] + ([text] + below), 1, text)
  {
    var lines := [first] + below;
    assert lines[..1] == [first] && lines[1..] == below;
    assert [first] + ([text] + below) == lines[..1] + [text] + lines[1..];
    MovedByOne(lines, [first] + ([text] + below), 1, text);
  }

  /**
   * The bundle and its map move together: wherever a line of the bundle goes, its text and the meaning of
   * every column on it go too, and only the snippet's line is new.
   */
  lemma BundleAndMapMoveTogether(env: Env, f: Files, line: nat)
    requires EnvOk(env) && f.map_.SourceMap? && !HasSnippet(env, f.code)
    requires f.map_.snippetLine.None? && InsertionLine(f) == Some(line)
    ensures LinesMoved(Split(f.code, NEWLINE), Split(WithSnippet(env, f), NEWLINE), line, Snippet(env, IdOf(env, f)))
    ensures NewMap(env, f).mappings.Some? && MeaningMoved(f.map_.mappings.value, NewMap(env, f).mappings.value, line)
  {
    SnippetIsOneLine(env, IdOf(env, f));
    InsertMovesLines(f.code, line, Snippet(env, IdOf(env, f)));
    ShiftMovesMeaning(f.map_.mappings.value, line);
  }
}
