/**
 * Giving a bundle its debug id (packages/runtime-cli/src/inject.ts, debug-id.ts): two files are rewritten,
 * the map first, and a crash between the two writes is finished by the next run.
 */
module InjectBundle {
  import opened Wrappers
  import opened Vlq
  import opened Texts
  import opened ShiftMappings
  import Mappings

  const NEWLINE: CodeUnit := 10

  /**
   * What the environment fixes: the content hash, and the constant text around the id in the snippet
   * (`mark` is what the snippet is recognised by, with the start of the id).
   */
  datatype Env = Env(hash: Text -> Text, head: Text, mark: Text, tail: Text)

  predicate IsBreak(c: CodeUnit) {
    c == 10 || c == 13 || c == 0x2028 || c == 0x2029
  }

  predicate Plain(t: Text) {
    forall i | 0 <= i < |t| :: !IsBreak(t[i])
  }

  /** Hashes have the shape of a debug id; the snippet is one line that starts with `;`. */
  ghost predicate EnvOk(env: Env) {
    && (forall t :: IsDebugId(env.hash(t)))
    && Plain(env.head) && Plain(env.mark) && Plain(env.tail)
    && env.head != [] && env.head[0] == 59
  }

  // ---------- ids, comments and snippets ----------

  predicate IsLowerHex(c: CodeUnit) {
    48 <= c <= 57 || 97 <= c <= 102
  }

  predicate IsHexOrDash(c: CodeUnit) {
    IsLowerHex(c) || 65 <= c <= 70 || c == 45
  }

  /** 8-4-4-4-12 lower-case hex. */
  predicate IsDebugId(t: Text) {
    |t| == 36 && forall i | 0 <= i < 36 ::
      if i == 8 || i == 13 || i == 18 || i == 23 then t[i] == 45 else IsLowerHex(t[i])
  }

  function Lower(t: Text): (r: Text)
    ensures |r| == |t|
  {
    seq(|t|, i requires 0 <= i < |t| => if 65 <= t[i] <= 90 then t[i] + 32 else t[i])
  }

  /** `//# debugId=` */
  const COMMENT: Text := [47, 47, 35, 32, 100, 101, 98, 117, 103, 73, 100, 61]

  /** The id in a debug id comment line, if it is one and the id is valid. */
  function CommentOn(line: Text): (r: Option<Text>)
    ensures r.Some? ==> IsDebugId(r.value)
  {
    if |line| < 48 || line[..12] != COMMENT then None
    else if !(forall i | 12 <= i < 48 :: IsHexOrDash(line[i])) then None
    else if !(forall i | 48 <= i < |line| :: line[i] == 32 || line[i] == 9) then None
    else
      var id := Lower(line[12..48]);
      if IsDebugId(id) then Some(id) else None
  }

  function OrElse(a: Option<Text>, b: Option<Text>): Option<Text> {
    if a.Some? then a else b
  }

  function BreakAt(t: Text): (k: nat)
    ensures k <= |t| && (forall i | 0 <= i < k :: !IsBreak(t[i])) && (k < |t| ==> IsBreak(t[k]))
  {
    if t == [] || IsBreak(t[0]) then 0 else 1 + BreakAt(t[1..])
  }

  /** `readDebugIdComment`: the id of the last valid comment. */
  function ReadComment(code: Text): (r: Option<Text>)
    ensures r.Some? ==> IsDebugId(r.value)
    decreases |code|
  {
    var k := BreakAt(code);
    if k == |code| then CommentOn(code) else OrElse(ReadComment(code[k + 1..]), CommentOn(code[..k]))
  }

  function Snippet(env: Env, id: Text): Text {
    env.head + env.mark + id + env.tail
  }

  predicate MarkAt(env: Env, code: Text, i: nat) {
    && i + |env.mark| + 9 <= |code|
    && code[i..i + |env.mark|] == env.mark
    && (forall j | i + |env.mark| <= j < i + |env.mark| + 8 :: IsLowerHex(code[j]))
    && code[i + |env.mark| + 8] == 45
  }

  /** `hasDebugIdSnippet`. */
  predicate HasSnippet(env: Env, code: Text) {
    exists i | 0 <= i < |code| :: MarkAt(env, code, i)
  }

  // ---------- where the snippet goes ----------

  predicate IsSpace(c: CodeUnit) {
    9 <= c <= 13 || c == 32 || c == 160 || c == 0x1680 || 0x2000 <= c <= 0x200A || c == 0x2028 || c == 0x2029
    || c == 0x202F || c == 0x205F || c == 0x3000 || c == 0xFEFF
  }

  function SkipSpace(code: Text, i: nat): (r: nat)
    requires i <= |code|
    ensures i <= r <= |code| && (r < |code| ==> !IsSpace(code[r]))
    decreases |code| - i
  {
    if i < |code| && IsSpace(code[i]) then SkipSpace(code, i + 1) else i
  }

  const LINE_COMMENT: Text := [47, 47]
  const OPEN_COMMENT: Text := [47, 42]
  const CLOSE_COMMENT: Text := [42, 47]

  datatype Trivia = NoComment | Unended | CommentTo(end: nat)

  /** The comment that starts at `j`, if one does, and where it ends. */
  function CommentAt(code: Text, j: nat): (r: Trivia)
    requires j <= |code|
    ensures r.CommentTo? ==> j < r.end <= |code|
  {
    if StartsAt(code, LINE_COMMENT, j) then
      var nl := IndexOf(code, [NEWLINE], j);
      if nl < 0 then Unended else CommentTo(nl + 1)
    else if StartsAt(code, OPEN_COMMENT, j) then
      var end := IndexOf(code, CLOSE_COMMENT, j + 2);
      if end < 0 then Unended else CommentTo(end + 2)
    else NoComment
  }

  /** Past white space and comments; nothing when the last comment never ends. */
  function SkipTrivia(code: Text, i: nat): (r: Option<nat>)
    requires i <= |code|
    ensures r.Some? ==> i <= r.value <= |code|
    decreases |code| - i
  {
    var j := SkipSpace(code, i);
    match CommentAt(code, j)
    case NoComment => Some(j)
    case Unended => None
    case CommentTo(end) => SkipTrivia(code, end)
  }

  /** `#!` */
  const SHEBANG: Text := [35, 33]

  /** The line the snippet goes on, or -1 to append it. */
  function LineOfSnippet(code: Text): (line: int)
    ensures -1 <= line <= 1
    ensures line == 1 ==> StartsAt(code, SHEBANG, 0) && NEWLINE in code
    ensures line == 0 ==> !StartsAt(code, SHEBANG, 0)
  {
    var shebang := StartsAt(code, SHEBANG, 0);
    var nl := IndexOf(code, [NEWLINE], 0);
    assert nl >= 0 ==> code[nl] == code[nl..nl + 1][0];
    if shebang && nl < 0 then -1
    else
      var start := SkipTrivia(code, if shebang then nl + 1 else 0);
      if start.None? || (start.value < |code| && (code[start.value] == 34 || code[start.value] == 39)) then -1
      else if shebang then 1 else 0
  }

  // ---------- what the search for that line skips ----------

  /** A `//` comment with its newline, or a block comment up to its first end. */
  predicate WholeComment(t: Text) {
    || (StartsAt(t, LINE_COMMENT, 0) && IndexOf(t, [NEWLINE], 0) == |t| - 1)
    || (StartsAt(t, OPEN_COMMENT, 0) && IndexOf(t, CLOSE_COMMENT, 2) == |t| - 2)
  }

  /** White space and whole comments, one after the other. */
  ghost predicate IsTrivia(t: Text)
    decreases |t|
  {
    t == [] || exists n | 0 < n <= |t| :: TriviaPiece(t[..n]) && IsTrivia(t[n..])
  }

  predicate TriviaPiece(t: Text) {
    (|t| == 1 && IsSpace(t[0])) || WholeComment(t)
  }

  /** A comment starts at `j` and never ends. */
  predicate UnendedAt(code: Text, j: nat) {
    || (StartsAt(code, LINE_COMMENT, j) && IndexOf(code, [NEWLINE], j) < 0)
    || (StartsAt(code, OPEN_COMMENT, j) && IndexOf(code, CLOSE_COMMENT, j + 2) < 0)
  }

  /** The code proper starts at `j`, or there is none. */
  predicate CodeAt(code: Text, j: nat) {
    && j <= |code| && !StartsAt(code, LINE_COMMENT, j) && !StartsAt(code, OPEN_COMMENT, j)
    && (j < |code| ==> !IsSpace(code[j]))
  }

  lemma TriviaFirst(piece: Text, rest: Text)
    requires piece != [] && TriviaPiece(piece) && IsTrivia(rest)
    ensures IsTrivia(piece + rest)
  {
    var t := piece + rest;
    assert t[..|piece|] == piece && t[|piece|..] == rest;
  }

  lemma SliceOfSlice(code: Text, a: nat, b: nat, k: nat, w: nat)
    requires a <= b <= |code| && k + w <= b - a
    ensures code[a..b][k..k + w] == code[a + k..a + k + w]
  {
    var inner, outer := code[a..b][k..k + w], code[a + k..a + k + w];
    assert |inner| == |outer| == w;
    forall i | 0 <= i < w ensures inner[i] == outer[i] { assert inner[i] == code[a..b][k + i] == code[a + k + i]; }
  }

  lemma IndexInSlice(code: Text, what: Text, j: nat, from: nat)
    requires j <= from && IndexOf(code, what, from) >= 0
    ensures var r := IndexOf(code, what, from); IndexOf(code[j..r + |what|], what, from - j) == r - j
  {
    hide IndexOf;
    var r := IndexOf(code, what, from);
    var slice := code[j..r + |what|];
    SliceOfSlice(code, j, r + |what|, r - j, |what|);
    assert StartsAt(slice, what, r - j);
    var k := IndexOf(slice, what, from - j);
    SliceOfSlice(code, j, r + |what|, k, |what|);
    assert StartsAt(code, what, j + k);
  }

  lemma {:induction false} SpaceIsTrivia(code: Text, i: nat)
    requires i <= |code|
    ensures forall to | SkipSpace(code, i) <= to <= |code| ::
      IsTrivia(code[SkipSpace(code, i)..to]) ==> IsTrivia(code[i..to])
    decreases |code| - i
  {
    if i < |code| && IsSpace(code[i]) {
      SpaceIsTrivia(code, i + 1);
      forall to | SkipSpace(code, i) <= to <= |code| && IsTrivia(code[SkipSpace(code, i)..to])
        ensures IsTrivia(code[i..to])
      {
        TriviaFirst([code[i]], code[i + 1..to]);
        assert [code[i]] + code[i + 1..to] == code[i..to];
      }
    }
  }

  lemma CommentIsWhole(code: Text, j: nat)
    requires j <= |code| && CommentAt(code, j).CommentTo?
    ensures WholeComment(code[j..CommentAt(code, j).end])
  {
    var end := CommentAt(code, j).end;
    var t := code[j..end];
    assert code[j..j + 2][0] == code[j] && code[j..j + 2][1] == code[j + 1];
    if StartsAt(code, LINE_COMMENT, j) {
      assert code[end - 1] == code[end - 1..end][0] == NEWLINE;
      IndexInSlice(code, [NEWLINE], j, j);
    } else {
      IndexInSlice(code, CLOSE_COMMENT, j, j + 2);
    }
    SliceOfSlice(code, j, end, 0, 2);
  }

  /** White space and then a whole comment. */
  lemma SpaceAndComment(code: Text, i: nat, end: nat, j: nat)
    requires i <= |code| && CommentAt(code, SkipSpace(code, i)) == CommentTo(end) && end <= j <= |code|
    requires IsTrivia(code[end..j])
    ensures IsTrivia(code[i..j])
  {
    var k := SkipSpace(code, i);
    CommentIsWhole(code, k);
    TriviaFirst(code[k..end], code[end..j]);
    assert code[k..end] + code[end..j] == code[k..j];
    SpaceIsTrivia(code, i);
  }

  lemma WhereItStops(code: Text, i: nat)
    requires i <= |code| && !CommentAt(code, SkipSpace(code, i)).CommentTo?
    ensures var k := SkipSpace(code, i);
            && IsTrivia(code[i..k])
            && (if CommentAt(code, k).Unended? then UnendedAt(code, k) else CodeAt(code, k) && !UnendedAt(code, k))
  {
    var k := SkipSpace(code, i);
    SpaceIsTrivia(code, i);
    assert IsTrivia(code[k..k]);
  }

  /** Only white space and whole comments are skipped, up to the code proper or to a comment that never ends. */
  lemma {:induction false} SkipsOnlyTrivia(code: Text, i: nat) returns (j: nat)
    requires i <= |code|
    ensures i <= j <= |code| && IsTrivia(code[i..j])
    ensures SkipTrivia(code, i) == if UnendedAt(code, j) then None else Some(j)
    ensures UnendedAt(code, j) || CodeAt(code, j)
    decreases |code| - i
  {
    var comment := CommentAt(code, SkipSpace(code, i));
    if comment.CommentTo? {
      j := SkipsOnlyTrivia(code, comment.end);
      SpaceAndComment(code, i, comment.end, j);
    } else {
      j := SkipSpace(code, i);
      WhereItStops(code, i);
    }
  }

  /**
   * Where the snippet goes: below a `#!` line, else on the first line; nowhere when that line never ends, or when,
   * after white space and whole comments, a comment never ends or the code starts with a quote, as a directive does.
   */
  lemma SnippetPlace(code: Text) returns (j: nat)
    ensures var shebang, nl := StartsAt(code, SHEBANG, 0), IndexOf(code, [NEWLINE], 0);
            if shebang && nl < 0 then LineOfSnippet(code) == -1
            else
              var from := if shebang then nl + 1 else 0;
              && from <= j <= |code| && IsTrivia(code[from..j]) && (UnendedAt(code, j) || CodeAt(code, j))
              && LineOfSnippet(code) ==
                   if UnendedAt(code, j) || (j < |code| && (code[j] == 34 || code[j] == 39)) then -1
                   else if shebang then 1 else 0
  {
    var shebang, nl := StartsAt(code, SHEBANG, 0), IndexOf(code, [NEWLINE], 0);
    j := 0;
    if !shebang || nl >= 0 { j := SkipsOnlyTrivia(code, if shebang then nl + 1 else 0); }
  }

  method SkipSpaces(code: Text, from: nat) returns (i: nat)
    requires from <= |code|
    ensures i == SkipSpace(code, from)
  {
    i := from;
    while i < |code| && IsSpace(code[i])
      invariant from <= i <= |code| && SkipSpace(code, i) == SkipSpace(code, from)
    {
      i := i + 1;
    }
  }

  /** The trivia loop of `snippetLine`. */
  method SkipAll(code: Text, from: nat) returns (at: Option<nat>)
    requires from <= |code|
    ensures at == SkipTrivia(code, from)
  {
    var i := from;
    while true
      invariant from <= i <= |code| && SkipTrivia(code, i) == SkipTrivia(code, from)
      decreases |code| - i
    {
      i := SkipSpaces(code, i);
      match CommentAt(code, i)
      case NoComment => return Some(i);
      case Unended => return None;
      case CommentTo(end) => i := end;
    }
  }

  /** `snippetLine`. */
  method SnippetLine(code: Text) returns (line: int)
    ensures line == LineOfSnippet(code)
  {
    line := 0;
    var i: nat := 0;
    if StartsAt(code, SHEBANG, 0) {
      var nl := IndexOf(code, [NEWLINE], 0);
      if nl < 0 { return -1; }
      line := 1;
      i := nl + 1;
    }
    var start := SkipAll(code, i);
    if start.None? { return -1; }
    if start.value < |code| && (code[start.value] == 34 || code[start.value] == 39) { line := -1; }
  }

  /** The start of line `n`, counting from `offset`; past the last line the search starts over. */
  function LineOffset(code: Text, n: int, offset: nat): (r: nat)
    requires offset <= |code|
    ensures r <= |code|
    decreases n
  {
    if n <= 0 then offset else LineOffset(code, n - 1, IndexOf(code, [NEWLINE], offset) + 1)
  }

  function InsertLine(code: Text, line: int, text: Text): Text {
    var offset := LineOffset(code, line, 0);
    code[..offset] + text + [NEWLINE] + code[offset..]
  }

  function TrimStart(t: Text): Text {
    if t != [] && IsSpace(t[0]) then TrimStart(t[1..]) else t
  }

  function TrimEnd(t: Text): Text {
    if t != [] && IsSpace(t[|t| - 1]) then TrimEnd(t[..|t| - 1]) else t
  }

  /** A line of the trailing run: blank, or a `//#` or `//@` comment. */
  predicate Trailing(line: Text) {
    var t := TrimEnd(TrimStart(line));
    t == [] || StartsAt(t, [47, 47, 35], 0) || StartsAt(t, [47, 47, 64], 0)
  }

  function TrailStart(lines: seq<Text>, at: nat): (r: nat)
    requires at <= |lines|
    ensures r <= at
  {
    if at > 0 && Trailing(lines[at - 1]) then TrailStart(lines, at - 1) else at
  }

  function DropNewlines(t: Text): Text {
    if t != [] && t[0] == NEWLINE then DropNewlines(t[1..]) else t
  }

  predicate EndsWithNewline(t: Text) {
    t != [] && t[|t| - 1] == NEWLINE
  }

  /** `text` as its own lines between a head and the trailing lines, whose first newlines are dropped. */
  function Between(head: Text, text: Text, tail: Text): Text {
    head + (if head != [] && !EndsWithNewline(head) then [NEWLINE] else []) + text
    + (if tail != [] then [NEWLINE] + DropNewlines(tail) else [NEWLINE])
  }

  /** `insertBeforeTrailingComments`. */
  function InsertBeforeTrailing(code: Text, text: Text): Text {
    var lines := Split(code, NEWLINE);
    var at := TrailStart(lines, |lines|);
    Between(Join(lines[..at], NEWLINE), text, Join(lines[at..], NEWLINE))
  }

  // ---------- the reference to the map ----------

  /** `sourceMappingURL=` after a space. */
  const URL_KEY: Text := [32, 115, 111, 117, 114, 99, 101, 77, 97, 112, 112, 105, 110, 103, 85, 82, 76, 61]

  predicate IsReference(line: Text) {
    |line| >= 3 && (line[..3] == [47, 47, 35] || line[..3] == [47, 47, 64]) && StartsAt(line, URL_KEY, 3)
  }

  function Trim(t: Text): Text {
    TrimEnd(TrimStart(t))
  }

  /** The line below `n` that references the map, when only blank lines and `//#` comments follow it. */
  function ReferenceLine(lines: seq<Text>, n: nat): (r: Option<nat>)
    requires n <= |lines|
    ensures r.Some? ==> r.value < n && IsReference(Trim(lines[r.value]))
    ensures r.Some? ==> forall i | r.value < i < n ::
      Trim(lines[i]) == [] || (StartsAt(Trim(lines[i]), [47, 47, 35], 0) && !IsReference(Trim(lines[i])))
  {
    if n == 0 then None
    else
      var line := Trim(lines[n - 1]);
      if line == [] then ReferenceLine(lines, n - 1)
      else if IsReference(line) then Some(n - 1)
      else if StartsAt(line, [47, 47, 35], 0) then ReferenceLine(lines, n - 1)
      else None
  }

  /** Blank, or a `//#` comment that is no reference. */
  predicate Passed(line: Text) {
    var t := Trim(line);
    t == [] || (StartsAt(t, [47, 47, 35], 0) && !IsReference(t))
  }

  predicate PassedFrom(lines: seq<Text>, m: nat, n: nat)
    requires n <= |lines|
  {
    forall i | m <= i < n :: Passed(lines[i])
  }

  /** No reference is found exactly when the run of blank and other `//#` lines at the end stops at another line. */
  lemma {:induction false} NoReferenceExactly(lines: seq<Text>, n: nat)
    requires n <= |lines|
    ensures ReferenceLine(lines, n).None? <==>
              exists m: nat | m <= n :: PassedFrom(lines, m, n)
                && (m == 0 || (!Passed(lines[m - 1]) && !IsReference(Trim(lines[m - 1]))))
  {
    if n > 0 && Passed(lines[n - 1]) {
      NoReferenceExactly(lines, n - 1);
      assert !IsReference(Trim(lines[n - 1])) by { assert Trim(lines[n - 1]) == [] ==> !IsReference([]); }
      assert ReferenceLine(lines, n) == ReferenceLine(lines, n - 1);
      forall m: nat | m <= n - 1 ensures PassedFrom(lines, m, n) == PassedFrom(lines, m, n - 1) {}
      if ReferenceLine(lines, n).None? {
        var m: nat :| m <= n - 1 && PassedFrom(lines, m, n - 1)
                      && (m == 0 || (!Passed(lines[m - 1]) && !IsReference(Trim(lines[m - 1]))));
        assert PassedFrom(lines, m, n);
      }
    } else {
      assert PassedFrom(lines, n, n);
    }
  }

  function Strip(code: Text): Text {
    var lines := Split(code, NEWLINE);
    var at := ReferenceLine(lines, |lines|);
    if at.None? then code else Join(lines[..at.value] + lines[at.value + 1..], NEWLINE)
  }

  /** `stripSourceMappingUrl`. */
  method StripReference(code: Text) returns (r: Text)
    ensures r == Strip(code)
  {
    var lines := Split(code, NEWLINE);
    var i := |lines|;
    while i > 0
      invariant 0 <= i <= |lines| && ReferenceLine(lines, |lines|) == ReferenceLine(lines, i)
    {
      i := i - 1;
      var line := Trim(lines[i]);
      if line == [] { continue; }
      if IsReference(line) { return Join(lines[..i] + lines[i + 1..], NEWLINE); }
      if !StartsAt(line, [47, 47, 35], 0) { break; }
    }
    return code;
  }

  // ---------- the two files ----------

  /** The map file's fields that matter; `None` where a field is absent or of another type. */
  datatype MapFile =
    | Unreadable
    | SourceMap(mappings: Option<Text>, sections: bool, snippetLine: Option<int>, debugId: Option<Text>)

  datatype Files = Files(code: Text, map_: MapFile)

  /** Where the snippet is inserted, when it is not appended. */
  function InsertionLine(f: Files): Option<int>
    requires f.map_.SourceMap?
  {
    var m := f.map_;
    var line := if m.snippetLine.Some? then m.snippetLine.value else LineOfSnippet(f.code);
    if line >= 0 && (m.snippetLine.Some? || (m.mappings.Some? && !m.sections)) then Some(line) else None
  }

  function IdOf(env: Env, f: Files): Text {
    var existing := ReadComment(f.code);
    if existing.Some? then existing.value else env.hash(f.code)
  }

  function WithSnippet(env: Env, f: Files): Text
    requires f.map_.SourceMap?
  {
    if HasSnippet(env, f.code) then f.code
    else
      var line := InsertionLine(f);
      if line.Some? then InsertLine(f.code, line.value, Snippet(env, IdOf(env, f)))
      else InsertBeforeTrailing(f.code, Snippet(env, IdOf(env, f)))
  }

  function CommentLine(id: Text): Text {
    COMMENT + id + [NEWLINE]
  }

  /** The bundle a run writes. */
  function NewCode(env: Env, f: Files, strip: bool): Text
    requires f.map_.SourceMap?
  {
    var out := WithSnippet(env, f);
    var out := if ReadComment(f.code).Some? then out
               else out + (if EndsWithNewline(out) then [] else [NEWLINE]) + CommentLine(IdOf(env, f));
    if strip then Strip(out) else out
  }

  /** The map a run writes. */
  function NewMap(env: Env, f: Files): MapFile
    requires f.map_.SourceMap?
  {
    var m := f.map_;
    var line := InsertionLine(f);
    var m := if !HasSnippet(env, f.code) && line.Some? && m.snippetLine.None?
      then m.(mappings := Some(Shifted(m.mappings.value, line.value, 1)), snippetLine := line) else m;
    m.(debugId := Some(IdOf(env, f)))
  }

  /** Both files after a run. */
  function Injected(env: Env, f: Files, strip: bool): Files {
    if f.map_.Unreadable? then f else Files(NewCode(env, f, strip), NewMap(env, f))
  }

  /** Both files after a run that crashed between the two writes. */
  function Interrupted(env: Env, f: Files): Files {
    if f.map_.Unreadable? then f else Files(f.code, NewMap(env, f))
  }

  datatype Status = Changed | Unchanged | InvalidMap

  class Disk {
    var code: Text
    var map_: MapFile

    constructor (f: Files)
      ensures code == f.code && map_ == f.map_
    {
      code, map_ := f.code, f.map_;
    }

    /** What a run would write: the bundle, the map, and whether the map changed. */
    method Prepare(env: Env, strip: bool) returns (out: Text, m: MapFile, mapDirty: bool)
      requires map_.SourceMap?
      ensures out == NewCode(env, Files(code, map_), strip) && m == NewMap(env, Files(code, map_))
      ensures mapDirty <==> m != map_
    {
      ghost var f := Files(code, map_);
      var existing := ReadComment(code);
      var hasSnippet := HasSnippet(env, code);
      var debugId := if existing.Some? then existing.value else env.hash(code);
      out, m, mapDirty := code, map_, false;
      if !hasSnippet {
        var shifted := m.snippetLine;
        var line;
        if shifted.Some? { line := shifted.value; } else { line := SnippetLine(code); }
        if line >= 0 && (shifted.Some? || (m.mappings.Some? && !m.sections)) {
          out := InsertLine(out, line, Snippet(env, debugId));
          if shifted.None? {
            var moved := InsertLines(m.mappings.value, line, 1);
            m := m.(mappings := Some(moved), snippetLine := Some(line));
            mapDirty := true;
          }
        } else {
          out := InsertBeforeTrailing(out, Snippet(env, debugId));
        }
      }
      assert out == WithSnippet(env, f);
      if existing.None? {
        out := out + (if EndsWithNewline(out) then [] else [NEWLINE]) + CommentLine(debugId);
      }
      if strip { out := StripReference(out); }
      if m.debugId != Some(debugId) {
        m := m.(debugId := Some(debugId));
        mapDirty := true;
      }
    }

    /** `injectBundle`; `crash`: the process stops after the map was written, before the bundle is. */
    method Inject(env: Env, dryRun: bool, strip: bool, crash: bool) returns (status: Status)
      modifies this
      ensures var before := old(Files(code, map_));
              && Files(code, map_) ==
                 (if dryRun then before else if crash then Interrupted(env, before) else Injected(env, before, strip))
              && (status == InvalidMap <==> before.map_.Unreadable?)
              && (status == Unchanged <==> before.map_.SourceMap? && Injected(env, before, strip) == before)
    {
      if map_.Unreadable? { return InvalidMap; }
      var out, m, mapDirty := Prepare(env, strip);
      var changed := mapDirty || out != code;
      status := if changed then Changed else Unchanged;
      if changed && !dryRun {
        if mapDirty { map_ := m; }
        if crash { return; }
        if out != code { code := out; }
      }
    }
  }
}
