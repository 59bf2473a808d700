/**
 * Inserting empty generated lines into `mappings` (packages/runtime-cli/src/inject.ts): every lookup
 * gives what it gave before, on its moved line, although segment fields are relative across lines.
 */
module ShiftMappings {
  import opened Wrappers
  import opened Vlq
  import opened Texts
  import opened Mappings

  // ---------- inserting lines ----------

  function Blank(n: nat): (r: seq<Text>)
    ensures |r| == n && forall i | 0 <= i < n :: r[i] == []
  {
    seq(n, i => [])
  }

  /** The lines with blank ones appended up to `at` lines. */
  function Padded(lines: seq<Text>, at: nat): (r: seq<Text>)
    ensures |r| >= at && |r| >= |lines|
  {
    if |lines| >= at then lines else lines + Blank(at - |lines|)
  }

  function Shifted(mappings: Text, at: nat, count: nat): Text {
    var lines := Padded(Split(mappings, SEMICOLON), at);
    Join(lines[..at] + Blank(count) + lines[at..], SEMICOLON)
  }

  /** `shiftMappings`: pad with blank lines up to `at`, then add `count` more there. */
  method InsertLines(mappings: Text, at: nat, count: nat) returns (r: Text)
    ensures r == Shifted(mappings, at, count)
  {
    var split := Split(mappings, SEMICOLON);
    var lines := split;
    while |lines| < at
      invariant |split| <= |lines| && lines == split + Blank(|lines| - |split|)
      invariant |split| >= at ==> lines == split
      invariant |split| < at ==> |lines| <= at
      decreases at - |lines|
    {
      lines := lines + [[]];
    }
    assert lines == Padded(split, at);
    lines := lines[..at] + Blank(count) + lines[at..];
    r := Join(lines, SEMICOLON);
  }

  // ---------- groups, line by line ----------

  function Cat<T>(a: Result<seq<T>>, b: Result<seq<T>>): Result<seq<T>> {
    if a.Failure? || b.Failure? then Failure else Success(a.value + b.value)
  }

  function LineByLine(lines: seq<Text>, line: nat): Result<seq<Group>>
    decreases |lines|
  {
    if lines == [] then Success([]) else Cat(Groups(lines[0], line), LineByLine(lines[1..], line + 1))
  }

  /** A value is read the same whether its line ends the text or a `;` follows. */
  lemma {:induction false} DigitsBefore(t: Text, tail: Text, value: nat, shift: nat)
    requires tail != [] && tail[0] == SEMICOLON
    ensures var r := ReadDigits(t, value, shift);
            ReadDigits(t + tail, value, shift) == if r.None? then None else Some((r.value.0, r.value.1 + tail))
  {
    if t != [] {
      assert (t + tail)[1..] == t[1..] + tail;
      var d := DigitOf(t[0]);
      if d >= 32 && shift <= 30 { DigitsBefore(t[1..], tail, value + Placed(d, shift), shift + 5); }
    }
  }

  lemma {:induction false} SuffixFree(t: Text, value: nat, shift: nat)
    requires SEMICOLON !in t && ReadDigits(t, value, shift).Some?
    ensures SEMICOLON !in ReadDigits(t, value, shift).value.1
  {
    var d := DigitOf(t[0]);
    if d >= 32 { SuffixFree(t[1..], value + Placed(d, shift), shift + 5); }
  }

  lemma {:induction false} GroupBefore(t: Text, tail: Text)
    requires tail != [] && tail[0] == SEMICOLON && SEMICOLON !in t
    ensures var r := ReadGroup(t);
            && ReadGroup(t + tail) == (if r.None? then None else Some((r.value.0, r.value.1 + tail)))
            && (r.Some? ==> SEMICOLON !in r.value.1)
    decreases |t|
  {
    if t == [] {
      assert t + tail == tail;
    } else if !IsSeparator(t[0]) {
      DigitsBefore(t, tail, 0, 0);
      var v := ReadVlq(t);
      if v.Some? {
        SuffixFree(t, 0, 0);
        GroupBefore(v.value.1, tail);
      }
    }
  }

  lemma CatPrepend<T>(a: seq<T>, b: Result<seq<T>>, c: Result<seq<T>>)
    ensures Prepend(a, Cat(b, c)) == Cat(Prepend(a, b), c)
  {
    if b.Success? && c.Success? { assert a + (b.value + c.value) == (a + b.value) + c.value; }
  }

  /** The groups of a line, then those of the text after its `;`. */
  lemma {:induction false} LineThenRest(t: Text, rest: Text, line: nat)
    requires SEMICOLON !in t
    ensures Groups(t + [SEMICOLON] + rest, line) == Cat(Groups(t, line), Groups(rest, line + 1))
    decreases |t|
  {
    var tail := [SEMICOLON] + rest;
    assert t + [SEMICOLON] + rest == t + tail;
    if t == [] {
      assert t + tail == tail && tail[1..] == rest;
      PrependNone(Groups(rest, line + 1));
    } else if t[0] == COMMA {
      assert (t + tail)[1..] == t[1..] + [SEMICOLON] + rest;
      LineThenRest(t[1..], rest, line);
    } else {
      GroupBefore(t, tail);
      var g := ReadGroup(t);
      if g.Some? {
        var after := g.value.1;
        assert after + tail == after + [SEMICOLON] + rest;
        LineThenRest(after, rest, line);
        CatPrepend([GroupOf(line, g.value.0)], Groups(after, line), Groups(rest, line + 1));
      }
    }
  }

  /** The groups of a text are those of its lines. */
  lemma {:induction false} GroupsByLine(lines: seq<Text>, line: nat)
    requires lines != [] && forall i | 0 <= i < |lines| :: SEMICOLON !in lines[i]
    ensures Groups(Join(lines, SEMICOLON), line) == LineByLine(lines, line)
    decreases |lines|
  {
    if |lines| == 1 {
      var g := Groups(lines[0], line);
      if g.Success? { assert g.value + [] == g.value; }
    } else {
      LineThenRest(lines[0], Join(lines[1..], SEMICOLON), line);
      GroupsByLine(lines[1..], line + 1);
    }
  }

  /** Lines after others start at line `mid`. */
  lemma {:induction false} LinesAppend(a: seq<Text>, b: seq<Text>, line: nat, mid: nat)
    requires mid == line + |a|
    ensures LineByLine(a + b, line) == Cat(LineByLine(a, line), LineByLine(b, mid))
    decreases |a|
  {
    if a == [] {
      assert a + b == b;
      CatNone(LineByLine(b, line));
    } else {
      assert (a + b)[1..] == a[1..] + b;
      LinesAppend(a[1..], b, line + 1, mid);
      CatAssociates(Groups(a[0], line), LineByLine(a[1..], line + 1), LineByLine(b, mid));
    }
  }

  lemma CatAssociates<T>(a: Result<seq<T>>, b: Result<seq<T>>, c: Result<seq<T>>)
    ensures Cat(a, Cat(b, c)) == Cat(Cat(a, b), c)
  {
    if a.Success? && b.Success? && c.Success? { assert a.value + (b.value + c.value) == (a.value + b.value) + c.value; }
  }

  lemma {:induction false} BlankLines(n: nat, line: nat)
    ensures LineByLine(Blank(n), line) == Success([])
  {
    if n > 0 {
      assert Blank(n)[1..] == Blank(n - 1);
      BlankLines(n - 1, line + 1);
      CatNone(Groups([], line));
    }
  }

  // ---------- moving lines ----------

  function Move(line: nat, at: nat, count: nat): nat {
    if line < at then line else line + count
  }

  function MoveGroups(gs: seq<Group>, at: nat, count: nat): (r: seq<Group>)
    ensures |r| == |gs|
    ensures forall i | 0 <= i < |r| :: r[i] == gs[i].(line := Move(gs[i].line, at, count))
  {
    seq(|gs|, i requires 0 <= i < |gs| => gs[i].(line := Move(gs[i].line, at, count)))
  }

  function MoveAll(r: Result<seq<Group>>, at: nat, count: nat): Result<seq<Group>> {
    if r.Failure? then Failure else Success(MoveGroups(r.value, at, count))
  }

  lemma {:induction false} GroupsElsewhere(t: Text, line: nat, at: nat, count: nat)
    requires SEMICOLON !in t
    ensures Groups(t, Move(line, at, count)) == MoveAll(Groups(t, line), at, count)
    decreases |t|
  {
    if t != [] && t[0] == COMMA {
      GroupsElsewhere(t[1..], line, at, count);
    } else if t != [] {
      GroupBefore(t, [SEMICOLON]);
      var g := ReadGroup(t);
      if g.Some? {
        GroupsElsewhere(g.value.1, line, at, count);
        var rest := Groups(g.value.1, line);
        if rest.Success? {
          assert MoveGroups([GroupOf(line, g.value.0)] + rest.value, at, count) ==
                 [GroupOf(Move(line, at, count), g.value.0)] + MoveGroups(rest.value, at, count);
        }
      }
    }
  }

  /** Lines from `at` on move by `count`. */
  lemma {:induction false} LinesAfter(lines: seq<Text>, line: nat, at: nat, count: nat)
    requires at <= line && forall i | 0 <= i < |lines| :: SEMICOLON !in lines[i]
    ensures LineByLine(lines, line + count) == MoveAll(LineByLine(lines, line), at, count)
    decreases |lines|
  {
    if lines == [] {
      assert MoveGroups([], at, count) == [];
    } else {
      GroupsElsewhere(lines[0], line, at, count);
      LinesAfter(lines[1..], line + 1, at, count);
      MoveCat(Groups(lines[0], line), LineByLine(lines[1..], line + 1), at, count);
    }
  }

  /** Lines before `at` stay. */
  lemma {:induction false} LinesBefore(lines: seq<Text>, line: nat, at: nat, count: nat)
    requires line + |lines| <= at && forall i | 0 <= i < |lines| :: SEMICOLON !in lines[i]
    ensures LineByLine(lines, line) == MoveAll(LineByLine(lines, line), at, count)
    decreases |lines|
  {
    if lines == [] {
      assert MoveGroups([], at, count) == [];
    } else {
      GroupsElsewhere(lines[0], line, at, count);
      LinesBefore(lines[1..], line + 1, at, count);
      MoveCat(Groups(lines[0], line), LineByLine(lines[1..], line + 1), at, count);
    }
  }

  lemma CatNone<T>(a: Result<seq<T>>)
    ensures Cat(a, Success([])) == a && Cat(Success([]), a) == a
  {
    if a.Success? { assert a.value + [] == a.value && [] + a.value == a.value; }
  }

  lemma PaddedGroups(mappings: Text, at: nat)
    ensures LineByLine(Padded(Split(mappings, SEMICOLON), at), 0) == Groups(mappings, 0)
  {
    var split := Split(mappings, SEMICOLON);
    GroupsByLine(split, 0);
    if |split| < at {
      LinesAppend(split, Blank(at - |split|), 0, |split|);
      BlankLines(at - |split|, |split|);
      CatNone(LineByLine(split, 0));
    }
  }

  lemma MoveCat(a: Result<seq<Group>>, b: Result<seq<Group>>, at: nat, count: nat)
    ensures MoveAll(Cat(a, b), at, count) == Cat(MoveAll(a, at, count), MoveAll(b, at, count))
  {
    if a.Success? && b.Success? {
      assert MoveGroups(a.value + b.value, at, count) == MoveGroups(a.value, at, count) + MoveGroups(b.value, at, count);
    }
  }

  lemma SplicedGroups(before: seq<Text>, after: seq<Text>, count: nat)
    requires forall i | 0 <= i < |before| :: SEMICOLON !in before[i]
    requires forall i | 0 <= i < |after| :: SEMICOLON !in after[i]
    ensures LineByLine(before + Blank(count) + after, 0) == MoveAll(LineByLine(before + after, 0), |before|, count)
  {
    var at := |before|;
    var b, a, a' := LineByLine(before, 0), LineByLine(after, at), LineByLine(after, at + count);
    assert LineByLine(before + Blank(count) + after, 0) == Cat(b, a') by { WithBlank(before, after, count); }
    assert a' == MoveAll(a, at, count) by { LinesAfter(after, at, at, count); }
    assert b == MoveAll(b, at, count) by { LinesBefore(before, 0, at, count); }
    assert MoveAll(LineByLine(before + after, 0), at, count) == Cat(MoveAll(b, at, count), MoveAll(a, at, count)) by {
      WholeMoves(before, after, count);
    }
  }

  /** Blank lines in between only move what follows. */
  lemma WithBlank(before: seq<Text>, after: seq<Text>, count: nat)
    ensures LineByLine(before + Blank(count) + after, 0) ==
            Cat(LineByLine(before, 0), LineByLine(after, |before| + count))
  {
    var first := before + Blank(count);
    assert |first| == |before| + count;
    LinesAppend(first, after, 0, |before| + count);
    LinesAppend(before, Blank(count), 0, |before|);
    BlankLines(count, |before|);
    CatNone(LineByLine(before, 0));
  }

  lemma WholeMoves(before: seq<Text>, after: seq<Text>, count: nat)
    ensures MoveAll(LineByLine(before + after, 0), |before|, count) ==
            Cat(MoveAll(LineByLine(before, 0), |before|, count), MoveAll(LineByLine(after, |before|), |before|, count))
  {
    LinesAppend(before, after, 0, |before|);
    MoveCat(LineByLine(before, 0), LineByLine(after, |before|), |before|, count);
  }

  /** Inserting lines moves every group that comes after them, and changes no other. */
  lemma ShiftedGroups(mappings: Text, at: nat, count: nat)
    ensures Groups(Shifted(mappings, at, count), 0) == MoveAll(Groups(mappings, 0), at, count)
  {
    var lines := Padded(Split(mappings, SEMICOLON), at);
    PaddedGroups(mappings, at);
    assert lines[..at] + lines[at..] == lines;
    SplicedGroups(lines[..at], lines[at..], count);
    var out := lines[..at] + Blank(count) + lines[at..];
    if out != [] { GroupsByLine(out, 0); }
  }

  function MoveSegments(segments: seq<Segment>, at: nat, count: nat): (r: seq<Segment>)
    ensures |r| == |segments|
    ensures forall i | 0 <= i < |r| :: r[i] == segments[i].(line := Move(segments[i].line, at, count))
  {
    seq(|segments|, i requires 0 <= i < |segments| => segments[i].(line := Move(segments[i].line, at, count)))
  }

  /** Fields carried across lines are carried across inserted ones too. */
  lemma {:induction false} AccumulateMoved(gs: seq<Group>, a: Carried, a': Carried, at: nat, count: nat)
    requires a' == a.(currentLine := a'.currentLine)
    requires a'.currentLine == Move(a.currentLine, at, count) || a.column == 0
    ensures Accumulate(MoveGroups(gs, at, count), a') == MoveSegments(Accumulate(gs, a), at, count)
    decreases |gs|
  {
    if gs != [] {
      var g, g' := gs[0], MoveGroups(gs, at, count)[0];
      assert MoveGroups(gs, at, count)[1..] == MoveGroups(gs[1..], at, count);
      assert Advance(a', g') == Advance(a, g).(currentLine := Advance(a', g').currentLine);
      AccumulateMoved(gs[1..], Advance(a, g), Advance(a', g'), at, count);
    }
  }

  lemma {:induction false} MovedLine(segments: seq<Segment>, line: nat, at: nat, count: nat)
    ensures LineRows(MoveSegments(segments, at, count), Move(line, at, count)) == LineRows(segments, line)
    decreases |segments|
  {
    if segments != [] {
      assert MoveSegments(segments, at, count)[1..] == MoveSegments(segments[1..], at, count);
      MovedLine(segments[1..], line, at, count);
    }
  }

  lemma {:induction false} InsertedLine(segments: seq<Segment>, line: nat, at: nat, count: nat)
    requires at <= line < at + count
    ensures LineRows(MoveSegments(segments, at, count), line) == []
    decreases |segments|
  {
    if segments != [] {
      assert MoveSegments(segments, at, count)[1..] == MoveSegments(segments[1..], at, count);
      InsertedLine(segments[1..], line, at, count);
    }
  }

  /**
   * The shifted mappings are malformed exactly when the original ones are. Otherwise a lookup before the
   * inserted lines is unchanged, a lookup after them gives what it gave `count` lines earlier, and the
   * inserted lines map to nothing.
   */
  lemma ShiftPreservesMeaning(mappings: Text, at: nat, count: nat)
    ensures Segments(Shifted(mappings, at, count)).Success? <==> Segments(mappings).Success?
    ensures Segments(mappings).Success? ==>
              var before, after := Segments(mappings).value, Segments(Shifted(mappings, at, count)).value;
              && |after| == |before|
              && (forall line: nat, column | line < at :: Lookup(after, line, column) == Lookup(before, line, column))
              && (forall line: nat, column | line >= at :: Lookup(after, line + count, column) == Lookup(before, line, column))
              && (forall line: nat, column | at <= line < at + count :: Lookup(after, line, column) == None)
  {
    ShiftedGroups(mappings, at, count);
    if Groups(mappings, 0).Success? {
      var gs := Groups(mappings, 0).value;
      AccumulateMoved(gs, START, START, at, count);
      var before := Accumulate(gs, START);
      var after := MoveSegments(before, at, count);
      forall line: nat, column | line < at ensures Lookup(after, line, column) == Lookup(before, line, column) {
        MovedLine(before, line, at, count);
      }
      forall line: nat, column | line >= at ensures Lookup(after, line + count, column) == Lookup(before, line, column) {
        MovedLine(before, line, at, count);
      }
      forall line: nat, column | at <= line < at + count ensures Lookup(after, line, column) == None {
        InsertedLine(before, line, at, count);
      }
    }
  }
}
