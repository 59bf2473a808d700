/**
 * Positions in a bundle and the segments that start at them (packages/runtime-cli/src/scopes.ts): the CLI's
 * one-pass search agrees with the lookup the ingester makes later.
 */
module CliPositions {
  import opened Wrappers
  import opened Vlq
  import opened Mappings
  import DecodedMappings

  // ---------- lines ----------

  const LF: CodeUnit := 10
  const CR: CodeUnit := 13

  /** A line starts at `i`: a line terminator ends there, CR LF being one. */
  predicate StartsLine(code: Text, i: int) {
    i == 0 || (1 <= i <= |code|
               && (code[i - 1] == LF || code[i - 1] == 0x2028 || code[i - 1] == 0x2029
                   || (code[i - 1] == CR && !(i < |code| && code[i] == LF))))
  }

  predicate Increasing(s: seq<int>) {
    forall i, j | 0 <= i < j < |s| :: s[i] < s[j]
  }

  /** `lineStarts`: exactly the offsets where a line starts, in order. */
  method LineStarts(code: Text) returns (starts: seq<int>)
    ensures starts != [] && starts[0] == 0 && Increasing(starts)
    ensures forall i :: i in starts <==> StartsLine(code, i)
  {
    starts := [0];
    var i := 0;
    while i < |code|
      invariant 0 <= i <= |code| && starts != [] && starts[0] == 0 && Increasing(starts)
      invariant forall k | 0 <= k < |starts| :: starts[k] <= i
      invariant forall k | 0 <= k <= i :: k in starts <==> StartsLine(code, k)
    {
      var c := code[i];
      if c == LF || c == 0x2028 || c == 0x2029 {
        starts := starts + [i + 1];
      } else if c == CR {
        if i + 1 < |code| && code[i + 1] == LF { i := i + 1; }
        starts := starts + [i + 1];
      }
      i := i + 1;
    }
  }

  /** `positionOf`: the line an offset is on, and its column there. */
  method PositionOf(starts: seq<int>, offset: int) returns (line: nat, column: nat)
    requires starts != [] && starts[0] == 0 && Increasing(starts) && offset >= 0
    ensures line < |starts| && starts[line] + column == offset
    ensures forall k | line < k < |starts| :: starts[k] > offset
  {
    var lo, hi := 0, |starts| - 1;
    while lo < hi
      invariant 0 <= lo <= hi < |starts| && starts[lo] <= offset
      invariant forall k | hi < k < |starts| :: starts[k] > offset
    {
      var mid := (lo + hi + 1) / 2;
      if starts[mid] <= offset { lo := mid; } else { hi := mid - 1; }
    }
    return lo, offset - starts[lo];
  }

  /** The starts of lines 1 to `n`. */
  function After(starts: seq<int>, n: nat): (r: set<int>)
    requires n < |starts| && Increasing(starts)
    ensures |r| == n && forall x <- r :: x <= starts[n]
  {
    if n == 0 then {}
    else
      assert starts[n - 1] < starts[n];
      After(starts, n - 1) + {starts[n]}
  }

  lemma {:induction false} AfterMembers(starts: seq<int>, n: nat, x: int)
    requires n < |starts| && Increasing(starts)
    ensures x in After(starts, n) <==> exists k | 1 <= k <= n :: starts[k] == x
  {
    if n > 0 { AfterMembers(starts, n - 1, x); }
  }

  /** With the line starts of a text, the lines before an offset are counted by its line. */
  lemma LinesBefore(code: Text, starts: seq<int>, line: nat, offset: int, before: set<int>)
    requires line < |starts| && starts[0] == 0 && Increasing(starts) && forall i :: i in starts <==> StartsLine(code, i)
    requires starts[line] <= offset && forall k | line < k < |starts| :: starts[k] > offset
    requires before == set i | 0 < i <= offset && StartsLine(code, i)
    ensures |before| == line
  {
    forall x ensures x in before <==> x in After(starts, line) {
      AfterMembers(starts, line, x);
      if x in before {
        assert x in starts;
        var k :| 0 <= k < |starts| && starts[k] == x;
        assert 1 <= k <= line;
      }
      if k :| 1 <= k <= line && starts[k] == x {
        assert starts[0] < starts[k] && (k < line ==> starts[k] < starts[line]) && starts[k] in starts;
      }
    }
    assert before == After(starts, line);
  }

  lemma NoneBetween(code: Text, starts: seq<int>, line: nat, offset: int, i: int)
    requires line < |starts| && Increasing(starts) && forall i :: i in starts <==> StartsLine(code, i)
    requires starts[line] < i <= offset && forall k | line < k < |starts| :: starts[k] > offset
    ensures !StartsLine(code, i)
  {}

  /** A position leads back to its offset, and no line starts between its line's start and the offset. */
  method PositionInCode(code: Text, offset: nat) returns (line: nat, column: nat)
    requires offset <= |code|
    ensures StartsLine(code, offset - column)
    ensures forall i | offset - column < i <= offset :: !StartsLine(code, i)
    ensures line == |set i | 0 < i <= offset && StartsLine(code, i)|
  {
    var starts := LineStarts(code);
    line, column := PositionOf(starts, offset);
    forall i | offset - column < i <= offset ensures !StartsLine(code, i) {
      NoneBetween(code, starts, line, offset, i);
    }
    assert starts[line] in starts;
    LinesBefore(code, starts, line, offset, set i | 0 < i <= offset && StartsLine(code, i));
  }

  // ---------- segments ----------

  datatype Position = Position(line: nat, column: int)

  /** A segment as the CLI keeps it: `source` and `name` are -1 when absent. */
  function Found(row: Row): MappedSegment {
    MappedSegment(row.source, row.originalLine, row.originalColumn, row.name)
  }

  /** The first segment that starts exactly at `p`. */
  function FirstAt(segments: seq<Segment>, p: Position): Option<MappedSegment> {
    if segments == [] then None
    else if segments[0].line == p.line && segments[0].row.column == p.column then Some(Found(segments[0].row))
    else FirstAt(segments[1..], p)
  }

  lemma {:induction false} FirstAtAppend(segments: seq<Segment>, s: Segment, p: Position)
    ensures FirstAt(segments + [s], p)
         == if FirstAt(segments, p).Some? then FirstAt(segments, p)
            else if s.line == p.line && s.row.column == p.column then Some(Found(s.row)) else None
  {
    if segments == [] {
      assert ([s])[1..] == [];
    } else {
      assert (segments + [s])[1..] == segments[1..] + [s];
      FirstAtAppend(segments[1..], s, p);
    }
  }

  /** `findSegments`: every wanted position gets the first segment that starts exactly there, if one does. */
  method FindSegments(mappings: Text, wanted: set<Position>) returns (r: Result<map<Position, Option<MappedSegment>>>)
    ensures r.Failure? <==> Segments(mappings).Failure?
    ensures r.Success? ==> r.value.Keys == wanted && forall p <- wanted :: r.value[p] == FirstAt(Segments(mappings).value, p)
  {
    var visits := DecodedMappings.ForEachSegment(mappings);
    if visits.Failure? { return Failure; }
    var segments := visits.value;
    var want: map<Position, Option<MappedSegment>> := map p <- wanted :: None;
    for n := 0 to |segments|
      invariant want.Keys == wanted && forall p <- wanted :: want[p] == FirstAt(segments[..n], p)
    {
      var s := segments[n];
      var at := Position(s.line, s.row.column);
      assert segments[..n + 1] == segments[..n] + [s];
      forall p <- wanted
        ensures FirstAt(segments[..n + 1], p) == if want[p].Some? || p != at then want[p] else Some(Found(s.row))
      {
        FirstAtAppend(segments[..n], s, p);
      }
      if at in want && want[at].None? { want := want[at := Some(Found(s.row))]; }
    }
    assert segments[..|segments|] == segments;
    r := Success(want);
  }

  /** The row the scan keeps at an exact column is the first one there. */
  lemma {:induction false} BestIsFirst(rows: seq<Row>, target: int, best: Option<Row>)
    requires best.Some? ==> best.value.column <= target
    ensures best.Some? && best.value.column == target ==> Best(rows, target, best) == best
    ensures !(best.Some? && best.value.column == target) ==>
              forall k | 0 <= k < |rows| && rows[k].column == target && (forall j | 0 <= j < k :: rows[j].column != target) ::
                Best(rows, target, best) == Some(rows[k])
  {
    if rows != [] {
      var next := Better(best, rows[0], target);
      BestIsFirst(rows[1..], target, next);
      if !(best.Some? && best.value.column == target) {
        forall k | 0 <= k < |rows| && rows[k].column == target && (forall j | 0 <= j < k :: rows[j].column != target)
          ensures Best(rows, target, best) == Some(rows[k])
        {
          if k > 0 {
            assert rows[1..][k - 1] == rows[k];
            assert forall j | 0 <= j < k - 1 :: rows[1..][j] == rows[j + 1];
          }
        }
      }
    }
  }

  lemma {:induction false} FirstRow(segments: seq<Segment>, p: Position) returns (k: nat)
    requires FirstAt(segments, p).Some?
    ensures var rows := LineRows(segments, p.line);
            && k < |rows| && rows[k].column == p.column && Found(rows[k]) == FirstAt(segments, p).value
            && forall j | 0 <= j < k :: rows[j].column != p.column
  {
    if segments[0].line == p.line && segments[0].row.column == p.column {
      k := 0;
    } else {
      var j := FirstRow(segments[1..], p);
      k := if segments[0].line == p.line then j + 1 else j;
    }
  }

  /**
   * Where a segment starts, what the CLI finds is what the ingester's lookup gives later, and a segment
   * without a source gives nothing there.
   */
  lemma AgreesWithLookup(segments: seq<Segment>, p: Position)
    requires FirstAt(segments, p).Some?
    ensures var found := FirstAt(segments, p).value;
            Lookup(segments, p.line, p.column) == if found.source == NONE then None else Some(found)
  {
    var k := FirstRow(segments, p);
    BestIsFirst(LineRows(segments, p.line), p.column, None);
  }
}
