/**
 * What a source map's `mappings` mean (packages/otlp-ingester/src/source-map-mappings.ts; "Mappings
 * structure" in ECMA-426): the segments of each generated line, and the one a position maps to.
 */
module Mappings {
  import opened Wrappers
  import opened Vlq
  import opened Sorting

  const NONE := -1

  /** A segment's fields, accumulated: `source` and `name` are -1 when absent. */
  datatype Row = Row(column: int, source: int, originalLine: int, originalColumn: int, name: int)

  datatype Segment = Segment(line: nat, row: Row)

  /** The fields carried from segment to segment. */
  datatype Carried = Carried(
    currentLine: nat, column: int, source: int, originalLine: int, originalColumn: int, name: int)

  const START := Carried(0, 0, 0, 0, 0, 0)

  /** The running fields after a group; a new line sets the column back to 0 and nothing else. */
  function Advance(a: Carried, g: Group): Carried {
    var n := g.count;
    var a := if g.line != a.currentLine then a.(currentLine := g.line, column := 0) else a;
    a.(column := a.column + ValueAt(g, 0),
       source := if n >= 4 then a.source + ValueAt(g, 1) else a.source,
       originalLine := if n >= 4 then a.originalLine + ValueAt(g, 2) else a.originalLine,
       originalColumn := if n >= 4 then a.originalColumn + ValueAt(g, 3) else a.originalColumn,
       name := if n >= 5 then a.name + ValueAt(g, 4) else a.name)
  }

  function SegmentAt(a: Carried, count: nat): Segment {
    Segment(a.currentLine, Row(a.column, if count >= 4 then a.source else NONE, a.originalLine, a.originalColumn,
                               if count >= 5 then a.name else NONE))
  }

  /** The segments of the groups, in order. */
  function Accumulate(groups: seq<Group>, a: Carried): (r: seq<Segment>)
    ensures |r| == |groups|
  {
    if groups == [] then []
    else
      var a1 := Advance(a, groups[0]);
      [SegmentAt(a1, groups[0].count)] + Accumulate(groups[1..], a1)
  }

  /** `forEachSegment`: every segment of `mappings`, or failure on malformed VLQ. */
  function Segments(mappings: Text): Result<seq<Segment>> {
    var g := Groups(mappings, 0);
    if g.Failure? then Failure else Success(Accumulate(g.value, START))
  }

  /** An original position; a name of -1 stands for no name. */
  datatype MappedSegment = MappedSegment(source: int, line: int, column: int, name: int)

  /** What a row maps a position to: nothing without a source. */
  function Mapped(row: Row): Option<MappedSegment> {
    if row.source == NONE then None
    else Some(MappedSegment(row.source, row.originalLine, row.originalColumn, row.name))
  }

  // ---------- lookup ----------

  /** The rows of one generated line, in the order they are written. */
  function LineRows(segments: seq<Segment>, line: int): seq<Row> {
    if segments == [] then []
    else (if segments[0].line == line then [segments[0].row] else []) + LineRows(segments[1..], line)
  }

  /** A row the scan passes over: after the target, or not better than the best so far. */
  predicate Loses(best: Option<Row>, row: Row, target: int) {
    || row.column > target
    || (best.Some? && (best.value.column > row.column || (best.value.column == row.column && row.column == target)))
  }

  /** One row of the scan. On a tie the first row wins at the target itself, and the last one before it. */
  function Better(best: Option<Row>, row: Row, target: int): Option<Row> {
    if Loses(best, row, target) then best else Some(row)
  }

  function Best(rows: seq<Row>, target: int, best: Option<Row>): Option<Row> {
    if rows == [] then best else Best(rows[1..], target, Better(best, rows[0], target))
  }

  /** The original position at a generated position, or nothing. */
  function Lookup(segments: seq<Segment>, line: int, column: int): Option<MappedSegment> {
    var best := Best(LineRows(segments, line), column, None);
    if best.None? then None else Mapped(best.value)
  }

  /**
   * The row a position means: no row at or before it has a greater column; among rows at exactly its
   * column it is the first, among rows before it the last.
   */
  predicate IsGreatestLowerBound(rows: seq<Row>, target: int, k: nat) {
    && k < |rows| && rows[k].column <= target
    && (forall j | 0 <= j < |rows| :: rows[j].column <= target ==> rows[j].column <= rows[k].column)
    && (if rows[k].column == target then forall j | 0 <= j < k :: rows[j].column != target
        else forall j | k < j < |rows| :: rows[j].column != rows[k].column)
  }

  /** The scan finds exactly the greatest lower bound, and nothing only when there is none. */
  lemma {:induction false} BestIsGreatestLowerBound(rows: seq<Row>, target: int) returns (k: nat)
    ensures Best(rows, target, None).None? ==> forall j | 0 <= j < |rows| :: rows[j].column > target
    ensures Best(rows, target, None).Some? ==>
              IsGreatestLowerBound(rows, target, k) && Best(rows, target, None) == Some(rows[k])
  {
    k := BestFrom(rows, target, 0, None, 0);
  }

  ghost predicate BestSoFar(rows: seq<Row>, target: int, n: nat, best: Option<Row>, k: nat)
    requires n <= |rows|
  {
    if best.None? then forall j | 0 <= j < n :: rows[j].column > target
    else k < n && best.value == rows[k] && IsGreatestLowerBound(rows[..n], target, k)
  }

  lemma {:induction false} BestFrom(rows: seq<Row>, target: int, n: nat, best: Option<Row>, k: nat) returns (r: nat)
    requires n <= |rows| && BestSoFar(rows, target, n, best, k)
    ensures BestSoFar(rows, target, |rows|, Best(rows[n..], target, best), r)
    decreases |rows| - n
  {
    if n == |rows| {
      r := k;
    } else {
      assert rows[n..][1..] == rows[n + 1..];
      var next := Better(best, rows[n], target);
      var k' := if Loses(best, rows[n], target) then k else n;
      assert BestSoFar(rows, target, n + 1, next, k');
      r := BestFrom(rows, target, n + 1, next, k');
    }
  }

  // ---------- sorted rows ----------

  predicate ColumnLeq(a: Row, b: Row) {
    a.column <= b.column
  }

  const ByColumn := (a: Row, b: Row) => ColumnLeq(a, b)

  lemma BetterCommutes(best: Option<Row>, a: Row, b: Row, target: int)
    requires a.column != b.column
    ensures Better(Better(best, a, target), b, target) == Better(Better(best, b, target), a, target)
  {
  }

  lemma {:induction false} BestOfInsert(x: Row, rows: seq<Row>, target: int, best: Option<Row>)
    ensures Best(Insert(x, rows, ByColumn), target, best) == Best([x] + rows, target, best)
  {
    assert ([x] + rows)[1..] == rows;
    if rows != [] && !ByColumn(x, rows[0]) {
      var y, rest := rows[0], rows[1..];
      BestOfInsert(x, rest, target, Better(best, y, target));
      BetterCommutes(best, x, y, target);
      var r := Insert(x, rows, ByColumn);
      assert r[0] == y && r[1..] == Insert(x, rest, ByColumn);
      assert ([x] + rest)[1..] == rest;
    }
  }

  /** Sorting a line by column, stably, changes no lookup. */
  lemma {:induction false} SortKeepsBest(rows: seq<Row>, target: int, best: Option<Row>)
    ensures Best(StableSort(rows, ByColumn), target, best) == Best(rows, target, best)
  {
    if rows != [] {
      var rest := StableSort(rows[1..], ByColumn);
      BestOfInsert(rows[0], rest, target, best);
      assert ([rows[0]] + rest)[1..] == rest;
      SortKeepsBest(rows[1..], target, Better(best, rows[0], target));
    }
  }

  lemma ColumnsPreorder()
    ensures TotalPreorder(ByColumn)
  {
  }

  /** A greatest lower bound is unique, so any way to find one finds the scan's. */
  lemma LowerBoundIsBest(rows: seq<Row>, target: int, k: nat)
    requires IsGreatestLowerBound(rows, target, k)
    ensures Best(rows, target, None) == Some(rows[k])
  {
    var b := BestIsGreatestLowerBound(rows, target);
  }

  lemma NoneBefore(rows: seq<Row>, target: int)
    requires forall j | 0 <= j < |rows| :: rows[j].column > target
    ensures Best(rows, target, None).None?
  {
    var b := BestIsGreatestLowerBound(rows, target);
  }

  // ---------- lines ----------

  /** Segments come in line order. */
  ghost predicate InLineOrder(segments: seq<Segment>) {
    forall i, j | 0 <= i < j < |segments| :: segments[i].line <= segments[j].line
  }

  lemma {:induction false} GroupsInOrder(t: Text, line: nat)
    requires Groups(t, line).Success?
    ensures var gs := Groups(t, line).value;
            && (forall i | 0 <= i < |gs| :: line <= gs[i].line && gs[i].count >= 1)
            && (forall i, j | 0 <= i < j < |gs| :: gs[i].line <= gs[j].line)
    decreases |t|
  {
    if t != [] {
      if t[0] == SEMICOLON {
        GroupsInOrder(t[1..], line + 1);
      } else if t[0] == COMMA {
        GroupsInOrder(t[1..], line);
      } else {
        var g := ReadGroup(t);
        GroupsInOrder(g.value.1, line);
      }
    }
  }

  lemma {:induction false} AccumulateLines(groups: seq<Group>, a: Carried)
    ensures var segs := Accumulate(groups, a); forall i | 0 <= i < |segs| :: segs[i].line == groups[i].line
  {
    if groups != [] { AccumulateLines(groups[1..], Advance(a, groups[0])); }
  }

  lemma SegmentsInOrder(mappings: Text)
    requires Segments(mappings).Success?
    ensures InLineOrder(Segments(mappings).value)
  {
    GroupsInOrder(mappings, 0);
    AccumulateLines(Groups(mappings, 0).value, START);
  }

  /** The rows of a line are one stretch of the segments. */
  lemma {:induction false} LineStretch(segments: seq<Segment>, line: int, lo: nat, hi: nat)
    requires lo <= hi <= |segments|
    requires forall i | 0 <= i < |segments| :: segments[i].line == line <==> lo <= i < hi
    ensures |LineRows(segments, line)| == hi - lo
    ensures forall i | lo <= i < hi :: LineRows(segments, line)[i - lo] == segments[i].row
  {
    if segments != [] {
      var rest := segments[1..];
      var lo' := if lo > 0 then lo - 1 else 0;
      var hi' := if hi > 0 then hi - 1 else 0;
      forall i | 0 <= i < |rest| ensures rest[i].line == line <==> lo' <= i < hi' {
        assert segments[i + 1].line == line <==> lo <= i + 1 < hi;
      }
      LineStretch(rest, line, lo', hi');
      if lo == 0 && hi > 0 {
        assert segments[0].line == line;
        forall i | lo <= i < hi ensures LineRows(segments, line)[i - lo] == segments[i].row {
          if i > 0 { assert LineRows(rest, line)[i - 1] == rest[i - 1].row; }
        }
      } else {
        forall i | lo <= i < hi ensures LineRows(segments, line)[i - lo] == segments[i].row {
          assert LineRows(rest, line)[(i - 1) - lo'] == rest[i - 1].row;
        }
      }
    }
  }

  lemma {:induction false} LineRowsAppend(a: seq<Segment>, s: Segment, line: int)
    ensures LineRows(a + [s], line) == LineRows(a, line) + (if s.line == line then [s.row] else [])
  {
    if a == [] {
      assert a + [s] == [s];
    } else {
      LineRowsAppend(a[1..], s, line);
      assert (a + [s])[1..] == a[1..] + [s];
    }
  }

  lemma {:induction false} BestAppend(rows: seq<Row>, row: Row, target: int, best: Option<Row>)
    ensures Best(rows + [row], target, best) == Better(Best(rows, target, best), row, target)
  {
    if rows == [] {
      assert rows + [row] == [row];
    } else {
      BestAppend(rows[1..], row, target, Better(best, rows[0], target));
      assert (rows + [row])[1..] == rows[1..] + [row];
    }
  }
}
