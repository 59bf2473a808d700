/**
 * When the decoded table and the one-pass search answer differently (packages/otlp-ingester/src/source-map-mappings.ts):
 * the table keeps 32-bit numbers, the pass does not.
 */
module TableOverflow {
  import opened Wrappers
  import opened Vlq
  import opened Mappings
  import opened DecodedMappings

  /** Both ways find the same at this position. */
  predicate AgreeAt(segments: seq<Segment>, line: int, column: int) {
    Lookup(segments, line, column) == Lookup(StoredSegments(segments), line, column)
  }

  ghost predicate AgreeEverywhere(segments: seq<Segment>) {
    forall line, column :: AgreeAt(segments, line, column)
  }

  function StoredRows(rows: seq<Row>): (r: seq<Row>)
    ensures |r| == |rows| && forall k | 0 <= k < |r| :: r[k] == StoredRow(rows[k])
  {
    seq(|rows|, k requires 0 <= k < |rows| => StoredRow(rows[k]))
  }

  lemma {:induction false} StoredLine(segments: seq<Segment>, line: int)
    ensures LineRows(StoredSegments(segments), line) == StoredRows(LineRows(segments, line))
  {
    if segments != [] {
      assert StoredSegments(segments)[1..] == StoredSegments(segments[1..]);
      StoredLine(segments[1..], line);
    }
  }

  lemma {:induction false} RowsComeFrom(segments: seq<Segment>, line: int, k: nat) returns (i: nat)
    requires k < |LineRows(segments, line)|
    ensures i < |segments| && segments[i] == Segment(segments[i].line, LineRows(segments, line)[k])
    ensures segments[i].line == line
  {
    var own := if segments[0].line == line then 1 else 0;
    if k < own {
      i := 0;
    } else {
      var rest := RowsComeFrom(segments[1..], line, k - own);
      i := rest + 1;
    }
  }

  // ---------- while the columns fit ----------

  predicate ColumnsFit(segments: seq<Segment>) {
    forall i | 0 <= i < |segments| :: FitsInt32(segments[i].row.column)
  }

  /** The row maps to nothing, or the table keeps what it maps to. */
  predicate MapsExactly(row: Row) {
    || row.source == NONE
    || (FitsInt32(row.source) && FitsInt32(row.originalLine) && FitsInt32(row.originalColumn) && FitsInt32(row.name))
  }

  /** Row `k` of its line is the one some position means. */
  ghost predicate Answers(segments: seq<Segment>, line: int, k: nat) {
    exists column :: IsGreatestLowerBound(LineRows(segments, line), column, k)
  }

  lemma MapsExactlyWhen(row: Row)
    ensures Mapped(StoredRow(row)) == Mapped(row) <==> MapsExactly(row)
  {}

  lemma SameRowAnswers(segments: seq<Segment>, line: int, column: int, k: nat)
    requires ColumnsFit(segments) && IsGreatestLowerBound(LineRows(segments, line), column, k)
    ensures AgreeAt(segments, line, column) <==> MapsExactly(LineRows(segments, line)[k])
  {
    var rows := LineRows(segments, line);
    StoredLine(segments, line);
    forall j | 0 <= j < |rows| ensures StoredRow(rows[j]).column == rows[j].column {
      var i := RowsComeFrom(segments, line, j);
    }
    LowerBoundIsBest(rows, column, k);
    LowerBoundIsBest(StoredRows(rows), column, k);
    MapsExactlyWhen(rows[k]);
  }

  /**
   * While every column fits 32 bits, the two ways agree at every position exactly when each row that answers some
   * position maps exactly; rows that answer none, and fields of rows that map to nothing, do not matter.
   */
  lemma AgreeWhenAnswersFit(segments: seq<Segment>)
    requires ColumnsFit(segments)
    ensures AgreeEverywhere(segments) <==>
              forall line, k: nat | Answers(segments, line, k) :: MapsExactly(LineRows(segments, line)[k])
  {
    if AgreeEverywhere(segments) {
      forall line, k: nat | Answers(segments, line, k) ensures MapsExactly(LineRows(segments, line)[k]) {
        var column :| IsGreatestLowerBound(LineRows(segments, line), column, k);
        assert AgreeAt(segments, line, column);
        SameRowAnswers(segments, line, column, k);
      }
    }
    if forall line, k: nat | Answers(segments, line, k) :: MapsExactly(LineRows(segments, line)[k]) {
      forall line, column ensures AgreeAt(segments, line, column) {
        var rows := LineRows(segments, line);
        var k := BestIsGreatestLowerBound(rows, column);
        if Best(rows, column, None).Some? {
          assert Answers(segments, line, k);
          SameRowAnswers(segments, line, column, k);
        } else {
          StoredLine(segments, line);
          forall j | 0 <= j < |rows| ensures StoredRow(rows[j]).column == rows[j].column {
            var i := RowsComeFrom(segments, line, j);
          }
          NoneBefore(StoredRows(rows), column);
        }
      }
    }
  }

  // ---------- whatever the columns are ----------

  /** The positions at and just after the column of a segment, and of what the table keeps of it. */
  predicate AgreeAround(segments: seq<Segment>, i: nat)
    requires i < |segments|
  {
    var line, column, kept := segments[i].line, segments[i].row.column, Int32(segments[i].row.column);
    && AgreeAt(segments, line, column) && AgreeAt(segments, line, column + 1)
    && AgreeAt(segments, line, kept) && AgreeAt(segments, line, kept + 1)
  }

  predicate AgreeAroundAll(segments: seq<Segment>) {
    forall i: nat | i < |segments| :: AgreeAround(segments, i)
  }

  function Columns(rows: seq<Row>): (r: seq<int>)
    ensures |r| == |rows| && forall k | 0 <= k < |r| :: r[k] == rows[k].column
  {
    seq(|rows|, k requires 0 <= k < |rows| => rows[k].column)
  }

  /** The greatest of `columns` before `target`. */
  lemma {:induction false} GreatestBefore(columns: seq<int>, target: int) returns (a: Option<int>)
    ensures a.None? ==> forall c <- columns :: c >= target
    ensures a.Some? ==> a.value in columns && a.value < target && forall c <- columns :: c < target ==> c <= a.value
  {
    if columns == [] {
      a := None;
    } else {
      a := GreatestBefore(columns[1..], target);
      assert columns == [columns[0]] + columns[1..];
      if columns[0] < target && (a.None? || a.value < columns[0]) { a := Some(columns[0]); }
    }
  }

  /** Between two columns of a line every position means the same row. */
  lemma SameStretch(rows: seq<Row>, a: int, target: int)
    requires a <= target && forall k | 0 <= k < |rows| :: rows[k].column < a || rows[k].column > target
    ensures Best(rows, a, None) == Best(rows, target, None)
  {
    var k := BestIsGreatestLowerBound(rows, a);
    if Best(rows, a, None).Some? { LowerBoundIsBest(rows, target, k); } else { NoneBefore(rows, target); }
  }

  lemma AgreeOnColumn(segments: seq<Segment>, line: int, a: int)
    requires AgreeAroundAll(segments)
    requires a in Columns(LineRows(segments, line)) + Columns(StoredRows(LineRows(segments, line)))
    ensures AgreeAt(segments, line, a) && AgreeAt(segments, line, a + 1)
  {
    hide Lookup, LineRows, Best, AgreeAt, StoredSegments, Int32;
    var rows := LineRows(segments, line);
    var columns, kept := Columns(rows), Columns(StoredRows(rows));
    var j :| 0 <= j < |columns + kept| && (columns + kept)[j] == a;
    var k := if j < |columns| then j else j - |columns|;
    assert a == rows[k].column || a == StoredRow(rows[k]).column;
    var i := RowsComeFrom(segments, line, k);
    assert AgreeAround(segments, i);
  }

  predicate Among(rows: seq<Row>, columns: seq<int>) {
    forall k | 0 <= k < |rows| :: rows[k].column in columns
  }

  lemma AllAmong(rows: seq<Row>, kept: seq<Row>)
    ensures Among(rows, Columns(rows) + Columns(kept)) && Among(kept, Columns(rows) + Columns(kept))
  {
    var columns := Columns(rows) + Columns(kept);
    forall k | 0 <= k < |rows| ensures rows[k].column in columns { assert columns[k] == rows[k].column; }
    forall k | 0 <= k < |kept| ensures kept[k].column in columns { assert columns[|rows| + k] == kept[k].column; }
  }

  /** A line's answer at a position that is no column: nothing, or the answer just after the column before it. */
  lemma BetweenColumns(rows: seq<Row>, columns: seq<int>, target: int, a: Option<int>)
    requires Among(rows, columns)
    requires target !in columns && (a.Some? ==> a.value < target)
    requires forall c <- columns :: c < target ==> a.Some? && c <= a.value
    ensures Best(rows, target, None) == if a.None? then None else Best(rows, a.value + 1, None)
  {
    if a.None? { NoneBefore(rows, target); } else { SameStretch(rows, a.value + 1, target); }
  }

  /** The two ways agree at each of these columns and just after it. */
  predicate AgreeOnAll(segments: seq<Segment>, line: int, columns: seq<int>) {
    forall c <- columns :: AgreeAt(segments, line, c) && AgreeAt(segments, line, c + 1)
  }

  lemma AgreeBetween(segments: seq<Segment>, line: int, rows: seq<Row>, kept: seq<Row>, columns: seq<int>, column: int)
    requires rows == LineRows(segments, line) && kept == LineRows(StoredSegments(segments), line)
    requires Among(rows, columns) && Among(kept, columns) && AgreeOnAll(segments, line, columns) && column !in columns
    ensures AgreeAt(segments, line, column)
  {
    hide Among;
    var a := GreatestBefore(columns, column);
    BetweenColumns(rows, columns, column, a);
    BetweenColumns(kept, columns, column, a);
    assert a.Some? ==> AgreeAt(segments, line, a.value + 1);
  }

  lemma AgreeAnywhere(segments: seq<Segment>, line: int, column: int)
    requires AgreeAroundAll(segments)
    ensures AgreeAt(segments, line, column)
  {
    hide AgreeAroundAll, AgreeAt, Among, Columns, StoredRows, StoredSegments;
    var rows, kept := LineRows(segments, line), StoredRows(LineRows(segments, line));
    var columns := Columns(rows) + Columns(kept);
    forall c <- columns ensures AgreeAt(segments, line, c) && AgreeAt(segments, line, c + 1) {
      AgreeOnColumn(segments, line, c);
    }
    if column !in columns {
      StoredLine(segments, line);
      AllAmong(rows, kept);
      AgreeBetween(segments, line, rows, kept, columns, column);
    }
  }

  /**
   * Whether the budget can matter at all: the two ways agree at every position exactly when they agree at and just
   * after each segment's column and what 32 bits keep of it, four positions a segment.
   */
  lemma AgreeExactly(segments: seq<Segment>)
    ensures AgreeEverywhere(segments) <==> AgreeAroundAll(segments)
  {
    if AgreeAroundAll(segments) {
      forall line, column ensures AgreeAt(segments, line, column) { AgreeAnywhere(segments, line, column); }
    }
  }
}
