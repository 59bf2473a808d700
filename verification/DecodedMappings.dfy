/**
 * The two ways the ingester looks positions up (packages/otlp-ingester/src/source-map-mappings.ts): a
 * compact table decoded once and searched, and one streaming pass over the text. Both are proved to
 * compute `Mappings.Lookup`.
 */
module DecodedMappings {
  import opened Wrappers
  import opened Vlq
  import opened Sorting
  import opened Mappings

  const FIELDS := 5

  /** What an Int32Array keeps of a number. */
  function Int32(n: int): (r: int)
    ensures -TWO_31 <= r < TWO_31
    ensures -TWO_31 <= n < TWO_31 ==> r == n
  {
    (n + TWO_31) % TWO_32 - TWO_31
  }

  function StoredRow(row: Row): Row {
    Row(Int32(row.column), Int32(row.source), Int32(row.originalLine), Int32(row.originalColumn), Int32(row.name))
  }

  function StoredSegments(segments: seq<Segment>): (r: seq<Segment>)
    ensures |r| == |segments|
    ensures forall i | 0 <= i < |r| :: r[i] == Segment(segments[i].line, StoredRow(segments[i].row))
  {
    seq(|segments|, i requires 0 <= i < |segments| => Segment(segments[i].line, StoredRow(segments[i].row)))
  }

  predicate FitsInt32(n: int) {
    -TWO_31 <= n < TWO_31
  }

  /** Every accumulated field is a 32-bit integer. */
  predicate Fits(segments: seq<Segment>) {
    forall i | 0 <= i < |segments| ::
      var row := segments[i].row;
      FitsInt32(row.column) && FitsInt32(row.source) && FitsInt32(row.originalLine)
      && FitsInt32(row.originalColumn) && FitsInt32(row.name)
  }

  /** The table keeps every segment exactly when every field fits. */
  lemma StoredExactly(segments: seq<Segment>)
    ensures StoredSegments(segments) == segments <==> Fits(segments)
  {
    if StoredSegments(segments) == segments {
      forall i | 0 <= i < |segments| ensures StoredRow(segments[i].row) == segments[i].row {
        assert StoredSegments(segments)[i] == segments[i];
      }
    }
  }

  // ---------- counting without decoding ----------

  /** Segments that start in `t`, and the `;` in it; `inSegment`: a segment is already open. */
  function CountFrom(t: Text, inSegment: bool): (nat, nat) {
    if t == [] then (0, 0)
    else if t[0] == SEMICOLON then
      var (s, l) := CountFrom(t[1..], false); (s, l + 1)
    else if t[0] == COMMA then CountFrom(t[1..], false)
    else
      var (s, l) := CountFrom(t[1..], true); (if inSegment then s else s + 1, l)
  }

  /** `countSegments`. */
  method CountSegments(mappings: Text) returns (segments: nat, lines: nat)
    ensures (segments, lines - 1) == CountFrom(mappings, false)
  {
    segments, lines := 0, 1;
    var inSegment, i := false, 0;
    assert mappings[0..] == mappings;
    while i < |mappings|
      invariant 0 <= i <= |mappings| && lines >= 1
      invariant var (s, l) := CountFrom(mappings[i..], inSegment); var all := CountFrom(mappings, false);
                segments + s == all.0 && lines - 1 + l == all.1
    {
      assert mappings[i..][1..] == mappings[i + 1..];
      if mappings[i] == SEMICOLON {
        lines, inSegment := lines + 1, false;
      } else if mappings[i] == COMMA {
        inSegment := false;
      } else if !inSegment {
        segments, inSegment := segments + 1, true;
      }
      i := i + 1;
    }
  }

  lemma {:induction false} SkipDigits(t: Text, value: nat, shift: nat)
    requires ReadDigits(t, value, shift).Some?
    ensures CountFrom(t, true) == CountFrom(ReadDigits(t, value, shift).value.1, true)
  {
    if DigitOf(t[0]) >= 32 { SkipDigits(t[1..], value + Placed(DigitOf(t[0]), shift), shift + 5); }
  }

  lemma {:induction false} SkipGroup(t: Text)
    requires ReadGroup(t).Some?
    ensures var rest := ReadGroup(t).value.1;
            CountFrom(t, true) == CountFrom(rest, false) && (rest == [] || IsSeparator(rest[0]))
    decreases |t|
  {
    if t != [] && !IsSeparator(t[0]) {
      SkipDigits(t, 0, 0);
      SkipGroup(ReadVlq(t).value.1);
    }
  }

  /** The count made without decoding is the number of segments, and bounds their lines. */
  lemma {:induction false} CountsGroups(t: Text, line: nat)
    requires Groups(t, line).Success?
    ensures var gs := Groups(t, line).value; var (s, l) := CountFrom(t, false);
            |gs| == s && forall i | 0 <= i < |gs| :: gs[i].line <= line + l
    decreases |t|
  {
    if t != [] {
      if t[0] == SEMICOLON {
        CountsGroups(t[1..], line + 1);
      } else if t[0] == COMMA {
        CountsGroups(t[1..], line);
      } else {
        var rest := ReadGroup(t).value.1;
        SkipGroup(t);
        assert CountFrom(t, false).0 == CountFrom(t, true).0 + 1;
        CountsGroups(rest, line);
      }
    }
  }

  lemma CountsSegments(mappings: Text)
    requires Segments(mappings).Success?
    ensures var segs := Segments(mappings).value; var (s, l) := CountFrom(mappings, false);
            |segs| == s && forall i | 0 <= i < |segs| :: segs[i].line <= l
  {
    CountsGroups(mappings, 0);
    AccumulateLines(Groups(mappings, 0).value, START);
  }

  function TableBytes(mappings: Text): nat {
    var (segments, breaks) := CountFrom(mappings, false);
    segments * FIELDS * 4 + (breaks + 2) * 4 + 64
  }

  /** `decodedMappingsBytes`: what the decoded table will take, before decoding. */
  method DecodedMappingsBytes(mappings: Text) returns (bytes: nat)
    ensures bytes == TableBytes(mappings)
  {
    var segments, lines := CountSegments(mappings);
    bytes := segments * FIELDS * 4 + (lines + 1) * 4 + 64;
  }

  // ---------- segments ----------

  /** `forEachSegment`: the visits it makes, in order, or the error it throws. */
  method ForEachSegment(mappings: Text) returns (r: Result<seq<Segment>>)
    ensures r == Segments(mappings)
  {
    var groups := ForEachVlqGroup(mappings);
    if groups.Failure? { return Failure; }
    var gs := groups.value;
    var visited: seq<Segment> := [];
    var a := START;
    var i := 0;
    while i < |gs|
      invariant 0 <= i <= |gs|
      invariant visited + Accumulate(gs[i..], a) == Accumulate(gs, START)
    {
      var g := gs[i];
      a := Advance(a, g);
      assert gs[i..][1..] == gs[i + 1..];
      assert visited + ([SegmentAt(a, g.count)] + Accumulate(gs[i + 1..], a))
          == (visited + [SegmentAt(a, g.count)]) + Accumulate(gs[i + 1..], a);
      visited := visited + [SegmentAt(a, g.count)];
      i := i + 1;
    }
    assert visited + [] == visited;
    r := Success(visited);
  }

  // ---------- the table ----------

  function RowAt(s: seq<int>, i: nat): Row
    requires FIELDS * i + FIELDS <= |s|
  {
    var at := FIELDS * i;
    Row(s[at], s[at + 1], s[at + 2], s[at + 3], s[at + 4])
  }

  /** The rows of a flat table. */
  function RowsOf(s: seq<int>): (r: seq<Row>)
    ensures |r| == |s| / FIELDS
    ensures forall i | 0 <= i < |r| :: r[i] == RowAt(s, i)
  {
    seq(|s| / FIELDS, i requires 0 <= i < |s| / FIELDS => RowAt(s, i))
  }

  /** Line `l` starts at the first segment of line `l` or later. */
  ghost predicate StartsOk(starts: seq<int>, segments: seq<Segment>) {
    && |starts| >= 1
    && (forall l | 0 <= l < |starts| :: 0 <= starts[l] <= |segments|)
    && (forall l, i | 0 <= l < |starts| && 0 <= i < |segments| :: i < starts[l] <==> segments[i].line < l)
  }

  /** The table of one line is its rows sorted by column. */
  ghost predicate LineSorted(table: seq<Row>, starts: seq<int>, segments: seq<Segment>, l: nat)
    requires l + 1 < |starts| && |table| == |segments| && StartsOk(starts, segments)
  {
    starts[l] <= starts[l + 1] && table[starts[l]..starts[l + 1]] == StableSort(LineRows(segments, l), ByColumn)
  }

  lemma StartsMonotone(starts: seq<int>, segments: seq<Segment>, l: nat)
    requires StartsOk(starts, segments) && l + 1 < |starts|
    ensures starts[l] <= starts[l + 1]
  {
    var i := starts[l + 1];
    assert i < |segments| ==> (i < starts[l] <==> segments[i].line < l);
    assert i < |segments| ==> (i < starts[l + 1] <==> segments[i].line < l + 1);
  }

  /** Before sorting, a line's stretch of the table holds its rows in the order they are written. */
  lemma StretchOfLine(table: seq<Row>, starts: seq<int>, segments: seq<Segment>, l: nat)
    requires l + 1 < |starts| && |table| == |segments| && StartsOk(starts, segments)
    requires forall i | 0 <= i < |segments| :: table[i] == segments[i].row
    ensures starts[l] <= starts[l + 1] && table[starts[l]..starts[l + 1]] == LineRows(segments, l)
  {
    StartsMonotone(starts, segments, l);
    forall i | 0 <= i < |segments| ensures segments[i].line == l <==> starts[l] <= i < starts[l + 1] {
      assert i < starts[l] <==> segments[i].line < l;
      assert i < starts[l + 1] <==> segments[i].line < l + 1;
    }
    LineStretch(segments, l, starts[l], starts[l + 1]);
  }

  /** The last segment at or before the column in sorted rows; the first one when it is exactly there. */
  lemma SortedLowerBound(rows: seq<Row>, target: int, last: nat, k: nat)
    requires Ordered(rows, ByColumn) && k <= last < |rows|
    requires rows[last].column <= target && (last + 1 < |rows| ==> rows[last + 1].column > target)
    requires rows[k].column == rows[last].column
    requires if rows[last].column == target then k > 0 ==> rows[k - 1].column != target else k == last
    ensures IsGreatestLowerBound(rows, target, k)
  {
    forall j | 0 <= j < |rows| ensures j > last ==> rows[j].column > target
      ensures j <= last ==> rows[j].column <= rows[last].column
      ensures j < k ==> rows[j].column <= rows[k - 1].column
    {
      if j > last + 1 { assert ByColumn(rows[last + 1], rows[j]); }
      if j < last { assert ByColumn(rows[j], rows[last]); }
      if j < k - 1 { assert ByColumn(rows[j], rows[k - 1]); }
    }
    if k > 0 { assert ByColumn(rows[k - 1], rows[k]); }
  }

  /** What the binary search and the walk back over equal columns find is the scan's answer. */
  lemma FoundRow(rows: seq<Row>, column: int, last: nat, found: nat)
    requires found <= last < |rows| && Ordered(rows, ByColumn)
    requires rows[last].column <= column
    requires last + 1 < |rows| ==> rows[last + 1].column > column
    requires if rows[last].column == column
             then rows[found].column == column && (found > 0 ==> rows[found - 1].column != column)
             else found == last
    ensures Best(rows, column, None) == Some(rows[found])
  {
    SortedLowerBound(rows, column, last, found);
    LowerBoundIsBest(rows, column, found);
  }

  class Decoded {
    /** The rows, flattened: five numbers each, and by column within a line. */
    const segments: array<int>
    /** Where the rows of each line begin, and after the last line where they end. */
    const lineStarts: array<int>

    constructor (segments: array<int>, lineStarts: array<int>)
      ensures this.segments == segments && this.lineStarts == lineStarts
    {
      this.segments := segments;
      this.lineStarts := lineStarts;
    }

    ghost function Table(): seq<Row>
      reads segments
    {
      RowsOf(segments[..])
    }

    /** The table of `source`: one row per segment, in bounds, each line sorted. */
    ghost predicate Shows(source: seq<Segment>, lines: nat)
      reads segments, lineStarts
    {
      && segments.Length == FIELDS * |source| && lineStarts.Length == lines + 1
      && StartsOk(lineStarts[..], source)
      && (forall i | 0 <= i < |source| :: source[i].line < lines)
      && (forall l: nat | l < lines :: LineSorted(Table(), lineStarts[..], source, l))
    }

    /** The memory the table takes. */
    function Bytes(): nat {
      segments.Length * 4 + lineStarts.Length * 4 + 64
    }

    /** The index of the last row of a stretch at or before the column, by binary search; -1 when there is none. */
    method LastAtOrBefore(start: nat, end: nat, column: int) returns (found: int)
      requires segments.Length % FIELDS == 0 && start <= end <= segments.Length / FIELDS
      requires Ordered(Table()[start..end], ByColumn)
      ensures found == -1 || start <= found < end
      ensures var rows := Table()[start..end];
              && (found >= 0 ==> rows[found - start].column <= column)
              && (forall j | (if found < 0 then 0 else found - start + 1) <= j < |rows| :: rows[j].column > column)
    {
      ghost var rows := Table()[start..end];
      var lo, hi := start, end - 1;
      found := -1;
      while lo <= hi
        invariant start <= lo <= hi + 1 <= end
        invariant if found == -1 then lo == start else found == lo - 1 >= start
        invariant found >= 0 ==> rows[found - start].column <= column
        invariant forall j | hi + 1 - start <= j < |rows| :: rows[j].column > column
      {
        var mid := (lo + hi) / 2;
        assert rows[mid - start] == Table()[mid] == RowAt(segments[..], mid);
        if segments[mid * FIELDS] <= column {
          found := mid;
          lo := mid + 1;
        } else {
          forall j | mid - start <= j < |rows| ensures rows[j].column > column {
            if j > mid - start { assert ByColumn(rows[mid - start], rows[j]); }
          }
          hi := mid - 1;
        }
      }
    }

    /** The first row of the stretch with the column of row `last`. */
    method FirstAt(start: nat, last: nat, column: int) returns (found: nat)
      requires segments.Length % FIELDS == 0 && start <= last < segments.Length / FIELDS
      requires Table()[last].column == column
      ensures start <= found <= last && Table()[found].column == column
      ensures found > start ==> Table()[found - 1].column != column
    {
      found := last;
      while found > start && segments[(found - 1) * FIELDS] == column
        invariant start <= found <= last && Table()[found].column == column
      {
        assert segments[(found - 1) * FIELDS] == Table()[found - 1].column;
        found := found - 1;
      }
      if found > start { assert segments[(found - 1) * FIELDS] == Table()[found - 1].column; }
    }

    /** `find`: the original position at a generated (line, column). */
    method Find(line: int, column: int, ghost source: seq<Segment>, ghost lines: nat) returns (r: Option<MappedSegment>)
      requires Shows(source, lines)
      ensures r == Lookup(source, line, column)
    {
      if line < 0 || line + 1 >= lineStarts.Length {
        NoRows(source, line, lines);
        return None;
      }
      assert LineSorted(Table(), lineStarts[..], source, line);
      SortKeepsBest(LineRows(source, line), column, None);
      ColumnsPreorder();
      SortOrders(LineRows(source, line), ByColumn);
      var found := FindRow(lineStarts[line], lineStarts[line + 1], column);
      if found < 0 { return None; }
      r := MappedAt(found);
    }

    /** The row of a sorted stretch that a column means; -1 when there is none. */
    method FindRow(start: nat, end: nat, column: int) returns (found: int)
      requires segments.Length % FIELDS == 0 && start <= end <= segments.Length / FIELDS
      requires Ordered(Table()[start..end], ByColumn)
      ensures found == -1 || start <= found < end
      ensures Best(Table()[start..end], column, None) == if found < 0 then None else Some(Table()[found])
    {
      hide Ordered;
      ghost var table := Table();
      ghost var rows := table[start..end];
      found := LastAtOrBefore(start, end, column);
      assert Table() == table;
      if found < 0 {
        NoneBefore(rows, column);
        return;
      }
      var last := found;
      assert table[last] == RowAt(segments[..], last);
      if segments[last * FIELDS] == column {
        found := FirstAt(start, last, column);
        assert Table() == table;
      }
      assert rows[last - start] == table[last] && rows[found - start] == table[found];
      assert found > start ==> rows[found - start - 1] == table[found - 1];
      FoundRow(rows, column, last - start, found - start);
    }

    /** The original position of a row of the table. */
    method MappedAt(i: nat) returns (r: Option<MappedSegment>)
      requires FIELDS * i + FIELDS <= segments.Length
      ensures i < |Table()| && r == Mapped(Table()[i])
    {
      var at := i * FIELDS;
      assert Table()[i] == RowAt(segments[..], i);
      if segments[at + 1] == NONE { return None; }
      r := Some(MappedSegment(segments[at + 1], segments[at + 2], segments[at + 3], segments[at + 4]));
    }
  }

  lemma {:induction false} NoRows(segments: seq<Segment>, line: int, lines: nat)
    requires forall i | 0 <= i < |segments| :: segments[i].line < lines
    requires line < 0 || line >= lines
    ensures LineRows(segments, line) == []
  {
    if segments != [] { NoRows(segments[1..], line, lines); }
  }

  /** Whether rows `start` to `end` are in column order already. */
  method InOrder(s: array<int>, start: nat, end: nat) returns (sorted: bool)
    requires s.Length % FIELDS == 0 && start <= end <= s.Length / FIELDS
    ensures sorted ==> Ordered(RowsOf(s[..])[start..end], ByColumn)
  {
    ghost var rows := RowsOf(s[..])[start..end];
    sorted := true;
    var i := start + 1;
    while i < end && sorted
      invariant start + 1 <= i
      invariant sorted ==> forall j | 0 < j < i - start && j < |rows| :: ByColumn(rows[j - 1], rows[j])
    {
      assert rows[i - 1 - start] == RowAt(s[..], i - 1) && rows[i - start] == RowAt(s[..], i);
      sorted := s[(i - 1) * FIELDS] <= s[i * FIELDS];
      i := i + 1;
    }
    if sorted { NeighboursOrdered(rows); }
  }

  /** `sortLine`: rows `start` to `end` of the table, sorted by column in place, stably. */
  method SortLine(s: array<int>, start: nat, end: nat)
    requires s.Length % FIELDS == 0 && start <= end <= s.Length / FIELDS
    modifies s
    ensures var rows := RowsOf(old(s[..])); var rows' := RowsOf(s[..]);
            && rows'[..start] == rows[..start] && rows'[end..] == rows[end..]
            && rows'[start..end] == StableSort(rows[start..end], ByColumn)
  {
    ghost var rows := RowsOf(s[..]);
    var sorted := InOrder(s, start, end);
    if sorted {
      SortOrdered(rows[start..end], ByColumn);
      return;
    }
    var taken: seq<Row> := [];
    var i := start;
    while i < end
      invariant start <= i <= end && taken == rows[start..i]
    {
      taken := taken + [RowAt(s[..], i)];
      i := i + 1;
    }
    taken := StableSort(taken, ByColumn);
    PutRows(s, start, taken);
  }

  lemma {:induction false} NeighboursOrdered(rows: seq<Row>)
    requires forall j | 0 < j < |rows| :: ByColumn(rows[j - 1], rows[j])
    ensures Ordered(rows, ByColumn)
  {
    if rows != [] {
      var front := rows[..|rows| - 1];
      NeighboursOrdered(front);
      forall i, j | 0 <= i < j < |rows| ensures ByColumn(rows[i], rows[j]) {
        if j == |rows| - 1 && i < j - 1 { assert ByColumn(front[i], front[j - 1]); }
        else if j < |rows| - 1 { assert ByColumn(front[i], front[j]); }
      }
    }
  }

  /** Write rows back into the flat table from row `start` on. */
  method PutRows(s: array<int>, start: nat, rows: seq<Row>)
    requires s.Length % FIELDS == 0 && start + |rows| <= s.Length / FIELDS
    modifies s
    ensures var before := RowsOf(old(s[..])); var after := RowsOf(s[..]);
            && after[..start] == before[..start] && after[start + |rows|..] == before[start + |rows|..]
            && after[start..start + |rows|] == rows
  {
    ghost var before := RowsOf(s[..]);
    var k := 0;
    while k < |rows|
      invariant 0 <= k <= |rows|
      invariant forall i | 0 <= i < s.Length / FIELDS ::
        RowAt(s[..], i) == if start <= i < start + k then rows[i - start] else before[i]
    {
      PutRow(s, start + k, rows[k]);
      k := k + 1;
    }
    assert forall i | 0 <= i < s.Length / FIELDS :: RowsOf(s[..])[i] == RowAt(s[..], i);
  }

  method PutRow(s: array<int>, i: nat, row: Row)
    requires FIELDS * i + FIELDS <= s.Length
    modifies s
    ensures RowAt(s[..], i) == row
    ensures forall j: nat | FIELDS * j + FIELDS <= s.Length && j != i :: RowAt(s[..], j) == RowAt(old(s[..]), j)
  {
    var at := i * FIELDS;
    s[at] := row.column;
    s[at + 1] := row.source;
    s[at + 2] := row.originalLine;
    s[at + 3] := row.originalColumn;
    s[at + 4] := row.name;
  }

  /**
   * `decode`: the compact table of `mappings`, or null on malformed VLQ. It holds exactly the counted
   * segments, every write in bounds, and takes the bytes predicted without decoding.
   */
  method Decode(mappings: Text) returns (d: Decoded?)
    ensures d == null <==> Segments(mappings).Failure?
    ensures d != null ==>
              && fresh(d) && fresh(d.segments) && fresh(d.lineStarts)
              && var (s, l) := CountFrom(mappings, false);
                 && d.Shows(StoredSegments(Segments(mappings).value), l + 1)
                 && |d.Table()| == s
                 && d.Bytes() == s * FIELDS * 4 + (l + 2) * 4 + 64
  {
    var count, lines := CountSegments(mappings);
    var visits := ForEachSegment(mappings);
    if visits.Failure? { return null; }
    CountsSegments(mappings);
    SegmentsInOrder(mappings);
    ghost var source := StoredSegments(visits.value);
    var segments, lineStarts := FillTable(visits.value, count, lines);
    var line: nat := 0;
    ghost var filled := RowsOf(segments[..]);
    ghost var starts := lineStarts[..];
    assert segments.Length == FIELDS * |source|;
    while line < lines
      invariant line <= lines && lineStarts[..] == starts
      invariant forall l: nat | l < line :: LineSorted(RowsOf(segments[..]), starts, source, l)
      invariant forall i | 0 <= i < |source| && source[i].line >= line :: RowsOf(segments[..])[i] == source[i].row
    {
      ghost var before := RowsOf(segments[..]);
      UnsortedStretch(before, starts, source, line);
      SortLine(segments, lineStarts[line], lineStarts[line + 1]);
      SortedOneMore(before, RowsOf(segments[..]), starts, source, line);
      line := line + 1;
    }
    d := new Decoded(segments, lineStarts);
  }

  lemma UnsortedStretch(table: seq<Row>, starts: seq<int>, segments: seq<Segment>, l: nat)
    requires l + 1 < |starts| && |table| == |segments| && StartsOk(starts, segments)
    requires forall i | 0 <= i < |segments| && segments[i].line >= l :: table[i] == segments[i].row
    ensures starts[l] <= starts[l + 1] && table[starts[l]..starts[l + 1]] == LineRows(segments, l)
  {
    var whole := seq(|segments|, i requires 0 <= i < |segments| => segments[i].row);
    StretchOfLine(whole, starts, segments, l);
    forall i | starts[l] <= i < starts[l + 1] ensures table[i] == whole[i] {
      assert i < starts[l] <==> segments[i].line < l;
    }
  }

  /** Sorting line `l` leaves the lines before it sorted and those after it as they were. */
  lemma SortedOneMore(before: seq<Row>, after: seq<Row>, starts: seq<int>, segments: seq<Segment>, l: nat)
    requires l + 1 < |starts| && |before| == |after| == |segments| && StartsOk(starts, segments)
    requires forall k: nat | k < l :: LineSorted(before, starts, segments, k)
    requires forall i | 0 <= i < |segments| && segments[i].line >= l :: before[i] == segments[i].row
    requires starts[l] <= starts[l + 1] && after[..starts[l]] == before[..starts[l]]
    requires after[starts[l + 1]..] == before[starts[l + 1]..]
    requires after[starts[l]..starts[l + 1]] == StableSort(before[starts[l]..starts[l + 1]], ByColumn)
    ensures forall k: nat | k < l + 1 :: LineSorted(after, starts, segments, k)
    ensures forall i | 0 <= i < |segments| && segments[i].line >= l + 1 :: after[i] == segments[i].row
  {
    UnsortedStretch(before, starts, segments, l);
    forall k: nat | k < l + 1 ensures LineSorted(after, starts, segments, k) {
      if k < l {
        assert LineSorted(before, starts, segments, k);
        StartsUpTo(starts, segments, k + 1, l);
        assert after[..starts[l]][starts[k]..starts[k + 1]] == after[starts[k]..starts[k + 1]];
        assert before[..starts[l]][starts[k]..starts[k + 1]] == before[starts[k]..starts[k + 1]];
      }
    }
    forall i | 0 <= i < |segments| && segments[i].line >= l + 1 ensures after[i] == segments[i].row {
      assert i < starts[l + 1] <==> segments[i].line < l + 1;
      assert after[i] == after[starts[l + 1]..][i - starts[l + 1]];
    }
  }

  lemma {:induction false} StartsUpTo(starts: seq<int>, segments: seq<Segment>, a: nat, b: nat)
    requires StartsOk(starts, segments) && a <= b < |starts|
    ensures starts[a] <= starts[b]
    decreases b - a
  {
    if a < b {
      StartsMonotone(starts, segments, a);
      StartsUpTo(starts, segments, a + 1, b);
    }
  }

  /** The rows of the segments in order, as 32-bit integers, and where each line starts. */
  method FillTable(visits: seq<Segment>, count: nat, lines: nat) returns (segments: array<int>, lineStarts: array<int>)
    requires |visits| == count && InLineOrder(visits) && lines >= 1
    requires forall i | 0 <= i < count :: visits[i].line < lines
    ensures fresh(segments) && fresh(lineStarts) && segments != lineStarts
    ensures segments.Length == FIELDS * count && lineStarts.Length == lines + 1
    ensures StartsOk(lineStarts[..], StoredSegments(visits))
    ensures forall i | 0 <= i < count :: RowsOf(segments[..])[i] == StoredSegments(visits)[i].row
  {
    hide StoredRow;
    segments := new int[count * FIELDS](_ => 0);
    lineStarts := new int[lines + 1](_ => 0);
    ghost var source := StoredSegments(visits);
    var n, currentLine := 0, 0;
    while n < count
      invariant 0 <= n <= count && 0 <= currentLine < lines
      invariant forall i | n <= i < count :: currentLine <= visits[i].line
      invariant forall i | 0 <= i < n :: visits[i].line <= currentLine && RowAt(segments[..], i) == source[i].row
      invariant forall l | 0 <= l <= currentLine :: 0 <= lineStarts[l] <= n
      invariant forall l, i | 0 <= l <= currentLine && 0 <= i < count :: i < lineStarts[l] <==> visits[i].line < l
    {
      var line := visits[n].line;
      assert forall i | n <= i < count :: visits[i].line >= line;
      currentLine := CloseLines(lineStarts, currentLine, line, n, visits);
      PutRow(segments, n, StoredRow(visits[n].row));
      n := n + 1;
    }
    currentLine := CloseLines(lineStarts, currentLine, lines, n, visits);
  }

  /** The lines after `currentLine` up to `line` start at segment `n`. */
  method CloseLines(lineStarts: array<int>, currentLine: nat, line: nat, n: nat, ghost visits: seq<Segment>)
    returns (last: nat)
    requires line < lineStarts.Length && n <= |visits| && currentLine <= line
    requires forall i | 0 <= i < n :: visits[i].line <= currentLine
    requires forall i | n <= i < |visits| :: visits[i].line >= line
    requires forall l | 0 <= l <= currentLine :: 0 <= lineStarts[l] <= n
    requires forall l, i | 0 <= l <= currentLine && 0 <= i < |visits| :: i < lineStarts[l] <==> visits[i].line < l
    modifies lineStarts
    ensures last == line
    ensures forall l | 0 <= l <= line :: 0 <= lineStarts[l] <= n
    ensures forall l, i | 0 <= l <= line && 0 <= i < |visits| :: i < lineStarts[l] <==> visits[i].line < l
  {
    last := currentLine;
    while last < line
      invariant currentLine <= last <= line
      invariant forall l | 0 <= l <= last :: 0 <= lineStarts[l] <= n
      invariant forall l, i | 0 <= l <= last && 0 <= i < |visits| :: i < lineStarts[l] <==> visits[i].line < l
    {
      last := last + 1;
      lineStarts[last] := n;
    }
  }

  // ---------- one pass ----------

  datatype Position = Position(line: int, column: int)

  /** `findInMappings`: several positions in one pass over the text, without decoding it. */
  method FindInMappings(mappings: Text, positions: seq<Position>) returns (r: Result<seq<Option<MappedSegment>>>)
    ensures r == LookupAll(Segments(mappings), positions)
  {
    var visits := ForEachSegment(mappings);
    if visits.Failure? { return Failure; }
    var segs := visits.value;
    var best: seq<Option<Row>> := seq(|positions|, i => None);
    var n := 0;
    while n < |segs|
      invariant 0 <= n <= |segs| && |best| == |positions|
      invariant forall i | 0 <= i < |positions| ::
        best[i] == Best(LineRows(segs[..n], positions[i].line), positions[i].column, None)
    {
      best := Improve(best, positions, segs[n], segs[..n]);
      assert segs[..n + 1] == segs[..n] + [segs[n]];
      n := n + 1;
    }
    assert segs[..|segs|] == segs;
    r := Success(seq(|positions|, i requires 0 <= i < |positions| =>
      if best[i].None? then None else Mapped(best[i].value)));
    ghost var all := LookupAll(Segments(mappings), positions).value;
    assert forall i | 0 <= i < |positions| :: r.value[i] == all[i];
    assert r.value == all;
  }

  /** One segment of the pass: it may be the best so far of any position on its line. */
  method Improve(best: seq<Option<Row>>, positions: seq<Position>, s: Segment, ghost before: seq<Segment>)
    returns (best': seq<Option<Row>>)
    requires |best| == |positions|
    requires forall i | 0 <= i < |positions| ::
      best[i] == Best(LineRows(before, positions[i].line), positions[i].column, None)
    ensures |best'| == |positions|
    ensures forall i | 0 <= i < |positions| ::
      best'[i] == Best(LineRows(before + [s], positions[i].line), positions[i].column, None)
  {
    best' := best;
    var k := 0;
    while k < |positions|
      invariant 0 <= k <= |positions| == |best'|
      invariant forall i | k <= i < |positions| :: best'[i] == best[i]
      invariant forall i | 0 <= i < k ::
        best'[i] == Best(LineRows(before + [s], positions[i].line), positions[i].column, None)
    {
      ghost var rows := LineRows(before, positions[k].line);
      LineRowsAppend(before, s, positions[k].line);
      assert rows + [] == rows;
      if positions[k].line == s.line {
        BestAppend(rows, s.row, positions[k].column, None);
        if !Loses(best'[k], s.row, positions[k].column) {
          best' := best'[k := Some(s.row)];
        }
      }
      k := k + 1;
    }
  }

  function LookupAll(segments: Result<seq<Segment>>, positions: seq<Position>): Result<seq<Option<MappedSegment>>> {
    if segments.Failure? then Failure
    else Success(seq(|positions|, i requires 0 <= i < |positions| =>
      Lookup(segments.value, positions[i].line, positions[i].column)))
  }

  function InTable(segments: Result<seq<Segment>>): Result<seq<Segment>> {
    if segments.Failure? then Failure else Success(StoredSegments(segments.value))
  }

  /** `lookup` of a loaded map: decoded when the table fits the budget, else one pass per call. */
  method LookupLoaded(mappings: Text, maxDecodedBytes: int, otherBytes: nat, positions: seq<Position>)
    returns (r: Result<seq<Option<MappedSegment>>>)
    ensures TableBytes(mappings) + otherBytes > maxDecodedBytes ==> r == LookupAll(Segments(mappings), positions)
    ensures TableBytes(mappings) + otherBytes <= maxDecodedBytes ==> r == LookupAll(InTable(Segments(mappings)), positions)
  {
    var bytes := DecodedMappingsBytes(mappings);
    if bytes + otherBytes > maxDecodedBytes {
      r := FindInMappings(mappings, positions);
      return;
    }
    var decoded := Decode(mappings);
    if decoded == null { return Failure; }
    ghost var source := StoredSegments(Segments(mappings).value);
    ghost var lines := CountFrom(mappings, false).1 + 1;
    var out: seq<Option<MappedSegment>> := [];
    while |out| < |positions|
      invariant |out| <= |positions| && decoded.Shows(source, lines)
      invariant forall i | 0 <= i < |out| :: out[i] == Lookup(source, positions[i].line, positions[i].column)
    {
      var found := decoded.Find(positions[|out|].line, positions[|out|].column, source, lines);
      out := out + [found];
    }
    r := Success(out);
    assert out == LookupAll(InTable(Segments(mappings)), positions).value;
  }

  /** When every field fits 32 bits the answers do not depend on the budget. */
  lemma BudgetDoesNotMatter(segments: seq<Segment>, positions: seq<Position>)
    requires Fits(segments)
    ensures LookupAll(InTable(Success(segments)), positions) == LookupAll(Success(segments), positions)
  {
    StoredExactly(segments);
  }

  /**
   * The budget does matter when a column leaves 32 bits: two segments of 2^31 - 1 and 2^31 on one line
   * (the second wraps to -2^31 in the table), looked up at column 0.
   */
  lemma OverflowMatters()
    ensures var segs := [Segment(0, Row(TWO_31 - 1, 0, 0, 0, NONE)), Segment(0, Row(TWO_31, 0, 0, 0, NONE))];
            && Segments(EncodeAll([TWO_31 - 1, 0, 0, 0]) + [COMMA] + EncodeAll([1, 0, 0, 0])) == Success(segs)
            && Lookup(segs, 0, 0) == None
            && Lookup(StoredSegments(segs), 0, 0) == Some(MappedSegment(0, 0, 0, NONE))
  {
    var segs := [Segment(0, Row(TWO_31 - 1, 0, 0, 0, NONE)), Segment(0, Row(TWO_31, 0, 0, 0, NONE))];
    var first, second := [TWO_31 - 1, 0, 0, 0], [1, 0, 0, 0];
    TwoGroups(first, second);
    TwoSegments(GroupOf(0, first), GroupOf(0, second));
    TwoOnLineZero(segs[0], segs[1], 0);
    var stored := StoredSegments(segs);
    TwoOnLineZero(stored[0], stored[1], 0);
    assert stored == [stored[0], stored[1]];
  }

  /** Two groups on the first line, as the text reads them. */
  lemma TwoGroups(first: seq<int>, second: seq<int>)
    requires first != [] && second != []
    requires forall i | 0 <= i < |first| :: -TWO_31 < first[i] < TWO_31
    requires forall i | 0 <= i < |second| :: -TWO_31 < second[i] < TWO_31
    ensures Groups(EncodeAll(first) + [COMMA] + EncodeAll(second), 0) ==
            Success([GroupOf(0, first), GroupOf(0, second)])
  {
    var rest := [COMMA] + EncodeAll(second);
    assert EncodeAll(first) + [COMMA] + EncodeAll(second) == EncodeAll(first) + rest;
    GroupThenRest(first, rest, 0);
    LastGroup(second);
    assert [GroupOf(0, first)] + [GroupOf(0, second)] == [GroupOf(0, first), GroupOf(0, second)];
  }

  lemma LastGroup(values: seq<int>)
    requires values != [] && forall i | 0 <= i < |values| :: -TWO_31 < values[i] < TWO_31
    ensures Groups([COMMA] + EncodeAll(values), 0) == Success([GroupOf(0, values)])
  {
    hide EncodeAll;
    var t := EncodeAll(values);
    assert ([COMMA] + t)[1..] == t == t + [];
    GroupThenRest(values, [], 0);
    assert [GroupOf(0, values)] + [] == [GroupOf(0, values)];
  }

  lemma TwoSegments(g1: Group, g2: Group)
    ensures var a1 := Advance(START, g1);
            Accumulate([g1, g2], START) == [SegmentAt(a1, g1.count), SegmentAt(Advance(a1, g2), g2.count)]
  {
    assert [g1, g2][1..] == [g2] && [g2][1..] == [];
    var a1 := Advance(START, g1);
    assert Accumulate([g2], a1) == [SegmentAt(Advance(a1, g2), g2.count)];
  }

  lemma TwoOnLineZero(a: Segment, b: Segment, column: int)
    requires a.line == b.line == 0
    ensures Best(LineRows([a, b], 0), column, None) == Better(Better(None, a.row, column), b.row, column)
  {
    assert [a, b][1..] == [b] && [b][1..] == [];
    assert LineRows([b], 0) == [b.row];
    assert LineRows([a, b], 0) == [a.row, b.row];
    assert [a.row, b.row][1..] == [b.row] && [b.row][1..] == [];
    assert Best([b.row], column, Better(None, a.row, column)) == Better(Better(None, a.row, column), b.row, column);
  }
}
