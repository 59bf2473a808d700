/**
 * What a `mappings` text means, field by field, stated without the decoder ("Mappings structure" in ECMA-426;
 * packages/otlp-ingester/src/source-map-mappings.ts): every field is the sum of the values written for it so far,
 * and a lookup is the segment of that line whose column is closest.
 */
module MappingMeaning {
  import opened Wrappers
  import opened Vlq
  import opened Mappings

  /** The sum of value `field` over those of the first `n` groups that have at least `least` values. */
  function Total(groups: seq<Group>, n: nat, field: nat, least: nat): int
    requires n <= |groups|
  {
    if n == 0 then 0
    else
      var g := groups[n - 1];
      Total(groups, n - 1, field, least) + (if g.count >= least && field < |g.values| then g.values[field] else 0)
  }

  /** The sum of the first values over those of the first `n` groups that are on this line. */
  function ColumnTotal(groups: seq<Group>, n: nat, line: nat): int
    requires n <= |groups|
  {
    if n == 0 then 0
    else
      var g := groups[n - 1];
      ColumnTotal(groups, n - 1, line) + (if g.line == line && g.values != [] then g.values[0] else 0)
  }

  /** Groups come in line order, each with at least one value; the first six are kept. */
  predicate GroupsOk(groups: seq<Group>) {
    && (forall k | 0 <= k < |groups| :: groups[k].count >= 1 && |groups[k].values| == if groups[k].count <= 6 then groups[k].count else 6)
    && (forall j, k | 0 <= j < k < |groups| :: groups[j].line <= groups[k].line)
  }

  lemma {:induction false} TextGroupsOk(t: Text, line: nat)
    requires Groups(t, line).Success?
    ensures GroupsOk(Groups(t, line).value) && forall k | 0 <= k < |Groups(t, line).value| :: line <= Groups(t, line).value[k].line
    decreases |t|
  {
    if t != [] {
      if IsSeparator(t[0]) {
        TextGroupsOk(t[1..], if t[0] == SEMICOLON then line + 1 else line);
      } else {
        TextGroupsOk(ReadGroup(t).value.1, line);
      }
    }
  }

  /** No group from `n` on is on an earlier line, so a fresh line's sum is zero. */
  lemma {:induction false} FreshLine(groups: seq<Group>, n: nat, line: nat)
    requires n <= |groups| && forall j | 0 <= j < n :: groups[j].line < line
    ensures ColumnTotal(groups, n, line) == 0
  {
    if n > 0 { FreshLine(groups, n - 1, line); }
  }

  /** The running fields after the first `n` groups are those sums. */
  predicate Carries(groups: seq<Group>, n: nat, a: Carried)
    requires n <= |groups|
  {
    && a.currentLine == (if n == 0 then 0 else groups[n - 1].line)
    && a.column == ColumnTotal(groups, n, a.currentLine)
    && a.source == Total(groups, n, 1, 4) && a.originalLine == Total(groups, n, 2, 4)
    && a.originalColumn == Total(groups, n, 3, 4) && a.name == Total(groups, n, 4, 5)
  }

  lemma CarriesOn(groups: seq<Group>, n: nat, a: Carried)
    requires GroupsOk(groups) && n < |groups| && Carries(groups, n, a)
    ensures Carries(groups, n + 1, Advance(a, groups[n]))
  {
    if groups[n].line != a.currentLine {
      forall j | 0 <= j < n ensures groups[j].line < groups[n].line {
        assert n > 0 ==> groups[n - 1].line <= groups[n].line && groups[j].line <= groups[n - 1].line;
      }
      FreshLine(groups, n, groups[n].line);
    }
  }

  /** The fields of segment `k`, as the text's groups give them. */
  predicate FieldsAt(groups: seq<Group>, k: nat, s: Segment)
    requires k < |groups|
  {
    var g := groups[k];
    && s.line == g.line
    && s.row.column == ColumnTotal(groups, k + 1, g.line)
    && s.row.source == (if g.count >= 4 then Total(groups, k + 1, 1, 4) else -1)
    && s.row.originalLine == Total(groups, k + 1, 2, 4)
    && s.row.originalColumn == Total(groups, k + 1, 3, 4)
    && s.row.name == (if g.count >= 5 then Total(groups, k + 1, 4, 5) else -1)
  }

  predicate FieldsFrom(groups: seq<Group>, n: nat, k: nat, s: Segment) {
    n + k < |groups| && FieldsAt(groups, n + k, s)
  }

  predicate AllFields(groups: seq<Group>, n: nat, all: seq<Segment>) {
    forall k | 0 <= k < |all| :: FieldsFrom(groups, n, k, all[k])
  }

  lemma {:induction false} AccumulatedFields(groups: seq<Group>, n: nat, a: Carried)
    requires GroupsOk(groups) && n <= |groups| && Carries(groups, n, a)
    ensures AllFields(groups, n, Accumulate(groups[n..], a))
    decreases |groups| - n
  {
    if n < |groups| {
      var next := Advance(a, groups[n]);
      CarriesOn(groups, n, a);
      AccumulatedFields(groups, n + 1, next);
      assert groups[n..][1..] == groups[n + 1..];
      var all, rest := Accumulate(groups[n..], a), Accumulate(groups[n + 1..], next);
      assert all == [SegmentAt(next, groups[n].count)] + rest && AllFields(groups, n + 1, rest);
      forall k | 0 <= k < |all| ensures FieldsFrom(groups, n, k, all[k]) {
        if k > 0 { assert all[k] == rest[k - 1] && FieldsFrom(groups, n + 1, k - 1, rest[k - 1]); }
      }
    }
  }

  /**
   * The segments of a text, field by field: the column is the sum of the first values on its line; the original line,
   * the original column and the source are the sums of the third, fourth and second values of the segments that have
   * them so far, and the name that of the fifth values. Without a source or a name the segment has -1.
   */
  lemma SegmentFields(t: Text)
    requires Groups(t, 0).Success?
    ensures Segments(t).Success? && |Segments(t).value| == |Groups(t, 0).value|
    ensures forall k | 0 <= k < |Segments(t).value| :: FieldsAt(Groups(t, 0).value, k, Segments(t).value[k])
  {
    var groups := Groups(t, 0).value;
    TextGroupsOk(t, 0);
    AccumulatedFields(groups, 0, START);
    assert groups[0..] == groups;
    var all := Segments(t).value;
    assert AllFields(groups, 0, all);
    forall k | 0 <= k < |all| ensures FieldsAt(groups, k, all[k]) { assert FieldsFrom(groups, 0, k, all[k]); }
  }

  // ---------- lookup ----------

  /** Segment `i` is the one a position means: closest before it, the first one at the position itself, else the last. */
  predicate IsClosest(segments: seq<Segment>, line: int, column: int, i: nat) {
    && i < |segments| && segments[i].line == line && segments[i].row.column <= column
    && (forall j | 0 <= j < |segments| && segments[j].line == line && segments[j].row.column <= column ::
          segments[j].row.column <= segments[i].row.column)
    && (if segments[i].row.column == column
        then forall j | 0 <= j < i :: segments[j].line == line ==> segments[j].row.column != column
        else forall j | i < j < |segments| :: segments[j].line == line ==> segments[j].row.column != segments[i].row.column)
  }

  /** Where the rows of a line stand among the first `n` segments. */
  function Places(segments: seq<Segment>, n: nat, line: int): seq<nat>
    requires n <= |segments|
  {
    if n == 0 then []
    else Places(segments, n - 1, line) + (if segments[n - 1].line == line then [n - 1] else [])
  }

  ghost predicate PlacesOk(segments: seq<Segment>, n: nat, line: int, places: seq<nat>, rows: seq<Row>)
    requires n <= |segments|
  {
    && |places| == |rows|
    && (forall k | 0 <= k < |places| :: places[k] < n && segments[places[k]] == Segment(segments[places[k]].line, rows[k])
                                        && segments[places[k]].line == line)
    && (forall j, k | 0 <= j < k < |places| :: places[j] < places[k])
    && (forall i | 0 <= i < n && segments[i].line == line :: i in places)
  }

  lemma {:induction false} PlacesAreOk(segments: seq<Segment>, n: nat, line: int)
    requires n <= |segments|
    ensures PlacesOk(segments, n, line, Places(segments, n, line), LineRows(segments[..n], line))
  {
    if n > 0 {
      PlacesAreOk(segments, n - 1, line);
      assert segments[..n] == segments[..n - 1] + [segments[n - 1]];
      LineRowsAppend(segments[..n - 1], segments[n - 1], line);
    }
  }

  lemma ClosestRow(segments: seq<Segment>, line: int, column: int, places: seq<nat>, rows: seq<Row>, k: nat)
    requires PlacesOk(segments, |segments|, line, places, rows) && k < |places|
    requires IsGreatestLowerBound(rows, column, k)
    ensures IsClosest(segments, line, column, places[k])
  {
    forall j: nat | j < |segments| && segments[j].line == line
      ensures exists l :: 0 <= l < |places| && places[l] == j && rows[l] == segments[j].row
    {
      assert j in places;
    }
  }

  /**
   * A lookup finds an original position exactly when the closest segment has a source, and then it is that segment's
   * source, original line, original column and name.
   */
  lemma LookupMeans(segments: seq<Segment>, line: int, column: int) returns (i: nat)
    ensures if Lookup(segments, line, column).None?
            then (forall j | 0 <= j < |segments| && segments[j].line == line :: segments[j].row.column > column)
                 || (IsClosest(segments, line, column, i) && segments[i].row.source == -1)
            else
              var found := Lookup(segments, line, column).value;
              && IsClosest(segments, line, column, i) && segments[i].row.source != -1
              && found.source == segments[i].row.source && found.line == segments[i].row.originalLine
              && found.column == segments[i].row.originalColumn && found.name == segments[i].row.name
  {
    var rows := LineRows(segments, line);
    var places := Places(segments, |segments|, line);
    PlacesAreOk(segments, |segments|, line);
    assert segments[..|segments|] == segments;
    var k := BestIsGreatestLowerBound(rows, column);
    i := 0;
    if Best(rows, column, None).Some? {
      i := places[k];
      ClosestRow(segments, line, column, places, rows, k);
    } else {
      forall j: nat | j < |segments| && segments[j].line == line ensures segments[j].row.column > column {
        assert j in places;
        var l :| 0 <= l < |places| && places[l] == j;
        assert rows[l] == segments[j].row;
      }
    }
  }

  // ---------- an example ----------

  /** `CEGIK;EDCDC`: two segments on two lines, with five different values each. */
  const EXAMPLE: Text := [67, 69, 71, 73, 75, 59, 69, 68, 67, 68, 67]

  /** The value of one of the characters `A` to `K` alone. */
  function LetterValue(c: CodeUnit): int {
    if c % 2 == 1 then (c - 65) / 2 else -((c - 65) / 2)
  }

  lemma OneLetter(c: CodeUnit, t: Text)
    requires 65 <= c <= 75
    ensures ReadVlq([c] + t) == Some((LetterValue(c), t))
  {
    assert DigitOf(c) == c - 65 && ([c] + t)[1..] == t;
    assert ReadDigits([c] + t, 0, 0) == Some((Shl(DigitOf(c) % 32, 0) % TWO_32, t));
  }

  predicate AreLetters(letters: Text, values: seq<int>) {
    |letters| == |values| && forall i | 0 <= i < |letters| :: 65 <= letters[i] <= 75 && values[i] == LetterValue(letters[i])
  }

  /** Such characters are one value each. */
  lemma {:induction false} LettersRead(letters: Text, values: seq<int>, rest: Text)
    requires AreLetters(letters, values) && (rest == [] || IsSeparator(rest[0]))
    ensures ReadGroup(letters + rest) == Some((values, rest))
    decreases |letters|
  {
    if letters == [] {
      assert letters + rest == rest;
    } else {
      OneLetter(letters[0], letters[1..] + rest);
      LettersRead(letters[1..], values[1..], rest);
      assert letters + rest == [letters[0]] + (letters[1..] + rest);
      assert values == [values[0]] + values[1..];
      hide ReadVlq;
    }
  }

  /** Up to six of them are one group. */
  lemma LettersGroup(letters: Text, values: seq<int>, rest: Text, line: nat)
    requires AreLetters(letters, values) && 1 <= |letters| <= 6 && (rest == [] || IsSeparator(rest[0]))
    ensures Groups(letters + rest, line) == Prepend([Group(line, values, |values|)], Groups(rest, line))
  {
    LettersRead(letters, values, rest);
    assert (letters + rest)[0] == letters[0];
    hide ReadGroup;
  }

  lemma NextLine(t: Text, line: nat)
    ensures Groups([SEMICOLON] + t, line) == Groups(t, line + 1)
  {
    assert ([SEMICOLON] + t)[1..] == t;
  }

  /** Two lines of one group each. */
  lemma TwoGroups(a: Text, first: seq<int>, b: Text, second: seq<int>)
    requires AreLetters(a, first) && AreLetters(b, second) && 1 <= |a| <= 6 && 1 <= |b| <= 6
    ensures Groups(a + ([SEMICOLON] + b), 0) == Success([Group(0, first, |first|), Group(1, second, |second|)])
  {
    assert Groups([], 1) == Success([]);
    assert ([SEMICOLON] + b)[0] == SEMICOLON;
    hide Groups, AreLetters;
    LettersGroup(b, second, [], 1);
    LettersGroup(a, first, [SEMICOLON] + b, 0);
    NextLine(b, 0);
    var one, two := Group(0, first, |first|), Group(1, second, |second|);
    assert b + [] == b && [two] + [] == [two] && [one] + [two] == [one, two];
  }

  lemma ExampleGroups()
    ensures Groups(EXAMPLE, 0) == Success([Group(0, [1, 2, 3, 4, 5], 5), Group(1, [2, -1, 1, -1, 1], 5)])
  {
    hide Groups;
    TwoGroups([67, 69, 71, 73, 75], [1, 2, 3, 4, 5], [69, 68, 67, 68, 67], [2, -1, 1, -1, 1]);
    assert EXAMPLE == [67, 69, 71, 73, 75] + ([SEMICOLON] + [69, 68, 67, 68, 67]);
  }

  /** The example's segments: the fields of the second continue those of the first, but for the column. */
  lemma ExampleSegments()
    ensures Segments(EXAMPLE) == Success([Segment(0, Row(1, 2, 3, 4, 5)), Segment(1, Row(2, 1, 4, 3, 6))])
  {
    hide Groups;
    ExampleGroups();
    ExampleFields(Group(0, [1, 2, 3, 4, 5], 5), Group(1, [2, -1, 1, -1, 1], 5));
  }

  lemma ExampleFields(first: Group, second: Group)
    requires first == Group(0, [1, 2, 3, 4, 5], 5) && second == Group(1, [2, -1, 1, -1, 1], 5)
    ensures Accumulate([first, second], START) == [Segment(0, Row(1, 2, 3, 4, 5)), Segment(1, Row(2, 1, 4, 3, 6))]
  {
    assert [first, second][1..] == [second] && [second][1..] == [];
    var a := Advance(START, first);
    assert Accumulate([second], a) == [SegmentAt(Advance(a, second), 5)] + Accumulate([], Advance(a, second));
  }

  lemma ExampleLookups(segments: seq<Segment>)
    requires segments == [Segment(0, Row(1, 2, 3, 4, 5)), Segment(1, Row(2, 1, 4, 3, 6))]
    ensures Lookup(segments, 0, 7) == Some(MappedSegment(2, 3, 4, 5))
    ensures Lookup(segments, 1, 2) == Some(MappedSegment(1, 4, 3, 6))
    ensures Lookup(segments, 1, 1) == None
  {
    LineStretch(segments, 0, 0, 1);
    LineStretch(segments, 1, 1, 2);
    assert LineRows(segments, 0) == [segments[0].row] && LineRows(segments, 1) == [segments[1].row];
    OneRow(segments[0].row, 7);
    OneRow(segments[1].row, 2);
    OneRow(segments[1].row, 1);
  }

  lemma OneRow(row: Row, target: int)
    ensures Best([row], target, None) == if row.column <= target then Some(row) else None
  {
    assert [row][1..] == [] && Best([], target, Better(None, row, target)) == Better(None, row, target);
  }
}
