/**
 * The `x_autter_scopes` format: encoded by the CLI (packages/runtime-cli/src/scopes.ts), decoded by the
 * ingester (packages/otlp-ingester/src/source-map-scopes.ts).
 */
module Scopes {
  import opened Wrappers
  import opened Vlq
  import opened Mappings

  const ANONYMOUS := -1
  const MAX_POSITION := 0x7fffffff

  datatype Scope = Scope(startLine: int, startCol: int, endLine: int, endCol: int, nameIndex: int)

  /** The map's own `names` (an entry that is no string is `None`), then the field's. */
  datatype Names = Names(map_: seq<Option<Text>>, extra: seq<Option<Text>>)

  predicate IsName(names: Names, index: int) {
    index >= 0 && if index < |names.map_| then names.map_[index].Some? else index - |names.map_| < |names.extra|
  }

  /** Positions in reading order: by line, then by column. */
  predicate Before(lineA: int, colA: int, lineB: int, colB: int) {
    lineA < lineB || (lineA == lineB && colA < colB)
  }

  // ---------- decoding ----------

  /** The values the decoder carries from scope to scope. */
  datatype Cursor = Cursor(line: int, startCol: int, name: int)

  /** One group, or failure when it is no well-formed scope. */
  function DecodeGroup(names: Names, at: Cursor, g: Group): (r: Result<(Scope, Cursor)>)
  {
    if g.count != 3 && g.count != 4 then Failure
    else
      var startCol := (if g.line != at.line then 0 else at.startCol) + ValueAt(g, 0);
      var endLine := g.line + ValueAt(g, 1);
      var endCol := if ValueAt(g, 1) == 0 then startCol + ValueAt(g, 2) else ValueAt(g, 2);
      var name := if g.count == 4 then at.name + ValueAt(g, 3) else at.name;
      if g.count == 4 && !IsName(names, name) then Failure
      else if startCol < 0 || ValueAt(g, 1) < 0 || endCol < 0 || endLine > MAX_POSITION
        || startCol > MAX_POSITION || endCol > MAX_POSITION then Failure
      else if !Before(g.line, startCol, endLine, endCol) then Failure
      else Success((Scope(g.line, startCol, endLine, endCol, if g.count == 4 then name else ANONYMOUS),
                    Cursor(g.line, startCol, name)))
  }

  function DecodeGroups(names: Names, at: Cursor, groups: seq<Group>): Result<seq<Scope>>
    decreases |groups|
  {
    if groups == [] then Success([])
    else
      var r := DecodeGroup(names, at, groups[0]);
      if r.Failure? then Failure
      else Prepend([r.value.0], DecodeGroups(names, r.value.1, groups[1..]))
  }

  /** The rows of a scopes text, or failure when anything in it is malformed. */
  function Decode(names: Names, text: Text): Result<seq<Scope>> {
    var groups := Groups(text, 0);
    if groups.Failure? then Failure else DecodeGroups(names, Cursor(0, 0, 0), groups.value)
  }

  /** `decodeScopes`. */
  method DecodeScopes(text: Text, names: Names) returns (r: Result<seq<Scope>>)
    ensures r == Decode(names, text)
  {
    var groups := ForEachVlqGroup(text);
    if groups.Failure? { return Failure; }
    var gs := groups.value;
    var rows: seq<Scope> := [];
    var currentLine, startCol, name := 0, 0, 0;
    var i := 0;
    PrependNone(DecodeGroups(names, Cursor(0, 0, 0), gs));
    while i < |gs|
      invariant 0 <= i <= |gs|
      invariant Prepend(rows, DecodeGroups(names, Cursor(currentLine, startCol, name), gs[i..])) ==
                DecodeGroups(names, Cursor(0, 0, 0), gs)
    {
      var g := gs[i];
      ghost var at := Cursor(currentLine, startCol, name);
      assert gs[i..][0] == g && gs[i..][1..] == gs[i + 1..];
      assert DecodeGroup(names, at, g).Failure? ==> DecodeGroups(names, at, gs[i..]).Failure?;
      if g.count != 3 && g.count != 4 { return Failure; }
      if g.line != currentLine {
        currentLine := g.line;
        startCol := 0;
      }
      startCol := startCol + ValueAt(g, 0);
      var endLine := g.line + ValueAt(g, 1);
      var endCol := if ValueAt(g, 1) == 0 then startCol + ValueAt(g, 2) else ValueAt(g, 2);
      var nameIndex := ANONYMOUS;
      if g.count == 4 {
        name := name + ValueAt(g, 3);
        if !IsName(names, name) { return Failure; }
        nameIndex := name;
      }
      if startCol < 0 || ValueAt(g, 1) < 0 || endCol < 0 || endLine > MAX_POSITION
        || startCol > MAX_POSITION || endCol > MAX_POSITION {
        return Failure;
      }
      if !Before(g.line, startCol, endLine, endCol) { return Failure; }
      var row := Scope(g.line, startCol, endLine, endCol, nameIndex);
      assert DecodeGroup(names, at, g) == Success((row, Cursor(currentLine, startCol, name)));
      PrependAll(rows, [row], DecodeGroups(names, Cursor(currentLine, startCol, name), gs[i + 1..]));
      rows := rows + [row];
      i := i + 1;
    }
    assert rows + [] == rows;
    r := Success(rows);
  }

  // ---------- encoding ----------

  /** What the decoder accepts: a non-empty range within bounds, anonymous or with a valid name. */
  predicate ScopeOk(names: Names, s: Scope) {
    && 0 <= s.startLine && 0 <= s.startCol <= MAX_POSITION && 0 <= s.endCol <= MAX_POSITION
    && s.endLine <= MAX_POSITION
    && Before(s.startLine, s.startCol, s.endLine, s.endCol)
    && (s.nameIndex == ANONYMOUS || IsName(names, s.nameIndex))
  }

  /** Well-formed scopes in line order, from a given line on. */
  predicate Encodable(names: Names, scopes: seq<Scope>, line: int) {
    scopes == [] ||
    (scopes[0].startLine >= line && ScopeOk(names, scopes[0]) && Encodable(names, scopes[1..], scopes[0].startLine))
  }

  /** The relative values of one scope. */
  function Values(s: Scope, previousStart: int, previousName: int): (v: seq<int>)
    ensures |v| == if s.nameIndex >= 0 then 4 else 3
  {
    [s.startCol - previousStart, s.endLine - s.startLine, if s.endLine == s.startLine then s.endCol - s.startCol else s.endCol]
    + (if s.nameIndex >= 0 then [s.nameIndex - previousName] else [])
  }

  function Semicolons(n: nat): (t: Text)
    ensures |t| == n && forall i | 0 <= i < n :: t[i] == SEMICOLON
  {
    seq(n, i => SEMICOLON)
  }

  /** What the encoder remembers of the text it wrote. */
  datatype Written = Written(line: int, previousStart: int, previousName: int, firstOnLine: bool)

  const NOTHING_WRITTEN := Written(0, 0, 0, true)

  /** What separates a scope from what was written before it. */
  function Separator(s: Scope, w: Written): Text {
    if s.startLine > w.line then Semicolons(s.startLine - w.line) else if w.firstOnLine then [] else [COMMA]
  }

  function ValuesAfter(s: Scope, w: Written): seq<int> {
    Values(s, if s.startLine > w.line then 0 else w.previousStart, w.previousName)
  }

  function After(s: Scope, w: Written): Written {
    Written(if s.startLine > w.line then s.startLine else w.line, s.startCol,
            if s.nameIndex >= 0 then s.nameIndex else w.previousName, false)
  }

  function EncodeFrom(scopes: seq<Scope>, w: Written): Text
    decreases |scopes|
  {
    if scopes == [] then []
    else
      Separator(scopes[0], w) + (EncodeAll(ValuesAfter(scopes[0], w)) + EncodeFrom(scopes[1..], After(scopes[0], w)))
  }

  /** `encodeScopes`. */
  method EncodeScopes(scopes: seq<Scope>) returns (out: Text)
    ensures out == EncodeFrom(scopes, NOTHING_WRITTEN)
  {
    out := [];
    var line, previousStart, previousName, firstOnLine := 0, 0, 0, true;
    var i := 0;
    while i < |scopes|
      invariant 0 <= i <= |scopes|
      invariant out + EncodeFrom(scopes[i..], Written(line, previousStart, previousName, firstOnLine)) ==
                EncodeFrom(scopes, NOTHING_WRITTEN)
    {
      var s := scopes[i];
      ghost var w := Written(line, previousStart, previousName, firstOnLine);
      assert scopes[i..][0] == s && scopes[i..][1..] == scopes[i + 1..];
      var part: Text := [];
      if s.startLine > line {
        part := Semicolons(s.startLine - line);
        line := s.startLine;
        previousStart := 0;
        firstOnLine := true;
      }
      if !firstOnLine { part := [COMMA]; }
      firstOnLine := false;
      var segment := EncodeSegment(Values(s, previousStart, previousName));
      previousStart := s.startCol;
      if s.nameIndex >= 0 { previousName := s.nameIndex; }
      assert part == Separator(s, w) && Written(line, previousStart, previousName, firstOnLine) == After(s, w);
      Regroup(out, part, segment, EncodeFrom(scopes[i + 1..], After(s, w)));
      out := out + part + segment;
      i := i + 1;
    }
    assert out + [] == out;
  }

  lemma Regroup(a: Text, b: Text, c: Text, d: Text)
    ensures a + (b + (c + d)) == a + b + c + d
  {}

  /** The values of one scope, each as VLQ. */
  method EncodeSegment(values: seq<int>) returns (out: Text)
    ensures out == EncodeAll(values)
  {
    out := [];
    var i := 0;
    while i < |values|
      invariant 0 <= i <= |values|
      invariant out + EncodeAll(values[i..]) == EncodeAll(values)
    {
      var digits := EncodeVlq(values[i]);
      assert values[i..][1..] == values[i + 1..];
      assert out + (digits + EncodeAll(values[i + 1..])) == (out + digits) + EncodeAll(values[i + 1..]);
      out := out + digits;
      i := i + 1;
    }
    assert out + [] == out;
  }

  // ---------- round trip ----------

  lemma {:induction false} SkipSemicolons(n: nat, t: Text, line: nat)
    ensures Groups(Semicolons(n) + t, line) == Groups(t, line + n)
  {
    if n == 0 {
      assert Semicolons(0) + t == t;
    } else {
      SkipSemicolons(n - 1, t, line + 1);
      assert (Semicolons(n) + t)[1..] == Semicolons(n - 1) + t;
    }
  }

  /** After the first scope, what follows starts with a separator. */
  lemma StartsWithSeparator(scopes: seq<Scope>, w: Written)
    requires !w.firstOnLine
    ensures var t := EncodeFrom(scopes, w); t == [] || IsSeparator(t[0])
  {}

  predicate WrittenOk(w: Written) {
    0 <= w.line && 0 <= w.previousStart <= MAX_POSITION && 0 <= w.previousName < TWO_31
  }

  lemma SmallValues(names: Names, s: Scope, w: Written)
    requires ScopeOk(names, s) && WrittenOk(w) && s.nameIndex < TWO_31
    ensures var v := ValuesAfter(s, w); forall i | 0 <= i < |v| :: -TWO_31 < v[i] < TWO_31
  {}

  /** The group the parser sees for the first scope of an encoding, and the rest. */
  lemma EncodedGroups(names: Names, scopes: seq<Scope>, w: Written)
    requires scopes != [] && Encodable(names, scopes, w.line) && WrittenOk(w) && scopes[0].nameIndex < TWO_31
    ensures var s, w' := scopes[0], After(scopes[0], w);
            && w'.line == s.startLine
            && Groups(EncodeFrom(scopes, w), w.line) ==
               Prepend([GroupOf(s.startLine, ValuesAfter(s, w))], Groups(EncodeFrom(scopes[1..], w'), s.startLine))
  {
    var s, w' := scopes[0], After(scopes[0], w);
    var rest := EncodeFrom(scopes[1..], w');
    var body := EncodeAll(ValuesAfter(s, w)) + rest;
    StartsWithSeparator(scopes[1..], w');
    SmallValues(names, s, w);
    GroupThenRest(ValuesAfter(s, w), rest, s.startLine);
    var t := EncodeFrom(scopes, w);
    if s.startLine > w.line {
      SkipSemicolons(s.startLine - w.line, body, w.line);
    } else if !w.firstOnLine {
      assert t[1..] == body;
    } else {
      assert t == body;
    }
  }

  lemma DecodeOne(names: Names, s: Scope, w: Written)
    requires ScopeOk(names, s) && s.startLine >= w.line
    ensures var w' := After(s, w);
            DecodeGroup(names, Cursor(w.line, w.previousStart, w.previousName), GroupOf(s.startLine, ValuesAfter(s, w)))
            == Success((s, Cursor(w'.line, w'.previousStart, w'.previousName)))
  {}

  lemma {:induction false} DecodeEncoded(names: Names, scopes: seq<Scope>, w: Written)
    requires Encodable(names, scopes, w.line) && WrittenOk(w)
    requires forall i :: IsName(names, i) ==> i < TWO_31
    ensures var groups := Groups(EncodeFrom(scopes, w), w.line);
            && groups.Success?
            && DecodeGroups(names, Cursor(w.line, w.previousStart, w.previousName), groups.value) == Success(scopes)
    decreases |scopes|
  {
    if scopes != [] {
      var s, w' := scopes[0], After(scopes[0], w);
      EncodedGroups(names, scopes, w);
      DecodeOne(names, s, w);
      DecodeEncoded(names, scopes[1..], w');
      var g := GroupOf(s.startLine, ValuesAfter(s, w));
      var rest := Groups(EncodeFrom(scopes[1..], w'), w'.line).value;
      assert ([g] + rest)[0] == g && ([g] + rest)[1..] == rest;
      assert [s] + scopes[1..] == scopes;
    }
  }

  lemma {:induction false} DecodedOk(names: Names, at: Cursor, groups: seq<Group>, line: int)
    requires DecodeGroups(names, at, groups).Success?
    requires forall i | 0 <= i < |groups| :: line <= groups[i].line
    requires forall i, j | 0 <= i < j < |groups| :: groups[i].line <= groups[j].line
    ensures Encodable(names, DecodeGroups(names, at, groups).value, line)
    decreases |groups|
  {
    if groups != [] {
      var r := DecodeGroup(names, at, groups[0]);
      DecodedOk(names, r.value.1, groups[1..], groups[0].line);
      var rest := DecodeGroups(names, r.value.1, groups[1..]).value;
      assert ([r.value.0] + rest)[1..] == rest;
    }
  }

  /**
   * Decoding what the CLI encodes gives the scopes back exactly when they are non-empty ranges within
   * bounds, in line order, anonymous or with a valid name. (Name indexes are array indexes, below 2^31.)
   */
  lemma RoundTrip(names: Names, scopes: seq<Scope>)
    requires forall i :: IsName(names, i) ==> i < TWO_31
    ensures Decode(names, EncodeFrom(scopes, NOTHING_WRITTEN)) == Success(scopes) <==> Encodable(names, scopes, 0)
  {
    var text := EncodeFrom(scopes, NOTHING_WRITTEN);
    if Encodable(names, scopes, 0) {
      DecodeEncoded(names, scopes, NOTHING_WRITTEN);
    }
    if Decode(names, text) == Success(scopes) {
      GroupsInOrder(text, 0);
      DecodedOk(names, Cursor(0, 0, 0), Groups(text, 0).value, 0);
    }
  }

  /** Any text the ingester accepts, re-encoded by the CLI's encoder, means the same scopes. */
  lemma Reencode(names: Names, text: Text)
    requires forall i :: IsName(names, i) ==> i < TWO_31
    requires Decode(names, text).Success?
    ensures Decode(names, EncodeFrom(Decode(names, text).value, NOTHING_WRITTEN)) == Decode(names, text)
  {
    GroupsInOrder(text, 0);
    DecodedOk(names, Cursor(0, 0, 0), Groups(text, 0).value, 0);
    RoundTrip(names, Decode(names, text).value);
  }
}
