/**
 * The nested-interval index over function scopes (packages/otlp-ingester/src/source-map-scopes.ts): which
 * fields it accepts, and which function it names a frame after.
 */
module ScopeIndex {
  import opened Wrappers
  import opened Vlq
  import opened Sorting
  import opened Scopes
  import Mappings

  const STRIDE := 6

  // ---------- what an index means ----------

  /** The (line, column) of `b` is not before that of `a`. */
  predicate NotAfter(lineA: int, colA: int, lineB: int, colB: int) {
    !Before(lineB, colB, lineA, colA)
  }

  /** `a` ends at or before the start of `b`. */
  predicate EndsBefore(a: Scope, b: Scope) {
    NotAfter(a.endLine, a.endCol, b.startLine, b.startCol)
  }

  /** `inner` lies within `outer`. */
  predicate Inside(inner: Scope, outer: Scope) {
    && NotAfter(outer.startLine, outer.startCol, inner.startLine, inner.startCol)
    && NotAfter(inner.endLine, inner.endCol, outer.endLine, outer.endCol)
  }

  /** Two scopes nest or do not overlap. */
  predicate Compatible(a: Scope, b: Scope) {
    EndsBefore(a, b) || EndsBefore(b, a) || Inside(a, b) || Inside(b, a)
  }

  /** Any two scopes nest or do not overlap. */
  predicate Laminar(scopes: seq<Scope>) {
    forall i, j | 0 <= i < j < |scopes| :: Compatible(scopes[i], scopes[j])
  }

  predicate Contains(s: Scope, line: int, column: int) {
    NotAfter(s.startLine, s.startCol, line, column) && Before(line, column, s.endLine, s.endCol)
  }

  predicate NonEmpty(s: Scope) {
    Before(s.startLine, s.startCol, s.endLine, s.endCol)
  }

  /** The last scope that contains the position. */
  function Innermost(scopes: seq<Scope>, line: int, column: int): (r: Option<nat>)
    ensures r.Some? ==> r.value < |scopes| && Contains(scopes[r.value], line, column)
    ensures forall j | (if r.Some? then r.value + 1 else 0) <= j < |scopes| :: !Contains(scopes[j], line, column)
  {
    if scopes == [] then None
    else
      var n := |scopes| - 1;
      if Contains(scopes[n], line, column) then Some(n) else Innermost(scopes[..n], line, column)
  }

  /** Start order, outer first on a tie. */
  predicate StartOrder(a: Scope, b: Scope) {
    if a.startLine != b.startLine then a.startLine < b.startLine
    else if a.startCol != b.startCol then a.startCol < b.startCol
    else if a.endLine != b.endLine then a.endLine > b.endLine
    else a.endCol >= b.endCol
  }

  const ByStart := (a: Scope, b: Scope) => StartOrder(a, b)

  lemma StartsPreorder()
    ensures TotalPreorder(ByStart)
  {}

  /** In start order, the last scope containing a position lies inside every other one containing it. */
  lemma InnermostIsInside(scopes: seq<Scope>, line: int, column: int, k: nat)
    requires Ordered(scopes, ByStart) && Laminar(scopes)
    requires k < |scopes| && Contains(scopes[k], line, column)
    requires Innermost(scopes, line, column).Some?
    ensures Inside(scopes[Innermost(scopes, line, column).value], scopes[k])
  {}

  // ---------- nesting, scope by scope ----------

  /** What the index records of the scopes before `n`: the closest enclosing scope of each, or -1. */
  ghost predicate ParentOk(scopes: seq<Scope>, i: nat, parent: int)
    requires i < |scopes|
  {
    && -1 <= parent < i
    && (parent >= 0 ==> Inside(scopes[i], scopes[parent]) && !EndsBefore(scopes[parent], scopes[i]))
    && (forall j | parent < j < i :: EndsBefore(scopes[j], scopes[i]))
  }

  /** The scopes still open before scope `n`, outermost first: each encloses the next; the others have ended. */
  ghost predicate OpenOk(scopes: seq<Scope>, open: seq<nat>, n: nat, start: Scope)
    requires n <= |scopes|
  {
    && (forall a | 0 <= a < |open| :: open[a] < n)
    && (forall a, b | 0 <= a < b < |open| :: open[a] < open[b] && Inside(scopes[open[b]], scopes[open[a]]))
    && (forall j | 0 <= j < n && j !in open :: EndsBefore(scopes[j], start))
  }

  lemma StillEnded(scopes: seq<Scope>, open: seq<nat>, n: nat)
    requires n < |scopes| && Ordered(scopes, ByStart) && n > 0
    requires OpenOk(scopes, open, n, scopes[n - 1])
    ensures OpenOk(scopes, open, n, scopes[n])
  {}

  /** Scopes ended by scope `n` are closed from the innermost on. */
  lemma PopOk(scopes: seq<Scope>, open: seq<nat>, n: nat)
    requires n < |scopes| && open != [] && OpenOk(scopes, open, n, scopes[n])
    requires EndsBefore(scopes[open[|open| - 1]], scopes[n])
    ensures OpenOk(scopes, open[..|open| - 1], n, scopes[n])
  {}

  /** A scope within the innermost open one is within every open one. */
  lemma InsideAll(scopes: seq<Scope>, open: seq<nat>, n: nat)
    requires n < |scopes| && OpenOk(scopes, open, n, scopes[n])
    requires open != [] ==> Inside(scopes[n], scopes[open[|open| - 1]])
    ensures forall a | 0 <= a < |open| :: Inside(scopes[n], scopes[open[a]])
  {}

  /** The innermost open scope is the closest enclosing one, and nothing else before overlaps. */
  lemma PushOk(scopes: seq<Scope>, open: seq<nat>, n: nat)
    requires n < |scopes| && Ordered(scopes, ByStart)
    requires OpenOk(scopes, open, n, scopes[n])
    requires open != [] ==> !EndsBefore(scopes[open[|open| - 1]], scopes[n])
    requires open != [] ==> NotAfter(scopes[n].endLine, scopes[n].endCol,
                                     scopes[open[|open| - 1]].endLine, scopes[open[|open| - 1]].endCol)
    ensures ParentOk(scopes, n, if open == [] then -1 else open[|open| - 1])
    ensures OpenOk(scopes, open + [n], n + 1, scopes[n])
    ensures forall j | 0 <= j < n :: Compatible(scopes[j], scopes[n])
  {
    if open != [] { assert ByStart(scopes[open[|open| - 1]], scopes[n]); }
    InsideAll(scopes, open, n);
    forall j | 0 <= j < n ensures Compatible(scopes[j], scopes[n]) {
      if j in open {
        var a :| 0 <= a < |open| && open[a] == j;
        assert Inside(scopes[n], scopes[open[a]]);
      }
    }
    PushOpen(scopes, open, n);
  }

  lemma PushOpen(scopes: seq<Scope>, open: seq<nat>, n: nat)
    requires n < |scopes| && OpenOk(scopes, open, n, scopes[n])
    requires forall a | 0 <= a < |open| :: Inside(scopes[n], scopes[open[a]])
    ensures OpenOk(scopes, open + [n], n + 1, scopes[n])
    ensures forall j | (if open == [] then -1 else open[|open| - 1]) < j < n :: EndsBefore(scopes[j], scopes[n])
  {}

  /** Two scopes that overlap without nesting: the field is refused. */
  lemma Overlapping(scopes: seq<Scope>, top: nat, n: nat)
    requires top < n < |scopes| && Ordered(scopes, ByStart) && NonEmpty(scopes[n])
    requires !EndsBefore(scopes[top], scopes[n])
    requires Before(scopes[top].endLine, scopes[top].endCol, scopes[n].endLine, scopes[n].endCol)
    ensures !Laminar(scopes)
  {}

  /** Sorting does not change whether scopes nest. */
  lemma LaminarMembers(a: seq<Scope>, b: seq<Scope>)
    requires multiset(a) == multiset(b) && Laminar(a)
    ensures Laminar(b)
  {
    forall i, j | 0 <= i < j < |b| ensures Compatible(b[i], b[j]) {
      assert b[i] in multiset(b) && b[j] in multiset(b);
      var p :| 0 <= p < |a| && a[p] == b[i];
      var q :| 0 <= q < |a| && a[q] == b[j];
      if p == q {
        assert Compatible(b[i], b[i]);
      } else if p < q {
        assert Compatible(a[p], a[q]);
      } else {
        assert Compatible(a[q], a[p]);
      }
    }
  }

  // ---------- looking a position up ----------

  /** The scopes from `i` down the parent chain: the first that contains the position is the innermost. */
  lemma ChainStep(scopes: seq<Scope>, i: nat, parent: int, line: int, column: int)
    requires i < |scopes| && ParentOk(scopes, i, parent)
    requires NotAfter(scopes[i].startLine, scopes[i].startCol, line, column)
    requires !Contains(scopes[i], line, column)
    requires forall j | i < j < |scopes| :: !Contains(scopes[j], line, column)
    ensures forall j | parent < j < |scopes| :: !Contains(scopes[j], line, column)
    ensures parent >= 0 ==> NotAfter(scopes[parent].startLine, scopes[parent].startCol, line, column)
  {}

  lemma InnermostUnique(scopes: seq<Scope>, line: int, column: int, k: nat)
    requires k < |scopes| && Contains(scopes[k], line, column)
    requires forall j | k < j < |scopes| :: !Contains(scopes[j], line, column)
    ensures Innermost(scopes, line, column) == Some(k)
  {}

  // ---------- the index ----------

  /** A parsed JSON value; numbers the format uses are integers. */
  datatype Json = Missing | Null | Other | Num(n: int) | Str(text: Text) | Arr(items: seq<Json>) | Obj(fields: map<string, Json>)

  function Field(o: Json, key: string): Json
    requires o.Obj?
  {
    if key in o.fields then o.fields[key] else Missing
  }

  /** The field's parts, when it has the right shape. */
  function Shape(raw: Json): Option<(seq<Option<Text>>, Text)> {
    if !raw.Obj? then None
    else
      var version, names, scopes := Field(raw, "version"), Field(raw, "names"), Field(raw, "scopes");
      if version != Num(1) || !names.Arr? || !scopes.Str? then None
      else if exists i | 0 <= i < |names.items| :: !names.items[i].Str? && names.items[i] != Null then None
      else Some((ExtraNames(names.items), scopes.text))
  }

  function ExtraNames(items: seq<Json>): (r: seq<Option<Text>>)
    ensures |r| == |items|
  {
    seq(|items|, i requires 0 <= i < |items| => if items[i].Str? then Some(items[i].text) else None)
  }

  datatype ScopeName = Named(name: Text) | Anonymous | Unknown

  /** The name of a scope: the map's own, or the field's; `null` is unknown. */
  function NameOf(names: Names, index: int): ScopeName
    requires index == ANONYMOUS || IsName(names, index)
  {
    if index == ANONYMOUS then Anonymous
    else
      var name := if index < |names.map_| then names.map_[index] else names.extra[index - |names.map_|];
      if name.Some? then Named(name.value) else Unknown
  }

  function EntryAt(t: seq<int>, i: nat): (Scope, int)
    requires STRIDE * i + STRIDE <= |t|
  {
    var at := STRIDE * i;
    (Scope(t[at], t[at + 1], t[at + 2], t[at + 3], t[at + 4]), t[at + 5])
  }

  class Index {
    /** The scopes in start order, flattened, each followed by its parent. */
    const table: array<int>
    const names: Names

    constructor (table: array<int>, names: Names)
      ensures this.table == table && this.names == names
    {
      this.table := table;
      this.names := names;
    }

    /** The table of `scopes`, each with its closest enclosing scope. */
    ghost predicate Shows(scopes: seq<Scope>)
      reads table
    {
      && table.Length == STRIDE * |scopes|
      && Ordered(scopes, ByStart) && Laminar(scopes)
      && (forall i | 0 <= i < |scopes| :: ScopeOk(names, scopes[i]))
      && (forall i | 0 <= i < |scopes| ::
            EntryAt(table[..], i).0 == scopes[i] && ParentOk(scopes, i, EntryAt(table[..], i).1))
    }

    /** The last scope that starts at or before the position, by binary search; -1 when there is none. */
    method LastStarted(line: int, column: int, ghost scopes: seq<Scope>) returns (found: int)
      requires Shows(scopes)
      ensures -1 <= found < |scopes|
      ensures found >= 0 ==> NotAfter(scopes[found].startLine, scopes[found].startCol, line, column)
      ensures forall j | found < j < |scopes| :: Before(line, column, scopes[j].startLine, scopes[j].startCol)
    {
      hide Laminar;
      var lo, hi := 0, table.Length / STRIDE - 1;
      found := -1;
      while lo <= hi
        invariant 0 <= lo <= hi + 1 <= |scopes| && found == lo - 1
        invariant found >= 0 ==> NotAfter(scopes[found].startLine, scopes[found].startCol, line, column)
        invariant forall j | hi < j < |scopes| :: Before(line, column, scopes[j].startLine, scopes[j].startCol)
      {
        var mid := (lo + hi) / 2;
        assert EntryAt(table[..], mid).0 == scopes[mid];
        if Before(line, column, table[mid * STRIDE], table[mid * STRIDE + 1]) {
          forall j | mid <= j < |scopes| ensures Before(line, column, scopes[j].startLine, scopes[j].startCol) {
            if j > mid { assert ByStart(scopes[mid], scopes[j]); }
          }
          hi := mid - 1;
        } else {
          found := mid;
          lo := mid + 1;
        }
      }
    }

    method Entry(i: nat, ghost scopes: seq<Scope>) returns (s: Scope, parent: int)
      requires Shows(scopes) && i < |scopes|
      ensures s == scopes[i] && ScopeOk(names, s) && ParentOk(scopes, i, parent)
    {
      var at := i * STRIDE;
      s := Scope(table[at], table[at + 1], table[at + 2], table[at + 3], table[at + 4]);
      parent := table[at + 5];
      assert EntryAt(table[..], i) == (s, parent);
    }

    /** `nameAt`: the name of the innermost function containing the position. */
    method NameAt(line: int, column: int, ghost scopes: seq<Scope>) returns (r: ScopeName)
      requires Shows(scopes)
      ensures var inner := Innermost(scopes, line, column);
              r == if inner.None? then Anonymous else NameOf(names, scopes[inner.value].nameIndex)
    {
      var i := LastStarted(line, column, scopes);
      while i >= 0
        invariant -1 <= i < |scopes|
        invariant i >= 0 ==> NotAfter(scopes[i].startLine, scopes[i].startCol, line, column)
        invariant forall j | i < j < |scopes| :: !Contains(scopes[j], line, column)
        decreases i
      {
        var s, parent := Entry(i, scopes);
        if Before(line, column, s.endLine, s.endCol) {
          InnermostUnique(scopes, line, column, i);
          return NameOf(names, s.nameIndex);
        }
        ChainStep(scopes, i, parent, line, column);
        i := parent;
      }
      r := Anonymous;
    }
  }

  /** What a field must be for the index to accept it. */
  predicate Acceptable(raw: Json, mapNames: seq<Option<Text>>) {
    var shape := Shape(raw);
    && shape.Some?
    && var rows := Decode(Names(mapNames, shape.value.0), shape.value.1);
       rows.Success? && Laminar(rows.value)
  }

  /** `ScopeIndex.from`: the index of the field's scopes, or null exactly when the field is not acceptable. */
  method From(raw: Json, mapNames: seq<Option<Text>>) returns (r: Index?)
    ensures r != null <==> Acceptable(raw, mapNames)
    ensures r != null ==>
              && fresh(r) && fresh(r.table)
              && r.names == Names(mapNames, Shape(raw).value.0)
              && r.Shows(StableSort(Decode(r.names, Shape(raw).value.1).value, ByStart))
  {
    var shape := Shape(raw);
    if shape.None? { return null; }
    var names := Names(mapNames, shape.value.0);
    var decoded := DecodeScopes(shape.value.1, names);
    if decoded.Failure? { return null; }
    var entries := StableSort(decoded.value, ByStart);
    StartsPreorder();
    SortOrders(decoded.value, ByStart);
    SortPermutes(decoded.value, ByStart);
    DecodedScopesOk(names, shape.value.1);
    SortMembers(decoded.value, ByStart);
    assert forall i | 0 <= i < |entries| :: entries[i] in entries && ScopeOk(names, entries[i]);
    var table := BuildTable(entries);
    if table == null {
      if Laminar(decoded.value) { LaminarMembers(decoded.value, entries); }
      return null;
    }
    LaminarMembers(entries, decoded.value);
    r := new Index(table, names);
  }

  lemma {:induction false} EncodableMembers(names: Names, scopes: seq<Scope>, line: int)
    requires Encodable(names, scopes, line)
    ensures forall s | s in scopes :: ScopeOk(names, s)
  {
    if scopes != [] { EncodableMembers(names, scopes[1..], scopes[0].startLine); }
  }

  lemma DecodedScopesOk(names: Names, text: Text)
    requires Decode(names, text).Success?
    ensures forall s | s in Decode(names, text).value :: ScopeOk(names, s)
  {
    Mappings.GroupsInOrder(text, 0);
    DecodedOk(names, Cursor(0, 0, 0), Groups(text, 0).value, 0);
    EncodableMembers(names, Decode(names, text).value, 0);
  }

  /** The first `n` scopes nest or do not overlap, and the table has them with their parents. */
  ghost predicate Filled(t: seq<int>, entries: seq<Scope>, n: nat)
    requires n <= |entries| && |t| == STRIDE * |entries|
  {
    && (forall a, b | 0 <= a < b < n :: Compatible(entries[a], entries[b]))
    && (forall k | 0 <= k < n :: EntryAt(t, k).0 == entries[k] && ParentOk(entries, k, EntryAt(t, k).1))
  }

  /** The table of sorted scopes and their parents, with an explicit stack; null when two overlap without nesting. */
  method BuildTable(entries: seq<Scope>) returns (table: array?<int>)
    requires Ordered(entries, ByStart) && forall i | 0 <= i < |entries| :: NonEmpty(entries[i])
    ensures table != null <==> Laminar(entries)
    ensures table != null ==>
              fresh(table) && table.Length == STRIDE * |entries| && Filled(table[..], entries, |entries|)
  {
    var t := new int[|entries| * STRIDE](_ => 0);
    var open: seq<nat> := [];
    var i := 0;
    while i < |entries|
      invariant 0 <= i <= |entries|
      invariant if i == 0 then open == [] else OpenOk(entries, open, i, entries[i - 1])
      invariant Filled(t[..], entries, i)
    {
      if i > 0 { StillEnded(entries, open, i); }
      var nested;
      open, nested := AddScope(t, entries, open, i);
      if !nested { return null; }
      i := i + 1;
    }
    table := t;
  }

  /** One scope: it nests in the innermost one still open, starts after it has ended, or is refused. */
  method AddScope(t: array<int>, entries: seq<Scope>, open: seq<nat>, i: nat) returns (open': seq<nat>, nested: bool)
    requires i < |entries| && t.Length == STRIDE * |entries| && Filled(t[..], entries, i)
    requires Ordered(entries, ByStart) && NonEmpty(entries[i]) && OpenOk(entries, open, i, entries[i])
    modifies t
    ensures nested ==> Filled(t[..], entries, i + 1) && OpenOk(entries, open', i + 1, entries[i])
    ensures !nested ==> !Laminar(entries)
  {
    open' := CloseEnded(entries, open, i);
    var parent := if open' != [] then open'[|open'| - 1] else -1;
    if parent >= 0 && Before(entries[parent].endLine, entries[parent].endCol, entries[i].endLine, entries[i].endCol) {
      Overlapping(entries, parent, i);
      return open', false;
    }
    PushOk(entries, open', i);
    AddEntry(t, entries, i, parent);
    open', nested := open' + [i], true;
  }

  method AddEntry(t: array<int>, entries: seq<Scope>, i: nat, parent: int)
    requires i < |entries| && t.Length == STRIDE * |entries| && Filled(t[..], entries, i)
    requires ParentOk(entries, i, parent) && forall j | 0 <= j < i :: Compatible(entries[j], entries[i])
    modifies t
    ensures Filled(t[..], entries, i + 1)
  {
    PutEntry(t, i, entries[i], parent);
  }

  /** Close the open scopes that have ended where scope `n` starts. */
  method CloseEnded(entries: seq<Scope>, open: seq<nat>, n: nat) returns (still: seq<nat>)
    requires n < |entries| && OpenOk(entries, open, n, entries[n])
    ensures OpenOk(entries, still, n, entries[n])
    ensures still != [] ==> !EndsBefore(entries[still[|still| - 1]], entries[n])
  {
    still := open;
    while still != []
      invariant OpenOk(entries, still, n, entries[n])
      decreases |still|
    {
      var top := entries[still[|still| - 1]];
      if Before(entries[n].startLine, entries[n].startCol, top.endLine, top.endCol) { break; }
      PopOk(entries, still, n);
      still := still[..|still| - 1];
    }
  }

  method PutEntry(t: array<int>, i: nat, s: Scope, parent: int)
    requires STRIDE * i + STRIDE <= t.Length
    modifies t
    ensures EntryAt(t[..], i) == (s, parent)
    ensures forall j: nat | STRIDE * j + STRIDE <= t.Length && j != i :: EntryAt(t[..], j) == EntryAt(old(t[..]), j)
  {
    var at := i * STRIDE;
    t[at] := s.startLine;
    t[at + 1] := s.startCol;
    t[at + 2] := s.endLine;
    t[at + 3] := s.endCol;
    t[at + 4] := s.nameIndex;
    t[at + 5] := parent;
  }
}
