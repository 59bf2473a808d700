/**
 * What a scopes text means, scope by scope, stated without the decoder (the format is described at the head of
 * packages/otlp-ingester/src/source-map-scopes.ts), and which name a position gets in a text written out.
 */
module ScopeMeaning {
  import opened Wrappers
  import opened Vlq
  import opened Sorting
  import opened Scopes
  import opened ScopeIndex
  import opened MappingMeaning

  function First(g: Group, i: nat): int {
    if i < |g.values| then g.values[i] else 0
  }

  /** Scope `k` of the text, from the sums of what is written. */
  function ScopeAt(groups: seq<Group>, k: nat): Scope
    requires k < |groups|
  {
    var g, start := groups[k], ColumnTotal(groups, k + 1, groups[k].line);
    Scope(g.line, start, g.line + First(g, 1),
          if First(g, 1) == 0 then start + First(g, 2) else First(g, 2),
          if g.count == 4 then Total(groups, k + 1, 3, 4) else -1)
  }

  /** Three or four values; a name that there is; within bounds, and not empty. */
  predicate AcceptedAt(names: Names, groups: seq<Group>, k: nat)
    requires k < |groups|
  {
    var g, s := groups[k], ScopeAt(groups, k);
    && (g.count == 3 || g.count == 4)
    && (g.count == 4 ==>
          && 0 <= s.nameIndex < |names.map_ + names.extra|
          && (s.nameIndex < |names.map_| ==> (names.map_ + names.extra)[s.nameIndex].Some?))
    && 0 <= s.startCol <= 0x7fff_ffff && 0 <= s.endCol <= 0x7fff_ffff && s.endLine <= 0x7fff_ffff
    && (s.startLine < s.endLine || (s.startLine == s.endLine && s.startCol < s.endCol))
  }

  /** The decoder's cursor after the first `n` groups. */
  predicate At(groups: seq<Group>, n: nat, at: Cursor)
    requires n <= |groups|
  {
    && at.line == (if n == 0 then 0 else groups[n - 1].line)
    && at.startCol == ColumnTotal(groups, n, at.line) && at.name == Total(groups, n, 3, 4)
  }

  lemma OneScope(names: Names, groups: seq<Group>, n: nat, at: Cursor)
    requires GroupsOk(groups) && n < |groups| && At(groups, n, at)
    ensures var r := DecodeGroup(names, at, groups[n]);
            && (r.Success? <==> AcceptedAt(names, groups, n))
            && (r.Success? ==> r.value.0 == ScopeAt(groups, n) && At(groups, n + 1, r.value.1))
  {
    var g := groups[n];
    if at.line != g.line {
      forall j | 0 <= j < n ensures groups[j].line < g.line {
        assert n > 0 ==> groups[n - 1].line <= g.line && groups[j].line <= groups[n - 1].line;
      }
      FreshLine(groups, n, g.line);
    }
  }

  predicate AcceptedFrom(names: Names, groups: seq<Group>, n: nat) {
    forall k | n <= k < |groups| :: AcceptedAt(names, groups, k)
  }

  function ScopesFrom(groups: seq<Group>, n: nat): (r: seq<Scope>)
    requires n <= |groups|
    ensures |r| == |groups| - n
    decreases |groups| - n
  {
    if n == |groups| then [] else [ScopeAt(groups, n)] + ScopesFrom(groups, n + 1)
  }

  lemma {:induction false} ScopesFromAt(groups: seq<Group>, n: nat, k: nat)
    requires n <= k < |groups|
    ensures ScopesFrom(groups, n)[k - n] == ScopeAt(groups, k)
    decreases k - n
  {
    if n < k { ScopesFromAt(groups, n + 1, k); }
  }

  lemma {:induction false} AllScopes(names: Names, groups: seq<Group>, n: nat, at: Cursor)
    requires GroupsOk(groups) && n <= |groups| && At(groups, n, at)
    ensures DecodeGroups(names, at, groups[n..])
         == if AcceptedFrom(names, groups, n) then Success(ScopesFrom(groups, n)) else Failure
    decreases |groups| - n
  {
    if n < |groups| {
      OneScope(names, groups, n, at);
      hide AcceptedAt, ScopeAt;
      assert groups[n..][0] == groups[n] && groups[n..][1..] == groups[n + 1..];
      var r := DecodeGroup(names, at, groups[n]);
      if r.Success? { AllScopes(names, groups, n + 1, r.value.1); }
    }
  }

  /**
   * A scopes text is accepted exactly when it is read as groups of values and each is acceptable; it then has one scope
   * for each group. The start column is the sum of the first values on its line, the end line is relative to the start
   * line, the end column to the start column when both are on one line, and the name is the sum of the fourth values.
   */
  lemma DecodeMeans(names: Names, text: Text)
    ensures Decode(names, text).Success? <==> Groups(text, 0).Success? && AcceptedFrom(names, Groups(text, 0).value, 0)
    ensures Decode(names, text).Success? ==>
              var rows, groups := Decode(names, text).value, Groups(text, 0).value;
              |rows| == |groups| && forall k | 0 <= k < |rows| :: rows[k] == ScopeAt(groups, k)
  {
    if Groups(text, 0).Success? {
      var groups := Groups(text, 0).value;
      TextGroupsOk(text, 0);
      assert groups[0..] == groups;
      AllScopes(names, groups, 0, Cursor(0, 0, 0));
      forall k | 0 <= k < |groups| ensures ScopesFrom(groups, 0)[k] == ScopeAt(groups, k) { ScopesFromAt(groups, 0, k); }
    }
  }

  /** Any JSON value that is an array of strings and nulls. */
  predicate IsNameList(value: Json) {
    value.Arr? && forall i | 0 <= i < |value.items| :: value.items[i].Str? || value.items[i].Null?
  }

  /**
   * A field has the right shape exactly when it is an object with version 1, a list of names and a text of scopes; a
   * null among the names is a name that is not known.
   */
  lemma FieldShape(raw: Json)
    ensures Shape(raw).Some? <==>
              && raw.Obj? && "version" in raw.fields && raw.fields["version"] == Num(1)
              && "names" in raw.fields && IsNameList(raw.fields["names"])
              && "scopes" in raw.fields && raw.fields["scopes"].Str?
    ensures Shape(raw).Some? ==>
              var (names, text) := Shape(raw).value;
              && text == raw.fields["scopes"].text && |names| == |raw.fields["names"].items|
              && forall i | 0 <= i < |names| ::
                   if raw.fields["names"].items[i].Str? then names[i] == Some(raw.fields["names"].items[i].text) else names[i] == None
  {}

  /** A name index counts through the map's own names and then the field's. */
  lemma NamesInOrder(names: Names, index: int, name: Text)
    requires index == -1 || IsName(names, index)
    ensures index >= 0 ==>
              && index < |names.map_ + names.extra|
              && (NameOf(names, index) == Named(name) <==> (names.map_ + names.extra)[index] == Some(name))
    ensures NameOf(names, index) == Unknown <==> index >= 0 && (names.map_ + names.extra)[index] == None
  {}

  // ---------- an example ----------

  /** `CEKA;GAI`: a named function over three lines, and an anonymous one on the second of them. */
  const EXAMPLE_SCOPES: Text := [67, 69, 75, 65, 59, 71, 65, 73]

  const OUTER := Scope(0, 1, 2, 5, 0)
  const INNER := Scope(1, 3, 1, 7, -1)

  lemma ExampleGroups()
    ensures Groups(EXAMPLE_SCOPES, 0) == Success([Group(0, [1, 2, 5, 0], 4), Group(1, [3, 0, 4], 3)])
  {
    hide Groups;
    TwoGroups([67, 69, 75, 65], [1, 2, 5, 0], [71, 65, 73], [3, 0, 4]);
    assert EXAMPLE_SCOPES == [67, 69, 75, 65] + ([SEMICOLON] + [71, 65, 73]);
  }

  lemma ExampleScopes(names: Names)
    requires names.map_ != [] && names.map_[0].Some?
    ensures Decode(names, EXAMPLE_SCOPES) == Success([OUTER, INNER])
  {
    hide Groups;
    ExampleGroups();
    DecodeMeans(names, EXAMPLE_SCOPES);
    var groups := [Group(0, [1, 2, 5, 0], 4), Group(1, [3, 0, 4], 3)];
    ExampleFields(names, groups);
    var rows := Decode(names, EXAMPLE_SCOPES).value;
    assert rows[0] == ScopeAt(groups, 0) && rows[1] == ScopeAt(groups, 1);
    assert rows == [rows[0], rows[1]];
  }

  lemma ExampleFields(names: Names, groups: seq<Group>)
    requires groups == [Group(0, [1, 2, 5, 0], 4), Group(1, [3, 0, 4], 3)]
    requires names.map_ != [] && names.map_[0].Some?
    ensures ScopeAt(groups, 0) == OUTER && ScopeAt(groups, 1) == INNER && AcceptedFrom(names, groups, 0)
  {
    assert ColumnTotal(groups, 1, 0) == ColumnTotal(groups, 0, 0) + 1;
    assert ColumnTotal(groups, 2, 1) == ColumnTotal(groups, 1, 1) + 3;
    assert ColumnTotal(groups, 1, 1) == ColumnTotal(groups, 0, 1);
    assert Total(groups, 1, 3, 4) == Total(groups, 0, 3, 4);
    assert AcceptedAt(names, groups, 0) && AcceptedAt(names, groups, 1);
  }

  /** A scope holds its start and not its end; the inner one wins. */
  lemma ExampleNames()
    ensures var scopes := [OUTER, INNER];
            && Innermost(scopes, 0, 0) == None && Innermost(scopes, 0, 1) == Some(0) && Innermost(scopes, 1, 2) == Some(0)
            && Innermost(scopes, 1, 3) == Some(1) && Innermost(scopes, 1, 6) == Some(1)
            && Innermost(scopes, 1, 7) == Some(0) && Innermost(scopes, 2, 4) == Some(0) && Innermost(scopes, 2, 5) == None
  {
    assert [OUTER, INNER][..1] == [OUTER] && [OUTER][..0] == [];
  }
}
