/** Which contents are kept, exactly, stated of the map itself and of the bytes of its JSON. */
module SourcesContentExact {
  import opened Wrappers
  import opened Sorting
  import opened SourcesContent
  import opened SourcesContentTheorems

  /** Source `i` is one of the app's own files, not ignored, and has a content. */
  predicate Allowed(env: Env, m: SourceMap, i: nat) {
    && m.sources.Some? && i < |m.sources.value| && m.sources.value[i].Some?
    && m.contents.Some? && i < |m.contents.value| && m.contents.value[i].Some?
    && i !in m.ignored && env.inApp(m.sources.value[i].value)
  }

  function SizeOf(env: Env, m: SourceMap, i: nat): nat
    requires Allowed(env, m, i)
  {
    env.bytes(m.contents.value[i].value)
  }

  /** Content `i` is before content `j`: it is smaller in the JSON, or as small and of an earlier source. */
  predicate Before(env: Env, m: SourceMap, i: nat, j: nat)
    requires Allowed(env, m, i) && Allowed(env, m, j)
  {
    SizeOf(env, m, i) < SizeOf(env, m, j) || (SizeOf(env, m, i) == SizeOf(env, m, j) && i < j)
  }

  /** Whether `stored` is the map's contents with all but some allowed ones left out. */
  predicate Chosen(env: Env, m: SourceMap, stored: seq<Option<string>>) {
    && m.sources.Some? && |stored| == |m.sources.value|
    && forall i | 0 <= i < |stored| && stored[i].Some? :: Allowed(env, m, i) && stored[i] == m.contents.value[i]
  }

  /** The smallest are kept, and one more of the others would be too much. */
  ghost predicate Greedy(env: Env, m: SourceMap, limit: int, stored: seq<Option<string>>)
    requires Chosen(env, m, stored)
  {
    && (forall i, j | 0 <= i < |stored| && 0 <= j < |stored| && stored[i].Some? && stored[j].None? && Allowed(env, m, j) ::
          Before(env, m, i, j))
    && (forall j | 0 <= j < |stored| && stored[j].None? && Allowed(env, m, j) ::
          JsonBytes(env, m, stored[j := m.contents.value[j]]) > limit)
  }

  /** Where candidate `k` stands, and that every allowed content is one. */
  lemma CandidateOf(env: Env, m: SourceMap, j: nat) returns (k: nat)
    requires Allowed(env, m, j)
    ensures k < |Sorted(env, m)| && Sorted(env, m)[k].index == j && Sorted(env, m)[k].bytes == SizeOf(env, m, j)
  {
    var x := Candidate(j, m.contents.value[j].value, SizeOf(env, m, j));
    assert x in Candidates(env, m, |Sources(m)|);
    assert x in Sorted(env, m);
    k :| 0 <= k < |Sorted(env, m)| && Sorted(env, m)[k] == x;
  }

  lemma CandidateIsAllowed(env: Env, m: SourceMap, k: nat)
    requires k < |Sorted(env, m)|
    ensures var c := Sorted(env, m)[k];
            Allowed(env, m, c.index) && Some(c.content) == m.contents.value[c.index] && c.bytes == SizeOf(env, m, c.index)
  {
    assert Sorted(env, m)[k] in Sorted(env, m);
  }

  /** The first `n` contents in order, as a choice. */
  lemma PrefixChosen(env: Env, m: SourceMap, n: nat)
    requires m.sources.Some? && n <= |Sorted(env, m)|
    ensures forall c <- Sorted(env, m) :: c.index < |Sources(m)|
    ensures Chosen(env, m, Kept(Sorted(env, m), n, |Sources(m)|))
  {
    var cs, count := Sorted(env, m), |Sources(m)|;
    SortedInOrder(env, m);
    forall i | 0 <= i < count && Kept(cs, n, count)[i].Some?
      ensures Allowed(env, m, i) && Kept(cs, n, count)[i] == m.contents.value[i]
    {
      KeptAt(cs, n, count, i);
      var k :| 0 <= k < n && cs[k].index == i;
      CandidateIsAllowed(env, m, k);
    }
  }

  lemma PrefixBefore(env: Env, m: SourceMap, n: nat, i: nat, j: nat)
    requires n <= |Sorted(env, m)| && i < |Sources(m)| && Allowed(env, m, j)
    requires Chosen(env, m, Kept(Sorted(env, m), n, |Sources(m)|))
    requires Kept(Sorted(env, m), n, |Sources(m)|)[i].Some? && Kept(Sorted(env, m), n, |Sources(m)|)[j].None?
    ensures Before(env, m, i, j)
  {
    var cs, count := Sorted(env, m), |Sources(m)|;
    SortedInOrder(env, m);
    KeptAt(cs, n, count, i);
    KeptAt(cs, n, count, j);
    var k :| 0 <= k < n && cs[k].index == i;
    var l := CandidateOf(env, m, j);
    CandidateIsAllowed(env, m, k);
    assert Smaller(cs[k], cs[l]);
  }

  lemma OneMoreIsTooMuch(env: Env, m: SourceMap, limit: int, n: nat, j: nat)
    requires m.sources.Some? && n == Fitting(Sorted(env, m), Remaining(env, m, limit)) && Allowed(env, m, j)
    requires Chosen(env, m, Kept(Sorted(env, m), n, |Sources(m)|))
    requires Kept(Sorted(env, m), n, |Sources(m)|)[j].None?
    ensures JsonBytes(env, m, Kept(Sorted(env, m), n, |Sources(m)|)[j := m.contents.value[j]]) > limit
  {
    var cs, count := Sorted(env, m), |Sources(m)|;
    SortedInOrder(env, m);
    CandidateBytes(env, m);
    KeptAt(cs, n, count, j);
    var l := CandidateOf(env, m, j);
    FittingIsPrefix(cs, Remaining(env, m, limit));
    KeptBytes(env, cs, n, count);
    SetBytes(env, Kept(cs, n, count), j, m.contents.value[j].value);
    NotSmaller(cs, n, l);
  }

  /** A later candidate adds no less. */
  lemma NotSmaller(cs: seq<Candidate>, n: nat, l: nat)
    requires InSizeOrder(cs) && n <= l < |cs|
    ensures Extra(cs[n]) <= Extra(cs[l])
  {
    if n < l { assert Smaller(cs[n], cs[l]); }
  }

  /**
   * What is stored: the smallest allowed contents, ties in source order, as they were and each in its place; the map
   * with them fits the limit, and with any other allowed content it would not. The field is left out exactly when
   * nothing is kept, or when either list is missing or there is no source.
   */
  lemma StoredExactly(env: Env, m: SourceMap, limit: int)
    ensures m.sources.None? || m.contents.None? || m.sources.value == [] ==> Stored(env, m, limit) == None
    ensures m.sources.Some? && m.contents.Some? && m.sources.value != [] ==>
              var r := Stored(env, m, limit);
              var stored := if r.Some? then r.value else seq(|m.sources.value|, i => None);
              && Chosen(env, m, stored) && Greedy(env, m, limit, stored)
              && (r.Some? ==> JsonBytes(env, m, stored) <= limit && exists i | 0 <= i < |stored| :: stored[i].Some?)
  {
    if m.sources.Some? && m.contents.Some? && m.sources.value != [] {
      var cs, count := Sorted(env, m), |Sources(m)|;
      var n := Fitting(cs, Remaining(env, m, limit));
      PrefixChosen(env, m, n);
      var stored := Kept(cs, n, count);
      assert n == 0 ==> stored == seq(|m.sources.value|, i => None);
      forall i, j | 0 <= i < count && 0 <= j < count && stored[i].Some? && stored[j].None? && Allowed(env, m, j)
        ensures Before(env, m, i, j)
      {
        PrefixBefore(env, m, n, i, j);
      }
      forall j | 0 <= j < count && stored[j].None? && Allowed(env, m, j)
        ensures JsonBytes(env, m, stored[j := m.contents.value[j]]) > limit
      {
        OneMoreIsTooMuch(env, m, limit, n, j);
      }
      if n > 0 {
        FitsTheLimit(env, m, limit);
        SortedInOrder(env, m);
        assert cs[0] in cs;
        KeptAt(cs, n, count, cs[0].index);
      }
    }
  }

  /** The bytes counted around the entries, and of an entry that is left out, are those of their JSON. */
  lemma CountedBytes()
    ensures WRAPPER_BYTES == |",\"sourcesContent\":[]"| && NULL_BYTES == |"null"|
  {}
}
