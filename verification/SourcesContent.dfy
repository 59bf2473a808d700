/**
 * Which source contents a stored map keeps (packages/otlp-ingester/src/source-maps.ts and its copy in
 * packages/runtime-cli/src/upload.ts): smallest first while the JSON fits, and stored again unchanged.
 */
module SourcesContent {
  import opened Wrappers
  import opened Sorting

  /** UTF-8 bytes around the entries, and of an entry that is `null`. */
  const WRAPPER_BYTES := 20
  const NULL_BYTES := 4

  /**
   * A parsed map. `None` stands for a field that is no array and for an entry that is no string; `ignored`
   * holds the integers of both ignore lists, `others` every other field.
   */
  datatype SourceMap = SourceMap(
    sources: Option<seq<Option<string>>>, ignored: set<int>, others: string, contents: Option<seq<Option<string>>>)

  /** What is computed elsewhere: JSON sizes in bytes, and the in-app rule both copies share. */
  datatype Env = Env(baseBytes: SourceMap -> nat, bytes: string -> nat, inApp: string -> bool)

  /** The map without its contents. */
  function Base(m: SourceMap): SourceMap {
    m.(contents := None)
  }

  datatype Candidate = Candidate(index: nat, content: string, bytes: int)

  function Sources(m: SourceMap): seq<Option<string>> {
    if m.sources.Some? then m.sources.value else []
  }

  function ContentAt(m: SourceMap, i: nat): Option<string> {
    if m.contents.Some? && i < |m.contents.value| then m.contents.value[i] else None
  }

  predicate IsCandidate(env: Env, m: SourceMap, i: nat) {
    i < |Sources(m)| && Sources(m)[i].Some? && ContentAt(m, i).Some?
    && i !in m.ignored && env.inApp(Sources(m)[i].value)
  }

  /** The candidates among the first `n` sources. */
  function Candidates(env: Env, m: SourceMap, n: nat): (r: seq<Candidate>)
    ensures forall x :: x in r <==> x.index < n && IsCandidate(env, m, x.index)
                                    && x == Candidate(x.index, ContentAt(m, x.index).value, env.bytes(ContentAt(m, x.index).value))
  {
    if n == 0 then []
    else
      Candidates(env, m, n - 1)
      + if IsCandidate(env, m, n - 1)
        then [Candidate(n - 1, ContentAt(m, n - 1).value, env.bytes(ContentAt(m, n - 1).value))] else []
  }

  predicate Smaller(x: Candidate, y: Candidate) {
    x.bytes < y.bytes || (x.bytes == y.bytes && x.index <= y.index)
  }

  function BySize(cs: seq<Candidate>): (r: seq<Candidate>)
    ensures |r| == |cs|
  {
    StableSort(cs, (x, y) => Smaller(x, y))
  }

  function Extra(c: Candidate): int {
    c.bytes - NULL_BYTES
  }

  /** How many of the candidates, from `k` on, fit in `remaining` one after the other. */
  function Fitting(cs: seq<Candidate>, remaining: int): (n: nat)
    ensures n <= |cs|
  {
    if cs == [] || Extra(cs[0]) > remaining then 0 else 1 + Fitting(cs[1..], remaining - Extra(cs[0]))
  }

  function Blank(count: nat): (r: seq<Option<string>>)
    ensures |r| == count && forall i | 0 <= i < count :: r[i] == None
  {
    seq(count, i => None)
  }

  /** The first `n` candidates' contents in their places. */
  function Kept(cs: seq<Candidate>, n: nat, count: nat): (r: seq<Option<string>>)
    requires n <= |cs| && forall c <- cs :: c.index < count
    ensures |r| == count
  {
    if n == 0 then Blank(count) else Kept(cs, n - 1, count)[cs[n - 1].index := Some(cs[n - 1].content)]
  }

  function Remaining(env: Env, m: SourceMap, limit: int): int {
    var count := |Sources(m)|;
    limit - env.baseBytes(Base(m)) - WRAPPER_BYTES - NULL_BYTES * count - (count - 1)
  }

  function Sorted(env: Env, m: SourceMap): (r: seq<Candidate>)
    ensures forall x :: x in r <==> x in Candidates(env, m, |Sources(m)|)
  {
    SortMembers(Candidates(env, m, |Sources(m)|), (x, y) => Smaller(x, y));
    BySize(Candidates(env, m, |Sources(m)|))
  }

  /** `storedSourcesContent`. */
  function Stored(env: Env, m: SourceMap, limit: int): Option<seq<Option<string>>> {
    var count := |Sources(m)|;
    if m.sources.None? || m.contents.None? || count == 0 then None
    else
      var cs := Sorted(env, m);
      var n := Fitting(cs, Remaining(env, m, limit));
      if n == 0 then None else Some(Kept(cs, n, count))
  }

  /** `storedSourceMapJson`, as the map that is written. */
  function StoredMap(env: Env, m: SourceMap, limit: int): SourceMap {
    m.(contents := Stored(env, m, limit))
  }

  // ---------- the loops ----------

  method CollectCandidates(env: Env, m: SourceMap) returns (cs: seq<Candidate>)
    ensures cs == Candidates(env, m, |Sources(m)|)
  {
    cs := [];
    for index := 0 to |Sources(m)|
      invariant cs == Candidates(env, m, index)
    {
      if !IsCandidate(env, m, index) { continue; }
      var content := ContentAt(m, index).value;
      cs := cs + [Candidate(index, content, env.bytes(content))];
    }
  }

  /** `storedSourcesContent`. */
  method StoredSourcesContent(env: Env, m: SourceMap, limit: int) returns (r: Option<seq<Option<string>>>)
    ensures r == Stored(env, m, limit)
  {
    var count := |Sources(m)|;
    if m.sources.None? || m.contents.None? || count == 0 { return None; }
    var found := CollectCandidates(env, m);
    if found == [] { return None; }
    var cs := BySize(found);
    SortMembers(found, (x, y) => Smaller(x, y));
    var remaining := Remaining(env, m, limit);
    var kept := new Option<string>[count](_ => None);
    assert kept[..] == Blank(count);
    var n := FillKept(cs, remaining, kept);
    r := if n > 0 then Some(kept[..]) else None;
  }

  /** The greedy loop: keep whole contents while they fit. */
  method FillKept(cs: seq<Candidate>, limit: int, kept: array<Option<string>>) returns (n: nat)
    requires kept[..] == Blank(kept.Length) && forall c <- cs :: c.index < kept.Length
    modifies kept
    ensures n == Fitting(cs, limit) && kept[..] == Kept(cs, n, kept.Length)
  {
    var remaining := limit;
    n := 0;
    while n < |cs|
      invariant n <= |cs| && kept[..] == Kept(cs, n, kept.Length)
      invariant Fitting(cs, limit) == n + Fitting(cs[n..], remaining)
    {
      var extra := Extra(cs[n]);
      assert cs[n..][1..] == cs[n + 1..];
      if extra > remaining { break; }
      remaining := remaining - extra;
      assert cs[n] in cs;
      kept[cs[n].index] := Some(cs[n].content);
      n := n + 1;
    }
  }

  // ---------- sizes ----------

  /** The first `n` extras together. */
  function SumTo(cs: seq<Candidate>, n: nat): int
    requires n <= |cs|
  {
    if n == 0 then 0 else SumTo(cs, n - 1) + Extra(cs[n - 1])
  }

  lemma {:induction false} SumShift(cs: seq<Candidate>, n: nat)
    requires 1 <= n <= |cs|
    ensures SumTo(cs, n) == Extra(cs[0]) + SumTo(cs[1..], n - 1)
  {
    if n > 1 {
      SumShift(cs, n - 1);
      assert cs[n - 1] == cs[1..][n - 2];
    }
  }

  /** The loop stops at the first prefix that is too much, and every prefix it took fits. */
  lemma {:induction false} FittingIsPrefix(cs: seq<Candidate>, remaining: int)
    ensures var n := Fitting(cs, remaining);
            && (forall k | 1 <= k <= n :: SumTo(cs, k) <= remaining)
            && (n < |cs| ==> SumTo(cs, n + 1) > remaining)
  {
    var n := Fitting(cs, remaining);
    if cs != [] {
      SumShift(cs, 1);
      if Extra(cs[0]) <= remaining {
        FittingIsPrefix(cs[1..], remaining - Extra(cs[0]));
        forall k | 1 <= k <= n ensures SumTo(cs, k) <= remaining { SumShift(cs, k); }
        if n < |cs| { SumShift(cs, n + 1); }
      }
    }
  }

  /** Bytes of the entries of `sourcesContent`, commas apart. */
  function EntriesBytes(env: Env, contents: seq<Option<string>>): int {
    if contents == [] then 0
    else (if contents[0].Some? then env.bytes(contents[0].value) else NULL_BYTES) + EntriesBytes(env, contents[1..])
  }

  /** Bytes of the JSON of a map with these contents. */
  function JsonBytes(env: Env, m: SourceMap, contents: seq<Option<string>>): int {
    env.baseBytes(Base(m)) + WRAPPER_BYTES + (|contents| - 1) + EntriesBytes(env, contents)
  }

  lemma {:induction false} BlankBytes(env: Env, contents: seq<Option<string>>)
    requires forall i | 0 <= i < |contents| :: contents[i] == None
    ensures EntriesBytes(env, contents) == NULL_BYTES * |contents|
  {
    if contents != [] { BlankBytes(env, contents[1..]); }
  }

  lemma {:induction false} SetBytes(env: Env, contents: seq<Option<string>>, i: nat, content: string)
    requires i < |contents| && contents[i] == None
    ensures EntriesBytes(env, contents[i := Some(content)]) == EntriesBytes(env, contents) - NULL_BYTES + env.bytes(content)
  {
    var r := contents[i := Some(content)];
    if i == 0 {
      assert r[1..] == contents[1..];
    } else {
      assert r[1..] == contents[1..][i - 1 := Some(content)];
      SetBytes(env, contents[1..], i - 1, content);
    }
  }

  predicate DistinctIndexes(cs: seq<Candidate>) {
    forall i, j | 0 <= i < j < |cs| :: cs[i].index != cs[j].index
  }

  /** A place holds a content exactly when one of the first `n` candidates put it there. */
  lemma {:induction false} KeptAt(cs: seq<Candidate>, n: nat, count: nat, i: nat)
    requires n <= |cs| && (forall c <- cs :: c.index < count) && DistinctIndexes(cs) && i < count
    ensures Kept(cs, n, count)[i].Some? <==> exists k | 0 <= k < n :: cs[k].index == i
    ensures forall k | 0 <= k < n && cs[k].index == i :: Kept(cs, n, count)[i] == Some(cs[k].content)
  {
    if n > 0 { KeptAt(cs, n - 1, count, i); }
  }

  lemma {:induction false} KeptBytes(env: Env, cs: seq<Candidate>, n: nat, count: nat)
    requires n <= |cs| && (forall c <- cs :: c.index < count && c.bytes == env.bytes(c.content)) && DistinctIndexes(cs)
    ensures EntriesBytes(env, Kept(cs, n, count)) == NULL_BYTES * count + SumTo(cs, n)
  {
    if n == 0 {
      BlankBytes(env, Blank(count));
    } else {
      KeptBytes(env, cs, n - 1, count);
      var c := cs[n - 1];
      assert c in cs;
      KeptAt(cs, n - 1, count, c.index);
      SetBytes(env, Kept(cs, n - 1, count), c.index, c.content);
    }
  }
}
