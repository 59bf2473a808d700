/**
 * What the trace pass puts out (packages/otlp-ingester/src/trace-dedupe.ts): one survivor for each group and
 * for each signal on its own, in batch order, every signal in exactly one of them unless rule 2 drops it.
 */
module TraceSurvivors {
  import opened Wrappers
  import opened Sorting
  import opened SpanTreeModel
  import opened TraceSignals
  import opened TraceGroups
  import opened TraceDedupe

  function Rank(b: Batch, i: nat): nat {
    (if At(b, i).autterCapture then 2 else 0) + (if At(b, i).nextContext then 1 else 0)
  }

  /** The recording with the most information first, then the outer span, then the batch order. */
  predicate Preferred(b: Batch, x: nat, y: nat) {
    Rank(b, x) > Rank(b, y)
    || (Rank(b, x) == Rank(b, y) && (Depth(b, x) < Depth(b, y) || (Depth(b, x) == Depth(b, y) && x <= y)))
  }

  function ByPreference(b: Batch, members: seq<nat>): (r: seq<nat>)
    ensures |r| == |members|
  {
    StableSort(members, (x: nat, y: nat) => Preferred(b, x, y))
  }

  function Without(members: seq<nat>, i: nat): seq<nat> {
    if members == [] then []
    else (if members[0] != i then [members[0]] else []) + Without(members[1..], i)
  }

  /** The group of `i`, when it was recorded more than once. */
  function GroupOf(s: Grouping, i: nat): Option<nat> {
    if i in s.of && s.of[i] < |s.groups| && |s.groups[s.of[i]].members| >= 2 then Some(s.of[i]) else None
  }

  function Kept(b: Batch, g: Group): nat
    requires |g.members| >= 2
  {
    ByPreference(b, g.members)[0]
  }

  /** The recordings that signal `i` stands for when it survives. */
  function Standing(b: Batch, s: Grouping, i: nat): Option<seq<nat>> {
    if Redundant(b, i) then None
    else
      var g := GroupOf(s, i);
      if g.None? then Some([i])
      else if Kept(b, s.groups[g.value]) != i then None
      else Some([i] + ByPreference(b, Without(s.groups[g.value].members, i)))
  }

  datatype Survivor = Survivor(index: nat, members: seq<nat>)

  function Survivors(b: Batch, s: Grouping, n: nat): seq<Survivor> {
    if n == 0 then []
    else
      var before, standing := Survivors(b, s, n - 1), Standing(b, s, n - 1);
      if standing.None? then before else before + [Survivor(n - 1, standing.value)]
  }

  /** What the pass puts out. */
  function Deduped(b: Batch): seq<Survivor> {
    Survivors(b, Grouped(b), |b.signals|)
  }

  // ---------- members ----------

  lemma PreferredOrders(b: Batch)
    ensures TotalPreorder((x: nat, y: nat) => Preferred(b, x, y))
  {
    var leq := (x: nat, y: nat) => Preferred(b, x, y);
    forall x: nat, y: nat ensures leq(x, y) || leq(y, x) {}
    forall x: nat, y: nat, z: nat | leq(x, y) && leq(y, z) ensures leq(x, z) {}
  }

  lemma ByPreferenceOk(b: Batch, members: seq<nat>)
    ensures var r := ByPreference(b, members);
            && (forall x :: x in r <==> x in members) && (Distinct(members) ==> Distinct(r))
            && forall j, k | 0 <= j < k < |r| :: Preferred(b, r[j], r[k])
  {
    var leq := (x: nat, y: nat) => Preferred(b, x, y);
    PreferredOrders(b);
    SortOrders(members, leq);
    SortPermutes(members, leq);
    SortMembers(members, leq);
    if Distinct(members) { RearrangedDistinct(members, ByPreference(b, members)); }
  }

  lemma {:induction false} WithoutMembers(members: seq<nat>, i: nat)
    ensures forall x :: x in Without(members, i) <==> x in members && x != i
  {
    if members != [] {
      WithoutMembers(members[1..], i);
      assert forall x :: x in members <==> x == members[0] || x in members[1..];
    }
  }

  lemma {:induction false} WithoutDistinct(members: seq<nat>, i: nat)
    requires Distinct(members)
    ensures Distinct(Without(members, i))
  {
    if members != [] {
      WithoutDistinct(members[1..], i);
      WithoutMembers(members[1..], i);
      var rest := Without(members[1..], i);
      forall k | 0 <= k < |rest| ensures rest[k] != members[0] { assert rest[k] in rest; }
    }
  }

  lemma CliqueDistinct(b: Batch, members: seq<nat>)
    requires Clique(b, members)
    ensures Distinct(members)
  {
    forall j, k | 0 <= j < k < |members| ensures members[j] != members[k] {
      assert Twins(b, members[j], members[k]);
    }
  }

  /** The survivor of a group is the recording preferred to all others. */
  lemma KeptIsBest(b: Batch, g: Group)
    requires |g.members| >= 2
    ensures Kept(b, g) in g.members && forall m <- g.members :: Preferred(b, Kept(b, g), m)
  {
    var r := ByPreference(b, g.members);
    ByPreferenceOk(b, g.members);
    assert r[0] in r;
    forall m <- g.members ensures Preferred(b, r[0], m) {
      var k :| 0 <= k < |r| && r[k] == m;
      assert k > 0 ==> Preferred(b, r[0], r[k]);
    }
  }

  lemma StandingMembers(b: Batch, s: Grouping, i: nat)
    requires GroupOf(s, i).Some? && GroupOk(b, s.groups[GroupOf(s, i).value]) && Standing(b, s, i).Some?
    ensures var ms, g := Standing(b, s, i).value, s.groups[GroupOf(s, i).value];
            (forall x :: x in ms <==> x in g.members) && Distinct(ms)
  {
    var g := s.groups[GroupOf(s, i).value];
    var others := Without(g.members, i);
    KeptIsBest(b, g);
    CliqueDistinct(b, g.members);
    WithoutMembers(g.members, i);
    WithoutDistinct(g.members, i);
    ByPreferenceOk(b, others);
    assert i !in ByPreference(b, others);
  }

  // ---------- every signal once ----------

  /** The survivor that stands for `i`. */
  function Rep(b: Batch, s: Grouping, i: nat): nat {
    var g := GroupOf(s, i);
    if g.None? then i else Kept(b, s.groups[g.value])
  }

  ghost predicate GroupsGood(b: Batch, s: Grouping) {
    OfOk(s.groups, s.of) && forall g | 0 <= g < |s.groups| :: GroupOk(b, s.groups[g])
  }

  lemma SameGroup(b: Batch, s: Grouping, g: nat, i: nat)
    requires GroupsGood(b, s) && g < |s.groups| && |s.groups[g].members| >= 2
    ensures i in s.groups[g].members <==> GroupOf(s, i) == Some(g)
  {}

  lemma StandsForItsOwn(b: Batch, s: Grouping, i: nat, j: nat)
    requires GroupsGood(b, s) && Standing(b, s, j).Some?
    ensures i in Standing(b, s, j).value <==> Rep(b, s, i) == j
  {
    var g := GroupOf(s, j);
    if GroupOf(s, i).Some? {
      KeptIsBest(b, s.groups[GroupOf(s, i).value]);
      SameGroup(b, s, GroupOf(s, i).value, j);
    }
    if g.Some? {
      StandingMembers(b, s, j);
      SameGroup(b, s, g.value, i);
      SameGroup(b, s, g.value, j);
    }
  }

  lemma RepSurvives(b: Batch, s: Grouping, i: nat)
    requires GroupsGood(b, s) && !Redundant(b, i) && i < |b.signals|
    ensures Standing(b, s, Rep(b, s, i)).Some? && Rep(b, s, i) < |b.signals|
  {
    var g := GroupOf(s, i);
    if g.Some? {
      KeptIsBest(b, s.groups[g.value]);
      SameGroup(b, s, g.value, Kept(b, s.groups[g.value]));
      assert Clique(b, s.groups[g.value].members);
    }
  }

  predicate InBatchOrder(out: seq<Survivor>, n: nat) {
    (forall j, k | 0 <= j < k < |out| :: out[j].index < out[k].index) && forall k | 0 <= k < |out| :: out[k].index < n
  }

  predicate Has(out: seq<Survivor>, i: nat) {
    exists k | 0 <= k < |out| :: out[k].index == i
  }

  lemma {:induction false} SurvivorsOk(b: Batch, s: Grouping, n: nat)
    ensures var out := Survivors(b, s, n);
            InBatchOrder(out, n) && forall k | 0 <= k < |out| :: Standing(b, s, out[k].index) == Some(out[k].members)
  {
    hide Standing;
    if n > 0 { SurvivorsOk(b, s, n - 1); }
  }

  lemma HasAppend(out: seq<Survivor>, last: Survivor, i: nat)
    ensures Has(out + [last], i) <==> Has(out, i) || last.index == i
  {
    var longer := out + [last];
    if Has(out, i) {
      var k :| 0 <= k < |out| && out[k].index == i;
      assert longer[k].index == i;
    }
    assert longer[|out|] == last;
  }

  lemma {:induction false} AllSurvive(b: Batch, s: Grouping, n: nat, i: nat)
    requires i < n && Standing(b, s, i).Some?
    ensures Has(Survivors(b, s, n), i)
  {
    var standing := Standing(b, s, n - 1);
    if standing.Some? { HasAppend(Survivors(b, s, n - 1), Survivor(n - 1, standing.value), i); }
    if i < n - 1 { AllSurvive(b, s, n - 1, i); }
  }

  ghost predicate InExactlyOne(out: seq<Survivor>, i: nat) {
    exists k | 0 <= k < |out| :: i in out[k].members && forall l | 0 <= l < |out| && l != k :: i !in out[l].members
  }

  ghost predicate InNone(out: seq<Survivor>, i: nat) {
    forall k | 0 <= k < |out| :: i !in out[k].members
  }

  lemma OnceByRep(out: seq<Survivor>, n: nat, i: nat, rep: nat)
    requires InBatchOrder(out, n) && forall k | 0 <= k < |out| :: (i in out[k].members <==> rep == out[k].index)
    ensures if Has(out, rep) then InExactlyOne(out, i) else InNone(out, i)
  {
    if Has(out, rep) {
      var k :| 0 <= k < |out| && out[k].index == rep;
      assert i in out[k].members && forall l | 0 <= l < |out| && l != k :: i !in out[l].members;
    }
  }

  /**
   * Every signal is in the members of exactly one survivor, unless rule 2 drops it, and then it is in none.
   */
  lemma EverySignalOnce(b: Batch, i: nat)
    requires i < |b.signals|
    ensures var out := Deduped(b);
            if Redundant(b, i) then InNone(out, i) else InExactlyOne(out, i)
  {
    GroupsAreCliques(b);
    OnceInSurvivors(b, Grouped(b), Survivors(b, Grouped(b), |b.signals|), i);
  }

  lemma OnceInSurvivors(b: Batch, s: Grouping, out: seq<Survivor>, i: nat)
    requires GroupsGood(b, s) && i < |b.signals| && out == Survivors(b, s, |b.signals|)
    ensures if Redundant(b, i) then InNone(out, i) else InExactlyOne(out, i)
  {
    var rep := Rep(b, s, i);
    SurvivorsOk(b, s, |b.signals|);
    forall k | 0 <= k < |out| ensures i in out[k].members <==> rep == out[k].index {
      StandsForItsOwn(b, s, i, out[k].index);
    }
    OnceByRep(out, |b.signals|, i, rep);
    if Redundant(b, i) {
      RedundantStandsAlone(b, s, i);
    } else {
      RepSurvives(b, s, i);
      AllSurvive(b, s, |b.signals|, rep);
    }
  }

  lemma GroupedAreExceptions(b: Batch, s: Grouping, i: nat)
    requires GroupsGood(b, s)
    ensures GroupOf(s, i).Some? ==> At(b, i).kind == Exception
  {
    var g := GroupOf(s, i);
    if g.Some? {
      SameGroup(b, s, g.value, i);
      assert Clique(b, s.groups[g.value].members);
    }
  }

  /** A status signal is never grouped. */
  lemma RedundantStandsAlone(b: Batch, s: Grouping, i: nat)
    requires GroupsGood(b, s) && Redundant(b, i)
    ensures Rep(b, s, i) == i && Standing(b, s, i).None?
  {
    GroupedAreExceptions(b, s, i);
  }

  /** Survivors are in batch order; each comes first among its members, which are pairwise twins. */
  lemma SurvivorsAreOrderedCliques(b: Batch)
    ensures var out := Deduped(b);
            && InBatchOrder(out, |b.signals|)
            && (forall k | 0 <= k < |out| :: out[k].members != [] && out[k].members[0] == out[k].index)
            && (forall k, x, y {:trigger Twins(b, out[k].members[x], out[k].members[y])} |
                  0 <= k < |out| && 0 <= x < y < |out[k].members| ::
                  Twins(b, out[k].members[x], out[k].members[y]) && Preferred(b, out[k].index, out[k].members[y]))
  {
    GroupsAreCliques(b);
    var s := Grouped(b);
    var out := Survivors(b, s, |b.signals|);
    SurvivorsOk(b, s, |b.signals|);
    forall k, x, y | 0 <= k < |out| && 0 <= x < y < |out[k].members|
      ensures Twins(b, out[k].members[x], out[k].members[y]) && Preferred(b, out[k].index, out[k].members[y])
    {
      StandingTwins(b, s, out[k].index, x, y);
    }
  }

  lemma StandingTwins(b: Batch, s: Grouping, i: nat, x: nat, y: nat)
    requires GroupsGood(b, s) && Standing(b, s, i).Some? && x < y < |Standing(b, s, i).value|
    ensures var ms := Standing(b, s, i).value; Twins(b, ms[x], ms[y]) && Preferred(b, i, ms[y])
  {
    var ms := Standing(b, s, i).value;
    assert GroupOf(s, i).Some?;
    var g := s.groups[GroupOf(s, i).value];
    StandingMembers(b, s, i);
    KeptIsBest(b, g);
    assert ms[x] in ms && ms[y] in ms;
    var p :| 0 <= p < |g.members| && g.members[p] == ms[x];
    var q :| 0 <= q < |g.members| && g.members[q] == ms[y];
    assert Twins(b, g.members[p], g.members[q]);
  }

  /**
   * A dropped status signal has an error of its own trace and resource on its own, an ancestor or a descendant
   * span, and that very error is in the output.
   */
  lemma ExplanationSurvives(b: Batch, i: nat)
    requires Redundant(b, i) && forall k <- b.parents :: b.parents[k].trace == k.trace
    ensures exists j :: 0 <= j < |b.signals| && Explains(b, j)
              && BucketKeyOf(At(b, j)) == BucketKeyOf(At(b, i)) && OneChain(b.parents, Key(b, j), Key(b, i))
              && InExactlyOne(Deduped(b), j)
  {
    RedundantExactly(b, i);
    var j :| 0 <= j < |b.signals| && Explains(b, j)
             && BucketKeyOf(At(b, j)) == BucketKeyOf(At(b, i)) && OneChain(b.parents, Key(b, j), Key(b, i));
    EverySignalOnce(b, j);
  }
}
