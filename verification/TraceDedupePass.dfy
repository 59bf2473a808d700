/** `dedupeTraceSignals` (packages/otlp-ingester/src/trace-dedupe.ts) with its loops, tables and caches. */
module TraceDedupePass {
  import opened Wrappers
  import opened SpanTreeModel
  import opened TraceSignals
  import opened TraceGroups
  import opened TraceDedupe
  import opened TraceSurvivors

  method BucketSignals(b: Batch) returns (buckets: seq<Bucket>)
    ensures buckets == Buckets(b, |b.signals|)
  {
    buckets := [];
    for i := 0 to |b.signals|
      invariant buckets == Buckets(b, i)
    {
      if !Groupable(b.signals[i]) { continue; }
      buckets := AddTo(buckets, BucketKeyOf(b.signals[i]), i);
    }
  }

  /** Whether every member of the group matches signal `i`. */
  method FitsGroup(b: Batch, tree: SpanTree, g: Group, i: nat) returns (fits: bool)
    requires tree.Valid() && tree.parents == b.parents
    modifies tree`cache, tree`sets
    ensures tree.Valid() && fits == Fits(b, g, i)
  {
    for k := 0 to |g.members|
      invariant tree.Valid()
      invariant forall j | 0 <= j < k :: Matches(b.parents, At(b, i), At(b, g.members[j]))
    {
      var m := g.members[k];
      var x, y := At(b, i), At(b, m);
      var related := tree.AreRelated(Key(b, i), Key(b, m));
      if !related || x.signature.message != y.signature.message || !TypesMatch(x, y)
         || !StacksMatch(x.signature, y.signature) {
        assert !Matches(b.parents, At(b, i), At(b, m));
        return false;
      }
    }
    fits := true;
  }

  method BestGroup(b: Batch, tree: SpanTree, groups: seq<Group>, open: seq<nat>, i: nat) returns (best: Option<nat>)
    requires tree.Valid() && tree.parents == b.parents && Indexed(groups, open)
    modifies tree`cache, tree`sets
    ensures tree.Valid() && best == BestOf(b, groups, open, |open|, i)
  {
    best := None;
    for n := 0 to |open|
      invariant tree.Valid() && best == BestOf(b, groups, open, n, i)
    {
      var o := open[n];
      if HasSpan(b, groups[o], Key(b, i)) { continue; }
      if best.Some? && groups[o].lastAt <= groups[best.value].lastAt { continue; }
      var fits := FitsGroup(b, tree, groups[o], i);
      if fits { best := Some(o); }
    }
  }

  /** One signal of a bucket: joins the best open group, or starts one. */
  method PlaceSignal(b: Batch, tree: SpanTree, s: Grouping, i: nat) returns (r: Grouping)
    requires tree.Valid() && tree.parents == b.parents
    modifies tree`cache, tree`sets
    ensures tree.Valid() && r == Place(b, s, i)
  {
    var at := At(b, i).at;
    var open := StillOpen(s.groups, s.open, at);
    var best := BestGroup(b, tree, s.groups, open, i);
    if best.Some? {
      var g := s.groups[best.value];
      var grown := Group(g.members + [i], Later(g.lastAt, at));
      r := Grouping(s.groups[best.value := grown], s.of[i := best.value], open);
    } else {
      r := Grouping(s.groups + [Group([i], at)], s.of[i := |s.groups|], open + [|s.groups|]);
    }
  }

  method GroupBucket(b: Batch, tree: SpanTree, s: Grouping, bucket: seq<nat>) returns (r: Grouping)
    requires tree.Valid() && tree.parents == b.parents
    modifies tree`cache, tree`sets
    ensures tree.Valid() && r == PlaceBucket(b, s, bucket)
  {
    hide Place, InOrder;
    r := s;
    if |bucket| < 2 { return; }
    var ordered := InOrder(b, bucket);
    r := s.(open := []);
    ghost var start := r;
    for n := 0 to |ordered|
      invariant tree.Valid() && r == Fold(Placing(b), start, ordered, n)
    {
      r := PlaceSignal(b, tree, r, ordered[n]);
    }
  }

  method GroupSignals(b: Batch, tree: SpanTree) returns (s: Grouping)
    requires tree.Valid() && tree.parents == b.parents
    modifies tree`cache, tree`sets
    ensures tree.Valid() && s == Grouped(b)
  {
    var buckets := BucketSignals(b);
    s := Grouping([], map[], []);
    for n := 0 to |buckets|
      invariant tree.Valid() && s == PlaceBuckets(b, buckets, n)
    {
      s := GroupBucket(b, tree, s, buckets[n].members);
    }
  }

  /** The two sets of rule 2. */
  method ExplainSpans(b: Batch, tree: SpanTree) returns (explained: set<ScopedSpan>, explaining: set<ScopedSpan>)
    requires tree.Valid() && tree.parents == b.parents
    modifies tree`cache
    ensures tree.Valid() && explained == Explained(b, |b.signals|) && explaining == Explaining(b, |b.signals|)
  {
    explained, explaining := {}, {};
    for i := 0 to |b.signals|
      invariant tree.Valid() && explained == Explained(b, i) && explaining == Explaining(b, i)
    {
      if !HasIds(b.signals[i]) || !IsExplaining(b.signals[i]) { continue; }
      var ancestors := tree.AncestorsOf(Key(b, i));
      explaining := explaining + {Here(b, i)};
      explained := explained + ({Here(b, i)} + set k <- ancestors :: ScopedSpan(b.signals[i].resource, k));
    }
  }

  method IsRedundant(b: Batch, tree: SpanTree, explained: set<ScopedSpan>, explaining: set<ScopedSpan>, i: nat) returns (r: bool)
    requires tree.Valid() && tree.parents == b.parents
    requires explained == Explained(b, |b.signals|) && explaining == Explaining(b, |b.signals|)
    modifies tree`cache
    ensures tree.Valid() && r == Redundant(b, i)
  {
    var s := At(b, i);
    if s.kind != Status || !HasIds(s) { return false; }
    if Here(b, i) in explained { return true; }
    var ancestors := tree.AncestorsOf(Key(b, i));
    r := exists k <- ancestors :: ScopedSpan(s.resource, k) in explaining;
  }

  /** What signal `i` stands for, if it survives. */
  method StandsFor(b: Batch, tree: SpanTree, s: Grouping, explained: set<ScopedSpan>, explaining: set<ScopedSpan>, i: nat)
    returns (standing: Option<seq<nat>>)
    requires tree.Valid() && tree.parents == b.parents
    requires explained == Explained(b, |b.signals|) && explaining == Explaining(b, |b.signals|)
    modifies tree`cache
    ensures tree.Valid() && standing == Standing(b, s, i)
  {
    var redundant := IsRedundant(b, tree, explained, explaining, i);
    if redundant { return None; }
    var g := GroupOf(s, i);
    if g.None? { return Some([i]); }
    if Kept(b, s.groups[g.value]) != i { return None; }
    standing := Some([i] + ByPreference(b, Without(s.groups[g.value].members, i)));
  }

  /** The survivors, each with the recordings it stands for. */
  method DedupeTraceSignals(signals: seq<Signal>, spans: seq<SpanLink>) returns (out: seq<Survivor>)
    ensures out == Deduped(Batch(signals, ParentsOf(spans)))
  {
    var b := Batch(signals, ParentsOf(spans));
    var tree := new SpanTree(spans);
    var s := GroupSignals(b, tree);
    var explained, explaining := ExplainSpans(b, tree);
    out := [];
    for i := 0 to |signals|
      invariant tree.Valid() && tree.parents == b.parents && out == Survivors(b, s, i)
    {
      var standing := StandsFor(b, tree, s, explained, explaining, i);
      if standing.Some? { out := out + [Survivor(i, standing.value)]; }
    }
  }
}
