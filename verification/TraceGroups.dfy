/** Rule 1 of the trace pass: recordings of one thrown error are grouped greedily in time order. */
module TraceGroups {
  import opened Wrappers
  import opened Sorting
  import opened SpanTreeModel
  import opened TraceSignals

  datatype Batch = Batch(signals: seq<Signal>, parents: Parents)

  const NO_SIGNAL := Signal("", "", Status, 0, Resource("", "", ""), "", "", Lesser, Signature("", None, None, []),
                            false, false, false, false)

  function At(b: Batch, i: nat): Signal {
    if i < |b.signals| then b.signals[i] else NO_SIGNAL
  }

  function Key(b: Batch, i: nat): SpanKey {
    KeyOf(At(b, i))
  }

  function Depth(b: Batch, i: nat): nat {
    |Ancestors(b.parents, Key(b, i))|
  }

  /** The order signals are placed in: by time, then deeper spans first, then as they came. */
  predicate Precedes(b: Batch, x: nat, y: nat) {
    At(b, x).at < At(b, y).at
    || (At(b, x).at == At(b, y).at && (Depth(b, x) > Depth(b, y) || (Depth(b, x) == Depth(b, y) && x <= y)))
  }

  // ---------- buckets ----------

  datatype BucketKey = BucketKey(trace: string, resource: Resource)

  datatype Bucket = Bucket(key: BucketKey, members: seq<nat>)

  predicate Groupable(s: Signal) {
    s.kind == Exception && HasIds(s)
  }

  function BucketKeyOf(s: Signal): BucketKey {
    BucketKey(s.trace, s.resource)
  }

  function AddTo(buckets: seq<Bucket>, key: BucketKey, i: nat): seq<Bucket> {
    if buckets == [] then [Bucket(key, [i])]
    else if buckets[0].key == key then [Bucket(key, buckets[0].members + [i])] + buckets[1..]
    else [buckets[0]] + AddTo(buckets[1..], key, i)
  }

  function Buckets(b: Batch, n: nat): seq<Bucket> {
    if n == 0 then []
    else
      var before := Buckets(b, n - 1);
      if Groupable(At(b, n - 1)) then AddTo(before, BucketKeyOf(At(b, n - 1)), n - 1) else before
  }

  // ---------- grouping ----------

  datatype Group = Group(members: seq<nat>, lastAt: int)

  /** All groups so far, the group of each signal, and the groups still open. */
  datatype Grouping = Grouping(groups: seq<Group>, of: map<nat, nat>, open: seq<nat>)

  ghost predicate Indexed(groups: seq<Group>, open: seq<nat>) {
    forall k | 0 <= k < |open| :: open[k] < |groups|
  }

  predicate HasSpan(b: Batch, g: Group, key: SpanKey) {
    exists m <- g.members :: Key(b, m) == key
  }

  predicate Fits(b: Batch, g: Group, i: nat) {
    forall m <- g.members :: Matches(b.parents, At(b, i), At(b, m))
  }

  predicate Eligible(b: Batch, g: Group, i: nat) {
    !HasSpan(b, g, Key(b, i)) && Fits(b, g, i)
  }

  predicate IsOpen(groups: seq<Group>, o: nat, at: int) {
    o < |groups| && at - groups[o].lastAt <= DUPLICATE_WINDOW_MS
  }

  function StillOpen(groups: seq<Group>, open: seq<nat>, at: int): (r: seq<nat>)
    ensures Indexed(groups, r) && forall o :: o in r <==> o in open && IsOpen(groups, o, at)
  {
    if open == [] then []
    else (if IsOpen(groups, open[0], at) then [open[0]] else []) + StillOpen(groups, open[1..], at)
  }

  /** The scan for the best group among the first `n` open ones. */
  function BestOf(b: Batch, groups: seq<Group>, open: seq<nat>, n: nat, i: nat): (best: Option<nat>)
    requires Indexed(groups, open) && n <= |open|
    ensures best.Some? ==> best.value in open[..n] && best.value < |groups| && Eligible(b, groups[best.value], i)
    ensures forall k | 0 <= k < n && Eligible(b, groups[open[k]], i) ::
      best.Some? && groups[open[k]].lastAt <= groups[best.value].lastAt
  {
    if n == 0 then None
    else
      var best := BestOf(b, groups, open, n - 1, i);
      var o := open[n - 1];
      if HasSpan(b, groups[o], Key(b, i)) then best
      else if best.Some? && groups[o].lastAt <= groups[best.value].lastAt then best
      else if Fits(b, groups[o], i) then Some(o) else best
  }

  function Later(a: int, b: int): int {
    if a >= b then a else b
  }

  function Join(b: Batch, s: Grouping, i: nat, o: nat, open: seq<nat>): (r: Grouping)
    requires o < |s.groups| && Indexed(s.groups, open)
    ensures Indexed(r.groups, r.open)
  {
    var g := s.groups[o];
    Grouping(s.groups[o := Group(g.members + [i], Later(g.lastAt, At(b, i).at))], s.of[i := o], open)
  }

  function Begin(b: Batch, s: Grouping, i: nat, open: seq<nat>): (r: Grouping)
    requires Indexed(s.groups, open)
    ensures Indexed(r.groups, r.open)
  {
    Grouping(s.groups + [Group([i], At(b, i).at)], s.of[i := |s.groups|], open + [|s.groups|])
  }

  function Place(b: Batch, s: Grouping, i: nat): (r: Grouping)
    ensures Indexed(r.groups, r.open)
  {
    var open := StillOpen(s.groups, s.open, At(b, i).at);
    var best := BestOf(b, s.groups, open, |open|, i);
    if best.Some? then Join(b, s, i, best.value, open) else Begin(b, s, i, open)
  }

  /** `f` over the first `n` of `order`. */
  function Fold<S>(f: (S, nat) -> S, s: S, order: seq<nat>, n: nat): S
    requires n <= |order|
  {
    if n == 0 then s else f(Fold(f, s, order, n - 1), order[n - 1])
  }

  lemma {:induction false} FoldKeeps<S(!new)>(f: (S, nat) -> S, s: S, order: seq<nat>, n: nat, inv: (S, nat) -> bool)
    requires n <= |order| && inv(s, 0)
    requires forall x, m: nat | m < |order| && inv(x, m) :: inv(f(x, order[m]), m + 1)
    ensures inv(Fold(f, s, order, n), n)
  {
    if n > 0 { FoldKeeps(f, s, order, n - 1, inv); }
  }

  function Placing(b: Batch): (Grouping, nat) -> Grouping {
    (s: Grouping, i: nat) => Place(b, s, i)
  }

  function InOrder(b: Batch, bucket: seq<nat>): (r: seq<nat>)
    ensures |r| == |bucket|
  {
    StableSort(bucket, (x, y) => Precedes(b, x, y))
  }

  function PlaceBucket(b: Batch, s: Grouping, bucket: seq<nat>): Grouping {
    if |bucket| < 2 then s
    else Fold(Placing(b), s.(open := []), InOrder(b, bucket), |bucket|)
  }

  function PlaceBuckets(b: Batch, buckets: seq<Bucket>, n: nat): Grouping
    requires n <= |buckets|
  {
    if n == 0 then Grouping([], map[], [])
    else PlaceBucket(b, PlaceBuckets(b, buckets, n - 1), buckets[n - 1].members)
  }

  function Grouped(b: Batch): Grouping {
    var buckets := Buckets(b, |b.signals|);
    PlaceBuckets(b, buckets, |buckets|)
  }

  // ---------- what a group is ----------

  /** Recordings of one thrown error in one process and trace, on different spans of one chain. */
  predicate Twins(b: Batch, x: nat, y: nat) {
    && Key(b, x) != Key(b, y) && BucketKeyOf(At(b, x)) == BucketKeyOf(At(b, y))
    && Matches(b.parents, At(b, x), At(b, y))
  }

  lemma TwinsSymmetric(b: Batch, x: nat, y: nat)
    ensures Twins(b, x, y) == Twins(b, y, x)
  {
    MatchesSymmetric(b.parents, At(b, x), At(b, y));
  }

  /** Recordings of one process and trace, pairwise matching on different spans. */
  predicate Clique(b: Batch, members: seq<nat>) {
    && (forall m <- members :: m < |b.signals| && Groupable(At(b, m)))
    && (forall j, k {:trigger Twins(b, members[j], members[k])} |
          0 <= j < |members| && 0 <= k < |members| && j != k :: Twins(b, members[j], members[k]))
  }

  /** The `k`-th recording is not before the one before it, and within the window of it. */
  predicate Follows(b: Batch, members: seq<nat>, k: nat)
    requires 1 <= k < |members|
  {
    0 <= At(b, members[k]).at - At(b, members[k - 1]).at <= DUPLICATE_WINDOW_MS
  }

  /** In time order, with no gap above the window. */
  predicate Close(b: Batch, members: seq<nat>) {
    forall k | 1 <= k < |members| :: Follows(b, members, k)
  }

  predicate GroupOk(b: Batch, g: Group) {
    g.members != [] && Clique(b, g.members) && Close(b, g.members) && g.lastAt == At(b, g.members[|g.members| - 1]).at
  }

  /** The map says which group each grouped signal is in, and it is in no other. */
  ghost predicate OfOk(groups: seq<Group>, of: map<nat, nat>) {
    && (forall g, m | 0 <= g < |groups| && m in groups[g].members :: m in of && of[m] == g)
    && (forall i <- of :: of[i] < |groups| && i in groups[of[i]].members)
  }

  ghost predicate GroupingOk(b: Batch, s: Grouping) {
    && Indexed(s.groups, s.open)
    && (forall g | 0 <= g < |s.groups| :: GroupOk(b, s.groups[g]))
    && OfOk(s.groups, s.of)
  }

  /** The open groups hold earlier recordings of this bucket. */
  ghost predicate OpenOk(b: Batch, s: Grouping, key: BucketKey, now: int) {
    forall o <- s.open :: o < |s.groups| && s.groups[o].lastAt <= now
      && forall m <- s.groups[o].members :: BucketKeyOf(At(b, m)) == key
  }

  lemma JoinKeepsClique(b: Batch, members: seq<nat>, i: nat)
    requires Clique(b, members) && i < |b.signals| && Groupable(At(b, i))
    requires forall m <- members :: Twins(b, i, m)
    ensures Clique(b, members + [i])
  {
    var longer := members + [i];
    forall j, k | 0 <= j < |longer| && 0 <= k < |longer| && j != k ensures Twins(b, longer[j], longer[k]) {
      TwinsSymmetric(b, longer[j], longer[k]);
      assert j < |members| ==> longer[j] == members[j] && members[j] in members;
      assert k < |members| ==> longer[k] == members[k] && members[k] in members;
    }
  }

  lemma JoinKeepsGroup(b: Batch, g: Group, i: nat)
    requires GroupOk(b, g) && Eligible(b, g, i) && i < |b.signals| && Groupable(At(b, i))
    requires 0 <= At(b, i).at - g.lastAt <= DUPLICATE_WINDOW_MS
    requires forall m <- g.members :: BucketKeyOf(At(b, m)) == BucketKeyOf(At(b, i))
    ensures GroupOk(b, Group(g.members + [i], At(b, i).at))
  {
    forall m <- g.members ensures Twins(b, i, m) {}
    JoinKeepsClique(b, g.members, i);
    var longer := g.members + [i];
    forall k | 1 <= k < |longer| ensures Follows(b, longer, k) {
      if k < |g.members| { assert Follows(b, g.members, k); }
    }
  }

  lemma SingleIsGroup(b: Batch, i: nat)
    requires i < |b.signals| && Groupable(At(b, i))
    ensures GroupOk(b, Group([i], At(b, i).at))
  {}

  lemma JoinOf(groups: seq<Group>, of: map<nat, nat>, i: nat, o: nat, g: Group)
    requires OfOk(groups, of) && i !in of && o < |groups| && g.members == groups[o].members + [i]
    ensures OfOk(groups[o := g], of[i := o])
  {}

  lemma BeginOf(groups: seq<Group>, of: map<nat, nat>, i: nat, g: Group)
    requires OfOk(groups, of) && i !in of && g.members == [i]
    ensures OfOk(groups + [g], of[i := |groups|])
  {}

  lemma JoinOpen(b: Batch, s: Grouping, r: Grouping, i: nat, o: nat, key: BucketKey, now: int)
    requires OpenOk(b, s, key, now) && now <= At(b, i).at && BucketKeyOf(At(b, i)) == key && o < |s.groups|
    requires r.groups == s.groups[o := Group(s.groups[o].members + [i], At(b, i).at)]
    requires o in s.open && forall p <- r.open :: p in s.open
    ensures OpenOk(b, r, key, At(b, i).at)
  {}

  lemma NewOpen(b: Batch, s: Grouping, r: Grouping, i: nat, key: BucketKey, now: int)
    requires OpenOk(b, s, key, now) && now <= At(b, i).at && BucketKeyOf(At(b, i)) == key
    requires r.groups == s.groups + [Group([i], At(b, i).at)]
    requires forall p <- r.open :: p in s.open || p == |s.groups|
    ensures OpenOk(b, r, key, At(b, i).at)
  {}

  /** The signal joined open group `o`, eligible and near in time. */
  ghost predicate Joins(b: Batch, s: Grouping, r: Grouping, i: nat, o: nat) {
    && o in s.open && o < |s.groups| && i < |b.signals| && Indexed(r.groups, r.open)
    && Eligible(b, s.groups[o], i) && At(b, i).at - s.groups[o].lastAt <= DUPLICATE_WINDOW_MS
    && r.groups == s.groups[o := Group(s.groups[o].members + [i], At(b, i).at)] && r.of == s.of[i := o]
    && forall p <- r.open :: p in s.open
  }

  /** The signal began a group. */
  ghost predicate Begins(b: Batch, s: Grouping, r: Grouping, i: nat) {
    && i < |b.signals| && Indexed(r.groups, r.open)
    && r.groups == s.groups + [Group([i], At(b, i).at)] && r.of == s.of[i := |s.groups|]
    && forall p <- r.open :: p in s.open || p == |s.groups|
  }

  lemma JoinAll(b: Batch, s: Grouping, r: Grouping, i: nat, o: nat, key: BucketKey, now: int)
    requires GroupingOk(b, s) && OpenOk(b, s, key, now) && o in s.open
    requires i < |b.signals| && Groupable(At(b, i)) && BucketKeyOf(At(b, i)) == key && now <= At(b, i).at && i !in s.of
    requires Joins(b, s, r, i, o)
    ensures GroupingOk(b, r)
    ensures OpenOk(b, r, key, At(b, i).at)
  {
    JoinKeepsGroup(b, s.groups[o], i);
    JoinOf(s.groups, s.of, i, o, Group(s.groups[o].members + [i], At(b, i).at));
    JoinOpen(b, s, r, i, o, key, now);
  }

  lemma BeginAll(b: Batch, s: Grouping, r: Grouping, i: nat, key: BucketKey, now: int)
    requires GroupingOk(b, s) && OpenOk(b, s, key, now)
    requires i < |b.signals| && Groupable(At(b, i)) && BucketKeyOf(At(b, i)) == key && now <= At(b, i).at && i !in s.of
    requires Begins(b, s, r, i)
    ensures GroupingOk(b, r)
    ensures OpenOk(b, r, key, At(b, i).at)
  {
    SingleIsGroup(b, i);
    BeginOf(s.groups, s.of, i, Group([i], At(b, i).at));
    NewOpen(b, s, r, i, key, now);
  }

  /** A placed signal joined a group or began one. */
  lemma PlaceShape(b: Batch, s: Grouping, i: nat, key: BucketKey, now: int, r: Grouping) returns (best: Option<nat>)
    requires Indexed(s.groups, s.open) && OpenOk(b, s, key, now) && now <= At(b, i).at && i < |b.signals|
    requires r == Place(b, s, i)
    ensures if best.Some? then Joins(b, s, r, i, best.value) else Begins(b, s, r, i)
    ensures r.of.Keys == s.of.Keys + {i}
  {
    var open := StillOpen(s.groups, s.open, At(b, i).at);
    best := BestOf(b, s.groups, open, |open|, i);
    assert best.Some? ==> best.value in open;
  }

  lemma PlaceKeeps(b: Batch, s: Grouping, i: nat, key: BucketKey, now: int, r: Grouping)
    requires GroupingOk(b, s) && OpenOk(b, s, key, now)
    requires i < |b.signals| && Groupable(At(b, i)) && BucketKeyOf(At(b, i)) == key && now <= At(b, i).at && i !in s.of
    requires r == Place(b, s, i)
    ensures GroupingOk(b, r)
    ensures OpenOk(b, r, key, At(b, i).at)
    ensures r.of.Keys == s.of.Keys + {i}
  {
    assert Indexed(s.groups, s.open);
    hide GroupingOk, OpenOk, Place, Begins;
    var best := PlaceShape(b, s, i, key, now, r);
    if best.Some? { JoinAll(b, s, r, i, best.value, key, now); } else { BeginAll(b, s, r, i, key, now); }
  }

  predicate Distinct(s: seq<nat>) {
    forall j, k | 0 <= j < k < |s| :: s[j] != s[k]
  }

  /** A signal joins whichever open group it fits that was recorded to last, and starts one only if it fits none. */
  lemma JoinsLatest(b: Batch, s: Grouping, i: nat)
    ensures var r := Place(b, s, i);
            var fitting := set o | o in s.open && IsOpen(s.groups, o, At(b, i).at) && Eligible(b, s.groups[o], i);
            && (fitting == {} ==> r.groups == s.groups + [Group([i], At(b, i).at)])
            && (fitting != {} ==> |r.groups| == |s.groups| && exists o <- fitting ::
                  && r.groups[o].members == s.groups[o].members + [i]
                  && forall p <- fitting :: s.groups[p].lastAt <= s.groups[o].lastAt)
  {
    var open := StillOpen(s.groups, s.open, At(b, i).at);
    var best := BestOf(b, s.groups, open, |open|, i);
    var fitting := set o | o in s.open && IsOpen(s.groups, o, At(b, i).at) && Eligible(b, s.groups[o], i);
    assert open[..|open|] == open;
    forall o <- fitting ensures best.Some? && s.groups[o].lastAt <= s.groups[best.value].lastAt {
      assert o in open;
      var k :| 0 <= k < |open| && open[k] == o;
    }
    if best.Some? { assert best.value in fitting; }
  }
}
