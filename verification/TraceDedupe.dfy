/**
 * The trace pass as a whole (packages/otlp-ingester/src/trace-dedupe.ts): the groups of rule 1, the redundant
 * status signals of rule 2, and which recordings each surviving occurrence stands for.
 */
module TraceDedupe {
  import opened Wrappers
  import opened Sorting
  import opened SpanTreeModel
  import opened TraceSignals
  import opened TraceGroups

  // ---------- buckets ----------

  ghost predicate BucketOk(b: Batch, n: nat, k: Bucket) {
    && Distinct(k.members)
    && forall m <- k.members :: m < n && Groupable(At(b, m)) && BucketKeyOf(At(b, m)) == k.key
  }

  ghost predicate BucketsOk(b: Batch, n: nat, buckets: seq<Bucket>) {
    && (forall p, q | 0 <= p < q < |buckets| :: buckets[p].key != buckets[q].key)
    && (forall p | 0 <= p < |buckets| :: BucketOk(b, n, buckets[p]))
  }

  lemma {:induction false} AddToOk(b: Batch, n: nat, buckets: seq<Bucket>)
    requires BucketsOk(b, n, buckets) && Groupable(At(b, n))
    ensures var r := AddTo(buckets, BucketKeyOf(At(b, n)), n);
            && BucketsOk(b, n + 1, r)
            && (forall p | 0 <= p < |r| :: r[p].key == BucketKeyOf(At(b, n)) || exists q | 0 <= q < |buckets| :: buckets[q].key == r[p].key)
  {
    var key := BucketKeyOf(At(b, n));
    var r := AddTo(buckets, key, n);
    if buckets != [] {
      var rest := buckets[1..];
      assert BucketsOk(b, n, rest);
      if buckets[0].key == key {
        assert r[1..] == rest;
      } else {
        AddToOk(b, n, rest);
        assert r[1..] == AddTo(rest, key, n);
        forall p | 1 <= p < |r| ensures r[p].key != buckets[0].key { assert r[p] == r[1..][p - 1]; }
      }
    }
  }

  lemma {:induction false} BucketsAreOk(b: Batch, n: nat)
    requires n <= |b.signals|
    ensures BucketsOk(b, n, Buckets(b, n))
  {
    if n > 0 {
      BucketsAreOk(b, n - 1);
      if Groupable(At(b, n - 1)) { AddToOk(b, n - 1, Buckets(b, n - 1)); }
    }
  }

  // ---------- one bucket in time order ----------

  lemma PrecedesOrders(b: Batch)
    ensures TotalPreorder((x: nat, y: nat) => Precedes(b, x, y))
  {
    var leq := (x: nat, y: nat) => Precedes(b, x, y);
    forall x: nat, y: nat ensures leq(x, y) || leq(y, x) {}
    forall x: nat, y: nat, z: nat | leq(x, y) && leq(y, z) ensures leq(x, z) {}
  }

  lemma DistinctCounts(s: seq<nat>, x: nat)
    requires Distinct(s)
    ensures multiset(s)[x] <= 1
  {
    if s != [] {
      assert s == [s[0]] + s[1..];
      if x == s[0] { assert x !in s[1..]; } else { DistinctCounts(s[1..], x); }
    }
  }

  lemma RearrangedDistinct(s: seq<nat>, r: seq<nat>)
    requires Distinct(s) && multiset(r) == multiset(s)
    ensures Distinct(r)
  {
    forall j, k | 0 <= j < k < |r| ensures r[j] != r[k] {
      DistinctCounts(s, r[j]);
      assert r == r[..k] + r[k..];
      assert r[j] == r[..k][j] && r[j] in multiset(r[..k]);
      assert r[k] == r[k..][0] && r[k] in multiset(r[k..]);
    }
  }

  lemma InOrderOk(b: Batch, bucket: seq<nat>)
    requires Distinct(bucket)
    ensures var r := InOrder(b, bucket);
            && Distinct(r) && (forall x :: x in r <==> x in bucket)
            && (forall j, k | 0 <= j < k < |r| :: At(b, r[j]).at <= At(b, r[k]).at)
  {
    var leq := (x, y) => Precedes(b, x, y);
    PrecedesOrders(b);
    SortOrders(bucket, leq);
    SortPermutes(bucket, leq);
    SortMembers(bucket, leq);
    RearrangedDistinct(bucket, InOrder(b, bucket));
  }

  predicate NotBefore(b: Batch, order: seq<nat>, j: nat)
    requires 1 <= j < |order|
  {
    At(b, order[j - 1]).at <= At(b, order[j]).at
  }

  predicate InBucket(b: Batch, i: nat, key: BucketKey) {
    i < |b.signals| && Groupable(At(b, i)) && BucketKeyOf(At(b, i)) == key
  }

  predicate OneBucket(b: Batch, order: seq<nat>, key: BucketKey) {
    && Distinct(order)
    && (forall j | 0 <= j < |order| :: InBucket(b, order[j], key))
    && (forall j | 1 <= j < |order| :: NotBefore(b, order, j))
  }

  /** After the first `n` of a bucket are placed. */
  ghost predicate Placed(b: Batch, before: set<nat>, order: seq<nat>, n: nat, key: BucketKey, r: Grouping)
    requires n <= |order|
  {
    && GroupingOk(b, r)
    && (forall j | n <= j < |order| :: order[j] !in r.of.Keys)
    && (forall x <- r.of.Keys :: x in before || BucketKeyOf(At(b, x)) == key)
    && (if n == 0 then r.open == [] else OpenOk(b, r, key, At(b, order[n - 1]).at))
  }

  lemma PlaceNext(b: Batch, before: set<nat>, order: seq<nat>, n: nat, key: BucketKey, s: Grouping, r: Grouping)
    requires OneBucket(b, order, key) && 1 <= n <= |order|
    requires Placed(b, before, order, n - 1, key, s)
    requires r == Place(b, s, order[n - 1])
    ensures Placed(b, before, order, n, key, r)
  {
    assert InBucket(b, order[n - 1], key) && (n > 1 ==> NotBefore(b, order, n - 1));
    PlaceKeeps(b, s, order[n - 1], key, if n > 1 then At(b, order[n - 2]).at else At(b, order[n - 1]).at, r);
  }

  lemma PlaceNone(b: Batch, s: Grouping, order: seq<nat>, key: BucketKey)
    requires GroupingOk(b, s) && s.open == [] && forall j | 0 <= j < |order| :: order[j] !in s.of.Keys
    ensures Placed(b, s.of.Keys, order, 0, key, s)
  {}

  /** `Placed`, as a property of a state and a count for `FoldKeeps`. */
  ghost function PlacedBy(b: Batch, before: set<nat>, order: seq<nat>, key: BucketKey): (Grouping, nat) -> bool {
    (r: Grouping, m: nat) => m <= |order| && Placed(b, before, order, m, key, r)
  }

  lemma PlaceSteps(b: Batch, before: set<nat>, order: seq<nat>, key: BucketKey, r: Grouping, m: nat)
    requires OneBucket(b, order, key) && m < |order| && PlacedBy(b, before, order, key)(r, m)
    ensures PlacedBy(b, before, order, key)(Placing(b)(r, order[m]), m + 1)
  {
    PlaceNext(b, before, order, m + 1, key, r, Place(b, r, order[m]));
  }

  lemma PlaceAllOk(b: Batch, s: Grouping, order: seq<nat>, key: BucketKey, f: (Grouping, nat) -> Grouping,
                   inv: (Grouping, nat) -> bool)
    requires f == Placing(b) && inv == PlacedBy(b, s.of.Keys, order, key)
    requires inv(s, 0) && OneBucket(b, order, key)
    ensures inv(Fold(f, s, order, |order|), |order|)
  {
    forall r, m: nat | m < |order| && inv(r, m) ensures inv(f(r, order[m]), m + 1) {
      PlaceSteps(b, s.of.Keys, order, key, r, m);
    }
    FoldKeeps(f, s, order, |order|, inv);
  }

  lemma PlaceBucketOk(b: Batch, s: Grouping, bucket: Bucket, r: Grouping)
    requires GroupingOk(b, s) && BucketOk(b, |b.signals|, bucket) && r == PlaceBucket(b, s, bucket.members)
    requires forall i <- s.of.Keys :: BucketKeyOf(At(b, i)) != bucket.key
    ensures GroupingOk(b, r)
    ensures forall i <- r.of.Keys :: i in s.of.Keys || BucketKeyOf(At(b, i)) == bucket.key
  {
    if |bucket.members| >= 2 {
      var order := InOrder(b, bucket.members);
      InOrderOk(b, bucket.members);
      assert OneBucket(b, order, bucket.key) by {
        forall j | 0 <= j < |order| ensures InBucket(b, order[j], bucket.key) { assert order[j] in bucket.members; }
      }
      var start := s.(open := []);
      PlaceNone(b, start, order, bucket.key);
      PlaceAllOk(b, start, order, bucket.key, Placing(b), PlacedBy(b, s.of.Keys, order, bucket.key));
    }
  }

  /** Nothing of a later bucket is grouped yet. */
  ghost predicate BucketsPlaced(b: Batch, buckets: seq<Bucket>, n: nat, r: Grouping) {
    && GroupingOk(b, r)
    && forall i <- r.of.Keys, q | n <= q < |buckets| :: BucketKeyOf(At(b, i)) != buckets[q].key
  }

  lemma NextBucket(b: Batch, buckets: seq<Bucket>, n: nat, s: Grouping, r: Grouping)
    requires BucketsOk(b, |b.signals|, buckets) && 1 <= n <= |buckets| && BucketsPlaced(b, buckets, n - 1, s)
    requires r == PlaceBucket(b, s, buckets[n - 1].members)
    ensures BucketsPlaced(b, buckets, n, r)
  {
    PlaceBucketOk(b, s, buckets[n - 1], r);
  }

  lemma {:induction false} PlaceBucketsOk(b: Batch, buckets: seq<Bucket>, n: nat, r: Grouping)
    requires BucketsOk(b, |b.signals|, buckets) && n <= |buckets| && r == PlaceBuckets(b, buckets, n)
    ensures BucketsPlaced(b, buckets, n, r)
    decreases n
  {
    if n > 0 {
      var s := PlaceBuckets(b, buckets, n - 1);
      PlaceBucketsOk(b, buckets, n - 1, s);
      NextBucket(b, buckets, n, s, r);
    }
  }

  /**
   * Rule 1: every group is a clique of recordings of one process and trace, pairwise matching, on different
   * spans of one ancestor chain, in time order with gaps of at most the window; groups are disjoint.
   */
  lemma GroupsAreCliques(b: Batch)
    ensures var r := Grouped(b);
            && (forall g | 0 <= g < |r.groups| :: GroupOk(b, r.groups[g]))
            && OfOk(r.groups, r.of)
  {
    BucketsAreOk(b, |b.signals|);
    var buckets := Buckets(b, |b.signals|);
    PlaceBucketsOk(b, buckets, |buckets|, Grouped(b));
  }

  // ---------- rule 2 ----------

  datatype ScopedSpan = ScopedSpan(resource: Resource, key: SpanKey)

  predicate Explains(b: Batch, i: nat) {
    i < |b.signals| && HasIds(b.signals[i]) && IsExplaining(b.signals[i])
  }

  function Here(b: Batch, i: nat): ScopedSpan {
    ScopedSpan(At(b, i).resource, Key(b, i))
  }

  /** Spans that carry an explaining error. */
  function Explaining(b: Batch, n: nat): (r: set<ScopedSpan>)
    ensures forall p :: p in r <==> exists i | 0 <= i < n :: Explains(b, i) && p == Here(b, i)
  {
    if n == 0 then {} else Explaining(b, n - 1) + if Explains(b, n - 1) then {Here(b, n - 1)} else {}
  }

  function Above(b: Batch, i: nat): (r: set<ScopedSpan>)
    ensures forall p :: p in r <==> p.resource == At(b, i).resource && p.key in Ancestors(b.parents, Key(b, i))
  {
    set k <- Ancestors(b.parents, Key(b, i)) :: ScopedSpan(At(b, i).resource, k)
  }

  /** Spans with one on themselves or below. */
  function Explained(b: Batch, n: nat): (r: set<ScopedSpan>)
    ensures forall p :: p in r <==> exists i | 0 <= i < n :: Explains(b, i) && (p == Here(b, i) || p in Above(b, i))
  {
    if n == 0 then {} else Explained(b, n - 1) + if Explains(b, n - 1) then {Here(b, n - 1)} + Above(b, n - 1) else {}
  }

  /** Whether the pass drops signal `i`. */
  predicate Redundant(b: Batch, i: nat) {
    At(b, i).kind == Status && HasIds(At(b, i))
    && (Here(b, i) in Explained(b, |b.signals|)
        || exists k <- Ancestors(b.parents, Key(b, i)) :: ScopedSpan(At(b, i).resource, k) in Explaining(b, |b.signals|))
  }

  /** One span is reached from the other by parent links, or they are the same. */
  ghost predicate OneChain(parents: Parents, a: SpanKey, c: SpanKey) {
    || a == c
    || (exists n: nat :: Up(parents, a, n) == Some(c))
    || (exists n: nat :: Up(parents, c, n) == Some(a))
  }

  /**
   * Rule 2: a status-only signal is dropped exactly when an unhandled error or fatal exception or outcome of
   * the same trace and resource is on the same span, an ancestor or a descendant.
   */
  lemma RedundantExactly(b: Batch, i: nat)
    requires i < |b.signals| && forall k <- b.parents :: b.parents[k].trace == k.trace
    ensures Redundant(b, i) <==>
              At(b, i).kind == Status && HasIds(At(b, i))
              && exists j :: 0 <= j < |b.signals| && Explains(b, j)
                   && BucketKeyOf(At(b, j)) == BucketKeyOf(At(b, i)) && OneChain(b.parents, Key(b, j), Key(b, i))
  {
    var key := Key(b, i);
    AncestorsAreAbove(b.parents, key);
    AncestorsSameTrace(b.parents, key);
    forall j | 0 <= j < |b.signals|
      ensures BucketKeyOf(At(b, j)) == BucketKeyOf(At(b, i)) && OneChain(b.parents, Key(b, j), key)
        <==> At(b, j).resource == At(b, i).resource
             && (Key(b, j) == key || key in Ancestors(b.parents, Key(b, j)) || Key(b, j) in Ancestors(b.parents, key))
    {
      AncestorsAreAbove(b.parents, Key(b, j));
      AncestorsSameTrace(b.parents, Key(b, j));
    }
    RedundantByChain(b, i);
  }

  lemma RedundantByChain(b: Batch, i: nat)
    ensures Redundant(b, i) <==>
              At(b, i).kind == Status && HasIds(At(b, i))
              && exists j :: 0 <= j < |b.signals| && Explains(b, j) && At(b, j).resource == At(b, i).resource
                   && (Key(b, j) == Key(b, i) || Key(b, i) in Ancestors(b.parents, Key(b, j))
                       || Key(b, j) in Ancestors(b.parents, Key(b, i)))
  {
    var key, n := Key(b, i), |b.signals|;
    if k :| k in Ancestors(b.parents, key) && ScopedSpan(At(b, i).resource, k) in Explaining(b, n) {
      var j :| 0 <= j < n && Explains(b, j) && ScopedSpan(At(b, i).resource, k) == Here(b, j);
    }
    forall j | 0 <= j < n && Explains(b, j) && At(b, j).resource == At(b, i).resource && Key(b, j) in Ancestors(b.parents, key)
      ensures ScopedSpan(At(b, i).resource, Key(b, j)) in Explaining(b, n)
    {
      assert ScopedSpan(At(b, i).resource, Key(b, j)) == Here(b, j);
    }
  }
}
