/**
 * Whom `enforceBounds` evicts, over every run: the oldest batch of an org that holds the most bytes, exactly
 * as long as the org the scan finds has a non-empty id.
 */
module SinkEvictions {
  import opened Wrappers
  import opened SinkModel
  import opened SinkProofs
  import opened SinkSteps
  import opened SinkTheorems

  // ---------- who is evicted ----------

  /** The batch at `at` is the oldest of an org that holds the most bytes. */
  ghost predicate Fair(s: Sink, at: nat)
    requires at < |s.queue|
  {
    && (forall i | 0 <= i < at :: s.queue[i].org != s.queue[at].org)
    && (forall org :: Sum(OrgBytes(org), s.queue) <= Sum(OrgBytes(s.queue[at].org), s.queue))
  }

  lemma {:induction false} ShareAt(shares: seq<Share>, i: nat)
    requires i < |shares| && forall i, j | 0 <= i < j < |shares| :: shares[i].org != shares[j].org
    ensures ShareOf(shares, shares[i].org) == shares[i].bytes
  {
    if i > 0 { ShareAt(shares[1..], i - 1); }
  }

  lemma {:induction false} ShareFound(shares: seq<Share>, org: string)
    requires ShareOf(shares, org) > 0
    ensures exists i | 0 <= i < |shares| :: shares[i].org == org && shares[i].bytes == ShareOf(shares, org)
  {
    if shares[0].org != org {
      ShareFound(shares[1..], org);
      var i :| 0 <= i < |shares[1..]| && shares[1..][i].org == org && shares[1..][i].bytes == ShareOf(shares, org);
      assert shares[i + 1] == shares[1..][i];
    }
  }

  /** The scan finds an org no other outweighs. */
  lemma ScanFindsHeaviest(c: Config, s: Sink)
    requires QueueOk(c, s) && s.queue != []
    ensures var h := HeaviestOf(s.byOrg, |s.byOrg|);
            && h.org.Some? && h.bytes == Sum(OrgBytes(h.org.value), s.queue) > 0
            && forall org :: Sum(OrgBytes(org), s.queue) <= h.bytes
  {
    var h := HeaviestOf(s.byOrg, |s.byOrg|);
    assert ShareOf(s.byOrg, s.queue[0].org) == Sum(OrgBytes(s.queue[0].org), s.queue) >= s.queue[0].bytes > 0;
    ShareFound(s.byOrg, s.queue[0].org);
    forall org ensures Sum(OrgBytes(org), s.queue) <= h.bytes {
      assert ShareOf(s.byOrg, org) == Sum(OrgBytes(org), s.queue);
      if ShareOf(s.byOrg, org) > 0 { ShareFound(s.byOrg, org); }
    }
    var i :| 0 <= i < |s.byOrg| && s.byOrg[i] == Share(h.org.value, h.bytes);
    ShareAt(s.byOrg, i);
  }

  /** Among equally heavy orgs the scan finds the first on its list. */
  lemma {:induction false} FirstHeaviest(shares: seq<Share>, n: nat, i: nat)
    requires i < n <= |shares| && shares[i].bytes >= 0
    ensures var h := HeaviestOf(shares, n);
            shares[i].bytes == h.bytes ==> exists j | 0 <= j <= i :: h.org == Some(shares[j].org) && shares[j].bytes == h.bytes
  {
    var before := HeaviestOf(shares, n - 1);
    if i < n - 1 { FirstHeaviest(shares, n - 1, i); }
  }

  lemma {:induction false} WeighsSomething(q: seq<Batch>, org: string)
    requires Sum(OrgBytes(org), q) > 0
    ensures FirstOf(q, org) < |q|
  {
    if q[0].org != org { WeighsSomething(q[1..], org); }
  }

  /** What a caller can tell of the buffer: the scan ends at a named org, or the oldest batch is as heavy an org's. */
  ghost predicate FairGuard(s: Sink)
    requires s.queue != []
  {
    || HeaviestOf(s.byOrg, |s.byOrg|).org != Some("")
    || ShareOf(s.byOrg, s.queue[0].org) == ShareOf(s.byOrg, "")
  }

  /**
   * The evicted batch is the oldest of a heaviest org, except when that org's id is empty: then the oldest
   * batch of all goes, fair only when its own org is as heavy.
   */
  lemma EvictionIsFair(c: Config, s: Sink)
    requires QueueOk(c, s) && Over(c, s) && s.queue != []
    ensures Fair(s, VictimAt(s)) <==> FairGuard(s)
  {
    ScanFindsHeaviest(c, s);
    var h := HeaviestOf(s.byOrg, |s.byOrg|);
    if h.org != Some("") { WeighsSomething(s.queue, h.org.value); }
    assert ShareOf(s.byOrg, s.queue[0].org) == Sum(OrgBytes(s.queue[0].org), s.queue);
    assert ShareOf(s.byOrg, "") == Sum(OrgBytes(""), s.queue);
  }

  // ---------- every eviction of every run ----------

  /** The states in which one call of `enforceBounds` evicts, in order. */
  function EvictingStates(c: Config, s: Sink): seq<Sink>
    decreases |s.queue|
  {
    if Over(c, s) && s.queue != [] then [s] + EvictingStates(c, Evict(s)) else []
  }

  /** The state in which a step calls `enforceBounds`: only a new batch and a retry can cross a bound. */
  function Bounding(c: Config, s: Sink, e: Step): Option<Sink>
    requires Enabled(s, e)
  {
    match e
    case DoEnqueue(org, bytes, empty, now) =>
      if s.stopped || empty || bytes > c.maxBytes then None
      else Some(Pushed(s, Batch(s.numbered + 1, org, bytes, 0, now)))
    case DoSettle(i, outcome, nextAt) =>
      if outcome != Retryable || s.flights[i].batch.attempts >= c.maxAttempts then None
      else Some(SettleRetry(s, i, nextAt))
    case _ => None
  }

  /** The states in which a step evicts. */
  function EvictingIn(c: Config, s: Sink, e: Step): seq<Sink>
    requires Enabled(s, e)
  {
    var mid := Bounding(c, s, e);
    if mid.None? then [] else EvictingStates(c, mid.value)
  }

  /** A batch larger than the whole buffer is refused, and never enters the queue. */
  predicate Refuses(c: Config, s: Sink, e: Step) {
    e.DoEnqueue? && !s.stopped && !e.empty && e.bytes > c.maxBytes
  }

  /** The numbers of the batches dropped for overflow, in order. */
  function Dropped(log: seq<Event>): seq<nat> {
    if log == [] then []
    else Dropped(log[..|log| - 1]) + (if log[|log| - 1].Overflowed? then [log[|log| - 1].number] else [])
  }

  lemma {:induction false} DroppedAppend(a: seq<Event>, b: seq<Event>)
    ensures Dropped(a + b) == Dropped(a) + Dropped(b)
    decreases |b|
  {
    if b == [] {
      assert a + b == a;
    } else {
      var n := |b| - 1;
      assert (a + b)[..|a + b| - 1] == a + b[..n];
      DroppedAppend(a, b[..n]);
    }
  }

  /** A bound is crossed, and there is a batch to evict. */
  ghost predicate Crosses(c: Config, s: Sink) {
    s.queue != [] && QueueOk(c, s) && Over(c, s)
  }

  ghost predicate AllCross(c: Config, ts: seq<Sink>) {
    forall k | 0 <= k < |ts| :: Crosses(c, ts[k])
  }

  predicate HaveBatches(ts: seq<Sink>) {
    forall k | 0 <= k < |ts| :: ts[k].queue != []
  }

  /** The batches evicted in these states. */
  function Victims(ts: seq<Sink>): seq<nat>
    requires HaveBatches(ts)
  {
    if ts == [] then [] else [ts[0].queue[VictimAt(ts[0])].number] + Victims(ts[1..])
  }

  lemma EvictDrops(s: Sink)
    requires s.queue != []
    ensures Dropped(Evict(s).log) == Dropped(s.log) + [s.queue[VictimAt(s)].number]
  {
    DroppedAppend(s.log, [Overflowed(s.queue[VictimAt(s)].number)]);
  }

  lemma VictimsFirst(s: Sink, ts: seq<Sink>)
    requires s.queue != [] && HaveBatches(ts)
    ensures HaveBatches([s] + ts) && Victims([s] + ts) == [s.queue[VictimAt(s)].number] + Victims(ts)
  {
    assert ([s] + ts)[1..] == ts;
  }

  lemma CrossFirst(c: Config, s: Sink, ts: seq<Sink>)
    requires Crosses(c, s) && AllCross(c, ts)
    ensures AllCross(c, [s] + ts)
  {}

  /** `enforceBounds` evicts only in states over a bound. */
  lemma {:induction false} EnforceCrosses(c: Config, s: Sink)
    requires QueueOk(c, s)
    ensures AllCross(c, EvictingStates(c, s))
    decreases |s.queue|
  {
    if Over(c, s) && s.queue != [] {
      TakeOut(c, s, VictimAt(s));
      EnforceCrosses(c, Evict(s));
      CrossFirst(c, s, EvictingStates(c, Evict(s)));
    }
  }

  /** It drops exactly one victim in each of them. */
  lemma {:induction false} EnforceDrops(c: Config, s: Sink)
    ensures HaveBatches(EvictingStates(c, s))
    ensures Dropped(Enforce(c, s).log) == Dropped(s.log) + Victims(EvictingStates(c, s))
    decreases |s.queue|
  {
    if Over(c, s) && s.queue != [] {
      EvictDrops(s);
      EnforceDrops(c, Evict(s));
      VictimsFirst(s, EvictingStates(c, Evict(s)));
    }
  }

  lemma {:induction false} StartsDropNothing(s: Sink, limit: int, now: int)
    ensures Dropped(StartDue(s, limit, now).log) == Dropped(s.log)
    decreases |s.queue|
  {
    var at := FirstDue(s.queue, now);
    if |s.flights| < limit && at < |s.queue| {
      var one := Start(s, at);
      assert one.log[..|one.log| - 1] == s.log;
      StartsDropNothing(one, limit, now);
    }
  }

  lemma PumpDropsNothing(c: Config, s: Sink, now: int)
    ensures Dropped(Pump(c, s, now).log) == Dropped(s.log)
  {
    StartsDropNothing(s, Limit(c, s), now);
  }

  lemma SettledDropsNothing(s: Sink, i: nat)
    requires i < |s.flights|
    ensures Dropped(SettleOk(s, i).log) == Dropped(SettleGiveUp(s, i).log) == Dropped(s.log)
  {
    var b := s.flights[i].batch;
    DroppedAppend(s.log, [Delivered(b.number, b.attempts)]);
    DroppedAppend(s.log, [Failed(b.number, b.attempts)]);
    DroppedAppend(s.log + [Failed(b.number, b.attempts)], [GaveUp(b.number, b.attempts)]);
  }

  lemma PushedDropsNothing(c: Config, s: Sink, e: Step, mid: Sink)
    requires Core(c, s) && Enabled(s, e) && e.DoEnqueue? && Bounding(c, s, e) == Some(mid)
    ensures QueueOk(c, mid) && mid.log == s.log && Dropped(Next(c, s, e).log) == Dropped(Enforce(c, mid).log)
  {
    hide QueueOk, FlightsOk, Conserved, CountersOk, HealthOk;
    var b := Batch(s.numbered + 1, e.org, e.bytes, 0, e.now);
    assert QueueOk(c, Pushed(s, b)) by { PushCore(c, s, b); }
    PumpDropsNothing(c, Enforce(c, mid), e.now);
  }

  lemma RetriedDropsNothing(c: Config, s: Sink, e: Step, mid: Sink)
    requires Core(c, s) && Enabled(s, e) && e.DoSettle? && Bounding(c, s, e) == Some(mid)
    ensures QueueOk(c, mid) && Dropped(mid.log) == Dropped(s.log) && Next(c, s, e).log == Enforce(c, mid).log
  {
    hide Core, QueueOk;
    var b := s.flights[e.i].batch;
    RetryQueue(c, s, e.i, e.nextAt);
    DroppedAppend(s.log, [Failed(b.number, b.attempts)]);
  }

  lemma UnboundedDropsNothing(c: Config, s: Sink, e: Step)
    requires Enabled(s, e) && Bounding(c, s, e).None?
    ensures Dropped(Next(c, s, e).log) == Dropped(s.log) + (if Refuses(c, s, e) then [s.numbered + 1] else [])
  {
    match e {
      case DoEnqueue(_, _, _, _) => DroppedAppend(s.log, [Overflowed(s.numbered + 1)]);
      case DoSettle(i, _, _) => SettledDropsNothing(s, i);
      case DoFinally(i, now) => PumpDropsNothing(c, s.(flights := RemoveAt(s.flights, i)), now);
      case DoWake(now) => PumpDropsNothing(c, s.(timer := None), now);
      case DoStop =>
    }
  }

  lemma BoundedDrops(c: Config, mid: Sink, dropped: seq<nat>)
    requires QueueOk(c, mid) && dropped == Dropped(Enforce(c, mid).log)
    ensures var ts := EvictingStates(c, mid);
            AllCross(c, ts) && HaveBatches(ts) && dropped == Dropped(mid.log) + Victims(ts)
  {
    EnforceCrosses(c, mid);
    EnforceDrops(c, mid);
  }

  lemma CallsBounds(c: Config, s: Sink, e: Step, mid: Sink, dropped: seq<nat>)
    requires Core(c, s) && Enabled(s, e) && dropped == Dropped(Next(c, s, e).log) && Bounding(c, s, e) == Some(mid)
    ensures QueueOk(c, mid) && Dropped(mid.log) == Dropped(s.log) && dropped == Dropped(Enforce(c, mid).log)
    ensures !Refuses(c, s, e)
  {
    if e.DoEnqueue? { PushedDropsNothing(c, s, e, mid); } else { RetriedDropsNothing(c, s, e, mid); }
  }

  lemma StepDrops(c: Config, s: Sink, e: Step, dropped: seq<nat>)
    requires Core(c, s) && Enabled(s, e) && dropped == Dropped(Next(c, s, e).log)
    ensures var ts := EvictingIn(c, s, e);
            && AllCross(c, ts) && HaveBatches(ts)
            && dropped == Dropped(s.log) + (if Refuses(c, s, e) then [s.numbered + 1] else Victims(ts))
  {
    var bounding := Bounding(c, s, e);
    if bounding.None? {
      UnboundedDropsNothing(c, s, e);
    } else {
      var mid := bounding.value;
      assert QueueOk(c, mid) && Dropped(mid.log) == Dropped(s.log) && dropped == Dropped(Enforce(c, mid).log)
          && !Refuses(c, s, e) by {
        CallsBounds(c, s, e, mid, dropped);
      }
      BoundedDrops(c, mid, dropped);
    }
  }

  /**
   * Over every run, step by step: what a step drops for overflow is a refused batch or the victim of one of its
   * evicting states, each over a bound, and the victim is the oldest batch of a heaviest org exactly under the
   * guard.
   */
  lemma EveryEvictionIsFair(c: Config, s: Sink, e: Step)
    requires Reached(c, s) && Enabled(s, e)
    ensures var ts := EvictingIn(c, s, e);
            && HaveBatches(ts)
            && Dropped(Next(c, s, e).log)
               == Dropped(s.log) + (if Refuses(c, s, e) then [s.numbered + 1] else Victims(ts))
    ensures forall t <- EvictingIn(c, s, e) :: t.queue != [] && Over(c, t) && (Fair(t, VictimAt(t)) <==> FairGuard(t))
  {
    ReachedInv(c, s);
    StepDrops(c, s, e, Dropped(Next(c, s, e).log));
    forall t <- EvictingIn(c, s, e) ensures t.queue != [] && Over(c, t) && (Fair(t, VictimAt(t)) <==> FairGuard(t)) {
      assert Crosses(c, t);
      EvictionIsFair(c, t);
    }
  }

  // ---------- an empty org id ----------

  /** The only send allowed is under way: nothing can start. */
  predicate Busy(c: Config, s: Sink) {
    !s.stopped && s.failures == 0 && c.healthy == 1 && |s.flights| == 1
  }

  function NewBatch(s: Sink, org: string, bytes: nat): Batch {
    Batch(s.numbered + 1, org, bytes, 0, 0)
  }

  lemma FirstGoesOut(c: Config, s: Sink, org: string, bytes: nat)
    requires IsInit(s) && c.healthy == 1 && c.maxBatches >= 1 && 0 < bytes <= c.maxBytes
    ensures var r := Enqueue(c, s, org, bytes, false, 0);
            Busy(c, r) && r.queue == [] && r.byOrg == [] && r.bytes == 0 && r.numbered == 1
  {
    var pushed := Pushed(s, NewBatch(s, org, bytes));
    assert !Over(c, pushed) && pushed.queue == [NewBatch(s, org, bytes)] && pushed.byOrg == [Share(org, bytes)];
    var one := Start(pushed, 0);
    assert one.queue == [] && one.byOrg == [] && one.bytes == 0;
    assert StartDue(pushed, 1, 0) == one;
  }

  /** While the send lasts, a batch that fits waits. */
  lemma JustQueued(c: Config, s: Sink, org: string, bytes: nat)
    requires Busy(c, s) && 0 < bytes <= c.maxBytes
    requires |s.queue| + 1 <= c.maxBatches && s.bytes + bytes <= c.maxBytes
    ensures var r := Enqueue(c, s, org, bytes, false, 0);
            && Busy(c, r) && r.queue == s.queue + [NewBatch(s, org, bytes)] && r.bytes == s.bytes + bytes
            && r.byOrg == SetShare(s.byOrg, org, ShareOf(s.byOrg, org) + bytes) && r.numbered == s.numbered + 1
  {
    assert !Over(c, Pushed(s, NewBatch(s, org, bytes)));
  }

  lemma TwoWaiting(c: Config, init: Sink, org: string, n: nat, m: nat, first: Sink, second: Sink, s: Sink)
    requires IsInit(init) && c.maxBatches == 2 && c.healthy == 1 && org != "" && 0 < n < m && n + m <= c.maxBytes
    requires first == Enqueue(c, init, org, n, false, 0) && second == Enqueue(c, first, org, n, false, 0)
    requires s == Enqueue(c, second, "", m, false, 0)
    ensures Busy(c, s) && s.numbered == 3 && s.bytes == n + m && s.byOrg == [Share(org, n), Share("", m)]
    ensures s.queue == [Batch(2, org, n, 0, 0), Batch(3, "", m, 0, 0)]
  {
    hide Enqueue;
    FirstGoesOut(c, init, org, n);
    JustQueued(c, first, org, n);
    assert second.queue == [Batch(2, org, n, 0, 0)] && second.byOrg == [Share(org, n)];
    JustQueued(c, second, "", m);
  }

  /** Three batches wait where two may: the org with the empty id weighs more, the other's batch is the victim. */
  lemma NamedOrgIsVictim(t: Sink, org: string, n: nat, m: nat)
    requires org != "" && n < m && t.byOrg == [Share(org, n), Share("", m + m)]
    requires t.queue == [Batch(2, org, n, 0, 0), Batch(3, "", m, 0, 0), Batch(4, "", m, 0, 0)]
    ensures VictimAt(t) == 0 && Sum(OrgBytes(org), t.queue) == n < Sum(OrgBytes(""), t.queue) == m + m
  {
    assert HeaviestOf(t.byOrg, 1) == Heaviest(Some(org), n);
    assert HeaviestOf(t.byOrg, 2) == Heaviest(Some(""), m + m);
    var two, one := [Batch(3, "", m, 0, 0), Batch(4, "", m, 0, 0)], [Batch(4, "", m, 0, 0)];
    assert t.queue[1..] == two && two[1..] == one && one[1..] == [];
    forall o ensures Sum(OrgBytes(o), t.queue) == Weight(OrgBytes(o), t.queue[0]) + Sum(OrgBytes(o), two) {}
    forall o ensures Sum(OrgBytes(o), two) == Weight(OrgBytes(o), two[0]) + Weight(OrgBytes(o), one[0]) {
      assert Sum(OrgBytes(o), two) == Weight(OrgBytes(o), two[0]) + Sum(OrgBytes(o), one);
    }
  }

  /** The step evicts once, and its victim is a batch of `org` although the empty id's org is strictly heavier. */
  ghost predicate EvictsLighter(c: Config, s: Sink, e: Step, org: string)
    requires Enabled(s, e)
  {
    exists t: Sink :: EvictingIn(c, s, e) == [t] && t.queue != []
      && t.queue[VictimAt(t)].org == org != ""
      && Sum(OrgBytes(org), t.queue) < Sum(OrgBytes(""), t.queue)
      && Dropped(Next(c, s, e).log) == Dropped(s.log) + [t.queue[VictimAt(t)].number]
  }

  lemma NamedThenEmpty(org: string, n: nat, m: nat)
    requires org != ""
    ensures var shares := [Share(org, n), Share("", m)];
            ShareOf(shares, "") == m && SetShare(shares, "", m + m) == [Share(org, n), Share("", m + m)]
  {
    assert [Share(org, n), Share("", m)][1..] == [Share("", m)];
  }

  lemma FourthCrosses(c: Config, s: Sink, org: string, n: nat, m: nat)
    requires Core(c, s) && Busy(c, s) && c.maxBatches == 2 && org != "" && 0 < n < m && n + m + m <= c.maxBytes
    requires s.numbered == 3 && s.bytes == n + m && s.byOrg == [Share(org, n), Share("", m)]
    requires s.queue == [Batch(2, org, n, 0, 0), Batch(3, "", m, 0, 0)]
    ensures EvictsLighter(c, s, DoEnqueue("", m, false, 0), org)
  {
    hide Next, Core;
    var t := Pushed(s, NewBatch(s, "", m));
    assert QueueOk(c, t) by { PushCore(c, s, NewBatch(s, "", m)); }
    NamedThenEmpty(org, n, m);
    NamedOrgIsVictim(t, org, n, m);
    assert EvictingStates(c, t) == [t] by { OneTooMany(c, t); }
    StepDrops(c, s, DoEnqueue("", m, false, 0), Dropped(Next(c, s, DoEnqueue("", m, false, 0)).log));
  }

  lemma OneTooMany(c: Config, t: Sink)
    requires QueueOk(c, t) && |t.queue| == c.maxBatches + 1 && t.bytes <= c.maxBytes && c.maxBatches >= 0
    ensures EvictingStates(c, t) == [t]
  {
    assert !Over(c, Evict(t));
  }

  /**
   * A run in which an eviction is not fair. One send is under way; a batch of a named org and a heavier one of an
   * org with an empty id wait; another batch of that org crosses the bound, and the named org's batch is dropped.
   */
  lemma EmptyOrgEvictsOthers(c: Config, init: Sink, org: string, n: nat, m: nat) returns (s: Sink)
    requires IsInit(init) && c.maxBatches == 2 && c.healthy == 1 && org != "" && 0 < n < m && n + m + m <= c.maxBytes
    ensures Reached(c, s) && Busy(c, s) && s.queue == [Batch(2, org, n, 0, 0), Batch(3, "", m, 0, 0)]
    ensures EvictsLighter(c, s, DoEnqueue("", m, false, 0), org)
  {
    hide Core, EvictsLighter, Enqueue;
    var first := Enqueue(c, init, org, n, false, 0);
    var second := Enqueue(c, first, org, n, false, 0);
    s := Enqueue(c, second, "", m, false, 0);
    assert Reached(c, s) by {
      var e, last := DoEnqueue(org, n, false, 0), DoEnqueue("", m, false, 0);
      RunOfThree(c, init, e, e, last);
    }
    TwoWaiting(c, init, org, n, m, first, second, s);
    assert Core(c, s) by { ReachedInv(c, s); }
    FourthCrosses(c, s, org, n, m);
  }

  lemma RunOfThree(c: Config, s: Sink, a: Step, b: Step, d: Step)
    requires Enabled(s, a) && Enabled(Next(c, s, a), b) && Enabled(Next(c, Next(c, s, a), b), d)
    ensures Possible(c, s, [a, b, d]) && Run(c, s, [a, b, d]) == Next(c, Next(c, Next(c, s, a), b), d)
  {
    var s1 := Next(c, s, a);
    var s2 := Next(c, s1, b);
    hide Next, Enabled;
    RunOfOne(c, s2, d);
    RunMore(c, s1, b, [d]);
    RunMore(c, s, a, [b, d]);
    assert [b] + [d] == [b, d] && [a] + [b, d] == [a, b, d];
  }

  lemma RunOfOne(c: Config, s: Sink, d: Step)
    requires Enabled(s, d)
    ensures Possible(c, s, [d]) && Run(c, s, [d]) == Next(c, s, d)
  {
    assert [d][1..] == [];
    assert Possible(c, Next(c, s, d), []);
  }

  lemma RunMore(c: Config, s: Sink, a: Step, rest: seq<Step>)
    requires Enabled(s, a) && Possible(c, Next(c, s, a), rest)
    ensures Possible(c, s, [a] + rest) && Run(c, s, [a] + rest) == Run(c, Next(c, s, a), rest)
  {
    assert ([a] + rest)[1..] == rest;
  }
}
