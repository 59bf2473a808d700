/**
 * What the sink does with its waiting batches, exactly (packages/otlp-ingester/src/sink.ts): no due batch waits while
 * a send may start, the oldest due ones start first, a wake is set for the rest, and what each outcome leads to.
 */
module SinkPumps {
  import opened Wrappers
  import opened SinkModel
  import opened SinkProofs
  import opened SinkSteps
  import opened SinkTheorems
  import opened SinkEvictions

  /** How many sends may be under way: one while the sink fails. */
  function Allowed(c: Config, s: Sink): int {
    if s.failures > 0 then 1 else c.healthy
  }

  /** Nothing due waits, or as many sends are under way as may be. */
  ghost predicate Drained(c: Config, s: Sink, now: int) {
    (forall b <- s.queue :: b.nextAt > now) || |s.flights| >= Allowed(c, s)
  }

  /** A wake is set for the earliest waiting batch, or there is nothing to wake for. */
  ghost predicate WakesRightly(c: Config, s: Sink) {
    if s.queue != [] && |s.flights| < Allowed(c, s)
    then s.timer.Some? && (forall b <- s.queue :: s.timer.value <= b.nextAt) && exists b <- s.queue :: b.nextAt == s.timer.value
    else s.timer == None
  }

  lemma ScheduleWakes(c: Config, s: Sink)
    requires !s.stopped
    ensures WakesRightly(c, ScheduleWake(c, s))
  {
    if s.queue != [] {
      var t := Earliest(s.queue);
      var i :| 0 <= i < |s.queue| && s.queue[i].nextAt == t;
      assert s.queue[i] in s.queue;
    }
  }

  // ---------- which batches start ----------

  /** The events of sends that started, each of a due batch older than every due batch left in the queue. */
  ghost predicate StartsOldest(s: Sink, r: Sink, now: int) {
    && Extends(s.log, r.log) && |r.log| - |s.log| == |r.flights| - |s.flights| && s.flights <= r.flights
    && (forall k | |s.log| <= k < |r.log| :: StartedFrom(s, r, now, r.log[k]))
    && (forall b <- r.queue :: b in s.queue)
  }

  ghost predicate StartedFrom(s: Sink, r: Sink, now: int, e: Event) {
    && e.Started? && (exists b <- s.queue :: b.number == e.number && b.nextAt <= now && e.attempt == b.attempts + 1)
    && (forall b <- r.queue :: b.nextAt <= now ==> e.number < b.number)
  }

  lemma FirstDueIsOldest(q: seq<Batch>, now: int)
    requires Sorted(q) && FirstDue(q, now) < |q|
    ensures var at := FirstDue(q, now);
            forall b <- RemoveAt(q, at) :: b.nextAt <= now ==> q[at].number < b.number
  {
    var at := FirstDue(q, now);
    var rest := RemoveAt(q, at);
    forall k | 0 <= k < |rest| ensures rest[k].nextAt <= now ==> q[at].number < rest[k].number {
      assert rest[k] == q[if k < at then k else k + 1];
    }
  }

  lemma StartsNothing(s: Sink, now: int)
    ensures StartsOldest(s, s, now)
  {}

  lemma StartsOneMore(s: Sink, one: Sink, r: Sink, now: int, at: nat)
    requires Sorted(s.queue) && at == FirstDue(s.queue, now) < |s.queue| && one == Start(s, at) && StartsOldest(one, r, now)
    ensures StartsOldest(s, r, now)
  {
    FirstDueIsOldest(s.queue, now);
    forall b <- one.queue ensures b in s.queue {
      var k :| 0 <= k < |one.queue| && one.queue[k] == b;
      assert b == s.queue[if k < at then k else k + 1];
    }
    assert r.log[|s.log|] == one.log[|s.log|] by { assert r.log[..|one.log|][|s.log|] == one.log[|s.log|]; }
    assert s.queue[at] in s.queue;
    assert r.log[..|s.log|] == r.log[..|one.log|][..|s.log|];
    forall k | |s.log| <= k < |r.log| ensures StartedFrom(s, r, now, r.log[k]) {
      if k > |s.log| { assert StartedFrom(one, r, now, r.log[k]); }
    }
  }

  lemma {:induction false} StartDueDrains(c: Config, s: Sink, limit: int, now: int)
    requires QueueOk(c, s)
    ensures var r := StartDue(s, limit, now);
            && StartsOldest(s, r, now) && r.failures == s.failures && r.stopped == s.stopped
            && ((forall b <- r.queue :: b.nextAt > now) || |r.flights| >= limit)
    decreases |s.queue|
  {
    var at := FirstDue(s.queue, now);
    if |s.flights| < limit && at < |s.queue| {
      var one := Start(s, at);
      assert QueueOk(c, one) by { TakeOut(c, s, at); }
      StartDueDrains(c, one, limit, now);
      StartsOneMore(s, one, StartDue(one, limit, now), now, at);
    } else {
      StartsNothing(s, now);
    }
  }

  /** What pumping does. */
  ghost predicate Pumped(c: Config, s: Sink, r: Sink, now: int) {
    Drained(c, r, now) && WakesRightly(c, r) && StartsOldest(s, r, now)
  }

  lemma PumpDrains(c: Config, s: Sink, now: int)
    requires QueueOk(c, s) && !s.stopped
    ensures Pumped(c, s, Pump(c, s, now), now)
  {
    hide StartDue;
    var mid := StartDue(s, if s.failures > 0 then 1 else c.healthy, now);
    StartDueDrains(c, s, if s.failures > 0 then 1 else c.healthy, now);
    ScheduleWakes(c, mid);
    assert Pump(c, s, now) == ScheduleWake(c, mid);
  }

  // ---------- every step that pumps ----------

  /** The state in which a step pumps, and when: after a batch was accepted, a send's end and a wake. */
  function PumpedFrom(c: Config, s: Sink, e: Step): Option<(Sink, int)>
    requires Enabled(s, e)
  {
    if s.stopped then None
    else
      match e
      case DoEnqueue(org, bytes, empty, now) =>
        if empty || bytes > c.maxBytes then None
        else Some((Enforce(c, Pushed(s, Batch(s.numbered + 1, org, bytes, 0, now))), now))
      case DoFinally(i, now) => Some((s.(flights := s.flights[..i] + s.flights[i + 1..]), now))
      case DoWake(now) => Some((s.(timer := None), now))
      case _ => None
  }

  lemma PumpedFromOk(c: Config, s: Sink, e: Step, mid: Sink, now: int)
    requires Core(c, s) && Enabled(s, e) && PumpedFrom(c, s, e) == Some((mid, now))
    ensures QueueOk(c, mid) && !mid.stopped && Next(c, s, e) == Pump(c, mid, now)
  {
    match e
    case DoEnqueue(org, bytes, empty, _) =>
      var b := Batch(s.numbered + 1, org, bytes, 0, now);
      EnqueuedOk(c, s, b);
    case DoFinally(i, _) =>
    case DoWake(_) =>
  }

  lemma EnqueuedOk(c: Config, s: Sink, b: Batch)
    requires Core(c, s) && b.number == s.numbered + 1 && 0 < b.bytes <= c.maxBytes && b.attempts == 0
    ensures QueueOk(c, Enforce(c, Pushed(s, b))) && Enforce(c, Pushed(s, b)).stopped == s.stopped
  {
    PushCore(c, s, b);
    EnforceCore(c, Pushed(s, b));
    EnforceFrame(c, Pushed(s, b));
  }

  /**
   * After every step of every run at which the sink may start sends - an accepted batch, a send's end, a wake - no due
   * batch waits unless as many sends are under way as may be: the configured number, or one while the sink fails. The
   * sends that started are of the oldest due batches; and when one could start later, a wake is set for the earliest.
   */
  lemma NothingDueWaits(c: Config, s: Sink, e: Step)
    requires Reached(c, s) && Enabled(s, e) && PumpedFrom(c, s, e).Some?
    ensures var r, (mid, now) := Next(c, s, e), PumpedFrom(c, s, e).value;
            && ((forall b <- r.queue :: b.nextAt > now) || |r.flights| >= (if r.failures > 0 then 1 else c.healthy))
            && WakesRightly(c, r) && StartsOldest(mid, r, now)
  {
    ReachedInv(c, s);
    var (mid, now) := PumpedFrom(c, s, e).value;
    PumpedFromOk(c, s, e, mid, now);
    PumpDrains(c, mid, now);
  }

  /** With nothing failed and the first two batches due, both are sent at once: a sink of two does not wait for one. */
  lemma TwoAtOnce(c: Config, init: Sink, org: string, n: nat, m: nat)
    requires IsInit(init) && c.healthy == 2 && c.maxBatches >= 1 && 0 < n <= c.maxBytes && 0 < m <= c.maxBytes
    ensures var one := Next(c, init, DoEnqueue(org, n, false, 0));
            var two := Next(c, one, DoEnqueue(org, m, false, 0));
            && two.queue == [] && |two.flights| == 2 && two.timer == None
            && two.flights[0].batch == Batch(1, org, n, 1, 0) && two.flights[1].batch == Batch(2, org, m, 1, 0)
  {
    SentAtOnce(c, init, org, n);
    SentAtOnce(c, Enqueue(c, init, org, n, false, 0), org, m);
  }

  lemma SentAtOnce(c: Config, s: Sink, org: string, bytes: nat)
    requires !s.stopped && s.queue == [] && s.bytes == 0 && s.byOrg == [] && s.failures == 0 && |s.flights| < c.healthy
    requires c.maxBatches >= 1 && 0 < bytes <= c.maxBytes
    ensures var r := Enqueue(c, s, org, bytes, false, 0);
            && !r.stopped && r.queue == [] && r.bytes == 0 && r.byOrg == [] && r.failures == 0 && r.timer == None
            && |r.flights| == |s.flights| + 1 && r.flights[..|s.flights|] == s.flights && r.numbered == s.numbered + 1
            && r.flights[|s.flights|].batch == Batch(s.numbered + 1, org, bytes, 1, 0)
  {
    var pushed := Pushed(s, NewBatch(s, org, bytes));
    assert !Over(c, pushed) && pushed.queue == [NewBatch(s, org, bytes)] && pushed.byOrg == [Share(org, bytes)];
    var one := Start(pushed, 0);
    assert one.queue == [] && one.byOrg == [] && one.bytes == 0;
    assert StartDue(one, c.healthy, 0) == one;
    assert StartDue(pushed, c.healthy, 0) == one;
  }

  // ---------- what an outcome leads to ----------

  /**
   * A delivered batch is done; a rejected one, or one sent as often as allowed, is given up; any other failed one waits
   * again until its retry, at its place, unless the queue is then over a bound and it is dropped for that.
   */
  lemma OutcomeMeans(c: Config, s: Sink, i: nat, outcome: Outcome, nextAt: int)
    requires Reached(c, s) && i < |s.flights| && !s.flights[i].settled
    ensures var b, r := s.flights[i].batch, Next(c, s, DoSettle(i, outcome, nextAt));
            && r.flights == s.flights[i := s.flights[i].(settled := true)]
            && (outcome == Ok ==> r.log == s.log + [Delivered(b.number, b.attempts)] && r.queue == s.queue)
            && (outcome == Rejected || (outcome == Retryable && b.attempts >= c.maxAttempts) ==>
                  r.log == s.log + [Failed(b.number, b.attempts), GaveUp(b.number, b.attempts)] && r.queue == s.queue)
            && (outcome == Retryable && b.attempts < c.maxAttempts ==>
                  (r.retried == s.retried + 1 && (b.(nextAt := nextAt) in r.queue || b.number in Dropped(r.log))))
            && (outcome == Ok ==> r.failures == 0 || r.failures == s.failures)
            && (outcome != Ok ==> r.failures == s.failures + 1)
  {
    var b := s.flights[i].batch;
    ReachedInv(c, s);
    if outcome == Retryable && b.attempts < c.maxAttempts {
      var mid := SettleRetry(s, i, nextAt);
      assert QueueOk(c, mid) by { RetryQueue(c, s, i, nextAt); }
      var at := FirstLater(s.queue, b.number);
      assert mid.queue[at] == b.(nextAt := nextAt);
      EnforceKeepsOrDrops(c, mid, at);
      EnforceFrame(c, mid);
      EnforceRetried(c, mid);
    } else if outcome != Ok {
      assert s.log + [Failed(b.number, b.attempts)] + [GaveUp(b.number, b.attempts)]
          == s.log + [Failed(b.number, b.attempts), GaveUp(b.number, b.attempts)];
    }
  }

  lemma {:induction false} EnforceRetried(c: Config, s: Sink)
    ensures Enforce(c, s).retried == s.retried
    decreases |s.queue|
  {
    if Over(c, s) && s.queue != [] { EnforceRetried(c, Evict(s)); }
  }

  lemma EvictKeeps(s: Sink, at: nat) returns (k: nat)
    requires at < |s.queue|
    ensures at != VictimAt(s) ==> k < |Evict(s).queue| && Evict(s).queue[k] == s.queue[at]
    ensures at == VictimAt(s) ==> s.queue[at].number in Dropped(Evict(s).log)
  {
    EvictDrops(s);
    k := if at <= VictimAt(s) then at else at - 1;
  }

  /** A waiting batch is still waiting when the bounds hold, or was dropped. */
  lemma {:induction false} EnforceKeepsOrDrops(c: Config, s: Sink, at: nat)
    requires at < |s.queue|
    ensures s.queue[at] in Enforce(c, s).queue || s.queue[at].number in Dropped(Enforce(c, s).log)
    decreases |s.queue|
  {
    if Over(c, s) && s.queue != [] {
      var k := EvictKeeps(s, at);
      EnforceDrops(c, Evict(s));
      var v := VictimAt(s);
      hide Evict, VictimAt, Dropped;
      if at != v { EnforceKeepsOrDrops(c, Evict(s), k); }
    }
  }

  /** Once stopped, nothing is queued or sent. */
  lemma StoppedStaysStill(c: Config, s: Sink, e: Step)
    requires Reached(c, s) && Enabled(s, e) && s.stopped
    ensures var r := Next(c, s, e); r.stopped && r.timer == None && |r.flights| <= |s.flights|
    ensures e.DoEnqueue? ==> Next(c, s, e) == s
  {
    ReachedInv(c, s);
    match e
    case DoEnqueue(_, _, _, _) =>
    case DoSettle(i, outcome, nextAt) =>
      if outcome == Retryable && s.flights[i].batch.attempts < c.maxAttempts { EnforceFrame(c, SettleRetry(s, i, nextAt)); }
    case DoFinally(_, _) =>
    case DoWake(_) =>
    case DoStop =>
  }
}
