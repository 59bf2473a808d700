/** What holds over every run of the sink delivery queue. */
module SinkTheorems {
  import opened Wrappers
  import opened SinkModel
  import opened SinkProofs
  import opened SinkSteps

  // ---------- the loops ----------

  predicate NoStarts(log: seq<Event>) {
    forall m | 0 <= m < |log| :: !log[m].Started?
  }

  predicate Attempts(c: Config, log: seq<Event>) {
    forall m | 0 <= m < |log| && log[m].Started? :: 1 <= log[m].attempt <= Max(1, c.maxAttempts)
  }

  /** `enforceBounds` ends within both bounds: a lone batch always fits. */
  lemma {:induction false} EnforceCore(c: Config, s: Sink)
    requires Core(c, s)
    ensures var r := Enforce(c, s); Core(c, r) && Within(c, r)
    decreases |s.queue|
  {
    if Over(c, s) && s.queue != [] {
      EvictCore(c, s);
      EnforceCore(c, Evict(s));
    } else if |s.queue| == 1 {
      assert s.queue[0].bytes <= c.maxBytes;
      assert Sum(AllBytes, s.queue) == s.queue[0].bytes;
    }
  }

  lemma {:induction false} EnforceFrame(c: Config, s: Sink)
    ensures var r := Enforce(c, s);
            r.flights == s.flights && r.failures == s.failures && r.stopped == s.stopped && r.timer == s.timer
    decreases |s.queue|
  {
    if Over(c, s) && s.queue != [] { EnforceFrame(c, Evict(s)); }
  }

  lemma {:induction false} EnforceLog(c: Config, s: Sink)
    ensures Extends(s.log, Enforce(c, s).log) && NoStarts(Enforce(c, s).log[|s.log|..])
    decreases |s.queue|
  {
    if Over(c, s) && s.queue != [] {
      var one := Evict(s);
      EnforceLog(c, one);
      MoreLog(s.log, one.log, Enforce(c, one).log);
      assert one.log[|s.log|..] == [Overflowed(s.queue[VictimAt(s)].number)];
    } else {
      assert s.log[|s.log|..] == [];
    }
  }

  predicate Extends(log: seq<Event>, longer: seq<Event>) {
    |log| <= |longer| && longer[..|log|] == log
  }

  lemma MoreLog(a: seq<Event>, b: seq<Event>, c: seq<Event>)
    requires Extends(a, b) && Extends(b, c)
    ensures Extends(a, c) && c[|a|..] == b[|a|..] + c[|b|..]
  {}

  lemma {:induction false} StartDueCore(c: Config, s: Sink, limit: int, now: int)
    requires Core(c, s) && Within(c, s) && limit <= Max(1, c.healthy)
    ensures var r := StartDue(s, limit, now); Core(c, r) && Within(c, r) && r.failures == s.failures && r.stopped == s.stopped
    decreases |s.queue|
  {
    var at := FirstDue(s.queue, now);
    if |s.flights| < limit && at < |s.queue| {
      StartCore(c, s, at);
      assert Start(s, at).bytes <= s.bytes;
      StartDueCore(c, Start(s, at), limit, now);
    }
  }

  /** Sends start only up to the limit, and within the allowed attempts. */
  lemma {:induction false} StartDueLog(c: Config, s: Sink, limit: int, now: int)
    requires QueueOk(c, s)
    ensures var r := StartDue(s, limit, now);
            && |s.flights| <= |r.flights| <= Max(|s.flights|, limit)
            && Extends(s.log, r.log) && Attempts(c, r.log[|s.log|..])
            && (|r.log| > |s.log| ==> |s.flights| < |r.flights| <= limit)
    decreases |s.queue|
  {
    hide SharesOk, Sorted;
    hide SharesOk;
    var at := FirstDue(s.queue, now);
    if |s.flights| < limit && at < |s.queue| {
      var one := Start(s, at);
      assert QueueOk(c, one) by { TakeOut(c, s, at); }
      StartDueLog(c, one, limit, now);
      MoreLog(s.log, one.log, StartDue(one, limit, now).log);
      assert one.log[|s.log|..] == [Started(s.queue[at].number, s.queue[at].attempts + 1)];
    } else {
      assert s.log[|s.log|..] == [];
    }
  }

  lemma PumpInv(c: Config, s: Sink, now: int)
    requires Core(c, s) && Within(c, s) && (s.stopped ==> s.timer.None?)
    ensures Inv(c, Pump(c, s, now))
  {
    if !s.stopped {
      StartDueCore(c, s, Limit(c, s), now);
      ScheduleInv(c, StartDue(s, Limit(c, s), now));
    }
  }

  lemma ScheduleInv(c: Config, s: Sink)
    requires Core(c, s) && Within(c, s)
    ensures Inv(c, ScheduleWake(c, s))
  {}

  /** The timer and the stop flag take no part in the core. */
  lemma TimerChange(c: Config, s: Sink, timer: Option<int>, stopped: bool)
    requires Core(c, s)
    ensures Core(c, s.(timer := timer, stopped := stopped))
  {}

  // ---------- every step ----------

  lemma EnqueueInv(c: Config, s: Sink, org: string, bytes: nat, empty: bool, now: int)
    requires Inv(c, s) && bytes > 0
    ensures Inv(c, Enqueue(c, s, org, bytes, empty, now))
  {
    hide Pump, Enforce, Inv;
    if !s.stopped && !empty {
      if bytes > c.maxBytes {
        RefusedInv(c, s);
      } else {
        AcceptedInv(c, s, Batch(s.numbered + 1, org, bytes, 0, now), now);
      }
    }
  }

  lemma RefusedInv(c: Config, s: Sink)
    requires Inv(c, s)
    ensures Inv(c, s.(numbered := s.numbered + 1, droppedOverflow := s.droppedOverflow + 1,
                      log := s.log + [Overflowed(s.numbered + 1)]))
  {
    RefusedCore(c, s);
    hide Core;
  }

  lemma AcceptedInv(c: Config, s: Sink, b: Batch, now: int)
    requires Inv(c, s) && !s.stopped && b.number == s.numbered + 1 && 0 < b.bytes <= c.maxBytes && b.attempts == 0
    ensures Inv(c, Pump(c, Enforce(c, Pushed(s, b)), now))
  {
    hide Core, Pump;
    PushCore(c, s, b);
    EnforceCore(c, Pushed(s, b));
    EnforceFrame(c, Pushed(s, b));
    PumpInv(c, Enforce(c, Pushed(s, b)), now);
  }

  lemma SettleInv(c: Config, s: Sink, i: nat, outcome: Outcome, nextAt: int)
    requires Inv(c, s) && i < |s.flights| && !s.flights[i].settled
    ensures Inv(c, Settle(c, s, i, outcome, nextAt))
  {
    if outcome == Ok {
      OkCore(c, s, i);
    } else if outcome == Rejected || s.flights[i].batch.attempts >= c.maxAttempts {
      GiveUpCore(c, s, i);
    } else {
      RetryCore(c, s, i, nextAt);
      EnforceCore(c, SettleRetry(s, i, nextAt));
      ScheduleInv(c, Enforce(c, SettleRetry(s, i, nextAt)));
    }
  }

  /** Any step keeps the whole invariant. */
  lemma StepInv(c: Config, s: Sink, e: Step)
    requires Inv(c, s) && Enabled(s, e)
    ensures Inv(c, Next(c, s, e))
  {
    match e
    case DoEnqueue(org, bytes, empty, now) => EnqueueInv(c, s, org, bytes, empty, now);
    case DoSettle(i, outcome, nextAt) => SettleInv(c, s, i, outcome, nextAt);
    case DoFinally(i, now) =>
      LandedCore(c, s, i);
      PumpInv(c, s.(flights := RemoveAt(s.flights, i)), now);
    case DoWake(now) =>
      TimerChange(c, s, None, s.stopped);
      PumpInv(c, s.(timer := None), now);
    case DoStop =>
      TimerChange(c, s, None, true);
  }

  lemma InitInv(c: Config, s: Sink)
    requires IsInit(s)
    ensures Inv(c, s)
  {}

  lemma {:induction false} RunInv(c: Config, s: Sink, steps: seq<Step>)
    requires Inv(c, s) && Possible(c, s, steps)
    ensures Inv(c, Run(c, s, steps))
    decreases |steps|
  {
    if steps != [] {
      StepInv(c, s, steps[0]);
      RunInv(c, Next(c, s, steps[0]), steps[1..]);
    }
  }

  // ---------- main results ----------

  lemma ReachedInv(c: Config, s: Sink)
    requires Reached(c, s)
    ensures Inv(c, s)
  {
    var init, steps :| IsInit(init) && Possible(c, init, steps) && s == Run(c, init, steps);
    InitInv(c, init);
    RunInv(c, init, steps);
  }

  /**
   * Conservation over every run: each batch built is in exactly one of queued, being sent, delivered,
   * overflowed and given up, and the counters add up to the batches built.
   */
  lemma Conservation(c: Config, s: Sink)
    requires Reached(c, s)
    ensures forall n: nat ::
      Sum(Count(Only(n)), s.queue) + Pending(s.flights, Only(n)) + TallyUp(s.log, Deliveries(Only(n)))
      + TallyUp(s.log, Overflows(Only(n))) + TallyUp(s.log, GiveUps(Only(n)))
      == if 1 <= n <= s.numbered then 1 else 0
    ensures s.numbered == |s.queue| + Pending(s.flights, Anyone) + s.delivered + s.droppedOverflow + s.droppedPermanent
    ensures s.retried + s.droppedPermanent == TallyUp(s.log, Failures)
  {
    ReachedInv(c, s);
    CountAll(s.queue);
    assert Sum(Count(Anyone), s.queue) + Pending(s.flights, Anyone) + Ended(s.log, Anyone) == Built(s.numbered, Anyone);
  }

  lemma {:induction false} CountAll(q: seq<Batch>)
    ensures Sum(Count(Anyone), q) == |q|
  {
    if q != [] { CountAll(q[1..]); }
  }

  /** The queue after every run: in enqueue order, within both bounds, with exact byte counts. */
  lemma Bounds(c: Config, s: Sink)
    requires Reached(c, s)
    ensures Sorted(s.queue)
    ensures |s.queue| <= Max(0, c.maxBatches) && s.bytes == Sum(AllBytes, s.queue) <= Max(0, c.maxBytes)
    ensures forall org :: ShareOf(s.byOrg, org) == Sum(OrgBytes(org), s.queue)
    ensures |s.flights| <= Max(1, c.healthy)
  {
    ReachedInv(c, s);
  }

  /**
   * Health over every run: `consecutiveFailures` is zero exactly when nothing failed, or when a send that
   * started after the latest failure was delivered.
   */
  lemma Health(c: Config, s: Sink)
    requires Reached(c, s)
    ensures s.failures == 0 <==>
              (forall i | 0 <= i < |s.log| :: !s.log[i].Failed?)
              || exists m, k | 0 <= m < k < |s.log| ::
                   && s.log[m].Started? && s.log[k] == Delivered(s.log[m].number, s.log[m].attempt)
                   && forall i | m < i < |s.log| :: !s.log[i].Failed?
  {
    ReachedInv(c, s);
    HealthSpelledOut(s.log);
  }

  lemma HealthSpelledOut(log: seq<Event>)
    ensures Healthy(log) <==>
              (forall i | 0 <= i < |log| :: !log[i].Failed?)
              || exists m, k | 0 <= m < k < |log| ::
                   && log[m].Started? && log[k] == Delivered(log[m].number, log[m].attempt)
                   && forall i | m < i < |log| :: !log[i].Failed?
  {}

  /** No batch is stranded: while any waits, a wake is set for the earliest, or a send's end will pump. */
  lemma NoneStranded(c: Config, s: Sink)
    requires Reached(c, s) && c.healthy >= 1
    ensures !s.stopped && s.queue != [] && s.flights == [] ==> s.timer == Some(Earliest(s.queue))
    ensures s.stopped ==> s.timer == None
  {
    ReachedInv(c, s);
  }

  /** What a step adds to the history. */
  ghost predicate Adds(c: Config, s: Sink, r: Sink) {
    && Extends(s.log, r.log) && Attempts(c, r.log[|s.log|..])
    && (NoStarts(r.log[|s.log|..]) || (s.failures > 0 ==> |r.flights| == 1))
  }

  lemma PumpAdds(c: Config, s: Sink, now: int)
    requires QueueOk(c, s)
    ensures Adds(c, s, Pump(c, s, now))
  {
    assert s.log[|s.log|..] == [];
    if !s.stopped {
      StartDueLog(c, s, Limit(c, s), now);
      var r := StartDue(s, Limit(c, s), now);
      if |r.log| == |s.log| { assert r.log[|s.log|..] == []; }
    }
  }

  lemma EnqueueAdds(c: Config, s: Sink, b: Batch, now: int)
    requires Core(c, s) && b.number == s.numbered + 1 && 0 < b.bytes <= c.maxBytes && b.attempts == 0
    ensures Adds(c, s, Pump(c, Enforce(c, Pushed(s, b)), now))
  {
    hide QueueOk, FlightsOk, Conserved, CountersOk, HealthOk;
    var mid := Enforce(c, Pushed(s, b));
    PushCore(c, s, b);
    EnforceCore(c, Pushed(s, b));
    EnforceFrame(c, Pushed(s, b));
    EnforceLog(c, Pushed(s, b));
    PumpAdds(c, mid, now);
    MoreLog(s.log, mid.log, Pump(c, mid, now).log);
  }

  lemma NoStartsAdd(c: Config, s: Sink, r: Sink)
    requires Extends(s.log, r.log) && NoStarts(r.log[|s.log|..])
    ensures Adds(c, s, r)
  {}

  lemma SettleAdds(c: Config, s: Sink, i: nat, outcome: Outcome, nextAt: int)
    requires i < |s.flights|
    ensures Adds(c, s, Settle(c, s, i, outcome, nextAt))
  {
    var b := s.flights[i].batch;
    if outcome == Ok {
      assert SettleOk(s, i).log[|s.log|..] == [Delivered(b.number, b.attempts)];
      NoStartsAdd(c, s, SettleOk(s, i));
    } else if outcome == Rejected || b.attempts >= c.maxAttempts {
      assert SettleGiveUp(s, i).log[|s.log|..] == [Failed(b.number, b.attempts), GaveUp(b.number, b.attempts)];
      NoStartsAdd(c, s, SettleGiveUp(s, i));
    } else {
      RetryAdds(c, s, SettleRetry(s, i, nextAt), Failed(b.number, b.attempts));
    }
  }

  lemma RetryAdds(c: Config, s: Sink, mid: Sink, e: Event)
    requires mid.log == s.log + [e] && e.Failed?
    ensures Adds(c, s, ScheduleWake(c, Enforce(c, mid)))
  {
    EnforceLog(c, mid);
    assert mid.log[|s.log|..] == [e];
    MoreLog(s.log, mid.log, Enforce(c, mid).log);
    NoStartsAdd(c, s, ScheduleWake(c, Enforce(c, mid)));
  }

  lemma StepAdds(c: Config, s: Sink, e: Step)
    requires Inv(c, s) && Enabled(s, e)
    ensures Adds(c, s, Next(c, s, e))
  {
    hide FlightsOk, Conserved, CountersOk, HealthOk;
    assert s.log[|s.log|..] == [];
    match e {
      case DoEnqueue(org, bytes, empty, now) =>
        if bytes > c.maxBytes {
          assert Refused(s).log[|s.log|..] == [Overflowed(s.numbered + 1)];
        } else {
          EnqueueAdds(c, s, Batch(s.numbered + 1, org, bytes, 0, now), now);
        }
      case DoSettle(i, outcome, nextAt) => SettleAdds(c, s, i, outcome, nextAt);
      case DoFinally(i, now) =>
        var mid := s.(flights := RemoveAt(s.flights, i));
        assert QueueOk(c, mid) by { LandedCore(c, s, i); }
        PumpAdds(c, mid, now);
      case DoWake(now) => PumpAdds(c, s.(timer := None), now);
      case DoStop =>
    }
  }

  /** While the sink fails, a send starts only when none is in flight. */
  lemma OneProbeWhileFailing(c: Config, s: Sink, e: Step, m: nat)
    requires Reached(c, s) && Enabled(s, e) && s.failures > 0
    requires |s.log| <= m < |Next(c, s, e).log| && Next(c, s, e).log[m].Started?
    ensures |Next(c, s, e).flights| == 1
  {
    ReachedInv(c, s);
    StepAdds(c, s, e);
    var r := Next(c, s, e);
    assert r.log[|s.log|..][m - |s.log|] == r.log[m];
  }

  lemma {:induction false} RunAttempts(c: Config, s: Sink, steps: seq<Step>)
    requires Inv(c, s) && Possible(c, s, steps) && Attempts(c, s.log)
    ensures Attempts(c, Run(c, s, steps).log)
    decreases |steps|
  {
    hide Inv;
    if steps != [] {
      var r := Next(c, s, steps[0]);
      StepInv(c, s, steps[0]);
      StepAdds(c, s, steps[0]);
      assert r.log == s.log + r.log[|s.log|..];
      RunAttempts(c, r, steps[1..]);
    }
  }

  // ---------- how often a batch is sent ----------

  /** Each send of a batch has a higher attempt number than the ones before. */
  ghost predicate Climbing(log: seq<Event>) {
    forall i, j | 0 <= i < j < |log| && log[i].Started? && log[j].Started? && log[i].number == log[j].number ::
      log[i].attempt < log[j].attempt
  }

  lemma QuietClimbs(log: seq<Event>, longer: seq<Event>)
    requires Climbing(log) && Extends(log, longer) && NoStarts(longer[|log|..])
    ensures Climbing(longer)
  {
    forall i | |log| <= i < |longer| ensures !longer[i].Started? { assert longer[i] == longer[|log|..][i - |log|]; }
    forall i | 0 <= i < |log| ensures longer[i] == log[i] { assert longer[i] == longer[..|log|][i]; }
  }

  lemma {:induction false} StartDueClimbs(c: Config, s: Sink, limit: int, now: int)
    requires Core(c, s) && limit <= Max(1, c.healthy) && Climbing(s.log)
    ensures Climbing(StartDue(s, limit, now).log)
    decreases |s.queue|
  {
    var at := FirstDue(s.queue, now);
    if |s.flights| < limit && at < |s.queue| {
      var one := Start(s, at);
      assert StartsBelow(s.log, s.queue[at].number, s.queue[at].attempts + 1, -1);
      assert Core(c, one) by { StartCore(c, s, at); }
      StartDueClimbs(c, one, limit, now);
    }
  }

  lemma PumpClimbs(c: Config, s: Sink, now: int)
    requires Core(c, s) && Climbing(s.log)
    ensures Climbing(Pump(c, s, now).log)
  {
    if !s.stopped { StartDueClimbs(c, s, Limit(c, s), now); }
  }

  lemma EnqueueClimbs(c: Config, s: Sink, b: Batch, now: int)
    requires Core(c, s) && Climbing(s.log)
    requires b.number == s.numbered + 1 && 0 < b.bytes <= c.maxBytes && b.attempts == 0
    ensures Climbing(Pump(c, Enforce(c, Pushed(s, b)), now).log)
  {
    var mid := Enforce(c, Pushed(s, b));
    assert Core(c, mid) by { PushCore(c, s, b); EnforceCore(c, Pushed(s, b)); }
    EnforceLog(c, Pushed(s, b));
    QuietClimbs(s.log, mid.log);
    PumpClimbs(c, mid, now);
  }

  lemma SettleStartsNothing(c: Config, s: Sink, i: nat, outcome: Outcome, nextAt: int)
    requires i < |s.flights|
    ensures var r := Settle(c, s, i, outcome, nextAt); Extends(s.log, r.log) && NoStarts(r.log[|s.log|..])
  {
    var b := s.flights[i].batch;
    if outcome != Ok && outcome != Rejected && b.attempts < c.maxAttempts {
      var mid := SettleRetry(s, i, nextAt);
      EnforceLog(c, mid);
      assert mid.log[|s.log|..] == [Failed(b.number, b.attempts)];
      MoreLog(s.log, mid.log, Enforce(c, mid).log);
    }
  }

  lemma StepClimbs(c: Config, s: Sink, e: Step)
    requires Inv(c, s) && Enabled(s, e) && Climbing(s.log)
    ensures Climbing(Next(c, s, e).log)
  {
    match e {
      case DoEnqueue(org, bytes, empty, now) =>
        if !s.stopped && !empty && bytes <= c.maxBytes {
          EnqueueClimbs(c, s, Batch(s.numbered + 1, org, bytes, 0, now), now);
        }
      case DoSettle(i, outcome, nextAt) =>
        SettleStartsNothing(c, s, i, outcome, nextAt);
        QuietClimbs(s.log, Settle(c, s, i, outcome, nextAt).log);
      case DoFinally(i, now) =>
        LandedCore(c, s, i);
        PumpClimbs(c, s.(flights := RemoveAt(s.flights, i)), now);
      case DoWake(now) =>
        TimerChange(c, s, None, s.stopped);
        PumpClimbs(c, s.(timer := None), now);
      case DoStop =>
    }
  }

  lemma {:induction false} RunClimbs(c: Config, s: Sink, steps: seq<Step>)
    requires Inv(c, s) && Possible(c, s, steps) && Climbing(s.log)
    ensures Climbing(Run(c, s, steps).log)
    decreases |steps|
  {
    if steps != [] {
      StepInv(c, s, steps[0]);
      StepClimbs(c, s, steps[0]);
      RunClimbs(c, Next(c, s, steps[0]), steps[1..]);
    }
  }

  /** The sends of a batch. */
  function Sends(log: seq<Event>, number: nat): nat {
    if log == [] then 0
    else
      var e := log[|log| - 1];
      Sends(log[..|log| - 1], number) + (if e.Started? && e.number == number then 1 else 0)
  }

  lemma {:induction false} SendsUpTo(log: seq<Event>, number: nat, bound: nat)
    requires Climbing(log)
    requires forall i | 0 <= i < |log| && log[i].Started? && log[i].number == number :: 1 <= log[i].attempt <= bound
    ensures Sends(log, number) <= bound
    decreases |log|
  {
    if log != [] {
      var e := log[|log| - 1];
      SendsUpTo(log[..|log| - 1], number, if e.Started? && e.number == number then e.attempt - 1 else bound);
    }
  }

  /** No batch is sent more than `sinkMaxAttempts` times (once when that is not positive). */
  lemma AttemptsBounded(c: Config, s: Sink, number: nat)
    requires Reached(c, s)
    ensures Sends(s.log, number) <= Max(1, c.maxAttempts)
  {
    var init, steps :| IsInit(init) && Possible(c, init, steps) && s == Run(c, init, steps);
    InitInv(c, init);
    RunAttempts(c, init, steps);
    RunClimbs(c, init, steps);
    SendsUpTo(s.log, number, Max(1, c.maxAttempts));
  }
}
