/** The forwarder itself (packages/otlp-ingester/src/sink.ts): its methods do what the state machine says. */
module SinkForwarderClass {
  import opened Wrappers
  import opened SinkModel

  class SinkForwarder {
    const c: Config
    /** Always sorted by `number`. */
    var queue: seq<Batch>
    var queuedBytes: int
    var queuedBytesByOrg: seq<Share>
    var inFlight: int
    var timer: Option<int>
    var stopped: bool
    var seqCounter: nat
    var delivered: nat
    var retried: nat
    var droppedOverflow: nat
    var droppedPermanent: nat
    var consecutiveFailures: nat
    var failureEpoch: nat
    /** The sends under way: what their promises hold. */
    ghost var flights: seq<Flight>
    ghost var log: seq<Event>

    ghost function St(): Sink
      reads this
    {
      Sink(queue, queuedBytes, queuedBytesByOrg, flights, timer, stopped, seqCounter, delivered, retried,
           droppedOverflow, droppedPermanent, consecutiveFailures, failureEpoch, log)
    }

    ghost predicate Valid()
      reads this
    {
      inFlight == |flights|
    }

    constructor (c: Config)
      ensures Valid() && IsInit(St()) && this.c == c
    {
      this.c := c;
      queue, queuedBytes, queuedBytesByOrg, inFlight, timer, stopped := [], 0, [], 0, None, false;
      seqCounter, delivered, retried, droppedOverflow, droppedPermanent := 0, 0, 0, 0, 0;
      consecutiveFailures, failureEpoch, flights, log := 0, 0, [], [];
    }

    /** `enqueue`, once the batch is serialised. */
    method Enqueue(org: string, bytes: nat, empty: bool, now: int)
      requires Valid()
      modifies this
      ensures Valid() && St() == SinkModel.Enqueue(c, old(St()), org, bytes, empty, now)
    {
      hide Pump, Enforce;
      if stopped || empty { return; }
      seqCounter := seqCounter + 1;
      var batch := Batch(seqCounter, org, bytes, 0, now);
      if bytes > c.maxBytes {
        droppedOverflow := droppedOverflow + 1;
        log := log + [Overflowed(batch.number)];
        return;
      }
      AddBatch(batch);
      EnforceBounds();
      PumpQueue(now);
    }

    method AddBatch(b: Batch)
      modifies this`queue, this`queuedBytes, this`queuedBytesByOrg
      ensures St() == Track(old(St()).(queue := old(queue) + [b]), b)
    {
      queue := queue + [b];
      TrackBatch(b);
    }

    method TrackBatch(b: Batch)
      modifies this`queuedBytes, this`queuedBytesByOrg
      ensures St() == Track(old(St()), b)
    {
      queuedBytes := queuedBytes + b.bytes;
      queuedBytesByOrg := SetShare(queuedBytesByOrg, b.org, ShareOf(queuedBytesByOrg, b.org) + b.bytes);
    }

    method UntrackBatch(b: Batch)
      modifies this`queuedBytes, this`queuedBytesByOrg
      ensures St() == Untrack(old(St()), b)
    {
      queuedBytes := queuedBytes - b.bytes;
      var left := ShareOf(queuedBytesByOrg, b.org) - b.bytes;
      if left > 0 {
        queuedBytesByOrg := SetShare(queuedBytesByOrg, b.org, left);
      } else {
        queuedBytesByOrg := DropShare(queuedBytesByOrg, b.org);
      }
    }

    method InsertBySeq(b: Batch)
      modifies this`queue
      ensures queue == InsertByNumber(old(queue), b)
    {
      var at := FirstLater(queue, b.number);
      if at == |queue| { queue := queue + [b]; } else { queue := queue[..at] + [b] + queue[at..]; }
    }

    method EnforceBounds()
      modifies this`queue, this`queuedBytes, this`queuedBytesByOrg, this`droppedOverflow, this`log
      ensures St() == Enforce(c, old(St()))
    {
      ghost var s := St();
      while |queue| > c.maxBatches || (queuedBytes > c.maxBytes && |queue| > 1)
        invariant St() == s && Enforce(c, s) == Enforce(c, old(St()))
        decreases |queue|
      {
        var evicted := DropOne();
        if !evicted { break; }
        s := Evict(s);
      }
    }

    /** The body of the loop of `enforceBounds`. */
    method DropOne() returns (evicted: bool)
      modifies this`queue, this`queuedBytes, this`queuedBytesByOrg, this`droppedOverflow, this`log
      ensures evicted <==> old(queue) != []
      ensures St() == if evicted then Evict(old(St())) else old(St())
    {
      var dropped := EvictOne();
      if dropped.None? { return false; }
      droppedOverflow := droppedOverflow + 1;
      log := log + [Overflowed(dropped.value.number)];
      evicted := true;
    }

    /** The org with the most queued bytes, the first one met when several have as many. */
    method HeaviestOrg() returns (heaviest: Option<string>)
      ensures heaviest == HeaviestOf(queuedBytesByOrg, |queuedBytesByOrg|).org
    {
      heaviest := None;
      var heaviestBytes := -1;
      for i := 0 to |queuedBytesByOrg|
        invariant Heaviest(heaviest, heaviestBytes) == HeaviestOf(queuedBytesByOrg, i)
      {
        if queuedBytesByOrg[i].bytes > heaviestBytes {
          heaviest, heaviestBytes := Some(queuedBytesByOrg[i].org), queuedBytesByOrg[i].bytes;
        }
      }
    }

    method EvictOne() returns (dropped: Option<Batch>)
      modifies this`queue, this`queuedBytes, this`queuedBytesByOrg
      ensures old(queue) == [] ==> dropped == None && St() == old(St())
      ensures old(queue) != [] ==>
        && dropped == Some(old(queue)[VictimAt(old(St()))])
        && St() == Untrack(old(St()).(queue := RemoveAt(old(queue), VictimAt(old(St())))), dropped.value)
    {
      var heaviest := HeaviestOrg();
      var at := if heaviest.None? || heaviest.value == "" then 0 else FirstOf(queue, heaviest.value);
      if at == |queue| { at := 0; }
      if queue == [] { return None; }
      dropped := Some(queue[at]);
      queue := RemoveAt(queue, at);
      UntrackBatch(dropped.value);
    }

    method PumpQueue(now: int)
      requires Valid()
      modifies this
      ensures Valid() && St() == Pump(c, old(St()), now)
    {
      if stopped { return; }
      ghost var s := St();
      var limit := if consecutiveFailures > 0 then 1 else c.healthy;
      while inFlight < limit
        invariant Valid() && St() == s && StartDue(s, limit, now) == StartDue(old(St()), limit, now)
        decreases |queue|
      {
        var index := FirstDue(queue, now);
        if index == |queue| { break; }
        StartSend(index);
        s := Start(s, index);
      }
      SetWake();
    }

    /** The body of the loop of `pump`. */
    method StartSend(index: nat)
      requires Valid() && index < |queue|
      modifies this
      ensures Valid() && St() == Start(old(St()), index)
    {
      var batch := queue[index];
      queue := RemoveAt(queue, index);
      UntrackBatch(batch);
      inFlight := inFlight + 1;
      Send(batch);
    }

    /** `send` up to the request, which is answered later. */
    method Send(batch: Batch)
      modifies this`flights, this`log
      ensures var b := batch.(attempts := batch.attempts + 1);
              && flights == old(flights) + [Flight(b, failureEpoch, |old(log)|, false)]
              && log == old(log) + [Started(b.number, b.attempts)]
    {
      var b := batch.(attempts := batch.attempts + 1);
      flights := flights + [Flight(b, failureEpoch, |log|, false)];
      log := log + [Started(b.number, b.attempts)];
    }

    method SetWake()
      requires Valid()
      modifies this`timer
      ensures Valid() && St() == ScheduleWake(c, old(St()))
    {
      timer := None;
      if stopped || queue == [] { return; }
      if inFlight >= (if consecutiveFailures > 0 then 1 else c.healthy) { return; }
      timer := Some(Earliest(queue));
    }

    /** The rest of `send` and its branches, once flight `i` is answered; it kept its batch and the epoch it started in. */
    method Answered(ghost i: nat, batch: Batch, epochAtStart: nat, outcome: Outcome, nextAt: int)
      requires Valid() && i < |flights| && flights[i].batch == batch && flights[i].epochAtStart == epochAtStart
      modifies this
      ensures Valid() && St() == Settle(c, old(St()), i, outcome, nextAt)
    {
      hide Enforce, ScheduleWake;
      if outcome == Ok {
        Succeeded(i, batch, epochAtStart);
      } else if outcome == Rejected || batch.attempts >= c.maxAttempts {
        Surrendered(i, batch);
      } else {
        Retried(i, batch, nextAt);
        EnforceBounds();
        SetWake();
      }
    }

    method Succeeded(ghost i: nat, batch: Batch, epochAtStart: nat)
      requires i < |flights| && flights[i].batch == batch && flights[i].epochAtStart == epochAtStart
      modifies this`flights, this`delivered, this`consecutiveFailures, this`log
      ensures St() == SettleOk(old(St()), i)
    {
      flights := flights[i := flights[i].(settled := true)];
      delivered := delivered + 1;
      log := log + [Delivered(batch.number, batch.attempts)];
      if epochAtStart == failureEpoch { consecutiveFailures := 0; }
    }

    method Surrendered(ghost i: nat, batch: Batch)
      requires i < |flights| && flights[i].batch == batch
      modifies this`flights, this`failureEpoch, this`consecutiveFailures, this`droppedPermanent, this`log
      ensures St() == SettleGiveUp(old(St()), i)
    {
      flights := flights[i := flights[i].(settled := true)];
      NoteFailure(batch);
      droppedPermanent := droppedPermanent + 1;
      log := log + [GaveUp(batch.number, batch.attempts)];
    }

    method Retried(ghost i: nat, batch: Batch, nextAt: int)
      requires i < |flights| && flights[i].batch == batch
      modifies this`flights, this`failureEpoch, this`consecutiveFailures, this`retried, this`queue
      modifies this`queuedBytes, this`queuedBytesByOrg, this`log
      ensures St() == SettleRetry(old(St()), i, nextAt)
    {
      flights := flights[i := flights[i].(settled := true)];
      NoteFailure(batch);
      Requeue(batch, nextAt);
    }

    method NoteFailure(batch: Batch)
      modifies this`failureEpoch, this`consecutiveFailures, this`log
      ensures St() == Fail(old(St()), batch)
    {
      failureEpoch := failureEpoch + 1;
      consecutiveFailures := consecutiveFailures + 1;
      log := log + [Failed(batch.number, batch.attempts)];
    }

    method Requeue(batch: Batch, nextAt: int)
      modifies this`retried, this`queue, this`queuedBytes, this`queuedBytesByOrg
      ensures St() == Track(old(St()).(retried := old(retried) + 1,
                                       queue := InsertByNumber(old(queue), batch.(nextAt := nextAt))), batch)
    {
      retried := retried + 1;
      InsertBySeq(batch.(nextAt := nextAt));
      TrackBatch(batch);
    }

    /** The `finally` callback of flight `i`. */
    method Landed(ghost i: nat, now: int)
      requires Valid() && i < |flights|
      modifies this
      ensures Valid() && St() == Finally(c, old(St()), i, now)
    {
      flights := RemoveAt(flights, i);
      inFlight := inFlight - 1;
      PumpQueue(now);
    }

    method TimerFired(now: int)
      requires Valid()
      modifies this
      ensures Valid() && St() == Wake(c, old(St()), now)
    {
      timer := None;
      PumpQueue(now);
    }

    method Shutdown()
      requires Valid()
      modifies this`stopped, this`timer
      ensures Valid() && St() == Stop(old(St()))
    {
      stopped, timer := true, None;
    }
  }
}
