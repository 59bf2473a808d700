/** The primitive moves of a batch, each keeping the parts of the invariant. */
module SinkSteps {
  import opened Wrappers
  import opened SinkModel
  import opened SinkProofs

  lemma CountersAppend(s: Sink, s': Sink, e: Event)
    requires CountersOk(s) && s'.log == s.log + [e]
    requires s'.delivered == s.delivered + TallyOf(Deliveries(Anyone), e)
    requires s'.droppedOverflow == s.droppedOverflow + TallyOf(Overflows(Anyone), e)
    requires s'.droppedPermanent == s.droppedPermanent + TallyOf(GiveUps(Anyone), e)
    requires s'.epoch == s.epoch + TallyOf(Failures, e)
    ensures s'.delivered == TallyUp(s'.log, Deliveries(Anyone)) && s'.droppedOverflow == TallyUp(s'.log, Overflows(Anyone))
    ensures s'.droppedPermanent == TallyUp(s'.log, GiveUps(Anyone)) && s'.epoch == TallyUp(s'.log, Failures)
  {}

  /** What the log says of queued batches and pending sends survives one more event about another batch. */
  lemma LogAppend(s: Sink, s': Sink, e: Event)
    requires HealthOk(s) && s'.log == s.log + [e]
    requires s'.numbered >= s.numbered && (e.Started? ==> e.number <= s'.numbered)
    requires s'.epoch == s.epoch + (if e.Failed? then 1 else 0)
    requires forall j | 0 <= j < |s'.queue| ::
      s'.queue[j] in s.queue && (e.Started? ==> s'.queue[j].number != e.number)
    requires forall i | 0 <= i < |s'.flights| && !s'.flights[i].settled ::
      s'.flights[i] in s.flights && (e.Started? ==> s'.flights[i].batch.number != e.number)
    requires s'.failures == 0 <==> Healthy(s'.log)
    ensures HealthOk(s')
  {}

  // ---------- evicting ----------

  lemma EvictConserves(s: Sink)
    requires s.queue != [] && Conserved(s)
    ensures Conserved(Evict(s))
  {
    var at := VictimAt(s);
    var s' := Evict(s);
    forall who ensures Sum(Count(who), s'.queue) + Pending(s'.flights, who) + Ended(s'.log, who) == Built(s'.numbered, who) {
      SumRemove(Count(who), s.queue, at);
      EndedAppend(s.log, Overflowed(s.queue[at].number), who);
      assert Sum(Count(who), s.queue) + Pending(s.flights, who) + Ended(s.log, who) == Built(s.numbered, who);
    }
  }

  lemma EvictCore(c: Config, s: Sink)
    requires Core(c, s) && s.queue != []
    ensures Core(c, Evict(s))
  {
    var s' := Evict(s);
    var e := Overflowed(s.queue[VictimAt(s)].number);
    TakeOut(c, s, VictimAt(s));
    EvictConserves(s);
    CountersAppend(s, s', e);
    StaysHealthy(s.log, e);
    LogAppend(s, s', e);
  }

  // ---------- starting a send ----------

  lemma StartConserves(s: Sink, at: nat)
    requires at < |s.queue| && Conserved(s)
    ensures Conserved(Start(s, at))
  {
    var s' := Start(s, at);
    var b := s.queue[at].(attempts := s.queue[at].attempts + 1);
    var f := Flight(b, s.epoch, |s.log|, false);
    forall who ensures Sum(Count(who), s'.queue) + Pending(s'.flights, who) + Ended(s'.log, who) == Built(s'.numbered, who) {
      SumRemove(Count(who), s.queue, at);
      PendingAppend(s.flights, [f], who);
      EndedAppend(s.log, Started(b.number, b.attempts), who);
      assert Sum(Count(who), s.queue) + Pending(s.flights, who) + Ended(s.log, who) == Built(s.numbered, who);
    }
  }

  lemma StartHealth(c: Config, s: Sink, at: nat)
    requires Core(c, s) && at < |s.queue|
    ensures HealthOk(Start(s, at))
  {
    var s' := Start(s, at);
    var b := s.queue[at].(attempts := s.queue[at].attempts + 1);
    var e := Started(b.number, b.attempts);
    var f := Flight(b, s.epoch, |s.log|, false);
    StaysHealthy(s.log, e);
    forall i | 0 <= i < |s.flights| && !s.flights[i].settled ensures s.flights[i].batch.number != e.number {
      NotBoth(c, s, i, at);
    }
    var quiet := s'.(flights := s.flights);
    LogAppend(s, quiet, e);
    LastAppend(s.log, e);
    assert FlightLogged(s', f) by {
      assert StartsBelow(s.log, b.number, b.attempts, -1);
      assert s'.log[|s.log|] == e;
      forall m | 0 <= m < |s'.log| && m != |s.log| && s'.log[m].Started? && s'.log[m].number == b.number
        ensures s'.log[m].attempt < b.attempts
      {
        assert s'.log[m] == s.log[m];
      }
    }
    forall i | 0 <= i < |s'.flights| && !s'.flights[i].settled ensures FlightLogged(s', s'.flights[i]) {
      if i < |s.flights| { assert s'.flights[i] == s.flights[i] && FlightLogged(quiet, s.flights[i]); }
    }
  }

  lemma StartCore(c: Config, s: Sink, at: nat)
    requires Core(c, s) && at < |s.queue| && |s.flights| < Max(1, c.healthy)
    ensures Core(c, Start(s, at))
  {
    TakeOut(c, s, at);
    StartConserves(s, at);
    StartHealth(c, s, at);
    CountersAppend(s, Start(s, at), Started(s.queue[at].number, s.queue[at].attempts + 1));
  }

  // ---------- settling ----------

  lemma OkConserves(s: Sink, i: nat)
    requires i < |s.flights| && !s.flights[i].settled && Conserved(s)
    ensures Conserved(SettleOk(s, i))
  {
    var s', b := SettleOk(s, i), s.flights[i].batch;
    forall who ensures Sum(Count(who), s'.queue) + Pending(s'.flights, who) + Ended(s'.log, who) == Built(s'.numbered, who) {
      PendingSettle(s, i, who);
      EndedAppend(s.log, Delivered(b.number, b.attempts), who);
      assert Sum(Count(who), s.queue) + Pending(s.flights, who) + Ended(s.log, who) == Built(s.numbered, who);
    }
  }

  lemma OkCore(c: Config, s: Sink, i: nat)
    requires Core(c, s) && i < |s.flights| && !s.flights[i].settled
    ensures Core(c, SettleOk(s, i))
  {
    var s', f := SettleOk(s, i), s.flights[i];
    var e := Delivered(f.batch.number, f.batch.attempts);
    OkConserves(s, i);
    CountersAppend(s, s', e);
    assert FlightLogged(s, f);
    DeliveryHeals(s.log, f);
    LogAppend(s, s', e);
  }

  lemma GiveUpConserves(s: Sink, i: nat)
    requires i < |s.flights| && !s.flights[i].settled && Conserved(s)
    ensures Conserved(SettleGiveUp(s, i))
  {
    var s', b := SettleGiveUp(s, i), s.flights[i].batch;
    forall who ensures Sum(Count(who), s'.queue) + Pending(s'.flights, who) + Ended(s'.log, who) == Built(s'.numbered, who) {
      PendingSettle(s, i, who);
      EndedAppend(s.log, Failed(b.number, b.attempts), who);
      EndedAppend(s.log + [Failed(b.number, b.attempts)], GaveUp(b.number, b.attempts), who);
      assert Sum(Count(who), s.queue) + Pending(s.flights, who) + Ended(s.log, who) == Built(s.numbered, who);
    }
  }

  /** A failed send, before it is given up or queued again. */
  lemma FailHealth(s: Sink, i: nat)
    requires HealthOk(s) && i < |s.flights|
    ensures HealthOk(Fail(SetSettled(s, i), s.flights[i].batch))
  {}

  lemma GiveUpCore(c: Config, s: Sink, i: nat)
    requires Core(c, s) && i < |s.flights| && !s.flights[i].settled
    ensures Core(c, SettleGiveUp(s, i))
  {
    var b := s.flights[i].batch;
    var mid, s' := Fail(SetSettled(s, i), b), SettleGiveUp(s, i);
    GiveUpConserves(s, i);
    FailHealth(s, i);
    StaysHealthy(mid.log, GaveUp(b.number, b.attempts));
    LogAppend(mid, s', GaveUp(b.number, b.attempts));
    GiveUpCounters(s, i);
  }

  lemma GiveUpCounters(s: Sink, i: nat)
    requires CountersOk(s) && i < |s.flights|
    ensures CountersOk(SettleGiveUp(s, i))
  {}

  lemma RetryConserves(s: Sink, i: nat, nextAt: int)
    requires i < |s.flights| && !s.flights[i].settled && Conserved(s)
    ensures Conserved(SettleRetry(s, i, nextAt))
  {
    var s', b := SettleRetry(s, i, nextAt), s.flights[i].batch;
    var again := b.(nextAt := nextAt);
    forall who ensures Sum(Count(who), s'.queue) + Pending(s'.flights, who) + Ended(s'.log, who) == Built(s'.numbered, who) {
      PendingSettle(s, i, who);
      EndedAppend(s.log, Failed(b.number, b.attempts), who);
      SumInsert(Count(who), s.queue, FirstLater(s.queue, b.number), again);
      assert Sum(Count(who), s.queue) + Pending(s.flights, who) + Ended(s.log, who) == Built(s.numbered, who);
    }
  }

  lemma RetryQueue(c: Config, s: Sink, i: nat, nextAt: int)
    requires Core(c, s) && i < |s.flights| && !s.flights[i].settled && s.flights[i].batch.attempts < c.maxAttempts
    ensures QueueOk(c, SettleRetry(s, i, nextAt))
  {
    var b := s.flights[i].batch;
    var again := b.(nextAt := nextAt);
    var at := FirstLater(s.queue, b.number);
    forall j | 0 <= j < |s.queue| ensures s.queue[j].number != b.number { NotBoth(c, s, i, j); }
    forall j | at <= j < |s.queue| ensures b.number < s.queue[j].number {}
    PutIn(c, s, at, again);
  }

  lemma RetryHealth(c: Config, s: Sink, i: nat, nextAt: int)
    requires Core(c, s) && i < |s.flights| && !s.flights[i].settled
    ensures HealthOk(SettleRetry(s, i, nextAt))
  {
    var f := s.flights[i];
    var b := f.batch;
    var mid, s' := Fail(SetSettled(s, i), b), SettleRetry(s, i, nextAt);
    var at := FirstLater(s.queue, b.number);
    FailHealth(s, i);
    assert FlightLogged(s, f);
    assert StartsBelow(s.log, b.number, b.attempts + 1, -1);
    BelowAppend(s.log, Failed(b.number, b.attempts), b.number, b.attempts + 1, -1);
    forall j | 0 <= j < |s'.queue| ensures StartsBelow(s'.log, s'.queue[j].number, s'.queue[j].attempts + 1, -1) {
      if j < at { assert s'.queue[j] == mid.queue[j]; }
      else if j > at { assert s'.queue[j] == mid.queue[j - 1]; }
    }
    forall k | 0 <= k < |s'.flights| && !s'.flights[k].settled ensures FlightLogged(s', s'.flights[k]) {
      assert FlightLogged(mid, mid.flights[k]);
    }
  }

  lemma RetryCore(c: Config, s: Sink, i: nat, nextAt: int)
    requires Core(c, s) && i < |s.flights| && !s.flights[i].settled && s.flights[i].batch.attempts < c.maxAttempts
    ensures Core(c, SettleRetry(s, i, nextAt))
  {
    var b := s.flights[i].batch;
    RetryConserves(s, i, nextAt);
    RetryQueue(c, s, i, nextAt);
    RetryHealth(c, s, i, nextAt);
    CountersAppend(s, SettleRetry(s, i, nextAt), Failed(b.number, b.attempts));
  }

  // ---------- new batches and finished sends ----------

  function Pushed(s: Sink, b: Batch): Sink {
    Track(s.(numbered := s.numbered + 1, queue := s.queue + [b]), b)
  }

  lemma PushConserves(s: Sink, b: Batch)
    requires b.number == s.numbered + 1 && Conserved(s)
    ensures Conserved(Pushed(s, b))
  {
    var s' := Pushed(s, b);
    forall who ensures Sum(Count(who), s'.queue) + Pending(s'.flights, who) + Ended(s'.log, who) == Built(s'.numbered, who) {
      SumAppend(Count(who), s.queue, [b]);
      SumOne(Count(who), b);
      assert Sum(Count(who), s.queue) + Pending(s.flights, who) + Ended(s.log, who) == Built(s.numbered, who);
    }
  }

  lemma PushHealth(s: Sink, b: Batch)
    requires b.number == s.numbered + 1 && HealthOk(s)
    ensures HealthOk(Pushed(s, b))
  {}

  lemma PushCore(c: Config, s: Sink, b: Batch)
    requires Core(c, s) && b.number == s.numbered + 1 && 0 < b.bytes <= c.maxBytes && b.attempts == 0
    ensures Core(c, Pushed(s, b))
  {
    PushConserves(s, b);
    PushHealth(s, b);
    var wider := s.(numbered := s.numbered + 1);
    assert s.queue[..|s.queue|] + [b] + s.queue[|s.queue|..] == s.queue + [b];
    PutIn(c, wider, |s.queue|, b);
  }

  function Refused(s: Sink): Sink {
    s.(numbered := s.numbered + 1, droppedOverflow := s.droppedOverflow + 1, log := s.log + [Overflowed(s.numbered + 1)])
  }

  lemma RefusedConserves(s: Sink)
    requires Conserved(s)
    ensures Conserved(Refused(s))
  {}

  lemma RefusedCore(c: Config, s: Sink)
    requires Core(c, s)
    ensures Core(c, Refused(s))
  {
    RefusedConserves(s);
    StaysHealthy(s.log, Overflowed(s.numbered + 1));
    LogAppend(s, Refused(s), Overflowed(s.numbered + 1));
    CountersAppend(s, Refused(s), Overflowed(s.numbered + 1));
  }

  lemma LandedCore(c: Config, s: Sink, i: nat)
    requires Core(c, s) && i < |s.flights| && s.flights[i].settled
    ensures Core(c, s.(flights := RemoveAt(s.flights, i)))
  {
    var s' := s.(flights := RemoveAt(s.flights, i));
    forall k | 0 <= k < |s'.flights| ensures s'.flights[k] == s.flights[if k < i then k else k + 1] {}
    forall who ensures Sum(Count(who), s'.queue) + Pending(s'.flights, who) + Ended(s'.log, who) == Built(s'.numbered, who) {
      PendingRemove(s.flights, i, who);
      assert Sum(Count(who), s.queue) + Pending(s.flights, who) + Ended(s.log, who) == Built(s.numbered, who);
    }
    forall k | 0 <= k < |s'.flights| && !s'.flights[k].settled ensures FlightLogged(s', s'.flights[k]) {
      assert FlightLogged(s, s.flights[if k < i then k else k + 1]);
    }
  }
}
