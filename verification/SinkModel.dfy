/**
 * The sink delivery queue (packages/otlp-ingester/src/sink.ts) as a state machine: what each entry point and
 * each promise callback does to the whole state. `log` is the history the promises are stated over.
 */
module SinkModel {
  import opened Wrappers

  datatype Config = Config(maxBatches: int, maxBytes: int, maxAttempts: int, healthy: int)

  /** `number` is the source's `seq`: the enqueue order. */
  datatype Batch = Batch(number: nat, org: string, bytes: nat, attempts: nat, nextAt: int)

  /** A `send` under way. `settled`: its outcome is known, its `finally` callback has not run yet. */
  datatype Flight = Flight(batch: Batch, epochAtStart: nat, startedAt: nat, settled: bool)

  /** One entry of `queuedBytesByOrg`, in insertion order. */
  datatype Share = Share(org: string, bytes: int)

  datatype Event =
    | Started(number: nat, attempt: nat)
    | Failed(number: nat, attempt: nat)
    | Delivered(number: nat, attempt: nat)
    | GaveUp(number: nat, attempt: nat)
    | Overflowed(number: nat)

  datatype Sink = Sink(
    queue: seq<Batch>, bytes: int, byOrg: seq<Share>, flights: seq<Flight>, timer: Option<int>, stopped: bool,
    numbered: nat, delivered: nat, retried: nat, droppedOverflow: nat, droppedPermanent: nat,
    failures: nat, epoch: nat, log: seq<Event>)

  predicate IsInit(s: Sink) {
    && s.queue == [] && s.bytes == 0 && s.byOrg == [] && s.flights == [] && s.timer == None && !s.stopped
    && s.numbered == s.delivered == s.retried == s.droppedOverflow == s.droppedPermanent == 0
    && s.failures == s.epoch == 0 && s.log == []
  }

  // ---------- per-org bytes ----------

  function ShareOf(shares: seq<Share>, org: string): int {
    if shares == [] then 0 else if shares[0].org == org then shares[0].bytes else ShareOf(shares[1..], org)
  }

  function SetShare(shares: seq<Share>, org: string, bytes: int): (r: seq<Share>)
    ensures r != []
  {
    if shares == [] then [Share(org, bytes)]
    else if shares[0].org == org then [Share(org, bytes)] + shares[1..]
    else [shares[0]] + SetShare(shares[1..], org, bytes)
  }

  function DropShare(shares: seq<Share>, org: string): seq<Share> {
    if shares == [] then []
    else if shares[0].org == org then shares[1..]
    else [shares[0]] + DropShare(shares[1..], org)
  }

  function Track(s: Sink, b: Batch): Sink {
    s.(bytes := s.bytes + b.bytes, byOrg := SetShare(s.byOrg, b.org, ShareOf(s.byOrg, b.org) + b.bytes))
  }

  function Untrack(s: Sink, b: Batch): Sink {
    var left := ShareOf(s.byOrg, b.org) - b.bytes;
    s.(bytes := s.bytes - b.bytes,
       byOrg := if left > 0 then SetShare(s.byOrg, b.org, left) else DropShare(s.byOrg, b.org))
  }

  function RemoveAt<T>(q: seq<T>, at: nat): (r: seq<T>)
    requires at < |q|
    ensures |r| == |q| - 1
  {
    q[..at] + q[at + 1..]
  }

  function FirstLater(q: seq<Batch>, number: nat): (at: nat)
    ensures at <= |q| && (forall i | 0 <= i < at :: q[i].number <= number) && (at < |q| ==> q[at].number > number)
  {
    if q == [] || q[0].number > number then 0 else 1 + FirstLater(q[1..], number)
  }

  /** `insertBySeq`. */
  function InsertByNumber(q: seq<Batch>, b: Batch): seq<Batch> {
    var at := FirstLater(q, b.number);
    q[..at] + [b] + q[at..]
  }

  // ---------- overflow ----------

  datatype Heaviest = Heaviest(org: Option<string>, bytes: int)

  /** The scan of `evictOne` over the first `n` entries. */
  function HeaviestOf(shares: seq<Share>, n: nat): (h: Heaviest)
    requires n <= |shares|
    ensures forall i | 0 <= i < n :: shares[i].bytes <= h.bytes
    ensures h.org.Some? ==> exists i | 0 <= i < n :: shares[i] == Share(h.org.value, h.bytes)
    ensures h.org.None? ==> h.bytes == -1
  {
    if n == 0 then Heaviest(None, -1)
    else
      var h := HeaviestOf(shares, n - 1);
      if shares[n - 1].bytes > h.bytes then Heaviest(Some(shares[n - 1].org), shares[n - 1].bytes) else h
  }

  function FirstOf(q: seq<Batch>, org: string): (at: nat)
    ensures at <= |q| && (forall i | 0 <= i < at :: q[i].org != org) && (at < |q| ==> q[at].org == org)
  {
    if q == [] || q[0].org == org then 0 else 1 + FirstOf(q[1..], org)
  }

  /** Which batch goes. An empty org id counts as no org at all. */
  function VictimAt(s: Sink): (at: nat)
    requires s.queue != []
    ensures at < |s.queue|
  {
    var h := HeaviestOf(s.byOrg, |s.byOrg|);
    var at := if h.org.None? || h.org.value == "" then 0 else FirstOf(s.queue, h.org.value);
    if at == |s.queue| then 0 else at
  }

  /** One turn of `enforceBounds`. */
  function Evict(s: Sink): (r: Sink)
    requires s.queue != []
    ensures |r.queue| == |s.queue| - 1
  {
    var at := VictimAt(s);
    var b := s.queue[at];
    var s := Untrack(s.(queue := RemoveAt(s.queue, at)), b);
    s.(droppedOverflow := s.droppedOverflow + 1, log := s.log + [Overflowed(b.number)])
  }

  predicate Over(c: Config, s: Sink) {
    |s.queue| > c.maxBatches || (s.bytes > c.maxBytes && |s.queue| > 1)
  }

  function Enforce(c: Config, s: Sink): Sink
    decreases |s.queue|
  {
    if Over(c, s) && s.queue != [] then Enforce(c, Evict(s)) else s
  }

  // ---------- sending ----------

  function Limit(c: Config, s: Sink): int {
    if s.failures > 0 then 1 else c.healthy
  }

  function FirstDue(q: seq<Batch>, now: int): (at: nat)
    ensures at <= |q| && (forall i | 0 <= i < at :: q[i].nextAt > now) && (at < |q| ==> q[at].nextAt <= now)
  {
    if q == [] || q[0].nextAt <= now then 0 else 1 + FirstDue(q[1..], now)
  }

  function Start(s: Sink, at: nat): (r: Sink)
    requires at < |s.queue|
    ensures |r.queue| == |s.queue| - 1
  {
    var b := s.queue[at];
    var s := Untrack(s.(queue := RemoveAt(s.queue, at)), b);
    var b := b.(attempts := b.attempts + 1);
    s.(flights := s.flights + [Flight(b, s.epoch, |s.log|, false)], log := s.log + [Started(b.number, b.attempts)])
  }

  function StartDue(s: Sink, limit: int, now: int): Sink
    decreases |s.queue|
  {
    var at := FirstDue(s.queue, now);
    if |s.flights| < limit && at < |s.queue| then StartDue(Start(s, at), limit, now) else s
  }

  function Earliest(q: seq<Batch>): (t: int)
    requires q != []
    ensures (forall i | 0 <= i < |q| :: t <= q[i].nextAt) && exists i | 0 <= i < |q| :: q[i].nextAt == t
  {
    if |q| == 1 then q[0].nextAt
    else
      var t := Earliest(q[1..]);
      if q[0].nextAt <= t then q[0].nextAt else t
  }

  function ScheduleWake(c: Config, s: Sink): Sink {
    s.(timer := if s.stopped || s.queue == [] || |s.flights| >= Limit(c, s) then None else Some(Earliest(s.queue)))
  }

  function Pump(c: Config, s: Sink, now: int): Sink {
    if s.stopped then s else ScheduleWake(c, StartDue(s, Limit(c, s), now))
  }

  // ---------- the steps ----------

  function Enqueue(c: Config, s: Sink, org: string, bytes: nat, empty: bool, now: int): Sink {
    if s.stopped || empty then s
    else
      var b := Batch(s.numbered + 1, org, bytes, 0, now);
      var s := s.(numbered := s.numbered + 1);
      if bytes > c.maxBytes
      then s.(droppedOverflow := s.droppedOverflow + 1, log := s.log + [Overflowed(b.number)])
      else Pump(c, Enforce(c, Track(s.(queue := s.queue + [b]), b)), now)
  }

  datatype Outcome = Ok | Rejected | Retryable

  function SetSettled(s: Sink, i: nat): Sink
    requires i < |s.flights|
  {
    s.(flights := s.flights[i := s.flights[i].(settled := true)])
  }

  function SettleOk(s: Sink, i: nat): Sink
    requires i < |s.flights|
  {
    var f := s.flights[i];
    SetSettled(s, i).(delivered := s.delivered + 1,
                      failures := if f.epochAtStart == s.epoch then 0 else s.failures,
                      log := s.log + [Delivered(f.batch.number, f.batch.attempts)])
  }

  function Fail(s: Sink, b: Batch): Sink {
    s.(epoch := s.epoch + 1, failures := s.failures + 1, log := s.log + [Failed(b.number, b.attempts)])
  }

  function SettleGiveUp(s: Sink, i: nat): Sink
    requires i < |s.flights|
  {
    var b := s.flights[i].batch;
    var s := Fail(SetSettled(s, i), b);
    s.(droppedPermanent := s.droppedPermanent + 1, log := s.log + [GaveUp(b.number, b.attempts)])
  }

  function SettleRetry(s: Sink, i: nat, nextAt: int): Sink
    requires i < |s.flights|
  {
    var b := s.flights[i].batch;
    var s := Fail(SetSettled(s, i), b);
    Track(s.(retried := s.retried + 1, queue := InsertByNumber(s.queue, b.(nextAt := nextAt))), b)
  }

  function Settle(c: Config, s: Sink, i: nat, outcome: Outcome, nextAt: int): Sink
    requires i < |s.flights|
  {
    if outcome == Ok then SettleOk(s, i)
    else if outcome == Rejected || s.flights[i].batch.attempts >= c.maxAttempts then SettleGiveUp(s, i)
    else ScheduleWake(c, Enforce(c, SettleRetry(s, i, nextAt)))
  }

  function Finally(c: Config, s: Sink, i: nat, now: int): Sink
    requires i < |s.flights|
  {
    Pump(c, s.(flights := RemoveAt(s.flights, i)), now)
  }

  function Wake(c: Config, s: Sink, now: int): Sink {
    Pump(c, s.(timer := None), now)
  }

  function Stop(s: Sink): Sink {
    s.(stopped := true, timer := None)
  }

  datatype Step =
    | DoEnqueue(org: string, bytes: nat, empty: bool, now: int)
    | DoSettle(i: nat, outcome: Outcome, nextAt: int)
    | DoFinally(i: nat, now: int)
    | DoWake(now: int)
    | DoStop

  /** A body is never empty; a send settles once and then runs its callback; a wake needs its timer. */
  predicate Enabled(s: Sink, e: Step) {
    match e
    case DoEnqueue(_, bytes, _, _) => bytes > 0
    case DoSettle(i, _, _) => i < |s.flights| && !s.flights[i].settled
    case DoFinally(i, _) => i < |s.flights| && s.flights[i].settled
    case DoWake(_) => s.timer.Some?
    case DoStop => true
  }

  function Next(c: Config, s: Sink, e: Step): Sink
    requires Enabled(s, e)
  {
    match e
    case DoEnqueue(org, bytes, empty, now) => Enqueue(c, s, org, bytes, empty, now)
    case DoSettle(i, outcome, nextAt) => Settle(c, s, i, outcome, nextAt)
    case DoFinally(i, now) => Finally(c, s, i, now)
    case DoWake(now) => Wake(c, s, now)
    case DoStop => Stop(s)
  }

  /** `steps` can happen in this order. */
  predicate Possible(c: Config, s: Sink, steps: seq<Step>)
    decreases |steps|
  {
    steps == [] || (Enabled(s, steps[0]) && Possible(c, Next(c, s, steps[0]), steps[1..]))
  }

  function Run(c: Config, s: Sink, steps: seq<Step>): Sink
    requires Possible(c, s, steps)
    decreases |steps|
  {
    if steps == [] then s else Run(c, Next(c, s, steps[0]), steps[1..])
  }

  /** Some run ends in `s`. */
  ghost predicate Reached(c: Config, s: Sink) {
    exists init, steps :: IsInit(init) && Possible(c, init, steps) && s == Run(c, init, steps)
  }

  // ---------- what holds ----------

  datatype Who = Anyone | Only(number: nat)

  predicate Is(who: Who, number: nat) {
    who.Anyone? || who.number == number
  }

  datatype Measure = AllBytes | OrgBytes(org: string) | Count(who: Who)

  function Weight(m: Measure, b: Batch): nat {
    match m
    case AllBytes => b.bytes
    case OrgBytes(org) => if b.org == org then b.bytes else 0
    case Count(who) => if Is(who, b.number) then 1 else 0
  }

  function Sum(m: Measure, q: seq<Batch>): nat {
    if q == [] then 0 else Weight(m, q[0]) + Sum(m, q[1..])
  }

  /** Sends whose outcome is not known yet. */
  function Pending(flights: seq<Flight>, who: Who): nat {
    if flights == [] then 0
    else (if !flights[0].settled && Is(who, flights[0].batch.number) then 1 else 0) + Pending(flights[1..], who)
  }

  datatype Tally = Deliveries(who: Who) | Overflows(who: Who) | GiveUps(who: Who) | Failures

  function TallyOf(t: Tally, e: Event): nat {
    match t
    case Deliveries(who) => if e.Delivered? && Is(who, e.number) then 1 else 0
    case Overflows(who) => if e.Overflowed? && Is(who, e.number) then 1 else 0
    case GiveUps(who) => if e.GaveUp? && Is(who, e.number) then 1 else 0
    case Failures => if e.Failed? then 1 else 0
  }

  function TallyUp(log: seq<Event>, t: Tally): nat {
    if log == [] then 0 else TallyUp(log[..|log| - 1], t) + TallyOf(t, log[|log| - 1])
  }

  function Ended(log: seq<Event>, who: Who): nat {
    TallyUp(log, Deliveries(who)) + TallyUp(log, Overflows(who)) + TallyUp(log, GiveUps(who))
  }

  function Built(numbered: nat, who: Who): nat {
    if who.Anyone? then numbered else if 1 <= who.number <= numbered then 1 else 0
  }

  /** Every batch built is in exactly one place: queued, being sent, delivered, overflowed or given up. */
  ghost predicate Conserved(s: Sink) {
    forall who :: Sum(Count(who), s.queue) + Pending(s.flights, who) + Ended(s.log, who) == Built(s.numbered, who)
  }

  predicate Sorted(q: seq<Batch>) {
    forall i, j | 0 <= i < j < |q| :: q[i].number < q[j].number
  }

  ghost predicate SharesOk(shares: seq<Share>, q: seq<Batch>) {
    && (forall i, j | 0 <= i < j < |shares| :: shares[i].org != shares[j].org)
    && (forall i | 0 <= i < |shares| :: shares[i].bytes > 0)
    && (forall org :: ShareOf(shares, org) == Sum(OrgBytes(org), q))
  }

  predicate BatchOk(c: Config, numbered: nat, b: Batch) {
    0 < b.bytes <= c.maxBytes && 1 <= b.number <= numbered
  }

  ghost predicate QueueOk(c: Config, s: Sink) {
    && Sorted(s.queue)
    && s.bytes == Sum(AllBytes, s.queue)
    && SharesOk(s.byOrg, s.queue)
    && (forall i | 0 <= i < |s.queue| ::
          BatchOk(c, s.numbered, s.queue[i]) && (s.queue[i].attempts == 0 || s.queue[i].attempts < c.maxAttempts))
  }

  function Max(a: int, b: int): int {
    if a >= b then a else b
  }

  ghost predicate FlightsOk(c: Config, s: Sink) {
    && |s.flights| <= Max(1, c.healthy)
    && (forall i | 0 <= i < |s.flights| ::
          BatchOk(c, s.numbered, s.flights[i].batch) && 1 <= s.flights[i].batch.attempts <= Max(1, c.maxAttempts))
  }

  ghost predicate CountersOk(s: Sink) {
    && s.delivered == TallyUp(s.log, Deliveries(Anyone))
    && s.droppedOverflow == TallyUp(s.log, Overflows(Anyone))
    && s.droppedPermanent == TallyUp(s.log, GiveUps(Anyone))
    && s.epoch == TallyUp(s.log, Failures) == s.retried + s.droppedPermanent
  }

  function LastFailure(log: seq<Event>): (at: int)
    ensures -1 <= at < |log|
    ensures at >= 0 ==> log[at].Failed?
    ensures forall i | at < i < |log| :: !log[i].Failed?
  {
    if log == [] then -1 else if log[|log| - 1].Failed? then |log| - 1 else LastFailure(log[..|log| - 1])
  }

  /** Nothing failed yet, or a send that started after the latest failure was delivered. */
  ghost predicate Healthy(log: seq<Event>) {
    LastFailure(log) < 0 || exists m, k | LastFailure(log) < m < k < |log| ::
      log[m].Started? && log[k] == Delivered(log[m].number, log[m].attempt)
  }

  ghost predicate StartsBelow(log: seq<Event>, number: nat, attempts: nat, except: int) {
    forall m | 0 <= m < |log| && m != except && log[m].Started? && log[m].number == number :: log[m].attempt < attempts
  }

  ghost predicate FlightLogged(s: Sink, f: Flight) {
    && f.startedAt < |s.log| && s.log[f.startedAt] == Started(f.batch.number, f.batch.attempts)
    && StartsBelow(s.log, f.batch.number, f.batch.attempts, f.startedAt)
    && f.epochAtStart <= s.epoch && (f.epochAtStart == s.epoch <==> f.startedAt > LastFailure(s.log))
  }

  ghost predicate HealthOk(s: Sink) {
    && (forall i | 0 <= i < |s.queue| :: StartsBelow(s.log, s.queue[i].number, s.queue[i].attempts + 1, -1))
    && (forall i | 0 <= i < |s.flights| && !s.flights[i].settled :: FlightLogged(s, s.flights[i]))
    && (forall m | 0 <= m < |s.log| && s.log[m].Started? :: s.log[m].number <= s.numbered)
    && (s.failures == 0 <==> Healthy(s.log))
  }

  ghost predicate Core(c: Config, s: Sink) {
    QueueOk(c, s) && FlightsOk(c, s) && Conserved(s) && CountersOk(s) && HealthOk(s)
  }

  predicate Within(c: Config, s: Sink) {
    |s.queue| <= Max(0, c.maxBatches) && s.bytes <= Max(0, c.maxBytes)
  }

  /** A wake is set for the earliest retry, or the end of a send will pump the queue. */
  predicate TimerOk(c: Config, s: Sink) {
    && (s.timer.Some? ==> !s.stopped && s.queue != [] && s.timer.value == Earliest(s.queue))
    && (!s.stopped && s.queue != [] && c.healthy >= 1 ==> s.timer.Some? || s.flights != [])
  }

  ghost predicate Inv(c: Config, s: Sink) {
    Core(c, s) && Within(c, s) && TimerOk(c, s)
  }
}
