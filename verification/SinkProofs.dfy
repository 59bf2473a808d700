/** Every step of the sink delivery queue keeps the invariant. */
module SinkProofs {
  import opened Wrappers
  import opened SinkModel

  // ---------- sums and tallies ----------

  lemma {:induction false} SumAppend(m: Measure, a: seq<Batch>, b: seq<Batch>)
    ensures Sum(m, a + b) == Sum(m, a) + Sum(m, b)
  {
    if a == [] {
      assert a + b == b;
    } else {
      assert (a + b)[1..] == a[1..] + b;
      SumAppend(m, a[1..], b);
    }
  }

  lemma SumOne(m: Measure, b: Batch)
    ensures Sum(m, [b]) == Weight(m, b)
  {}

  lemma SumInsert(m: Measure, q: seq<Batch>, at: nat, b: Batch)
    requires at <= |q|
    ensures Sum(m, q[..at] + [b] + q[at..]) == Sum(m, q) + Weight(m, b)
  {
    SumAppend(m, q[..at] + [b], q[at..]);
    SumAppend(m, q[..at], [b]);
    SumAppend(m, q[..at], q[at..]);
    assert q == q[..at] + q[at..];
  }

  lemma SumRemove(m: Measure, q: seq<Batch>, at: nat)
    requires at < |q|
    ensures Sum(m, q) == Sum(m, RemoveAt(q, at)) + Weight(m, q[at])
  {
    var rest := RemoveAt(q, at);
    SumInsert(m, rest, at, q[at]);
    assert rest[..at] + [q[at]] + rest[at..] == q;
  }

  lemma {:induction false} PendingAppend(a: seq<Flight>, b: seq<Flight>, who: Who)
    ensures Pending(a + b, who) == Pending(a, who) + Pending(b, who)
  {
    if a == [] {
      assert a + b == b;
    } else {
      assert (a + b)[1..] == a[1..] + b;
      PendingAppend(a[1..], b, who);
    }
  }

  function PendingOne(f: Flight, who: Who): nat {
    if !f.settled && Is(who, f.batch.number) then 1 else 0
  }

  lemma PendingRemove(fs: seq<Flight>, i: nat, who: Who)
    requires i < |fs|
    ensures Pending(fs, who) == Pending(RemoveAt(fs, i), who) + PendingOne(fs[i], who)
  {
    assert fs == fs[..i] + ([fs[i]] + fs[i + 1..]);
    PendingAppend(fs[..i], [fs[i]] + fs[i + 1..], who);
    PendingAppend([fs[i]], fs[i + 1..], who);
    PendingAppend(fs[..i], fs[i + 1..], who);
  }

  lemma PendingSettle(s: Sink, i: nat, who: Who)
    requires i < |s.flights| && !s.flights[i].settled
    ensures Pending(s.flights, who)
         == Pending(SetSettled(s, i).flights, who) + (if Is(who, s.flights[i].batch.number) then 1 else 0)
  {
    var after := SetSettled(s, i).flights;
    PendingRemove(s.flights, i, who);
    PendingRemove(after, i, who);
    assert RemoveAt(after, i) == RemoveAt(s.flights, i);
  }

  function EndedOne(e: Event, who: Who): nat {
    if (e.Delivered? || e.Overflowed? || e.GaveUp?) && Is(who, e.number) then 1 else 0
  }

  lemma EndedAppend(log: seq<Event>, e: Event, who: Who)
    ensures Ended(log + [e], who) == Ended(log, who) + EndedOne(e, who)
  {}

  // ---------- per-org bytes ----------

  lemma {:induction false} SetShareWorks(shares: seq<Share>, org: string, bytes: int)
    requires forall i, j | 0 <= i < j < |shares| :: shares[i].org != shares[j].org
    ensures var r := SetShare(shares, org, bytes);
            && (forall i, j | 0 <= i < j < |r| :: r[i].org != r[j].org)
            && (forall o :: ShareOf(r, o) == if o == org then bytes else ShareOf(shares, o))
            && (forall i | 0 <= i < |r| :: r[i] == Share(org, bytes) || r[i] in shares)
  {
    var r := SetShare(shares, org, bytes);
    if shares != [] && shares[0].org != org {
      SetShareWorks(shares[1..], org, bytes);
      assert r[1..] == SetShare(shares[1..], org, bytes);
    }
    if shares != [] { assert r[1..] == if shares[0].org == org then shares[1..] else SetShare(shares[1..], org, bytes); }
  }

  lemma {:induction false} NoShare(shares: seq<Share>, org: string)
    requires forall i | 0 <= i < |shares| :: shares[i].org != org
    ensures ShareOf(shares, org) == 0
  {
    if shares != [] { NoShare(shares[1..], org); }
  }

  lemma {:induction false} DropShareWorks(shares: seq<Share>, org: string)
    requires forall i, j | 0 <= i < j < |shares| :: shares[i].org != shares[j].org
    ensures var r := DropShare(shares, org);
            && (forall i, j | 0 <= i < j < |r| :: r[i].org != r[j].org)
            && (forall o :: ShareOf(r, o) == if o == org then 0 else ShareOf(shares, o))
            && (forall i | 0 <= i < |r| :: r[i] in shares)
  {
    if shares == [] {
    } else if shares[0].org == org {
      NoShare(shares[1..], org);
    } else {
      DropShareWorks(shares[1..], org);
      assert DropShare(shares, org)[1..] == DropShare(shares[1..], org);
    }
  }

  lemma TrackShares(s: Sink, b: Batch, q: seq<Batch>)
    requires SharesOk(s.byOrg, s.queue) && b.bytes > 0
    requires forall org :: Sum(OrgBytes(org), q) == Sum(OrgBytes(org), s.queue) + Weight(OrgBytes(org), b)
    ensures SharesOk(Track(s, b).byOrg, q)
  {
    SetShareWorks(s.byOrg, b.org, ShareOf(s.byOrg, b.org) + b.bytes);
  }

  lemma UntrackShares(s: Sink, b: Batch, before: seq<Batch>)
    requires SharesOk(s.byOrg, before)
    requires forall org :: Sum(OrgBytes(org), before) == Sum(OrgBytes(org), s.queue) + Weight(OrgBytes(org), b)
    ensures SharesOk(Untrack(s, b).byOrg, s.queue)
  {
    var left := ShareOf(s.byOrg, b.org) - b.bytes;
    if left > 0 { SetShareWorks(s.byOrg, b.org, left); } else { DropShareWorks(s.byOrg, b.org); }
  }

  // ---------- the queue ----------

  lemma TakeOut(c: Config, s: Sink, at: nat)
    requires QueueOk(c, s) && at < |s.queue|
    ensures QueueOk(c, Untrack(s.(queue := RemoveAt(s.queue, at)), s.queue[at]))
  {
    var rest, b := RemoveAt(s.queue, at), s.queue[at];
    forall org ensures Sum(OrgBytes(org), s.queue) == Sum(OrgBytes(org), rest) + Weight(OrgBytes(org), b) {
      SumRemove(OrgBytes(org), s.queue, at);
    }
    SumRemove(AllBytes, s.queue, at);
    UntrackShares(s.(queue := rest), b, s.queue);
    forall i | 0 <= i < |rest| ensures rest[i] == s.queue[if i < at then i else i + 1] {}
  }

  lemma PutInShares(s: Sink, at: nat, b: Batch, q: seq<Batch>)
    requires SharesOk(s.byOrg, s.queue) && at <= |s.queue| && b.bytes > 0 && q == s.queue[..at] + [b] + s.queue[at..]
    ensures SharesOk(Track(s, b).byOrg, q)
  {
    forall org ensures Sum(OrgBytes(org), q) == Sum(OrgBytes(org), s.queue) + Weight(OrgBytes(org), b) {
      SumInsert(OrgBytes(org), s.queue, at, b);
    }
    TrackShares(s, b, q);
  }

  lemma PutIn(c: Config, s: Sink, at: nat, b: Batch)
    requires QueueOk(c, s) && at <= |s.queue|
    requires BatchOk(c, s.numbered, b) && (b.attempts == 0 || b.attempts < c.maxAttempts)
    requires forall i | 0 <= i < at :: s.queue[i].number < b.number
    requires forall i | at <= i < |s.queue| :: b.number < s.queue[i].number
    ensures QueueOk(c, Track(s.(queue := s.queue[..at] + [b] + s.queue[at..]), b))
  {
    var q := s.queue[..at] + [b] + s.queue[at..];
    PutInShares(s, at, b, q);
    SumInsert(AllBytes, s.queue, at, b);
    SortedInsert(s.queue, at, b);
    forall i | 0 <= i < |q| ensures q[i] == b || q[i] in s.queue {}
  }

  lemma SortedInsert(q: seq<Batch>, at: nat, b: Batch)
    requires Sorted(q) && at <= |q|
    requires forall i | 0 <= i < at :: q[i].number < b.number
    requires forall i | at <= i < |q| :: b.number < q[i].number
    ensures Sorted(q[..at] + [b] + q[at..])
  {}

  /** A batch already in a place is in no other: no queued batch has the number of a pending send. */
  lemma {:induction false} Counted(q: seq<Batch>, i: nat)
    requires i < |q|
    ensures Sum(Count(Only(q[i].number)), q) >= 1
  {
    if i > 0 { Counted(q[1..], i - 1); }
  }

  lemma PendingCounted(fs: seq<Flight>, i: nat)
    requires i < |fs| && !fs[i].settled
    ensures Pending(fs, Only(fs[i].batch.number)) >= 1
  {
    PendingRemove(fs, i, Only(fs[i].batch.number));
  }

  lemma NotBoth(c: Config, s: Sink, i: nat, j: nat)
    requires Core(c, s) && i < |s.flights| && !s.flights[i].settled && j < |s.queue|
    ensures s.flights[i].batch.number != s.queue[j].number
  {
    PendingCounted(s.flights, i);
    Counted(s.queue, j);
    var who := Only(s.queue[j].number);
    assert Sum(Count(who), s.queue) + Pending(s.flights, who) + Ended(s.log, who) == Built(s.numbered, who);
  }

  // ---------- health ----------

  lemma LastAppend(log: seq<Event>, e: Event)
    ensures LastFailure(log + [e]) == if e.Failed? then |log| else LastFailure(log)
  {}

  lemma StaysHealthy(log: seq<Event>, e: Event)
    requires !e.Failed? && !e.Delivered?
    ensures Healthy(log + [e]) <==> Healthy(log)
  {}

  /** A delivery heals exactly when its send started after the latest failure. */
  lemma DeliveryHeals(log: seq<Event>, f: Flight)
    requires f.startedAt < |log| && log[f.startedAt] == Started(f.batch.number, f.batch.attempts)
    requires StartsBelow(log, f.batch.number, f.batch.attempts, f.startedAt)
    ensures Healthy(log + [Delivered(f.batch.number, f.batch.attempts)])
       <==> Healthy(log) || f.startedAt > LastFailure(log)
  {}

  lemma BelowAppend(log: seq<Event>, e: Event, number: nat, attempts: nat, except: int)
    requires StartsBelow(log, number, attempts, except)
    requires e.Started? && e.number == number ==> e.attempt < attempts
    ensures StartsBelow(log + [e], number, attempts, except)
  {}

}
