/** The processor itself (adapters/python/autter_tracing.py): its methods do what the state machine says. */
module RetainErrorTracesClass {
  import opened RetainErrors
  import opened RetainErrorsProofs

  class RetainErrorTraces {
    const c: Limits
    /** The buffers, oldest first. */
    var traces: seq<Entry>
    var buffered: int
    var nextSweep: int
    /** How many spans have ended: the name of the next one. */
    var ended: nat
    /** What was handed on, marked as retained or as it was. */
    var forwarded: seq<nat>
    var passed: seq<nat>
    ghost var history: seq<Span>

    ghost function St(): State
      reads this
    {
      State(traces, buffered, nextSweep, history, forwarded, passed)
    }

    ghost predicate Valid()
      reads this
    {
      ValidLimits(c) && ended == |history|
    }

    constructor (c: Limits, now: int)
      requires ValidLimits(c)
      ensures Valid() && IsInit(St()) && this.c == c && nextSweep == now + SWEEP_INTERVAL
    {
      this.c := c;
      traces, buffered, nextSweep, ended := [], 0, now + SWEEP_INTERVAL, 0;
      forwarded, passed, history := [], [], [];
    }

    method DropTrace(trace: int)
      modifies this`traces, this`buffered
      ensures St() == Drop(old(St()), trace)
    {
      var i := Find(traces, trace);
      if i == |traces| { return; }
      buffered := buffered - |traces[i].spans|;
      traces := traces[..i] + traces[i + 1..];
    }

    method EntryFor(trace: int, now: int) returns (i: nat)
      requires Valid()
      modifies this`traces, this`buffered
      ensures St() == WithEntry(c, old(St()), trace, now)
      ensures i == Find(traces, trace) < |traces|
    {
      i := Find(traces, trace);
      if i < |traces| { return; }
      if |traces| >= c.buffered && traces != [] { DropTrace(traces[0].trace); }
      traces := traces + [Entry(trace, [], false, now, ended)];
      i := Find(traces, trace);
    }

    method SweepOld(now: int)
      modifies this`traces, this`buffered, this`nextSweep
      ensures St() == Sweep(c, old(St()), now)
    {
      nextSweep := now + SWEEP_INTERVAL;
      ghost var s := St();
      var ids := Expired(traces, now - c.ttl);
      ghost var all := ids;
      while ids != []
        invariant St().nextSweep == now + SWEEP_INTERVAL && DropAll(St(), ids) == DropAll(s, all)
        decreases |ids|
      {
        DropTrace(ids[0]);
        ids := ids[1..];
      }
    }

    method EvictOverBudget()
      modifies this`traces, this`buffered
      ensures St() == Evict(c, old(St()))
    {
      if buffered <= c.buffered { return; }
      ghost var s := St();
      var ids := WithSpans(traces);
      ghost var all := ids;
      while ids != []
        invariant EvictLoop(c, St(), ids) == EvictLoop(c, s, all)
        decreases |ids|
      {
        DropTrace(ids[0]);
        ids := ids[1..];
        if buffered <= c.buffered { return; }
      }
    }

    /** The part of `on_end` that puts span `n` through buffer `i`. */
    method RecordSpan(span: Span, i: nat, n: nat) returns (forward: seq<nat>)
      requires i == Find(traces, span.trace) < |traces|
      modifies this`traces, this`buffered
      ensures var r := Record(c, old(St()), span, n);
              St() == r.(forwarded := old(forwarded)) && r.forwarded == old(forwarded) + forward
    {
      forward := [];
      var e := traces[i];
      if e.retained {
        forward := [n];
      } else if span.error {
        traces := traces[i := e.(retained := true, spans := [])];
        forward := e.spans + [n];
        buffered := buffered - |e.spans|;
        assert old(forwarded) + e.spans + [n] == old(forwarded) + forward;
      } else {
        BufferSpan(i, n);
        if span.localRoot { DropTrace(span.trace); }
      }
    }

    method BufferSpan(i: nat, n: nat)
      requires i < |traces|
      modifies this`traces, this`buffered
      ensures St() == Buffer(c, old(St()), i, n)
    {
      var e := traces[i];
      if |e.spans| < c.perTrace {
        traces := traces[i := e.(spans := e.spans + [n])];
        buffered := buffered + 1;
        EvictOverBudget();
      }
    }

    method HandOn(forward: seq<nat>)
      modifies this`forwarded
      ensures forwarded == old(forwarded) + forward
    {
      for k := 0 to |forward|
        invariant forwarded == old(forwarded) + forward[..k]
      {
        forwarded := forwarded + [forward[k]];
      }
    }

    /** `on_end`, as the one step it is under the lock; the forwarded spans are handed on in order. */
    method EndSpan(span: Span, now: int)
      requires Valid()
      modifies this
      ensures Valid() && St() == OnEnd(c, old(St()), span, now)
    {
      if span.sampled {
        passed := passed + [ended];
      } else {
        EndUnsampled(span, now);
      }
      ended := ended + 1;
      history := history + [span];
    }

    method EndUnsampled(span: Span, now: int)
      requires Valid() && !span.sampled
      modifies this`traces, this`buffered, this`nextSweep, this`forwarded
      ensures St().(history := history + [span]) == OnEnd(c, old(St()), span, now)
    {
      if now >= nextSweep { SweepOld(now); }
      var i := EntryFor(span.trace, now);
      ghost var s := St();
      var forward := RecordSpan(span, i, ended);
      HandOn(forward);
      RecordHistory(c, s, span, ended);
    }

    method ShutdownAll()
      requires Valid()
      modifies this`traces, this`buffered
      ensures Valid() && St() == Shutdown(old(St()))
    {
      traces, buffered := [], 0;
    }
  }
}
