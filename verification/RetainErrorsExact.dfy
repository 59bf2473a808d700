/** Which buffers one span leaves behind, exactly (adapters/python/autter_tracing.py, `RetainErrorTraces.on_end`). */
module RetainErrorsExact {
  import opened RetainErrors
  import opened RetainErrorsProofs

  // ---------- who stays ----------

  /** The buffers first made after the cutoff, oldest first. */
  function Unexpired(traces: seq<Entry>, cutoff: int): seq<Entry> {
    if traces == [] then []
    else (if traces[0].firstSeen > cutoff then [traces[0]] else []) + Unexpired(traces[1..], cutoff)
  }

  function Others(traces: seq<Entry>, trace: int): seq<Entry> {
    if traces == [] then []
    else (if traces[0].trace != trace then [traces[0]] else []) + Others(traces[1..], trace)
  }

  predicate HasTrace(traces: seq<Entry>, trace: int) {
    exists e <- traces :: e.trace == trace
  }

  lemma {:induction false} NoOthers(traces: seq<Entry>, trace: int)
    requires !HasTrace(traces, trace)
    ensures Others(traces, trace) == traces
  {
    if traces != [] {
      forall e <- traces[1..] ensures e.trace != trace { assert e in traces; }
      assert traces[0] in traces;
      NoOthers(traces[1..], trace);
    }
  }

  lemma {:induction false} OthersAppend(a: seq<Entry>, b: seq<Entry>, trace: int)
    ensures Others(a + b, trace) == Others(a, trace) + Others(b, trace)
  {
    if a == [] {
      assert a + b == b;
    } else {
      assert (a + b)[1..] == a[1..] + b;
      OthersAppend(a[1..], b, trace);
    }
  }

  lemma OthersAround(a: seq<Entry>, e: Entry, b: seq<Entry>)
    requires !HasTrace(a, e.trace) && !HasTrace(b, e.trace)
    ensures Others(a + ([e] + b), e.trace) == a + b
  {
    NoOthers(a, e.trace);
    NoOthers(b, e.trace);
    OthersAppend(a, [e] + b, e.trace);
    assert ([e] + b)[1..] == b && [] + b == b;
  }

  /** A dropped trace is just taken out. */
  lemma DropsOne(traces: seq<Entry>, trace: int)
    requires DistinctTraces(traces)
    ensures var i := Find(traces, trace);
            Others(traces, trace) == if i < |traces| then traces[..i] + traces[i + 1..] else traces
  {
    var i := Find(traces, trace);
    if i < |traces| {
      OnlyThere(traces, i);
      hide DistinctTraces;
      assert traces == traces[..i] + ([traces[i]] + traces[i + 1..]);
      OthersAround(traces[..i], traces[i], traces[i + 1..]);
    } else {
      NoTraceIn(traces, trace);
      NoOthers(traces, trace);
    }
  }

  lemma NoTraceIn(traces: seq<Entry>, trace: int)
    requires forall j | 0 <= j < |traces| :: traces[j].trace != trace
    ensures !HasTrace(traces, trace)
  {}

  lemma OnlyThere(traces: seq<Entry>, i: nat)
    requires DistinctTraces(traces) && i < |traces|
    ensures !HasTrace(traces[..i], traces[i].trace) && !HasTrace(traces[i + 1..], traces[i].trace)
  {
    var tail := traces[i + 1..];
    forall j | 0 <= j < |tail| ensures tail[j].trace != traces[i].trace { assert tail[j] == traces[i + 1 + j]; }
    NoTraceIn(traces[..i], traces[i].trace);
    NoTraceIn(tail, traces[i].trace);
  }

  /** Dropping several traces, one after the other. */
  function NoneOf(traces: seq<Entry>, ids: seq<int>): seq<Entry>
    decreases |ids|
  {
    if ids == [] then traces else NoneOf(Others(traces, ids[0]), ids[1..])
  }

  lemma {:induction false} DropsAll(c: Limits, s: State, ids: seq<int>)
    requires ValidLimits(c) && Entries(c, s)
    ensures DropAll(s, ids).traces == NoneOf(s.traces, ids)
    decreases |ids|
  {
    if ids != [] {
      DropsOne(s.traces, ids[0]);
      DropKeeps(c, s, ids[0]);
      DropsAll(c, Drop(s, ids[0]), ids[1..]);
    }
  }

  lemma {:induction false} ExpiredAreThere(traces: seq<Entry>, cutoff: int)
    ensures forall id <- Expired(traces, cutoff) :: HasTrace(traces, id)
  {
    if traces != [] {
      ExpiredAreThere(traces[1..], cutoff);
      forall id <- Expired(traces, cutoff) ensures HasTrace(traces, id) {
        if id == traces[0].trace {
          assert traces[0] in traces;
        } else {
          assert id in Expired(traces[1..], cutoff);
          var e :| e in traces[1..] && e.trace == id;
          assert e in traces;
        }
      }
    }
  }

  lemma {:induction false} HeadStays(head: Entry, tail: seq<Entry>, ids: seq<int>)
    requires head.trace !in ids
    ensures NoneOf([head] + tail, ids) == [head] + NoneOf(tail, ids)
    decreases |ids|
  {
    if ids != [] {
      assert ([head] + tail)[1..] == tail;
      HeadStays(head, Others(tail, ids[0]), ids[1..]);
    }
  }

  lemma FirstIsOnly(traces: seq<Entry>)
    requires traces != [] && DistinctTraces(traces)
    ensures !HasTrace(traces[1..], traces[0].trace) && DistinctTraces(traces[1..])
  {
    forall e <- traces[1..] ensures e.trace != traces[0].trace {
      var j :| 0 <= j < |traces[1..]| && traces[1..][j] == e;
      assert traces[j + 1] == e;
    }
  }

  /** A sweep takes the expired buffers out and keeps the others in order. */
  lemma {:induction false} SweptExactly(traces: seq<Entry>, cutoff: int)
    requires DistinctTraces(traces)
    ensures NoneOf(traces, Expired(traces, cutoff)) == Unexpired(traces, cutoff)
  {
    if traces != [] {
      FirstIsOnly(traces);
      SweptExactly(traces[1..], cutoff);
      ExpiredAreThere(traces[1..], cutoff);
      var later := Expired(traces[1..], cutoff);
      assert traces == [traces[0]] + traces[1..];
      assert traces[0].trace !in later;
      if traces[0].firstSeen > cutoff {
        assert Expired(traces, cutoff) == later;
        HeadStays(traces[0], traces[1..], later);
      } else {
        assert Expired(traces, cutoff) == [traces[0].trace] + later;
        NoOthers(traces[1..], traces[0].trace);
        assert [] + traces[1..] == traces[1..];
      }
    }
  }

  // ---------- one span ----------

  lemma {:induction false} FoundExactly(traces: seq<Entry>, trace: int)
    ensures HasTrace(traces, trace) <==> Find(traces, trace) < |traces|
  {
    var i := Find(traces, trace);
    if i < |traces| { assert traces[i] in traces; }
  }

  lemma SweepsExactly(c: Limits, s: State, now: int)
    requires ValidLimits(c) && Inv(c, s)
    ensures var r := Sweep(c, s, now);
            && r.traces == Unexpired(s.traces, now - c.ttl)
            && r.nextSweep == now + 10 && r.history == s.history && r.passed == s.passed
  {
    hide EntryOk, ForwardedOk;
    var start := s.(nextSweep := now + SWEEP_INTERVAL);
    DropsAll(c, start, Expired(s.traces, now - c.ttl));
    DropAllKeeps(c, start, Expired(s.traces, now - c.ttl));
    SweptExactly(s.traces, now - c.ttl);
  }

  lemma EntersExactly(c: Limits, s: State, trace: int, now: int)
    requires ValidLimits(c)
    ensures var t := WithEntry(c, s, trace, now);
            && t.nextSweep == s.nextSweep && t.history == s.history && t.passed == s.passed
            && t.traces == if HasTrace(s.traces, trace) then s.traces
                           else (if |s.traces| >= c.buffered then s.traces[1..] else s.traces)
                                + [Entry(trace, [], false, now, |s.history|)]
  {
    FoundExactly(s.traces, trace);
    if s.traces != [] { assert Find(s.traces, s.traces[0].trace) == 0; }
  }

  /**
   * The buffers when a span reaches its own: the expired ones are gone when a sweep is due, which is every ten seconds;
   * the span's trace has one, a new and empty one if there was none; then, at the limit, the oldest had to go.
   */
  lemma ArrivesExactly(c: Limits, s: State, trace: int, now: int)
    requires ValidLimits(c) && Inv(c, s)
    ensures var t := Arrived(c, s, trace, now);
            var kept := if now >= s.nextSweep then Unexpired(s.traces, now - c.ttl) else s.traces;
            && t.history == s.history && t.passed == s.passed
            && t.nextSweep == (if now >= s.nextSweep then now + 10 else s.nextSweep)
            && t.traces == if HasTrace(kept, trace) then kept
                           else (if |kept| >= c.buffered then kept[1..] else kept) + [Entry(trace, [], false, now, |s.history|)]
  {
    hide Sweep, WithEntry, Inv;
    if now >= s.nextSweep { SweepsExactly(c, s, now); }
    EntersExactly(c, if now >= s.nextSweep then Sweep(c, s, now) else s, trace, now);
  }

  /** Over the budget, the oldest buffer that holds spans goes, whole. */
  ghost predicate Evicted(c: Limits, before: seq<Entry>, after: seq<Entry>) {
    if Total(before) <= c.buffered then after == before
    else exists i | 0 <= i < |before| ::
           && before[i].spans != [] && (forall j | 0 <= j < i :: before[j].spans == [])
           && after == before[..i] + before[i + 1..]
  }

  lemma BuffersExactly(c: Limits, s: State, i: nat, n: nat)
    requires ValidLimits(c) && DistinctTraces(s.traces) && s.buffered == Total(s.traces) <= c.buffered && i < |s.traces|
    ensures var e, r := s.traces[i], Buffer(c, s, i, n);
            && DistinctTraces(r.traces) && r.passed == s.passed && r.history == s.history
            && Evicted(c, s.traces[i := if |e.spans| < c.perTrace then e.(spans := e.spans + [n]) else e], r.traces)
  {
    var e := s.traces[i];
    if |e.spans| < c.perTrace {
      var grown := SetEntry(s, i, e.(spans := e.spans + [n])).(buffered := s.buffered + 1);
      TotalSet(s.traces, i, e.(spans := e.spans + [n]));
      SameTraces(s.traces, i, e.(spans := e.spans + [n]));
      hide Evict, Total, DistinctTraces;
      EvictedAtMostOne(c, grown);
    } else {
      assert s.traces[i := e] == s.traces;
    }
  }

  lemma SameTraces(traces: seq<Entry>, i: nat, e: Entry)
    requires DistinctTraces(traces) && i < |traces| && e.trace == traces[i].trace
    ensures DistinctTraces(traces[i := e])
  {}

  lemma EvictedAtMostOne(c: Limits, s: State)
    requires DistinctTraces(s.traces) && s.buffered == Total(s.traces) <= c.buffered + 1 && c.buffered >= 1
    ensures var r := Evict(c, s);
            DistinctTraces(r.traces) && Evicted(c, s.traces, r.traces) && r.passed == s.passed && r.history == s.history
  {
    if s.buffered > c.buffered { EvictedOldest(c, s); }
  }

  lemma EvictedOldest(c: Limits, s: State)
    requires DistinctTraces(s.traces) && s.buffered == Total(s.traces) == c.buffered + 1 && c.buffered >= 1
    ensures var r := Evict(c, s);
            DistinctTraces(r.traces) && Evicted(c, s.traces, r.traces) && r.passed == s.passed && r.history == s.history
  {
    SomeWithSpans(s.traces);
    FirstWithSpans(s.traces);
    var i := Find(s.traces, WithSpans(s.traces)[0]);
    assert Evict(c, s) == Drop(s, WithSpans(s.traces)[0]) && s.traces[i].spans != [];
    var r := s.traces[..i] + s.traces[i + 1..];
    forall a, b | 0 <= a < b < |r| ensures r[a].trace != r[b].trace {
      assert r[a] == s.traces[if a < i then a else a + 1] && r[b] == s.traces[if b < i then b else b + 1];
    }
  }

  /** What a span does to the buffers once its own, number `i`, is there. */
  ghost predicate Leaves(c: Limits, before: seq<Entry>, span: Span, n: nat, after: seq<Entry>, i: nat)
    requires i < |before|
  {
    var e := before[i];
    if e.retained then after == before
    else if span.error then after == before[i := e.(retained := true, spans := [])]
    else exists kept: seq<Entry> ::
      && Evicted(c, before[i := if |e.spans| < c.perTrace then e.(spans := e.spans + [n]) else e], kept)
      && after == if span.localRoot then Others(kept, span.trace) else kept
  }

  lemma RecordLeaves(c: Limits, s: State, span: Span, n: nat)
    requires ValidLimits(c) && DistinctTraces(s.traces) && s.buffered == Total(s.traces) <= c.buffered
    requires Find(s.traces, span.trace) < |s.traces|
    ensures var r := Record(c, s, span, n);
            Leaves(c, s.traces, span, n, r.traces, Find(s.traces, span.trace)) && r.passed == s.passed && r.history == s.history
  {
    hide Total;
    var i := Find(s.traces, span.trace);
    if !s.traces[i].retained && !span.error {
      BuffersExactly(c, s, i, n);
      hide Buffer, Evicted;
      DropsOne(Buffer(c, s, i, n).traces, span.trace);
    }
  }

  /**
   * What a span leaves in the buffers, in every state a run reaches: a sampled one passes by; after an error its trace's
   * buffer is empty and stays open; otherwise the span joins while there is room, the oldest buffer with spans goes when
   * there are too many, and the end of a healthy local root closes its own trace's buffer. Nothing else goes.
   */
  lemma SpanLeaves(c: Limits, init: State, steps: seq<Step>, span: Span, now: int)
    requires ValidLimits(c) && IsInit(init)
    ensures var s := Run(c, init, steps);
            var r := OnEnd(c, s, span, now);
            if span.sampled then r == s.(passed := s.passed + [|s.history|], history := s.history + [span])
            else
              var t := Arrived(c, s, span.trace, now);
              && r.history == s.history + [span] && r.passed == s.passed
              && exists i | 0 <= i < |t.traces| && t.traces[i].trace == span.trace ::
                   Leaves(c, t.traces, span, |s.history|, r.traces, i)
  {
    RunKeeps(c, init, steps);
    var s := Run(c, init, steps);
    if !span.sampled {
      ArrivedKeeps(c, s, span.trace, now);
      ArrivesExactly(c, s, span.trace, now);
      var t := Arrived(c, s, span.trace, now);
      assert Entries(c, t) && t.buffered <= c.buffered;
      hide Inv, Entries, Leaves, Record;
      RecordLeaves(c, t.(history := s.history + [span]), span, |s.history|);
    }
  }
}
