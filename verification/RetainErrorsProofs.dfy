/** Every run of `RetainErrorTraces` keeps its budget and forwards what it promises. */
module RetainErrorsProofs {
  import opened RetainErrors

  lemma ForwardedGrow(history: seq<Span>, span: Span, forwarded: seq<nat>)
    requires ForwardedOk(history, forwarded)
    ensures ForwardedOk(history + [span], forwarded)
  {
    var longer := history + [span];
    forall k <- forwarded ensures k < |longer| && !longer[k].sampled && HasError(longer, longer[k].trace) {
      assert longer[k] == history[k];
      ErrorStays(history, span, history[k].trace);
    }
  }

  /** Distinct spans of a trace that errs may be forwarded when none of them was before. */
  lemma ForwardMore(history: seq<Span>, forwarded: seq<nat>, more: seq<nat>, trace: int)
    requires ForwardedOk(history, forwarded) && HasError(history, trace)
    requires forall i, j | 0 <= i < j < |more| :: more[i] != more[j]
    requires forall k <- more :: k < |history| && !history[k].sampled && history[k].trace == trace && k !in forwarded
    ensures ForwardedOk(history, forwarded + more)
  {
    var all := forwarded + more;
    forall i, j | 0 <= i < j < |all| ensures all[i] != all[j] {
      if i < |forwarded| {
        assert all[i] in forwarded;
        if j >= |forwarded| { assert all[j] in more; }
      }
    }
    forall k <- all ensures k < |history| && !history[k].sampled && HasError(history, history[k].trace) {
      assert k in forwarded || k in more;
    }
  }

  ghost predicate Ready(c: Limits, s: State, span: Span) {
    && ValidLimits(c) && Inv(c, s) && !span.sampled && Find(s.traces, span.trace) < |s.traces|
  }

  lemma RecordLate(c: Limits, s: State, span: Span)
    requires Ready(c, s, span) && s.traces[Find(s.traces, span.trace)].retained
    ensures Inv(c, Record(c, s.(history := s.history + [span]), span, |s.history|))
  {
    var i, n := Find(s.traces, span.trace), |s.history|;
    var longer := s.history + [span];
    assert longer[n] == span;
    forall j | 0 <= j < |s.traces| ensures EntryOk(c, longer, s.forwarded + [n], s.traces[j]) {
      if j == i { ErrorStays(s.history, span, span.trace); }
      else { OthersKeep(c, s.history, s.forwarded, [n], span, s.traces[j]); }
    }
    ErrorStays(s.history, span, span.trace);
    ForwardedGrow(s.history, span, s.forwarded);
    ForwardMore(longer, s.forwarded, [n], span.trace);
  }

  lemma ErrorForwards(c: Limits, s: State, span: Span, e: Entry, more: seq<nat>)
    requires ValidLimits(c) && EntryOk(c, s.history, s.forwarded, e) && !e.retained && ForwardedOk(s.history, s.forwarded)
    requires e.trace == span.trace && !span.sampled && span.error && more == e.spans + [|s.history|]
    ensures ForwardedOk(s.history + [span], s.forwarded + more)
    ensures forall k <- more :: k <= |s.history| && (s.history + [span])[k].trace == span.trace
  {
    var n, longer := |s.history|, s.history + [span];
    assert longer[n] == span;
    ErrorIsThere(s.history, span);
    forall k <- more ensures k < |longer| && !longer[k].sampled && longer[k].trace == span.trace && k !in s.forwarded {
      if k in e.spans {
        assert longer[k] == s.history[k];
        assert k in SpansOf(s.history, e.trace, e.born, n);
      }
    }
    ForwardedGrow(s.history, span, s.forwarded);
    ForwardMore(longer, s.forwarded, more, span.trace);
  }

  lemma RecordError(c: Limits, s: State, span: Span)
    requires Ready(c, s, span) && !s.traces[Find(s.traces, span.trace)].retained && span.error
    ensures Inv(c, Record(c, s.(history := s.history + [span]), span, |s.history|))
  {
    var i := Find(s.traces, span.trace);
    var e, longer := s.traces[i], s.history + [span];
    var more, e' := e.spans + [|s.history|], e.(retained := true, spans := []);
    var after := s.traces[i := e'];
    ErrorForwards(c, s, span, e, more);
    ErrorIsThere(s.history, span);
    forall j | 0 <= j < |after| ensures EntryOk(c, longer, s.forwarded + more, after[j]) {
      if j != i { OthersKeep(c, s.history, s.forwarded, more, span, s.traces[j]); }
    }
    TotalSet(s.traces, i, e');
    assert s.forwarded + more == s.forwarded + e.spans + [|s.history|];
  }

  /** A healthy span is buffered while there is room, before eviction and the end of the trace. */
  lemma Buffered(c: Limits, s: State, span: Span, i: nat, e: Entry, r: State)
    requires Ready(c, s, span) && i == Find(s.traces, span.trace) && !s.traces[i].retained && !span.error
    requires e == if |s.traces[i].spans| < c.perTrace then s.traces[i].(spans := s.traces[i].spans + [|s.history|]) else s.traces[i]
    requires r == s.(traces := s.traces[i := e], history := s.history + [span],
                     buffered := s.buffered + |e.spans| - |s.traces[i].spans|)
    ensures Entries(c, r) && ForwardedOk(r.history, r.forwarded)
  {
    var longer := s.history + [span];
    OwnTakes(c, s.history, s.forwarded, span, s.traces[i]);
    assert s.forwarded + [] == s.forwarded;
    forall j | 0 <= j < |s.traces| ensures EntryOk(c, longer, s.forwarded, r.traces[j]) {
      if j != i { OthersKeep(c, s.history, s.forwarded, [], span, s.traces[j]); }
    }
    TotalSet(s.traces, i, e);
    ForwardedGrow(s.history, span, s.forwarded);
  }

  lemma CloseKeeps(c: Limits, s: State, span: Span)
    requires ValidLimits(c) && Inv(c, s)
    ensures Inv(c, Close(s, span))
  {
    DropKeeps(c, s, span.trace);
  }

  lemma BufferFull(c: Limits, s: State, span: Span, i: nat, grown: State)
    requires Ready(c, s, span) && i == Find(s.traces, span.trace) && !s.traces[i].retained && !span.error
    requires |s.traces[i].spans| >= c.perTrace && grown == s.(history := s.history + [span])
    ensures Inv(c, grown)
  {
    assert s.traces[i := s.traces[i]] == s.traces;
    Buffered(c, s, span, i, s.traces[i], grown);
  }

  lemma BufferRoom(c: Limits, s: State, span: Span, i: nat, mid: State, r: State)
    requires Ready(c, s, span) && i == Find(s.traces, span.trace) && !s.traces[i].retained && !span.error
    requires |s.traces[i].spans| < c.perTrace && r == Evict(c, mid)
    requires mid == s.(traces := s.traces[i := s.traces[i].(spans := s.traces[i].spans + [|s.history|])],
                       buffered := s.buffered + 1, history := s.history + [span])
    ensures Inv(c, r)
  {
    Buffered(c, s, span, i, mid.traces[i], mid);
    EvictKeeps(c, mid);
  }

  lemma BufferKeeps(c: Limits, s: State, span: Span, i: nat, grown: State)
    requires Ready(c, s, span) && i == Find(s.traces, span.trace) && !s.traces[i].retained && !span.error
    requires grown == s.(history := s.history + [span])
    ensures Inv(c, Buffer(c, grown, i, |s.history|))
  {
    hide Inv;
    var e := s.traces[i];
    if |e.spans| < c.perTrace {
      var mid := SetEntry(grown, i, e.(spans := e.spans + [|s.history|])).(buffered := s.buffered + 1);
      BufferRoom(c, s, span, i, mid, Evict(c, mid));
    } else {
      BufferFull(c, s, span, i, grown);
    }
  }

  lemma RecordHealthy(c: Limits, s: State, span: Span)
    requires Ready(c, s, span) && !s.traces[Find(s.traces, span.trace)].retained && !span.error
    ensures Inv(c, Record(c, s.(history := s.history + [span]), span, |s.history|))
  {
    var i := Find(s.traces, span.trace);
    BufferKeeps(c, s, span, i, s.(history := s.history + [span]));
    CloseKeeps(c, Buffer(c, s.(history := s.history + [span]), i, |s.history|), span);
  }

  lemma MakeRoomKeeps(c: Limits, s: State, trace: int)
    requires ValidLimits(c) && Inv(c, s) && Find(s.traces, trace) == |s.traces|
    ensures Inv(c, MakeRoom(c, s))
    ensures var r := MakeRoom(c, s);
            |r.traces| < c.buffered && r.history == s.history && r.forwarded == s.forwarded
            && forall j | 0 <= j < |r.traces| :: r.traces[j].trace != trace
  {
    if |s.traces| >= c.buffered {
      DropKeeps(c, s, s.traces[0].trace);
      var r := MakeRoom(c, s);
      forall j | 0 <= j < |r.traces| ensures r.traces[j].trace != trace { assert r.traces[j] in s.traces; }
    }
  }

  lemma NewEntryKeeps(c: Limits, s: State, trace: int, now: int)
    requires ValidLimits(c) && Inv(c, s) && |s.traces| < c.buffered
    requires forall j | 0 <= j < |s.traces| :: s.traces[j].trace != trace
    ensures Inv(c, NewEntry(s, trace, now))
  {
    var e := Entry(trace, [], false, now, |s.history|);
    TotalAppend(s.traces, [e]);
    assert EntryOk(c, s.history, s.forwarded, e);
  }

  lemma WithEntryKeeps(c: Limits, s: State, trace: int, now: int)
    requires ValidLimits(c) && Inv(c, s)
    ensures Inv(c, WithEntry(c, s, trace, now))
    ensures var r := WithEntry(c, s, trace, now); r.history == s.history && r.forwarded == s.forwarded
  {
    if Find(s.traces, trace) == |s.traces| {
      MakeRoomKeeps(c, s, trace);
      NewEntryKeeps(c, MakeRoom(c, s), trace, now);
    }
  }

  lemma SampledKeeps(c: Limits, s: State, span: Span)
    requires ValidLimits(c) && Inv(c, s) && span.sampled
    ensures Inv(c, s.(passed := s.passed + [|s.history|], history := s.history + [span]))
  {
    ForwardedGrow(s.history, span, s.forwarded);
    assert s.forwarded + [] == s.forwarded;
    forall j | 0 <= j < |s.traces| ensures EntryOk(c, s.history + [span], s.forwarded, s.traces[j]) {
      OthersKeep(c, s.history, s.forwarded, [], span, s.traces[j]);
    }
  }

  /** The state when a span reaches the buffer of its trace. */
  function Arrived(c: Limits, s: State, trace: int, now: int): State
  {
    WithEntry(c, if now >= s.nextSweep then Sweep(c, s, now) else s, trace, now)
  }

  lemma ArrivedKeeps(c: Limits, s: State, trace: int, now: int)
    requires ValidLimits(c) && Inv(c, s)
    ensures Inv(c, Arrived(c, s, trace, now))
    ensures var r := Arrived(c, s, trace, now);
            r.history == s.history && r.forwarded == s.forwarded && Find(r.traces, trace) < |r.traces|
  {
    var t := if now >= s.nextSweep then Sweep(c, s, now) else s;
    DropAllKeeps(c, s.(nextSweep := now + SWEEP_INTERVAL), Expired(s.traces, now - c.ttl));
    WithEntryKeeps(c, t, trace, now);
  }

  /** Any step keeps the whole invariant. */
  lemma StepKeeps(c: Limits, s: State, e: Step)
    requires ValidLimits(c) && Inv(c, s)
    ensures Inv(c, Next(c, s, e))
  {
    match e
    case ShutsDown =>
    case Ends(span, now) =>
      if span.sampled {
        SampledKeeps(c, s, span);
      } else {
        ArrivedKeeps(c, s, span.trace, now);
        var t := Arrived(c, s, span.trace, now);
        var entry := t.traces[Find(t.traces, span.trace)];
        if entry.retained { RecordLate(c, t, span); }
        else if span.error { RecordError(c, t, span); }
        else { RecordHealthy(c, t, span); }
      }
  }

  predicate IsInit(s: State) {
    s.traces == [] && s.buffered == 0 && s.history == [] && s.forwarded == [] && s.passed == []
  }

  lemma {:induction false} RunKeeps(c: Limits, s: State, steps: seq<Step>)
    requires ValidLimits(c) && Inv(c, s)
    ensures Inv(c, Run(c, s, steps))
    decreases |steps|
  {
    if steps != [] {
      StepKeeps(c, s, steps[0]);
      RunKeeps(c, Next(c, s, steps[0]), steps[1..]);
    }
  }

  // ---------- main results ----------

  /** The budget over every run: the counter is exact, and neither spans nor traces exceed it. */
  lemma BudgetKept(c: Limits, init: State, steps: seq<Step>)
    requires ValidLimits(c) && IsInit(init)
    ensures var s := Run(c, init, steps);
            && s.buffered == Total(s.traces) <= c.buffered && |s.traces| <= c.buffered && DistinctTraces(s.traces)
            && (forall i | 0 <= i < |s.traces| ::
                  |s.traces[i].spans| <= c.perTrace && (s.traces[i].retained ==> s.traces[i].spans == []))
  {
    RunKeeps(c, init, steps);
    var s := Run(c, init, steps);
    forall i | 0 <= i < |s.traces|
      ensures |s.traces[i].spans| <= c.perTrace && (s.traces[i].retained ==> s.traces[i].spans == [])
    {
      assert EntryOk(c, s.history, s.forwarded, s.traces[i]);
    }
  }

  /** Over every run, a span is forwarded at most once, and only when an unsampled span of its trace erred. */
  lemma ForwardedOnceAndOnlyErrors(c: Limits, init: State, steps: seq<Step>)
    requires ValidLimits(c) && IsInit(init)
    ensures var s := Run(c, init, steps);
            && (forall i, j | 0 <= i < j < |s.forwarded| :: s.forwarded[i] != s.forwarded[j])
            && (forall k <- s.forwarded :: k < |s.history| && !s.history[k].sampled && HasError(s.history, s.history[k].trace))
  {
    RunKeeps(c, init, steps);
  }

  /**
   * What one unsampled span forwards, in any state a run reaches: with an error before it in its buffer's
   * life, itself; with the first error, the first spans of the trace since the buffer was made, in end order
   * and up to the limit, then itself; otherwise nothing.
   */
  lemma WhatIsForwarded(c: Limits, init: State, steps: seq<Step>, span: Span, now: int)
    requires ValidLimits(c) && IsInit(init) && !span.sampled
    ensures var s := Run(c, init, steps);
            var t := Arrived(c, s, span.trace, now);
            var i := Find(t.traces, span.trace);
            && i < |t.traces| && t.traces[i].trace == span.trace && t.traces[i].born <= |s.history|
            && OnEnd(c, s, span, now).forwarded == s.forwarded
               + if t.traces[i].retained then [|s.history|]
                 else if span.error then Take(SpansOf(s.history, span.trace, t.traces[i].born, |s.history|), c.perTrace) + [|s.history|]
                 else []
  {
    RunKeeps(c, init, steps);
    var s := Run(c, init, steps);
    ArrivedKeeps(c, s, span.trace, now);
    var t := Arrived(c, s, span.trace, now);
    var i := Find(t.traces, span.trace);
    assert EntryOk(c, t.history, t.forwarded, t.traces[i]);
    RecordForwards(c, t, span);
  }

  lemma RecordForwards(c: Limits, s: State, span: Span)
    requires Find(s.traces, span.trace) < |s.traces|
    ensures var e := s.traces[Find(s.traces, span.trace)];
            Record(c, s.(history := s.history + [span]), span, |s.history|).forwarded == s.forwarded
            + if e.retained then [|s.history|] else if span.error then e.spans + [|s.history|] else []
  {
    var i, n := Find(s.traces, span.trace), |s.history|;
    var e := s.traces[i];
    var grown := s.(history := s.history + [span]);
    if !e.retained && span.error {
      assert s.forwarded + e.spans + [n] == s.forwarded + (e.spans + [n]);
    }
    if !e.retained && !span.error && |e.spans| < c.perTrace {
      var mid := SetEntry(grown, i, e.(spans := e.spans + [n])).(buffered := s.buffered + 1);
      EvictForwards(c, mid, WithSpans(mid.traces));
    }
  }

  lemma {:induction false} EvictForwards(c: Limits, s: State, ids: seq<int>)
    ensures EvictLoop(c, s, ids).forwarded == s.forwarded
    decreases |ids|
  {
    if ids != [] { EvictForwards(c, Drop(s, ids[0]), ids[1..]); }
  }

  // ---------- the history is only looked back on ----------

  lemma {:induction false} EvictHistory(c: Limits, s: State, ids: seq<int>, h: seq<Span>)
    ensures EvictLoop(c, s.(history := h), ids) == EvictLoop(c, s, ids).(history := h)
    decreases |ids|
  {
    if ids != [] { EvictHistory(c, Drop(s, ids[0]), ids[1..], h); }
  }

  lemma BufferHistory(c: Limits, s: State, i: nat, n: nat, h: seq<Span>)
    requires i < |s.traces|
    ensures Buffer(c, s.(history := h), i, n) == Buffer(c, s, i, n).(history := h)
  {
    var e := s.traces[i];
    var mid := SetEntry(s, i, e.(spans := e.spans + [n])).(buffered := s.buffered + 1);
    EvictHistory(c, mid, WithSpans(mid.traces), h);
  }

  lemma RecordHistory(c: Limits, s: State, span: Span, n: nat)
    requires Find(s.traces, span.trace) < |s.traces|
    ensures Record(c, s.(history := s.history + [span]), span, n) == Record(c, s, span, n).(history := s.history + [span])
  {
    BufferHistory(c, s, Find(s.traces, span.trace), n, s.history + [span]);
  }

  // ---------- after an error ----------

  /** After an error, the trace's buffer stays open: the next span of the trace is forwarded at once. */
  lemma ErrorRetains(c: Limits, init: State, steps: seq<Step>, span: Span, now: int)
    requires ValidLimits(c) && IsInit(init) && !span.sampled && span.error
    ensures var r := OnEnd(c, Run(c, init, steps), span, now);
            var i := Find(r.traces, span.trace);
            i < |r.traces| && r.traces[i].retained && r.traces[i].spans == []
  {
    RunKeeps(c, init, steps);
    var s := Run(c, init, steps);
    ArrivedKeeps(c, s, span.trace, now);
    var t := Arrived(c, s, span.trace, now);
    var i := Find(t.traces, span.trace);
    assert EntryOk(c, t.history, t.forwarded, t.traces[i]);
    var r := OnEnd(c, s, span, now);
    assert |r.traces| == |t.traces| && r.traces[i].trace == span.trace;
    assert forall j | 0 <= j < i :: r.traces[j].trace == t.traces[j].trace;
  }
}
