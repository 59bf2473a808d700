/**
 * Tail retention of traces that error (adapters/python/autter_tracing.py, `RetainErrorTraces`) as a state
 * machine over the spans that end, with the history its promises are stated over.
 */
module RetainErrors {
  const SWEEP_INTERVAL := 10

  /** The limits the constructor accepts. */
  datatype Limits = Limits(perTrace: int, buffered: int, ttl: int)

  predicate ValidLimits(c: Limits) {
    c.perTrace >= 1 && c.buffered >= 1 && c.ttl > 0
  }

  datatype Span = Span(trace: int, sampled: bool, error: bool, localRoot: bool)

  /**
   * The buffer of one trace. Spans are named by when they ended: `k` is the `k`-th call of `on_end`; `born`
   * is the call that made the buffer.
   */
  datatype Entry = Entry(trace: int, spans: seq<nat>, retained: bool, firstSeen: int, born: nat)

  /** `history`: every span that ended; `forwarded`: the unsampled ones exported, in order. */
  datatype State = State(traces: seq<Entry>, buffered: int, nextSweep: int,
                         history: seq<Span>, forwarded: seq<nat>, passed: seq<nat>)

  function Find(traces: seq<Entry>, trace: int): (i: nat)
    ensures i <= |traces| && (forall j | 0 <= j < i :: traces[j].trace != trace)
    ensures i < |traces| ==> traces[i].trace == trace
  {
    if traces == [] || traces[0].trace == trace then 0 else 1 + Find(traces[1..], trace)
  }

  /** `_drop`. */
  function Drop(s: State, trace: int): State {
    var i := Find(s.traces, trace);
    if i == |s.traces| then s
    else s.(traces := s.traces[..i] + s.traces[i + 1..], buffered := s.buffered - |s.traces[i].spans|)
  }

  function Expired(traces: seq<Entry>, cutoff: int): seq<int> {
    if traces == [] then []
    else (if traces[0].firstSeen <= cutoff then [traces[0].trace] else []) + Expired(traces[1..], cutoff)
  }

  function DropAll(s: State, ids: seq<int>): State
    decreases |ids|
  {
    if ids == [] then s else DropAll(Drop(s, ids[0]), ids[1..])
  }

  /** `_sweep`. */
  function Sweep(c: Limits, s: State, now: int): State {
    DropAll(s.(nextSweep := now + SWEEP_INTERVAL), Expired(s.traces, now - c.ttl))
  }

  /** The oldest trace goes when there are too many. */
  function MakeRoom(c: Limits, s: State): State {
    if |s.traces| >= c.buffered && s.traces != [] then Drop(s, s.traces[0].trace) else s
  }

  function NewEntry(s: State, trace: int, now: int): State {
    s.(traces := s.traces + [Entry(trace, [], false, now, |s.history|)])
  }

  /** `_entry`: the buffer of a trace is there, made anew if need be. */
  function WithEntry(c: Limits, s: State, trace: int, now: int): (r: State)
    ensures Find(r.traces, trace) < |r.traces|
  {
    if Find(s.traces, trace) < |s.traces| then s
    else
      var s := MakeRoom(c, s);
      var r := NewEntry(s, trace, now);
      assert r.traces[|s.traces|].trace == trace;
      r
  }

  function WithSpans(traces: seq<Entry>): seq<int> {
    if traces == [] then [] else (if traces[0].spans != [] then [traces[0].trace] else []) + WithSpans(traces[1..])
  }

  function EvictLoop(c: Limits, s: State, ids: seq<int>): State
    decreases |ids|
  {
    if ids == [] then s
    else
      var s := Drop(s, ids[0]);
      if s.buffered <= c.buffered then s else EvictLoop(c, s, ids[1..])
  }

  /** `_evict_over_budget`. */
  function Evict(c: Limits, s: State): State {
    if s.buffered <= c.buffered then s else EvictLoop(c, s, WithSpans(s.traces))
  }

  function SetEntry(s: State, i: nat, e: Entry): State
    requires i < |s.traces|
  {
    s.(traces := s.traces[i := e])
  }

  /** Span number `n` joins buffer `i` while there is room in it. */
  function Buffer(c: Limits, s: State, i: nat, n: nat): State
    requires i < |s.traces|
  {
    var e := s.traces[i];
    if |e.spans| < c.perTrace
    then Evict(c, SetEntry(s, i, e.(spans := e.spans + [n])).(buffered := s.buffered + 1)) else s
  }

  /** The trace is over when its local root ended healthy. */
  function Close(s: State, span: Span): State {
    if span.localRoot then Drop(s, span.trace) else s
  }

  /** Span number `n` goes through the buffer of its trace. */
  function Record(c: Limits, s: State, span: Span, n: nat): State
    requires Find(s.traces, span.trace) < |s.traces|
  {
    var i := Find(s.traces, span.trace);
    var e := s.traces[i];
    if e.retained then s.(forwarded := s.forwarded + [n])
    else if span.error then
      SetEntry(s, i, e.(retained := true, spans := [])).(forwarded := s.forwarded + e.spans + [n],
                                                         buffered := s.buffered - |e.spans|)
    else Close(Buffer(c, s, i, n), span)
  }

  /** `on_end`. */
  function OnEnd(c: Limits, s: State, span: Span, now: int): State
    requires ValidLimits(c)
  {
    var n := |s.history|;
    if span.sampled then s.(passed := s.passed + [n], history := s.history + [span])
    else
      var s := if now >= s.nextSweep then Sweep(c, s, now) else s;
      var s := WithEntry(c, s, span.trace, now);
      Record(c, s.(history := s.history + [span]), span, n)
  }

  /** `shutdown`. */
  function Shutdown(s: State): State {
    s.(traces := [], buffered := 0)
  }

  datatype Step = Ends(span: Span, now: int) | ShutsDown

  function Next(c: Limits, s: State, e: Step): State
    requires ValidLimits(c)
  {
    match e
    case Ends(span, now) => OnEnd(c, s, span, now)
    case ShutsDown => Shutdown(s)
  }

  function Run(c: Limits, s: State, steps: seq<Step>): State
    requires ValidLimits(c)
    decreases |steps|
  {
    if steps == [] then s else Run(c, Next(c, s, steps[0]), steps[1..])
  }

  // ---------- what holds ----------

  /** The unsampled spans of a trace among the calls from `born` on, up to call `n`, in end order. */
  function SpansOf(history: seq<Span>, trace: int, born: nat, n: nat): (r: seq<nat>)
    requires n <= |history|
    ensures forall i | 0 <= i < |r| :: born <= r[i] < n && history[r[i]].trace == trace && !history[r[i]].sampled
    ensures forall i, j | 0 <= i < j < |r| :: r[i] < r[j]
  {
    if n <= born then []
    else
      SpansOf(history, trace, born, n - 1)
      + if history[n - 1].trace == trace && !history[n - 1].sampled then [n - 1] else []
  }

  function Take(q: seq<nat>, n: int): (r: seq<nat>)
    requires n >= 0
    ensures |r| <= n && (forall x <- r :: x in q)
  {
    if |q| <= n then q else q[..n]
  }

  predicate NoError(history: seq<Span>, ks: seq<nat>) {
    forall k <- ks :: k < |history| && !history[k].error
  }

  ghost predicate HasError(history: seq<Span>, trace: int) {
    exists k | 0 <= k < |history| :: history[k].trace == trace && !history[k].sampled && history[k].error
  }

  /** Everything of this trace that was forwarded ended before its buffer was made. */
  ghost predicate ForwardedBefore(history: seq<Span>, forwarded: seq<nat>, trace: int, born: nat) {
    forall k <- forwarded :: k < |history| && (history[k].trace == trace ==> k < born)
  }

  /** A buffer holds the first spans of its trace, up to the limit, none an error; after one, nothing. */
  ghost predicate EntryOk(c: Limits, history: seq<Span>, forwarded: seq<nat>, e: Entry)
    requires ValidLimits(c)
  {
    && e.born <= |history|
    && (if e.retained then e.spans == [] && HasError(history, e.trace)
        else
          && e.spans == Take(SpansOf(history, e.trace, e.born, |history|), c.perTrace)
          && NoError(history, SpansOf(history, e.trace, e.born, |history|))
          && ForwardedBefore(history, forwarded, e.trace, e.born))
  }

  function Total(traces: seq<Entry>): nat {
    if traces == [] then 0 else |traces[0].spans| + Total(traces[1..])
  }

  predicate DistinctTraces(traces: seq<Entry>) {
    forall i, j | 0 <= i < j < |traces| :: traces[i].trace != traces[j].trace
  }

  ghost predicate ForwardedOk(history: seq<Span>, forwarded: seq<nat>) {
    && (forall i, j | 0 <= i < j < |forwarded| :: forwarded[i] != forwarded[j])
    && (forall k <- forwarded :: k < |history| && !history[k].sampled && HasError(history, history[k].trace))
  }

  ghost predicate Entries(c: Limits, s: State)
    requires ValidLimits(c)
  {
    && DistinctTraces(s.traces) && s.buffered == Total(s.traces)
    && (forall i | 0 <= i < |s.traces| :: EntryOk(c, s.history, s.forwarded, s.traces[i]))
  }

  ghost predicate Inv(c: Limits, s: State)
    requires ValidLimits(c)
  {
    && Entries(c, s) && ForwardedOk(s.history, s.forwarded)
    && |s.traces| <= c.buffered && s.buffered <= c.buffered
  }

  // ---------- dropping ----------

  lemma {:induction false} TotalAppend(a: seq<Entry>, b: seq<Entry>)
    ensures Total(a + b) == Total(a) + Total(b)
  {
    if a == [] {
      assert a + b == b;
    } else {
      assert (a + b)[1..] == a[1..] + b;
      TotalAppend(a[1..], b);
    }
  }

  lemma TotalSplit(traces: seq<Entry>, i: nat)
    requires i < |traces|
    ensures Total(traces) == Total(traces[..i]) + |traces[i].spans| + Total(traces[i + 1..])
  {
    assert traces == traces[..i] + ([traces[i]] + traces[i + 1..]);
    TotalAppend(traces[..i], [traces[i]] + traces[i + 1..]);
  }

  lemma TotalSet(traces: seq<Entry>, i: nat, e: Entry)
    requires i < |traces|
    ensures Total(traces[i := e]) == Total(traces) - |traces[i].spans| + |e.spans|
  {
    TotalSplit(traces, i);
    TotalSplit(traces[i := e], i);
    assert traces[i := e][..i] == traces[..i] && traces[i := e][i + 1..] == traces[i + 1..];
  }

  lemma DropKeeps(c: Limits, s: State, trace: int)
    requires ValidLimits(c) && Entries(c, s)
    ensures var r := Drop(s, trace);
            && Entries(c, r) && |r.traces| <= |s.traces| && r.buffered <= s.buffered
            && (forall e <- r.traces :: e in s.traces && e.trace != trace)
            && r.history == s.history && r.forwarded == s.forwarded && r.nextSweep == s.nextSweep && r.passed == s.passed
            && (Find(s.traces, trace) < |s.traces| ==>
                  |r.traces| < |s.traces| && r.buffered == s.buffered - |s.traces[Find(s.traces, trace)].spans|)
  {
    var i := Find(s.traces, trace);
    if i < |s.traces| {
      var r := s.traces[..i] + s.traces[i + 1..];
      TotalSplit(s.traces, i);
      TotalAppend(s.traces[..i], s.traces[i + 1..]);
      forall j | 0 <= j < |r| ensures r[j] == s.traces[if j < i then j else j + 1] {}
    }
  }

  lemma {:induction false} DropAllKeeps(c: Limits, s: State, ids: seq<int>)
    requires ValidLimits(c) && Entries(c, s)
    ensures var r := DropAll(s, ids);
            && Entries(c, r) && |r.traces| <= |s.traces| && r.buffered <= s.buffered
            && r.history == s.history && r.forwarded == s.forwarded && r.nextSweep == s.nextSweep && r.passed == s.passed
    decreases |ids|
  {
    if ids != [] {
      DropKeeps(c, s, ids[0]);
      DropAllKeeps(c, Drop(s, ids[0]), ids[1..]);
    }
  }

  lemma {:induction false} SomeWithSpans(traces: seq<Entry>)
    requires Total(traces) > 0
    ensures WithSpans(traces) != [] && var i := Find(traces, WithSpans(traces)[0]); i < |traces|
  {
    if traces[0].spans == [] { SomeWithSpans(traces[1..]); }
  }

  lemma {:induction false} FirstWithSpans(traces: seq<Entry>)
    requires DistinctTraces(traces) && WithSpans(traces) != []
    ensures var i := Find(traces, WithSpans(traces)[0]); i < |traces| && |traces[i].spans| > 0
    ensures forall j | 0 <= j < Find(traces, WithSpans(traces)[0]) :: traces[j].spans == []
  {
    if traces[0].spans == [] {
      FirstWithSpans(traces[1..]);
      var i := Find(traces[1..], WithSpans(traces[1..])[0]);
      assert traces[i + 1].trace != traces[0].trace;
    }
  }

  /** One span over the budget: dropping the oldest buffer with spans in it is enough. */
  lemma EvictKeeps(c: Limits, s: State)
    requires ValidLimits(c) && Entries(c, s) && s.buffered <= c.buffered + 1
    ensures var r := Evict(c, s);
            && Entries(c, r) && r.buffered <= c.buffered && |r.traces| <= |s.traces|
            && r.history == s.history && r.forwarded == s.forwarded
  {
    if s.buffered > c.buffered {
      SomeWithSpans(s.traces);
      FirstWithSpans(s.traces);
      DropKeeps(c, s, WithSpans(s.traces)[0]);
    }
  }

  /** Eviction drops just the oldest buffer that holds spans, or nothing. */
  lemma EvictsOldest(c: Limits, s: State)
    requires ValidLimits(c) && Entries(c, s) && s.buffered == c.buffered + 1
    ensures exists i | 0 <= i < |s.traces| :: s.traces[i].spans != [] && (forall j | 0 <= j < i :: s.traces[j].spans == [])
              && Evict(c, s).traces == s.traces[..i] + s.traces[i + 1..]
  {
    SomeWithSpans(s.traces);
    FirstWithSpans(s.traces);
    var i := Find(s.traces, WithSpans(s.traces)[0]);
    DropKeeps(c, s, WithSpans(s.traces)[0]);
    assert Evict(c, s) == Drop(s, WithSpans(s.traces)[0]);
    assert s.traces[i].spans != [] && Evict(c, s).traces == s.traces[..i] + s.traces[i + 1..];
  }

  // ---------- one more span ----------

  lemma {:induction false} SpansPrefix(history: seq<Span>, more: seq<Span>, trace: int, born: nat, n: nat)
    requires n <= |history|
    ensures SpansOf(history + more, trace, born, n) == SpansOf(history, trace, born, n)
    decreases n
  {
    if n > born {
      SpansPrefix(history, more, trace, born, n - 1);
      assert (history + more)[n - 1] == history[n - 1];
    }
  }

  lemma SpansGrow(history: seq<Span>, span: Span, trace: int, born: nat)
    requires born <= |history|
    ensures SpansOf(history + [span], trace, born, |history| + 1)
         == SpansOf(history, trace, born, |history|) + if span.trace == trace && !span.sampled then [|history|] else []
  {
    SpansPrefix(history, [span], trace, born, |history|);
    assert (history + [span])[|history|] == span;
  }

  lemma ErrorStays(history: seq<Span>, span: Span, trace: int)
    requires HasError(history, trace)
    ensures HasError(history + [span], trace)
  {
    var k :| 0 <= k < |history| && history[k].trace == trace && !history[k].sampled && history[k].error;
    assert (history + [span])[k] == history[k];
  }

  lemma NoErrorStays(history: seq<Span>, span: Span, ks: seq<nat>)
    requires NoError(history, ks)
    ensures NoError(history + [span], ks)
  {}

  lemma ForwardedStays(history: seq<Span>, span: Span, forwarded: seq<nat>, more: seq<nat>, trace: int, born: nat)
    requires ForwardedBefore(history, forwarded, trace, born)
    requires forall k <- more :: k <= |history| && (history + [span])[k].trace != trace
    ensures ForwardedBefore(history + [span], forwarded + more, trace, born)
  {}

  /** A span of another trace, or a sampled one, leaves a buffer as it was. */
  lemma OthersKeep(c: Limits, history: seq<Span>, forwarded: seq<nat>, more: seq<nat>, span: Span, e: Entry)
    requires ValidLimits(c) && EntryOk(c, history, forwarded, e) && (span.trace != e.trace || span.sampled)
    requires forall k <- more :: k <= |history| && (history + [span])[k].trace != e.trace
    ensures EntryOk(c, history + [span], forwarded + more, e)
  {
    if e.retained {
      ErrorStays(history, span, e.trace);
    } else {
      SpansGrow(history, span, e.trace, e.born);
      NoErrorStays(history, span, SpansOf(history, e.trace, e.born, |history|));
      ForwardedStays(history, span, forwarded, more, e.trace, e.born);
    }
  }

  /** The buffer of the span's own trace takes it, while there is room. */
  lemma OwnTakes(c: Limits, history: seq<Span>, forwarded: seq<nat>, span: Span, e: Entry)
    requires ValidLimits(c) && EntryOk(c, history, forwarded, e) && !e.retained
    requires span.trace == e.trace && !span.sampled && !span.error
    ensures EntryOk(c, history + [span], forwarded,
                    if |e.spans| < c.perTrace then e.(spans := e.spans + [|history|]) else e)
  {
    var longer := history + [span];
    var spans := SpansOf(history, e.trace, e.born, |history|);
    SpansGrow(history, span, e.trace, e.born);
    NoErrorStays(history, span, spans);
    assert longer[|history|] == span;
    assert forwarded + [] == forwarded;
    forall k <- forwarded ensures k < |longer| && (longer[k].trace == e.trace ==> k < e.born) {
      assert longer[k] == history[k];
    }
    assert Take(spans + [|history|], c.perTrace) == if |spans| < c.perTrace then spans + [|history|] else Take(spans, c.perTrace);
  }

  lemma ErrorIsThere(history: seq<Span>, span: Span)
    requires !span.sampled && span.error
    ensures HasError(history + [span], span.trace)
  {
    assert (history + [span])[|history|] == span;
  }
}
