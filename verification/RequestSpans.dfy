/**
 * Which request each span belongs to (packages/otlp-ingester/src/request-spans.ts): the outermost server span
 * on its chain of parent links, whatever the order of the batch, and a consistent answer even on cycles.
 */
module RequestSpans {
  datatype Kind = Server | Consumer | Client | Producer | Internal

  /** Empty strings are absent ids. */
  datatype Span = Span(trace: string, span: string, parent: string, kind: Kind, process: string)

  const UNSET := -2

  predicate IsRemoteCallEdge(child: Kind, parent: Kind) {
    (child == Server || child == Consumer) && (parent == Client || parent == Producer)
  }

  /** The first span of the batch with these ids, or -1. */
  function Find(spans: seq<Span>, trace: string, span: string, from: nat): (r: int)
    requires from <= |spans|
    ensures -1 <= r < |spans|
    decreases |spans| - from
  {
    if from == |spans| then -1
    else if trace != "" && span != "" && spans[from].trace == trace && spans[from].span == span then from
    else Find(spans, trace, span, from + 1)
  }

  /** The index of a span's parent, if it has one other than itself; else -1. */
  function ParentOf(spans: seq<Span>, i: nat): (r: int)
    requires i < |spans|
    ensures -1 <= r < |spans| && r != i
  {
    var s := spans[i];
    if s.trace == "" || s.parent == "" then -1
    else
      var p := Find(spans, s.trace, s.parent, 0);
      if p == -1 || p == i || spans[p].process != s.process || IsRemoteCallEdge(s.kind, spans[p].kind) then -1 else p
  }

  // ---------- which span the walk steps to ----------

  lemma {:induction false} FoundExactly(spans: seq<Span>, trace: string, span: string, from: nat, p: nat)
    requires from <= p < |spans| && trace != "" && span != "" && spans[p].trace == trace && spans[p].span == span
    ensures from <= Find(spans, trace, span, from) <= p
    ensures var r := Find(spans, trace, span, from); r >= 0 && spans[r].trace == trace && spans[r].span == span
    decreases p - from
  {
    if from < p { FoundExactly(spans, trace, span, from + 1, p); }
  }

  lemma {:induction false} FoundIsThere(spans: seq<Span>, trace: string, span: string, from: nat)
    requires from <= |spans| && Find(spans, trace, span, from) >= 0
    ensures var r := Find(spans, trace, span, from);
            && from <= r && spans[r].trace == trace && spans[r].span == span && trace != "" && span != ""
            && forall j | from <= j < r :: spans[j].trace != trace || spans[j].span != span
    decreases |spans| - from
  {
    if !(trace != "" && span != "" && spans[from].trace == trace && spans[from].span == span) {
      FoundIsThere(spans, trace, span, from + 1);
    }
  }

  /** Span `p` is the first of its trace with the id that span `i` names as its parent. */
  predicate NamedParent(spans: seq<Span>, i: nat, p: nat)
    requires i < |spans|
  {
    && p < |spans| && spans[i].trace != "" && spans[i].parent != ""
    && spans[p].trace == spans[i].trace && spans[p].span == spans[i].parent
    && forall j | 0 <= j < p :: spans[j].trace != spans[i].trace || spans[j].span != spans[i].parent
  }

  /**
   * The walk steps to the first span with the parent's ids, when that is another one of the same process and the link
   * is no remote call, from a client or producer to a server or consumer; else it steps nowhere.
   */
  lemma ParentExactly(spans: seq<Span>, i: nat, p: nat)
    requires i < |spans|
    ensures ParentOf(spans, i) == p <==>
              && NamedParent(spans, i, p) && p != i && spans[p].process == spans[i].process
              && !(spans[i].kind in {Server, Consumer} && spans[p].kind in {Client, Producer})
    ensures ParentOf(spans, i) < 0 ==> ParentOf(spans, i) == -1
  {
    var s := spans[i];
    if s.trace != "" && s.parent != "" {
      if Find(spans, s.trace, s.parent, 0) >= 0 { FoundIsThere(spans, s.trace, s.parent, 0); }
      if NamedParent(spans, i, p) { FoundExactly(spans, s.trace, s.parent, 0, p); }
    }
  }

  // ---------- what the answer is ----------

  /** The span `n` steps up, or -1 when the chain ends before. */
  function Up(spans: seq<Span>, i: nat, n: nat): (r: int)
    requires i < |spans|
    ensures -1 <= r < |spans|
    decreases n
  {
    if n == 0 then i else if ParentOf(spans, i) < 0 then -1 else Up(spans, ParentOf(spans, i), n - 1)
  }

  ghost predicate OnCycle(spans: seq<Span>, i: nat)
    requires i < |spans|
  {
    exists n: nat :: n > 0 && Up(spans, i, n) == i
  }

  function Own(spans: seq<Span>, i: nat): int
    requires i < |spans|
  {
    if spans[i].kind == Server then i else -1
  }

  /** A request found above stands; below it, a server span starts one. */
  function Pick(spans: seq<Span>, above: int, i: nat): int
    requires i < |spans|
  {
    if above != -1 then above else Own(spans, i)
  }

  /** `i` follows from its parent's answer, or is where a chain ends or a cycle was cut. */
  ghost predicate Resolved(spans: seq<Span>, requestOf: seq<int>, depth: seq<int>, i: nat)
    requires i < |spans| == |requestOf| == |depth|
  {
    var p := ParentOf(spans, i);
    || (depth[i] == 0 && requestOf[i] == Own(spans, i) && (p < 0 || OnCycle(spans, i)))
    || (p >= 0 && requestOf[p] != UNSET && depth[i] == depth[p] + 1 && requestOf[i] == Pick(spans, requestOf[p], i))
  }

  ghost predicate Membership(spans: seq<Span>, requestOf: seq<int>, depth: seq<int>) {
    && |requestOf| == |depth| == |spans|
    && forall i | 0 <= i < |spans| :: requestOf[i] != UNSET && depth[i] >= 0 && Resolved(spans, requestOf, depth, i)
  }

  // ---------- consequences ----------

  /** The chain above `i` ends after exactly `n` steps. */
  predicate Tops(spans: seq<Span>, i: nat, n: nat)
    requires i < |spans|
  {
    Up(spans, i, n) >= 0 && ParentOf(spans, Up(spans, i, n)) < 0
  }

  lemma {:induction false} UpPlus(spans: seq<Span>, i: nat, m: nat, n: nat)
    requires i < |spans| && Up(spans, i, m) >= 0
    ensures Up(spans, i, m + n) == Up(spans, Up(spans, i, m), n)
    decreases m
  {
    if m > 0 { UpPlus(spans, ParentOf(spans, i), m - 1, n); }
  }

  lemma {:induction false} CycleGoesOn(spans: seq<Span>, i: nat, n: nat, m: nat)
    requires i < |spans| && n > 0 && Up(spans, i, n) == i
    ensures Up(spans, i, m) >= 0
    decreases m
  {
    if m < n {
      if Up(spans, i, m) < 0 { StaysGone(spans, i, m, n - m); }
    } else {
      UpPlus(spans, i, n, m - n);
      CycleGoesOn(spans, i, n, m - n);
    }
  }

  lemma {:induction false} StaysGone(spans: seq<Span>, i: nat, m: nat, n: nat)
    requires i < |spans| && Up(spans, i, m) < 0
    ensures Up(spans, i, m + n) < 0
    decreases m
  {
    if ParentOf(spans, i) >= 0 { StaysGone(spans, ParentOf(spans, i), m - 1, n); }
  }

  lemma TopsNotOnCycle(spans: seq<Span>, i: nat, n: nat)
    requires i < |spans| && Tops(spans, i, n)
    ensures !OnCycle(spans, i)
  {
    if OnCycle(spans, i) {
      var k: nat :| k > 0 && Up(spans, i, k) == i;
      CycleGoesOn(spans, i, k, n + 1);
      UpPlus(spans, i, n, 1);
    }
  }

  /** The request of a span whose chain ends `n` steps up: the server span highest on it, or -1. */
  function Outermost(spans: seq<Span>, i: nat, n: nat): int
    requires i < |spans| && Tops(spans, i, n)
    decreases n
  {
    if n == 0 then Own(spans, i) else Pick(spans, Outermost(spans, ParentOf(spans, i), n - 1), i)
  }

  /** A server span is `m` steps up. */
  predicate ServerAt(spans: seq<Span>, i: nat, m: nat)
    requires i < |spans|
  {
    Up(spans, i, m) >= 0 && spans[Up(spans, i, m)].kind == Server
  }

  /** The highest server span of the chain is `k` steps up. */
  ghost predicate HighestAt(spans: seq<Span>, i: nat, n: nat, k: nat)
    requires i < |spans|
  {
    k <= n && ServerAt(spans, i, k) && forall m | k < m <= n :: !ServerAt(spans, i, m)
  }

  lemma ServerOneUp(spans: seq<Span>, i: nat, m: nat)
    requires i < |spans| && ParentOf(spans, i) >= 0 && m > 0
    ensures ServerAt(spans, i, m) == ServerAt(spans, ParentOf(spans, i), m - 1)
  {}

  /** `Outermost` in plain words. */
  lemma {:induction false} OutermostIsHighest(spans: seq<Span>, i: nat, n: nat)
    requires i < |spans| && Tops(spans, i, n)
    ensures var r := Outermost(spans, i, n);
            if r == -1 then forall m | 0 <= m <= n :: !ServerAt(spans, i, m)
            else exists k: nat :: HighestAt(spans, i, n, k) && r == Up(spans, i, k)
    decreases n
  {
    assert ServerAt(spans, i, 0) == (spans[i].kind == Server);
    if n == 0 {
      assert Own(spans, i) != -1 ==> HighestAt(spans, i, 0, 0);
    } else {
      var p := ParentOf(spans, i);
      OutermostIsHighest(spans, p, n - 1);
      forall m | 1 <= m <= n ensures ServerAt(spans, i, m) == ServerAt(spans, p, m - 1) { ServerOneUp(spans, i, m); }
      var r := Outermost(spans, p, n - 1);
      if r == -1 {
        assert Own(spans, i) != -1 ==> HighestAt(spans, i, n, 0);
      } else {
        var k: nat :| HighestAt(spans, p, n - 1, k) && r == Up(spans, p, k);
        assert HighestAt(spans, i, n, k + 1) && r == Up(spans, i, k + 1);
      }
    }
  }

  /**
   * On every chain that ends, the answer is the outermost server span and the number of links to the end,
   * whatever the processing order was.
   */
  lemma {:induction false} AnswerIsOutermost(spans: seq<Span>, requestOf: seq<int>, depth: seq<int>, i: nat, n: nat)
    requires Membership(spans, requestOf, depth) && i < |spans| && Tops(spans, i, n)
    ensures requestOf[i] == Outermost(spans, i, n) && depth[i] == n
    decreases n
  {
    hide ParentOf;
    assert Resolved(spans, requestOf, depth, i);
    TopsNotOnCycle(spans, i, n);
    if n > 0 { AnswerIsOutermost(spans, requestOf, depth, ParentOf(spans, i), n - 1); }
  }

  ghost predicate OnChain(spans: seq<Span>, i: nat, r: int)
    requires i < |spans|
  {
    exists k: nat :: Up(spans, i, k) == r
  }

  lemma ChainStep(spans: seq<Span>, i: nat, r: int)
    requires i < |spans| && ParentOf(spans, i) >= 0 && OnChain(spans, ParentOf(spans, i), r)
    ensures OnChain(spans, i, r)
  {
    var k: nat :| Up(spans, ParentOf(spans, i), k) == r;
    assert Up(spans, i, k + 1) == r;
  }

  /** On any input, cycles included, a request is a server span on the span's own chain and its own request. */
  lemma {:induction false} RequestIsItsOwn(spans: seq<Span>, requestOf: seq<int>, depth: seq<int>, i: nat)
    requires Membership(spans, requestOf, depth) && i < |spans|
    ensures requestOf[i] == -1
            || (0 <= requestOf[i] < |spans| && spans[requestOf[i]].kind == Server && OnChain(spans, i, requestOf[i])
                && requestOf[requestOf[i]] == requestOf[i] && depth[requestOf[i]] <= depth[i])
    decreases depth[i]
  {
    assert Resolved(spans, requestOf, depth, i);
    assert OnChain(spans, i, i) by { assert Up(spans, i, 0) == i; }
    var p := ParentOf(spans, i);
    if !(depth[i] == 0 && requestOf[i] == Own(spans, i)) {
      RequestIsItsOwn(spans, requestOf, depth, p);
      if requestOf[p] != -1 { ChainStep(spans, i, requestOf[p]); }
    }
  }

  // ---------- the walk ----------

  /** A walk up from its first span, never twice over the same span. */
  predicate IsPath(spans: seq<Span>, path: seq<nat>) {
    && (forall k | 0 <= k < |path| :: path[k] < |spans|)
    && (forall j, k | 0 <= j < k < |path| :: path[j] != path[k])
    && (forall j, k | 0 <= j < |path| && k == j + 1 < |path| :: ParentOf(spans, path[j]) == path[k])
  }

  lemma {:induction false} PathGoesUp(spans: seq<Span>, path: seq<nat>, j: nat, n: nat)
    requires IsPath(spans, path) && j + n < |path|
    ensures Up(spans, path[j], n) == path[j + n]
    decreases n
  {
    if n > 0 { PathGoesUp(spans, path, j + 1, n - 1); }
  }

  /** A walk that meets itself ends on a cycle. */
  lemma MetItself(spans: seq<Span>, path: seq<nat>, j: nat)
    requires IsPath(spans, path) && j < |path| && ParentOf(spans, path[|path| - 1]) == path[j]
    ensures OnCycle(spans, path[|path| - 1])
  {
    var last := path[|path| - 1];
    PathGoesUp(spans, path, j, |path| - 1 - j);
    assert Up(spans, last, |path| - j) == last;
  }

  function All(n: nat): (r: set<nat>)
    ensures forall i: nat :: i in r <==> i < n
  {
    if n == 0 then {} else All(n - 1) + {n - 1}
  }

  datatype Walk = Walk(path: seq<nat>, above: int, aboveDepth: int)

  /** Why the walk stopped, and what is known there. */
  ghost predicate Stopped(spans: seq<Span>, requestOf: seq<int>, depth: seq<int>, w: Walk)
    requires |spans| == |requestOf| == |depth|
  {
    && w.path != [] && IsPath(spans, w.path) && (forall k | 0 <= k < |w.path| :: requestOf[w.path[k]] == UNSET)
    && var top := w.path[|w.path| - 1];
       var p := ParentOf(spans, top);
       || (w.above == -1 && w.aboveDepth == -1 && (p < 0 || OnCycle(spans, top)))
       || (p >= 0 && requestOf[p] != UNSET && w.above == requestOf[p] && w.aboveDepth == depth[p])
  }

  method WalkUp(spans: seq<Span>, requestOf: array<int>, depth: array<int>, start: nat) returns (w: Walk)
    requires start < |spans| == requestOf.Length == depth.Length && requestOf[start] == UNSET
    ensures Stopped(spans, requestOf[..], depth[..], w) && w.path[0] == start
  {
    hide All;
    var path: seq<nat> := [start];
    var onPath := {start};
    var cur := start;
    while true
      invariant path != [] && path[0] == start && path[|path| - 1] == cur && IsPath(spans, path)
      invariant forall k | 0 <= k < |path| :: requestOf[path[k]] == UNSET
      invariant onPath == set i <- path
      decreases All(|spans|) - onPath
    {
      var p := ParentOf(spans, cur);
      if p < 0 { return Walk(path, -1, -1); }
      if p in onPath {
        ghost var j :| 0 <= j < |path| && path[j] == p;
        MetItself(spans, path, j);
        return Walk(path, -1, -1);
      }
      if requestOf[p] != UNSET { return Walk(path, requestOf[p], depth[p]); }
      assert p in All(|spans|) - onPath;
      path := path + [p];
      onPath := onPath + {p};
      cur := p;
    }
  }

  /** Everything answered so far holds, and was answered from the top down. */
  ghost predicate Partial(spans: seq<Span>, requestOf: seq<int>, depth: seq<int>) {
    && |requestOf| == |depth| == |spans|
    && forall i | 0 <= i < |spans| && requestOf[i] != UNSET ::
         depth[i] >= 0 && requestOf[i] >= -1 && Resolved(spans, requestOf, depth, i)
  }

  /** Answering one more span leaves the others' answers as they are. */
  lemma OneMore(spans: seq<Span>, requestOf: seq<int>, depth: seq<int>, i: nat, above: int, aboveDepth: int)
    requires Partial(spans, requestOf, depth) && i < |spans| && requestOf[i] == UNSET
    requires var p := ParentOf(spans, i);
             || (above == -1 && aboveDepth == -1 && (p < 0 || OnCycle(spans, i)))
             || (p >= 0 && requestOf[p] != UNSET && above == requestOf[p] && aboveDepth == depth[p])
    ensures Partial(spans, requestOf[i := Pick(spans, above, i)], depth[i := aboveDepth + 1])
  {
    var r, d := requestOf[i := Pick(spans, above, i)], depth[i := aboveDepth + 1];
    forall j | 0 <= j < |spans| && r[j] != UNSET ensures d[j] >= 0 && r[j] >= -1 && Resolved(spans, r, d, j) {
      if j != i { assert Resolved(spans, requestOf, depth, j); }
    }
  }

  /** Resolve a walk from its top down. */
  method ResolvePath(spans: seq<Span>, requestOf: array<int>, depth: array<int>, w: Walk)
    requires requestOf != depth && Partial(spans, requestOf[..], depth[..]) && Stopped(spans, requestOf[..], depth[..], w)
    modifies requestOf, depth
    ensures Partial(spans, requestOf[..], depth[..]) && requestOf[w.path[0]] != UNSET
    ensures forall i | 0 <= i < |spans| && old(requestOf[i]) != UNSET :: requestOf[i] != UNSET
  {
    var above, aboveDepth := w.above, w.aboveDepth;
    var k := |w.path|;
    while k > 0
      invariant 0 <= k <= |w.path| && Partial(spans, requestOf[..], depth[..])
      invariant forall j | 0 <= j < k :: requestOf[w.path[j]] == UNSET
      invariant k < |w.path| ==> requestOf[w.path[k]] != UNSET && above == requestOf[w.path[k]] && aboveDepth == depth[w.path[k]]
      invariant k == |w.path| ==> above == w.above && aboveDepth == w.aboveDepth
      invariant k == |w.path| ==> requestOf[..] == old(requestOf[..]) && depth[..] == old(depth[..])
      invariant forall i | 0 <= i < |spans| && old(requestOf[i]) != UNSET :: requestOf[i] != UNSET
    {
      k := k - 1;
      var node := w.path[k];
      OneMore(spans, requestOf[..], depth[..], node, above, aboveDepth);
      ghost var r, d := requestOf[..][node := Pick(spans, above, node)], depth[..][node := aboveDepth + 1];
      if above == -1 && spans[node].kind == Server { above := node; }
      aboveDepth := aboveDepth + 1;
      requestOf[node] := above;
      depth[node] := aboveDepth;
      assert requestOf[..] == r && depth[..] == d;
    }
  }

  /** `requestMembership`. */
  method RequestMembership(spans: seq<Span>) returns (requestOf: array<int>, depth: array<int>)
    ensures Membership(spans, requestOf[..], depth[..])
  {
    requestOf := new int[|spans|](_ => UNSET);
    depth := new int[|spans|](_ => 0);
    for start := 0 to |spans|
      invariant requestOf != depth && requestOf.Length == depth.Length == |spans|
      invariant Partial(spans, requestOf[..], depth[..])
      invariant forall i | 0 <= i < start :: requestOf[i] != UNSET
    {
      if requestOf[start] != UNSET { continue; }
      var w := WalkUp(spans, requestOf, depth, start);
      ResolvePath(spans, requestOf, depth, w);
    }
  }
}
