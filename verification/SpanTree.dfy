/** Ancestors of spans through a batch's parent links (packages/otlp-ingester/src/trace-dedupe.ts), cycles included. */
module SpanTreeModel {
  import opened Wrappers

  datatype SpanKey = SpanKey(trace: string, span: string)

  /** Empty strings are absent ids. */
  datatype SpanLink = SpanLink(trace: string, span: string, parent: string)

  type Parents = map<SpanKey, SpanKey>

  /** The last link of a span wins. */
  function ParentsOf(spans: seq<SpanLink>): (r: Parents)
    ensures forall k <- r :: r[k].trace == k.trace
  {
    if spans == [] then map[]
    else
      var before, link := ParentsOf(spans[..|spans| - 1]), spans[|spans| - 1];
      if link.trace == "" || link.span == "" || link.parent == "" then before
      else before[SpanKey(link.trace, link.span) := SpanKey(link.trace, link.parent)]
  }

  function Parent(parents: Parents, key: SpanKey): (r: Option<SpanKey>)
    ensures r.Some? ==> r.value in parents.Values
  {
    if key in parents then Some(parents[key]) else None
  }

  /** The span `n` links above `key`. */
  function Up(parents: Parents, key: SpanKey, n: nat): Option<SpanKey>
    decreases n
  {
    if n == 0 then Some(key) else if key in parents then Up(parents, parents[key], n - 1) else None
  }

  /** The walk from `at`, stopping at a span it has `seen`. */
  function Walk(parents: Parents, seen: set<SpanKey>, at: Option<SpanKey>): seq<SpanKey>
    requires at.Some? ==> at.value in parents.Values
    decreases parents.Values - seen
  {
    if at.None? || at.value in seen then []
    else
      assert at.value in parents.Values - seen && at.value !in parents.Values - (seen + {at.value});
      [at.value] + Walk(parents, seen + {at.value}, Parent(parents, at.value))
  }

  /** Nearest first. */
  function Ancestors(parents: Parents, key: SpanKey): seq<SpanKey> {
    Walk(parents, {key}, Parent(parents, key))
  }

  predicate Related(parents: Parents, a: SpanKey, b: SpanKey) {
    a != b && (b in Ancestors(parents, a) || a in Ancestors(parents, b))
  }

  // ---------- what the walk finds ----------

  lemma {:induction false} WalkSteps(parents: Parents, seen: set<SpanKey>, at: SpanKey, i: nat)
    requires at in parents.Values && i < |Walk(parents, seen, Some(at))|
    ensures var w := Walk(parents, seen, Some(at)); w[i] !in seen && Up(parents, at, i) == Some(w[i])
    decreases i
  {
    if i > 0 {
      var w := Walk(parents, seen, Some(at));
      var rest := Walk(parents, seen + {at}, Parent(parents, at));
      assert w == [at] + rest && w[i] == rest[i - 1];
      WalkSteps(parents, seen + {at}, parents[at], i - 1);
    }
  }

  ghost predicate Closed(parents: Parents, s: set<SpanKey>) {
    forall k <- s :: k in parents ==> parents[k] in s
  }

  lemma {:induction false} WalkCloses(parents: Parents, seen: set<SpanKey>, at: Option<SpanKey>)
    requires at.Some? ==> at.value in parents.Values
    requires forall k <- seen :: k in parents ==> parents[k] in seen || at == Some(parents[k])
    ensures Closed(parents, seen + set a <- Walk(parents, seen, at))
    decreases parents.Values - seen
  {
    if at.Some? && at.value !in seen {
      assert at.value in parents.Values - seen && at.value !in parents.Values - (seen + {at.value});
      var rest := Walk(parents, seen + {at.value}, Parent(parents, at.value));
      WalkCloses(parents, seen + {at.value}, Parent(parents, at.value));
      assert seen + (set a <- [at.value] + rest) == seen + {at.value} + set a <- rest;
    } else {
      assert seen + (set a <- Walk(parents, seen, at)) == seen;
    }
  }

  lemma {:induction false} UpStays(parents: Parents, s: set<SpanKey>, key: SpanKey, n: nat)
    requires Closed(parents, s) && key in s
    ensures Up(parents, key, n).Some? ==> Up(parents, key, n).value in s
    decreases n
  {
    if n > 0 && key in parents { UpStays(parents, s, parents[key], n - 1); }
  }

  /** The ancestors are the other spans that parent links lead to, in that order, even around a cycle. */
  lemma AncestorsAreAbove(parents: Parents, key: SpanKey)
    ensures forall i | 0 <= i < |Ancestors(parents, key)| :: Up(parents, key, i + 1) == Some(Ancestors(parents, key)[i])
    ensures forall a :: a in Ancestors(parents, key) <==> a != key && exists n: nat :: Up(parents, key, n) == Some(a)
  {
    var w := Ancestors(parents, key);
    forall i | 0 <= i < |w| ensures Up(parents, key, i + 1) == Some(w[i]) && w[i] != key {
      WalkSteps(parents, {key}, parents[key], i);
    }
    WalkCloses(parents, {key}, Parent(parents, key));
    var s := {key} + set a <- w;
    forall a, n: nat | a != key && Up(parents, key, n) == Some(a) ensures a in w {
      UpStays(parents, s, key, n);
    }
  }

  lemma {:induction false} UpSameTrace(parents: Parents, key: SpanKey, n: nat)
    requires forall k <- parents :: parents[k].trace == k.trace
    ensures Up(parents, key, n).Some? ==> Up(parents, key, n).value.trace == key.trace
    decreases n
  {
    if n > 0 && key in parents { UpSameTrace(parents, parents[key], n - 1); }
  }

  /** Ancestors belong to the same trace. */
  lemma AncestorsSameTrace(parents: Parents, key: SpanKey)
    requires forall k <- parents :: parents[k].trace == k.trace
    ensures forall a <- Ancestors(parents, key) :: a.trace == key.trace
  {
    AncestorsAreAbove(parents, key);
    forall a <- Ancestors(parents, key) ensures a.trace == key.trace {
      var n: nat :| Up(parents, key, n) == Some(a);
      UpSameTrace(parents, key, n);
    }
  }

  // ---------- the tree with its caches ----------

  class SpanTree {
    var parents: Parents
    var cache: map<SpanKey, seq<SpanKey>>
    var sets: map<SpanKey, set<SpanKey>>

    /** Whatever is cached is what a walk would find. */
    ghost predicate Valid()
      reads this
    {
      && (forall k <- cache :: cache[k] == Ancestors(parents, k))
      && (forall k <- sets :: sets[k] == set a <- Ancestors(parents, k))
    }

    constructor (spans: seq<SpanLink>)
      ensures Valid() && parents == ParentsOf(spans)
    {
      parents, cache, sets := map[], map[], map[];
      new;
      for i := 0 to |spans|
        invariant parents == ParentsOf(spans[..i]) && cache == map[] && sets == map[]
      {
        assert spans[..i + 1][..i] == spans[..i];
        var link := spans[i];
        if link.trace == "" || link.span == "" || link.parent == "" { continue; }
        parents := parents[SpanKey(link.trace, link.span) := SpanKey(link.trace, link.parent)];
      }
      assert spans[..|spans|] == spans;
    }

    method AncestorsOf(key: SpanKey) returns (out: seq<SpanKey>)
      requires Valid()
      modifies this`cache
      ensures Valid() && out == Ancestors(parents, key)
    {
      if key in cache { return cache[key]; }
      out := [];
      var seen := {key};
      var parent := Parent(parents, key);
      while parent.Some? && parent.value !in seen
        invariant parent.Some? ==> parent.value in parents.Values
        invariant out + Walk(parents, seen, parent) == Ancestors(parents, key)
        decreases parents.Values - seen
      {
        assert parent.value in parents.Values - seen && parent.value !in parents.Values - (seen + {parent.value});
        ghost var rest := Walk(parents, seen + {parent.value}, Parent(parents, parent.value));
        assert out + ([parent.value] + rest) == out + [parent.value] + rest;
        seen := seen + {parent.value};
        out := out + [parent.value];
        parent := Parent(parents, parent.value);
      }
      cache := cache[key := out];
    }

    method AncestorSet(key: SpanKey) returns (above: set<SpanKey>)
      requires Valid()
      modifies this`cache, this`sets
      ensures Valid() && above == set a <- Ancestors(parents, key)
    {
      if key in sets { return sets[key]; }
      var out := AncestorsOf(key);
      above := set a <- out;
      sets := sets[key := above];
    }

    method Depth(key: SpanKey) returns (depth: nat)
      requires Valid()
      modifies this`cache
      ensures Valid() && depth == |Ancestors(parents, key)|
    {
      var out := AncestorsOf(key);
      depth := |out|;
    }

    method AreRelated(a: SpanKey, b: SpanKey) returns (related: bool)
      requires Valid()
      modifies this`cache, this`sets
      ensures Valid() && related == Related(parents, a, b)
    {
      if a == b { return false; }
      var above := AncestorSet(a);
      if b in above { return true; }
      above := AncestorSet(b);
      related := a in above;
    }
  }
}
