/**
 * The rules of the trace pass by what they decide (packages/otlp-ingester/src/trace-dedupe.ts): when two stacks and two
 * types are of one error, which recording is kept, what explains a status, and a pair of recordings end to end.
 */
module TraceRules {
  import opened Wrappers
  import opened SpanTreeModel
  import opened TraceSignals
  import opened TraceGroups
  import opened TraceDedupe
  import opened TraceSurvivors
  import opened TraceGreedy

  // ---------- stacks ----------

  /** One list of frames is the other with frames added at one end. */
  lemma PrefixOrSuffixMeans(a: seq<string>, b: seq<string>)
    ensures PrefixOrSuffix(a, b) <==>
              exists more: seq<string> :: a + more == b || more + a == b || b + more == a || more + b == a
  {
    if |a| <= |b| {
      assert b[..|a|] == a ==> a + b[|a|..] == b;
      assert b[|b| - |a|..] == a ==> b[..|b| - |a|] + a == b;
    } else {
      assert a[..|b|] == b ==> b + a[|b|..] == a;
      assert a[|a| - |b|..] == b ==> a[..|a| - |b|] + b == a;
    }
    forall more: seq<string> | a + more == b || more + a == b ensures PrefixOrSuffix(a, b) {
      assert (a + more)[..|a|] == a && (more + a)[|more|..] == a;
    }
    forall more: seq<string> | b + more == a || more + b == a ensures PrefixOrSuffix(a, b) {
      assert (b + more)[..|b|] == b && (more + b)[|more|..] == b;
    }
  }

  function Stack(inApp: seq<string>, all: seq<string>, legacy: seq<string>): Signature {
    Signature("", None, Some(Frames(inApp, all)), legacy)
  }

  /**
   * The app's own frames decide when both have some, whatever the others are; else all frames do. A stack without any
   * frame only matches one of the old form with the same old-form frames, or one that has no old-form frames either.
   */
  lemma StackExamples(f: string, g: string, h: string)
    requires f != g && g != h && f != h
    ensures StacksMatch(Stack([f], [f, g], []), Stack([f], [f, h], []))
    ensures !StacksMatch(Stack([f], [h], []), Stack([g], [h], []))
    ensures StacksMatch(Stack([], [f, g], []), Stack([f], [g], [])) && !StacksMatch(Stack([], [f], []), Stack([f], [g], []))
    ensures StacksMatch(Stack([], [], []), Stack([f], [f], [])) && !StacksMatch(Stack([], [], [f]), Stack([f], [f], []))
    ensures StacksMatch(Stack([], [], [f]), Stack([], [], [f, g])) && !StacksMatch(Stack([], [], [f]), Stack([], [], [g]))
    ensures StacksMatch(Signature("", None, None, [f]), Stack([g], [g], [h]))
  {
    OneFrame(f, g);
    OneFrame(f, f);
    TwoFrames(f, g);
    hide PrefixOrSuffix;
  }

  lemma OneFrame(f: string, g: string)
    ensures PrefixOrSuffix([f], [g]) <==> f == g
  {
    assert [f] == [g] <==> f == g by { assert [f][0] == f && [g][0] == g; }
    assert [g][..1] == [g] && [g][0..] == [g];
  }

  lemma TwoFrames(f: string, g: string)
    ensures PrefixOrSuffix([f], [f, g]) && PrefixOrSuffix([g], [f, g])
    ensures PrefixOrSuffix([f, g], [f]) && PrefixOrSuffix([f, g], [g])
  {
    assert [f, g][..1] == [f] && [f, g][1..] == [g];
  }

  // ---------- types ----------

  /** A recording whose type is the other's code, or whose stack starts with the other's type, unless the SDK named it. */
  lemma TypeExamples(a: Signal, b: Signal)
    requires a.errorType != b.errorType && a.errorCode == "" && a.signature.header == None && b.signature.header == None
    ensures TypesMatch(a, b) <==> b.errorCode != "" && a.errorType == b.errorCode && !a.eventAutter
  {}

  lemma HeaderExamples(a: Signal, b: Signal)
    requires a.errorType != b.errorType && a.errorCode == "" && b.errorCode == "" && b.signature.header == None
    ensures TypesMatch(a, b) <==> a.signature.header == Some(b.errorType) && !a.eventAutter
  {}

  // ---------- preference and explanation ----------

  /** An SDK's own recording comes first, then one with a request's context, the outer span's, and the earlier one. */
  lemma PreferredExactly(b: Batch, x: nat, y: nat)
    ensures Preferred(b, x, y) <==>
              if At(b, x).autterCapture != At(b, y).autterCapture then At(b, x).autterCapture
              else if At(b, x).nextContext != At(b, y).nextContext then At(b, x).nextContext
              else if |Ancestors(b.parents, Key(b, x))| != |Ancestors(b.parents, Key(b, y))|
                then |Ancestors(b.parents, Key(b, x))| < |Ancestors(b.parents, Key(b, y))|
              else x <= y
  {}

  /** Only an unhandled exception or outcome that is an error or fatal explains a status. */
  lemma ExplainingExactly(s: Signal)
    ensures IsExplaining(s) <==> s.kind in {Exception, Outcome} && s.severity in {Fatal, Error} && !s.handled
  {}

  // ---------- two recordings, end to end ----------

  /** An exception recorded on a span of a trace. */
  predicate Recorded(b: Batch, i: nat) {
    i < |b.signals| && b.signals[i].kind == Exception && b.signals[i].trace != "" && b.signals[i].span != ""
  }

  lemma ChildIsRelated(parents: Parents, child: SpanKey, parent: SpanKey)
    requires child in parents && parents[child] == parent && child != parent
    ensures Related(parents, child, parent) && Related(parents, parent, child)
  {
    AncestorsAreAbove(parents, child);
    assert Up(parents, parent, 0) == Some(parent);
    assert Up(parents, child, 1) == Some(parent);
  }

  /**
   * An error that a span and then its parent record within 5000 ms, with one message and type and no stack, alone of
   * their trace and resource, becomes one survivor that stands for both.
   */
  lemma ChildAndParentMerge(b: Batch, i: nat, j: nat) returns (k: nat)
    requires Recorded(b, i) && Recorded(b, j) && Key(b, i) in b.parents && b.parents[Key(b, i)] == Key(b, j)
    requires b.signals[i].trace == b.signals[j].trace && b.signals[i].resource == b.signals[j].resource
    requires b.signals[i].span != b.signals[j].span
    requires b.signals[i].at < b.signals[j].at <= b.signals[i].at + 5000
    requires b.signals[i].signature.message == b.signals[j].signature.message
    requires b.signals[i].errorType == b.signals[j].errorType
    requires b.signals[i].signature.frames.None? && b.signals[j].signature.frames.None?
    requires forall m: nat | Recorded(b, m) && b.signals[m].trace == b.signals[i].trace
                        && b.signals[m].resource == b.signals[i].resource :: m == i || m == j
    ensures k < |Deduped(b)| && forall m :: m in Deduped(b)[k].members <==> m == i || m == j
  {
    ChildIsRelated(b.parents, Key(b, i), Key(b, j));
    hide Related, TypesMatch;
    forall m: nat | m < |b.signals| && Groupable(At(b, m)) && BucketKeyOf(At(b, m)) == BucketKeyOf(At(b, i))
      ensures m == i || m == j
    {
      assert Recorded(b, m);
    }
    k := TwoTwinsMerge(b, i, j);
  }
}
