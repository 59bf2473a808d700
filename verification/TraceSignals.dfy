/** The signals of a batch and when two of them record one thrown error (packages/otlp-ingester/src/trace-dedupe.ts). */
module TraceSignals {
  import opened Wrappers
  import opened SpanTreeModel

  const DUPLICATE_WINDOW_MS := 5000

  datatype Kind = Exception | Outcome | Status

  datatype Severity = Fatal | Error | Lesser

  datatype Frames = Frames(inApp: seq<string>, all: seq<string>)

  /** What the comparison uses of an occurrence's message and stack. */
  datatype Signature = Signature(message: string, header: Option<string>, frames: Option<Frames>, legacy: seq<string>)

  datatype Resource = Resource(service: string, environment: string, release: string)

  /** Empty strings are absent ids, and an absent error code. */
  datatype Signal = Signal(
    trace: string, span: string, kind: Kind, at: int, resource: Resource,
    errorType: string, errorCode: string, severity: Severity, signature: Signature,
    autterCapture: bool, eventAutter: bool, nextContext: bool, handled: bool)

  /** One of the two lists begins or ends with the other. */
  predicate PrefixOrSuffix(a: seq<string>, b: seq<string>) {
    var short, long := if |a| <= |b| then a else b, if |a| <= |b| then b else a;
    short == long[..|short|] || short == long[|long| - |short|..]
  }

  predicate StacksMatch(a: Signature, b: Signature) {
    if a.frames.None? || b.frames.None? then true
    else
      var x, y := a.frames.value, b.frames.value;
      if x.all == [] || y.all == [] then
        if x.all == [] && y.all == [] then PrefixOrSuffix(a.legacy, b.legacy)
        else a.legacy == [] && b.legacy == []
      else if x.inApp != [] && y.inApp != [] then PrefixOrSuffix(x.inApp, y.inApp)
      else PrefixOrSuffix(x.all, y.all)
  }

  predicate TypeIsCodeOf(x: Signal, y: Signal) {
    !x.eventAutter
    && ((y.errorCode != "" && x.errorType == y.errorCode)
        || (x.signature.header.Some? && x.signature.header.value != x.errorType
            && x.signature.header.value == y.errorType))
  }

  predicate TypesMatch(a: Signal, b: Signal) {
    a.errorType == b.errorType || TypeIsCodeOf(a, b) || TypeIsCodeOf(b, a)
  }

  predicate IsExplaining(s: Signal) {
    s.kind != Status && !s.handled && s.severity != Lesser
  }

  function KeyOf(s: Signal): SpanKey {
    SpanKey(s.trace, s.span)
  }

  predicate HasIds(s: Signal) {
    s.trace != "" && s.span != ""
  }

  /** Two signals look like recordings of one thrown error. */
  predicate Matches(parents: Parents, a: Signal, b: Signal) {
    && Related(parents, KeyOf(a), KeyOf(b))
    && a.signature.message == b.signature.message && TypesMatch(a, b) && StacksMatch(a.signature, b.signature)
  }

  lemma PrefixOrSuffixSymmetric(a: seq<string>, b: seq<string>)
    ensures PrefixOrSuffix(a, b) == PrefixOrSuffix(b, a)
  {}

  /** It does not matter which of the two was recorded first. */
  lemma MatchesSymmetric(parents: Parents, a: Signal, b: Signal)
    ensures Matches(parents, a, b) == Matches(parents, b, a)
  {
    var x, y := a.signature, b.signature;
    PrefixOrSuffixSymmetric(x.legacy, y.legacy);
    if x.frames.Some? && y.frames.Some? {
      PrefixOrSuffixSymmetric(x.frames.value.inApp, y.frames.value.inApp);
      PrefixOrSuffixSymmetric(x.frames.value.all, y.frames.value.all);
    }
  }

  /** But matching is not transitive: a recording without a stack matches two that differ. */
  lemma StacksMatchNotTransitive(m: string, f: string, g: string)
    requires f != g
    ensures var a, c := Signature(m, None, Some(Frames([f], [f])), []), Signature(m, None, Some(Frames([g], [g])), []);
            var b := Signature(m, None, None, []);
            StacksMatch(a, b) && StacksMatch(b, c) && !StacksMatch(a, c)
  {
    assert [f][0] != [g][0];
  }
}
