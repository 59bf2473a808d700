/** What the stored contents promise: the size limit, a fixed point, and how many files are kept. */
module SourcesContentTheorems {
  import opened Wrappers
  import opened Sorting
  import opened SourcesContent

  // ---------- the order ----------

  lemma SmallerOrders()
    ensures TotalPreorder((x: Candidate, y: Candidate) => Smaller(x, y))
  {}

  /** In the order of size, ties in source order, no source twice. */
  ghost predicate InSizeOrder(cs: seq<Candidate>) {
    forall i, j | 0 <= i < j < |cs| :: Smaller(cs[i], cs[j]) && cs[i].index != cs[j].index
  }

  lemma {:induction false} CandidatesDistinct(env: Env, m: SourceMap, n: nat)
    ensures DistinctIndexes(Candidates(env, m, n))
  {
    if n > 0 {
      CandidatesDistinct(env, m, n - 1);
      var before := Candidates(env, m, n - 1);
      assert forall i | 0 <= i < |before| :: before[i] in before;
    }
  }

  lemma {:induction false} InsertInOrder(x: Candidate, s: seq<Candidate>)
    requires DistinctIndexes(s) && forall y <- s :: y.index != x.index
    ensures DistinctIndexes(Insert(x, s, (a, b) => Smaller(a, b)))
  {
    var leq := (a, b) => Smaller(a, b);
    if s != [] && !leq(x, s[0]) {
      InsertInOrder(x, s[1..]);
      InsertPermutes(x, s[1..], leq);
      var rest := Insert(x, s[1..], leq);
      forall j | 0 <= j < |rest| ensures rest[j].index != s[0].index {
        assert rest[j] in multiset(rest);
        assert rest[j] == x || rest[j] in s[1..];
      }
    }
  }

  lemma {:induction false} BySizeDistinct(s: seq<Candidate>)
    requires DistinctIndexes(s)
    ensures DistinctIndexes(BySize(s))
  {
    if s != [] {
      BySizeDistinct(s[1..]);
      SortMembers(s[1..], (x, y) => Smaller(x, y));
      InsertInOrder(s[0], BySize(s[1..]));
    }
  }

  lemma SortedInOrder(env: Env, m: SourceMap)
    ensures InSizeOrder(Sorted(env, m)) && DistinctIndexes(Sorted(env, m))
  {
    var cs := Candidates(env, m, |Sources(m)|);
    var leq := (x: Candidate, y: Candidate) => Smaller(x, y);
    SmallerOrders();
    SortOrders(cs, leq);
    CandidatesDistinct(env, m, |Sources(m)|);
    BySizeDistinct(cs);
  }

  /** Two lists in the order of size with the same candidates are the same. */
  lemma {:induction false} OrderIsUnique(a: seq<Candidate>, b: seq<Candidate>)
    requires InSizeOrder(a) && InSizeOrder(b) && forall x :: x in a <==> x in b
    ensures a == b
    decreases |a|
  {
    EmptyTogether(a, b);
    if a != [] {
      assert a[0] in a && a[0] in b;
      assert b[0] in b && b[0] in a;
      assert a[0] == b[0];
      forall x ensures x in a[1..] <==> x in b[1..] {
        Rest(a, x);
        Rest(b, x);
      }
      OrderIsUnique(a[1..], b[1..]);
    }
  }

  lemma EmptyTogether(a: seq<Candidate>, b: seq<Candidate>)
    requires forall x :: x in a <==> x in b
    ensures a == [] <==> b == []
  {
    if a != [] { assert a[0] in a; }
    if b != [] { assert b[0] in b; }
  }

  lemma Rest(a: seq<Candidate>, x: Candidate)
    requires InSizeOrder(a) && a != []
    ensures x in a[1..] <==> x in a && x != a[0]
  {}

  // ---------- the limit ----------

  lemma CandidateBytes(env: Env, m: SourceMap)
    ensures forall c <- Sorted(env, m) :: c.index < |Sources(m)| && c.bytes == env.bytes(c.content)
  {}

  /** When any content is kept, the whole JSON fits the limit. */
  lemma FitsTheLimit(env: Env, m: SourceMap, limit: int)
    requires Stored(env, m, limit).Some?
    ensures JsonBytes(env, m, Stored(env, m, limit).value) <= limit
  {
    var cs := Sorted(env, m);
    var n := Fitting(cs, Remaining(env, m, limit));
    SortedInOrder(env, m);
    CandidateBytes(env, m);
    FittingIsPrefix(cs, Remaining(env, m, limit));
    KeptBytes(env, cs, n, |Sources(m)|);
  }

  // ---------- the fixed point ----------

  lemma {:induction false} FittingAgain(cs: seq<Candidate>, remaining: int)
    ensures Fitting(cs[..Fitting(cs, remaining)], remaining) == Fitting(cs, remaining)
  {
    var n := Fitting(cs, remaining);
    if n > 0 {
      FittingAgain(cs[1..], remaining - Extra(cs[0]));
      assert cs[..n][1..] == cs[1..][..n - 1];
    }
  }

  /** The candidates of the stored map are those that were kept. */
  lemma SameCandidates(env: Env, m: SourceMap, r: SourceMap, n: nat)
    requires n <= |Sorted(env, m)| && r == m.(contents := Some(Kept(Sorted(env, m), n, |Sources(m)|)))
    ensures Sorted(env, r) == Sorted(env, m)[..n]
  {
    hide Kept, Sorted;
    var cs, count := Sorted(env, m), |Sources(m)|;
    SortedInOrder(env, m);
    SortedInOrder(env, r);
    assert forall x :: x in cs[..n] ==> x in cs;
    forall x ensures x in Sorted(env, r) <==> x in cs[..n] {
      if x.index < count {
        KeptAt(cs, n, count, x.index);
        if x in cs[..n] {
          var k :| 0 <= k < n && cs[k] == x;
          assert cs[k] in cs;
        }
        if x in Sorted(env, r) {
          var k :| 0 <= k < n && cs[k].index == x.index;
          assert cs[k] in cs && cs[..n][k] == cs[k];
        }
      }
    }
    OrderIsUnique(Sorted(env, r), cs[..n]);
  }

  lemma KeptPrefix(cs: seq<Candidate>, n: nat, k: nat, count: nat)
    requires k <= n <= |cs| && forall c <- cs :: c.index < count
    ensures (forall c <- cs[..n] :: c in cs) && Kept(cs[..n], k, count) == Kept(cs, k, count)
    decreases k
  {}

  /**
   * Storing what was stored changes nothing, so the ingester and the CLI, which run the same steps, agree on
   * the map and on its hash.
   */
  lemma StoredIsFixedPoint(env: Env, m: SourceMap, limit: int)
    ensures StoredMap(env, StoredMap(env, m, limit), limit) == StoredMap(env, m, limit)
  {
    var r := StoredMap(env, m, limit);
    if Stored(env, m, limit).Some? {
      var cs, count := Sorted(env, m), |Sources(m)|;
      var remaining := Remaining(env, m, limit);
      var n := Fitting(cs, remaining);
      assert Base(r) == Base(m) && Remaining(env, r, limit) == remaining;
      SameCandidates(env, m, r, n);
      FittingAgain(cs, remaining);
      KeptPrefix(cs, n, n, count);
    }
  }

  // ---------- how many are kept ----------

  /** A choice of candidates: how many, and what they add. */
  function Picked(mask: seq<bool>): nat {
    if mask == [] then 0 else Picked(mask[..|mask| - 1]) + if mask[|mask| - 1] then 1 else 0
  }

  function PickedSum(cs: seq<Candidate>, mask: seq<bool>): int
    requires |mask| <= |cs|
    decreases |mask|
  {
    if mask == [] then 0
    else PickedSum(cs, mask[..|mask| - 1]) + if mask[|mask| - 1] then Extra(cs[|mask| - 1]) else 0
  }

  lemma {:induction false} PickedBound(mask: seq<bool>)
    ensures Picked(mask) <= |mask|
  {
    if mask != [] { PickedBound(mask[..|mask| - 1]); }
  }

  /** No choice of as many candidates adds less than the smallest ones. */
  lemma {:induction false} SmallestAddLeast(cs: seq<Candidate>, mask: seq<bool>)
    requires InSizeOrder(cs) && |mask| <= |cs|
    ensures Picked(mask) <= |cs| && SumTo(cs, Picked(mask)) <= PickedSum(cs, mask)
    decreases |mask|
  {
    PickedBound(mask);
    if mask != [] {
      var shorter := mask[..|mask| - 1];
      SmallestAddLeast(cs, shorter);
      PickedBound(shorter);
      if mask[|mask| - 1] && Picked(mask) < |mask| { assert Smaller(cs[Picked(mask) - 1], cs[|mask| - 1]); }
    }
  }

  lemma {:induction false} FirstPicks(cs: seq<Candidate>, n: nat) returns (mask: seq<bool>)
    requires n <= |cs|
    ensures |mask| == n && Picked(mask) == n && PickedSum(cs, mask) == SumTo(cs, n)
  {
    if n == 0 {
      mask := [];
    } else {
      var shorter := FirstPicks(cs, n - 1);
      mask := shorter + [true];
      assert mask[..n - 1] == shorter;
    }
  }

  /** No choice that fits keeps more files. */
  ghost predicate KeepsMost(cs: seq<Candidate>, remaining: int, n: nat) {
    forall mask | |mask| <= |cs| && Picked(mask) > 0 && PickedSum(cs, mask) <= remaining :: Picked(mask) <= n
  }

  /** What the candidates smaller than a `null` entry save: an empty file 2 bytes, a one-letter file 1. */
  function Saved(cs: seq<Candidate>): int {
    if cs == [] || Extra(cs[0]) >= 0 then 0 else -Extra(cs[0]) + Saved(cs[1..])
  }

  lemma {:induction false} SavedIsLeast(cs: seq<Candidate>, k: nat)
    requires InSizeOrder(cs) && k <= |cs|
    ensures SumTo(cs, k) >= -Saved(cs) && Saved(cs) >= 0
    decreases |cs|
  {
    if cs != [] {
      if Extra(cs[0]) >= 0 {
        Growing(cs, k);
      } else {
        SavedIsLeast(cs[1..], if k > 0 then k - 1 else 0);
        if k > 0 { SumShift(cs, k); }
      }
    }
  }

  lemma {:induction false} Growing(cs: seq<Candidate>, k: nat)
    requires InSizeOrder(cs) && k <= |cs| && cs != [] && Extra(cs[0]) >= 0
    ensures SumTo(cs, k) >= 0
    decreases k
  {
    if k > 0 {
      Growing(cs, k - 1);
      assert k > 1 ==> Smaller(cs[0], cs[k - 1]);
    }
  }

  lemma {:induction false} SavedIsReached(cs: seq<Candidate>) returns (k: nat)
    requires Saved(cs) > 0
    ensures 1 <= k <= |cs| && SumTo(cs, k) == -Saved(cs)
  {
    if Saved(cs[1..]) > 0 {
      var j := SavedIsReached(cs[1..]);
      k := j + 1;
    } else {
      k := 1;
      assert Saved(cs[1..]) == 0 by { SavedNotNegative(cs[1..]); }
    }
    SumShift(cs, k);
  }

  lemma {:induction false} SavedNotNegative(cs: seq<Candidate>)
    ensures Saved(cs) >= 0
  {
    if cs != [] { SavedNotNegative(cs[1..]); }
  }

  /** Once a prefix is too much after one that fits, all longer ones are. */
  lemma {:induction false} TooMuchStays(cs: seq<Candidate>, remaining: int, n: nat, k: nat)
    requires InSizeOrder(cs) && n + 1 <= k <= |cs|
    requires SumTo(cs, n) <= remaining < SumTo(cs, n + 1)
    ensures SumTo(cs, k) > remaining
    decreases k
  {
    if k > n + 1 {
      TooMuchStays(cs, remaining, n, k - 1);
      assert Smaller(cs[n], cs[k - 1]);
    }
  }

  /**
   * The greedy choice keeps as many files as any choice that fits, except when the map is over the limit
   * before any content, the smallest content does not bring it under, and all the tiny ones together would.
   */
  lemma KeepsMostExactly(env: Env, m: SourceMap, limit: int)
    ensures var cs, remaining := Sorted(env, m), Remaining(env, m, limit);
            KeepsMost(cs, remaining, Fitting(cs, remaining))
            <==> remaining >= 0 || cs == [] || Extra(cs[0]) <= remaining || remaining < -Saved(cs)
  {
    var cs, remaining := Sorted(env, m), Remaining(env, m, limit);
    SortedInOrder(env, m);
    var n := Fitting(cs, remaining);
    FittingIsPrefix(cs, remaining);
    if remaining >= 0 || cs == [] || Extra(cs[0]) <= remaining || remaining < -Saved(cs) {
      forall mask | |mask| <= |cs| && Picked(mask) > 0 && PickedSum(cs, mask) <= remaining ensures Picked(mask) <= n {
        AtMost(cs, remaining, mask);
      }
    } else {
      SavedNotNegative(cs);
      var k := SavedIsReached(cs);
      var mask := FirstPicks(cs, k);
      assert n == 0 && Picked(mask) > n;
    }
  }

  lemma AtMost(cs: seq<Candidate>, remaining: int, mask: seq<bool>)
    requires InSizeOrder(cs) && |mask| <= |cs| && Picked(mask) > 0 && PickedSum(cs, mask) <= remaining
    requires remaining >= 0 || cs == [] || Extra(cs[0]) <= remaining || remaining < -Saved(cs)
    ensures Picked(mask) <= Fitting(cs, remaining)
  {
    var n, k := Fitting(cs, remaining), Picked(mask);
    SmallestAddLeast(cs, mask);
    SavedIsLeast(cs, k);
    FittingIsPrefix(cs, remaining);
    if k > n {
      assert n == 0 ==> remaining >= 0 by { assert SumTo(cs, 1) == Extra(cs[0]); }
      TooMuchStays(cs, remaining, n, k);
    }
  }

  /** Two empty files would bring a map under the limit together, neither does alone, and none is kept. */
  lemma EmptyFilesAreLost(env: Env, m: SourceMap, limit: int)
    requires m == SourceMap(Some([Some("a.js"), Some("b.js")]), {}, "", Some([Some(""), Some("")]))
    requires env.bytes("") == 2 && env.inApp("a.js") && env.inApp("b.js") && Remaining(env, m, limit) == -3
    ensures Stored(env, m, limit) == None && JsonBytes(env, m, m.contents.value) <= limit
  {
    var cs := Sorted(env, m);
    assert forall c <- cs :: c.bytes == 2 by {
      forall c <- cs ensures c.bytes == 2 { assert ContentAt(m, c.index) == Some(""); }
    }
    assert cs != [] ==> cs[0] in cs;
    assert Fitting(cs, -3) == 0;
    assert EntriesBytes(env, m.contents.value[1..]) == 2;
  }
}
