/**
 * Rule 1 of the trace pass merges whatever it may (packages/otlp-ingester/src/trace-dedupe.ts): a recording starts a
 * group only when no group of its trace and resource could take it, and joins the one recorded to last.
 */
module TraceGreedy {
  import opened Wrappers
  import opened Sorting
  import opened SpanTreeModel
  import opened TraceSignals
  import opened TraceGroups
  import opened TraceDedupe
  import opened TraceSurvivors

  // ---------- what greedy means ----------

  /** `x` is recorded before `y`: earlier, or at the same instant on a deeper span, or first in the batch. */
  predicate First(b: Batch, x: nat, y: nat) {
    || At(b, x).at < At(b, y).at
    || (At(b, x).at == At(b, y).at && |Ancestors(b.parents, Key(b, x))| > |Ancestors(b.parents, Key(b, y))|)
    || (At(b, x).at == At(b, y).at && |Ancestors(b.parents, Key(b, x))| == |Ancestors(b.parents, Key(b, y))| && x < y)
  }

  predicate InTimeOrder(b: Batch, members: seq<nat>) {
    forall j, k | 0 <= j < k < |members| :: First(b, members[j], members[k])
  }

  /** The members of a group in time order that come before `i`. */
  function Cut(b: Batch, members: seq<nat>, i: nat): (r: seq<nat>)
    ensures r <= members
    ensures forall k | |r| <= k < |members| :: !First(b, members[k], i)
    ensures r != [] ==> First(b, r[|r| - 1], i)
  {
    if members == [] then []
    else if First(b, members[|members| - 1], i) then members
    else Cut(b, members[..|members| - 1], i)
  }

  /** A group with these members cannot take `i`: there are none, the last is too long ago, or one is no twin of `i`. */
  predicate CannotTake(b: Batch, members: seq<nat>, i: nat) {
    || members == []
    || At(b, i).at - At(b, members[|members| - 1]).at > 5000
    || exists m <- members :: Key(b, m) == Key(b, i) || !Matches(b.parents, At(b, i), At(b, m))
  }

  /** Of two groups, the one recorded to last takes `i`, and the older of the two when both were at the same instant. */
  predicate TakesSooner(b: Batch, groups: seq<Group>, g: nat, h: nat, p: nat)
    requires g < |groups| && h < |groups| && 0 < p < |groups[g].members|
  {
    var i, last := groups[g].members[p], groups[g].members[p - 1];
    var cut := Cut(b, groups[h].members, i);
    cut != [] ==>
      var other := cut[|cut| - 1];
      At(b, other).at < At(b, last).at || (At(b, other).at == At(b, last).at && g < h)
  }

  /** The `p`-th member of group `g` went where the pass sends it, as far as group `h` goes. */
  predicate Greedy(b: Batch, groups: seq<Group>, g: nat, h: nat, p: nat)
    requires g < |groups| && h < |groups| && p < |groups[g].members|
  {
    var i := groups[g].members[p];
    CannotTake(b, Cut(b, groups[h].members, i), i) || (p > 0 && TakesSooner(b, groups, g, h, p))
  }

  ghost predicate AllGreedy(b: Batch, groups: seq<Group>, base: nat) {
    forall g, h, p | base <= g < |groups| && base <= h < |groups| && g != h && 0 <= p < |groups[g].members| ::
      Greedy(b, groups, g, h, p)
  }

  // ---------- one placement ----------

  predicate Increasing(open: seq<nat>) {
    forall j, k | 0 <= j < k < |open| :: open[j] < open[k]
  }

  /** Groups from `base` on are those of the bucket at hand; the ones not open any more are too old for `now` on. */
  ghost predicate OpenRightly(b: Batch, s: Grouping, base: nat, now: int) {
    && base <= |s.groups|
    && (forall k | 0 <= k < |s.open| :: base <= s.open[k] < |s.groups|)
    && Increasing(s.open)
    && (forall g | base <= g < |s.groups| :: g in s.open || now - s.groups[g].lastAt > 5000)
  }

  /** The members so far come in time order, all before `i`. */
  ghost predicate AllBefore(b: Batch, s: Grouping, base: nat, i: nat) {
    forall g | base <= g < |s.groups| ::
      s.groups[g].members != [] && InTimeOrder(b, s.groups[g].members) && (forall m <- s.groups[g].members :: First(b, m, i))
      && s.groups[g].lastAt == At(b, s.groups[g].members[|s.groups[g].members| - 1]).at
  }

  /** The state in which signal `i` is placed. */
  ghost predicate Ready(b: Batch, s: Grouping, base: nat, now: int, i: nat) {
    OpenRightly(b, s, base, now) && AllBefore(b, s, base, i) && now <= At(b, i).at
  }

  /** The open group chosen for `i`. */
  function Chosen(b: Batch, s: Grouping, i: nat): Option<nat> {
    var open := StillOpen(s.groups, s.open, At(b, i).at);
    BestOf(b, s.groups, open, |open|, i)
  }

  lemma CutWhole(b: Batch, members: seq<nat>, i: nat)
    requires forall m <- members :: First(b, m, i)
    ensures Cut(b, members, i) == members
  {}

  lemma CutStays(b: Batch, members: seq<nat>, last: nat, i: nat)
    requires First(b, i, last)
    ensures Cut(b, members + [last], i) == Cut(b, members, i)
  {
    assert (members + [last])[..|members|] == members;
  }

  lemma IncreasingCons(x: nat, rest: seq<nat>)
    requires Increasing(rest) && forall y <- rest :: x < y
    ensures Increasing([x] + rest)
  {
    var r := [x] + rest;
    forall j, k | 0 <= j < k < |r| ensures r[j] < r[k] {
      assert r[k] == rest[k - 1] && rest[k - 1] in rest;
      if j > 0 { assert r[j] == rest[j - 1]; }
    }
  }

  lemma {:induction false} StillOpenSorted(groups: seq<Group>, open: seq<nat>, at: int)
    requires Increasing(open)
    ensures Increasing(StillOpen(groups, open, at))
  {
    if open != [] {
      var rest := StillOpen(groups, open[1..], at);
      StillOpenSorted(groups, open[1..], at);
      forall y <- rest ensures open[0] < y {
        assert y in open[1..];
      }
      IncreasingCons(open[0], rest);
      assert [] + rest == rest;
    }
  }

  /** A group that is not open, or not eligible, cannot take the signal. */
  lemma NotTaken(b: Batch, s: Grouping, base: nat, now: int, i: nat, g: nat)
    requires Ready(b, s, base, now, i) && base <= g < |s.groups|
    requires !(g in s.open && IsOpen(s.groups, g, At(b, i).at) && Eligible(b, s.groups[g], i))
    ensures CannotTake(b, Cut(b, s.groups[g].members, i), i)
  {
    CutWhole(b, s.groups[g].members, i);
  }

  /** On a tie the scan stays with the group it found first. */
  lemma {:induction false} FirstOfTies(b: Batch, groups: seq<Group>, open: seq<nat>, n: nat, i: nat, k: nat)
    requires Indexed(groups, open) && Increasing(open) && k < n <= |open| && Eligible(b, groups[open[k]], i)
    ensures var best := BestOf(b, groups, open, n, i);
            best.Some? && (groups[open[k]].lastAt == groups[best.value].lastAt ==> best.value <= open[k])
  {
    hide Eligible, Increasing;
    if k < n - 1 { FirstOfTies(b, groups, open, n - 1, i, k); } else { FoundBefore(b, groups, open, n - 1, i, k); }
  }

  lemma FoundBefore(b: Batch, groups: seq<Group>, open: seq<nat>, n: nat, i: nat, k: nat)
    requires Indexed(groups, open) && Increasing(open) && n == k < |open|
    ensures var best := BestOf(b, groups, open, n, i); best.Some? ==> best.value < open[k]
  {
    var best := BestOf(b, groups, open, n, i);
    if best.Some? {
      var j :| 0 <= j < |open[..n]| && open[..n][j] == best.value;
      assert open[j] == best.value;
    }
  }

  /** The chosen group is recorded to last among the eligible ones, the oldest of them on a tie. */
  lemma ChosenIsBest(b: Batch, groups: seq<Group>, open: seq<nat>, i: nat, o: nat, g: nat)
    requires Indexed(groups, open) && Increasing(open) && BestOf(b, groups, open, |open|, i) == Some(o)
    requires g in open && g != o && Eligible(b, groups[g], i)
    ensures o < |groups|
    ensures groups[g].lastAt < groups[o].lastAt || (groups[g].lastAt == groups[o].lastAt && o < g)
  {
    var k :| 0 <= k < |open| && open[k] == g;
    FirstOfTies(b, groups, open, |open|, i, k);
  }

  /** The group joined is recorded to last among those that could take the signal, the oldest of them on a tie. */
  lemma BestTakesSooner(b: Batch, s: Grouping, base: nat, now: int, i: nat, o: nat, g: nat)
    requires Ready(b, s, base, now, i)
    requires Chosen(b, s, i) == Some(o)
    requires base <= g < |s.groups| && g != o
    ensures o in s.open && o < |s.groups|
    ensures CannotTake(b, Cut(b, s.groups[g].members, i), i)
            || s.groups[g].lastAt < s.groups[o].lastAt || (s.groups[g].lastAt == s.groups[o].lastAt && o < g)
  {
    var open := StillOpen(s.groups, s.open, At(b, i).at);
    assert open[..|open|] == open && o in open;
    assert Increasing(open) by { StillOpenSorted(s.groups, s.open, At(b, i).at); }
    hide Cut, CannotTake, Eligible, AllBefore;
    if g in s.open && IsOpen(s.groups, g, At(b, i).at) && Eligible(b, s.groups[g], i) {
      assert g in open;
      ChosenIsBest(b, s.groups, open, i, o, g);
    } else {
      NotTaken(b, s, base, now, i, g);
    }
  }

  /** The signal that joined group `o` goes after the others of its group. */
  lemma JoinedIsGreedy(b: Batch, s: Grouping, base: nat, now: int, i: nat, o: nat, groups: seq<Group>, h: nat)
    requires Ready(b, s, base, now, i)
    requires Chosen(b, s, i) == Some(o)
    requires base <= o < |s.groups| && base <= h < |s.groups| && h != o
    requires groups == s.groups[o := Group(s.groups[o].members + [i], At(b, i).at)]
    ensures Greedy(b, groups, o, h, |s.groups[o].members|)
  {
    hide Chosen, OpenRightly, Cut;
    assert AllBefore(b, s, base, i);
    BestTakesSooner(b, s, base, now, i, o, h);
    CutWhole(b, s.groups[h].members, i);
    assert groups[o].members[|s.groups[o].members|] == i && groups[h] == s.groups[h];
  }

  /** What was greedy stays so when a later signal goes to another group, or to its own. */
  lemma StaysGreedy(b: Batch, before: seq<Group>, after: seq<Group>, g: nat, h: nat, p: nat, i: nat)
    requires g < |before| && h < |before| <= |after| && p < |before[g].members| && Greedy(b, before, g, h, p)
    requires after[g].members == before[g].members || after[g].members == before[g].members + [i]
    requires after[h].members == before[h].members || after[h].members == before[h].members + [i]
    requires First(b, before[g].members[p], i)
    ensures Greedy(b, after, g, h, p)
  {
    var x := before[g].members[p];
    CutStays(b, before[h].members, i, x);
    assert after[g].members[p] == x && (p > 0 ==> after[g].members[p - 1] == before[g].members[p - 1]);
  }

  /** The next signal joins a group. */
  lemma JoinGreedy(b: Batch, s: Grouping, base: nat, now: int, i: nat, o: nat, r: Grouping)
    requires Ready(b, s, base, now, i) && AllGreedy(b, s.groups, base)
    requires Chosen(b, s, i) == Some(o)
    requires base <= o < |s.groups|
    requires r.groups == s.groups[o := Group(s.groups[o].members + [i], At(b, i).at)]
    ensures AllGreedy(b, r.groups, base)
  {
    assert AllBefore(b, s, base, i);
    hide First, Chosen, Greedy, Ready, OpenRightly;
    forall g, h, p | base <= g < |r.groups| && base <= h < |r.groups| && g != h && 0 <= p < |r.groups[g].members|
      ensures Greedy(b, r.groups, g, h, p)
    {
      if g == o && p == |s.groups[o].members| {
        JoinedIsGreedy(b, s, base, now, i, o, r.groups, h);
      } else {
        assert s.groups[g].members[p] in s.groups[g].members && Greedy(b, s.groups, g, h, p);
        StaysGreedy(b, s.groups, r.groups, g, h, p, i);
      }
    }
  }

  lemma NoneEligible(b: Batch, groups: seq<Group>, open: seq<nat>, i: nat)
    requires Indexed(groups, open) && BestOf(b, groups, open, |open|, i) == None
    ensures forall o <- open :: !Eligible(b, groups[o], i)
  {
    forall o <- open ensures !Eligible(b, groups[o], i) {
      var k :| 0 <= k < |open| && open[k] == o;
    }
  }

  /** The signal that started a group could join none. */
  lemma StarterIsGreedy(b: Batch, s: Grouping, base: nat, now: int, i: nat, groups: seq<Group>, h: nat)
    requires Ready(b, s, base, now, i)
    requires Chosen(b, s, i) == None
    requires base <= h < |s.groups| && groups == s.groups + [Group([i], At(b, i).at)]
    ensures Greedy(b, groups, |s.groups|, h, 0)
  {
    NoneEligible(b, s.groups, StillOpen(s.groups, s.open, At(b, i).at), i);
    NotTaken(b, s, base, now, i, h);
    assert groups[h] == s.groups[h] && groups[|s.groups|].members[0] == i;
  }

  lemma EmptyCut(b: Batch, groups: seq<Group>, g: nat, h: nat, p: nat, i: nat)
    requires g < |groups| && h < |groups| && p < |groups[g].members| && groups[h].members == [i]
    requires First(b, groups[g].members[p], i)
    ensures Greedy(b, groups, g, h, p)
  {
    CutStays(b, [], i, groups[g].members[p]);
    assert [] + [i] == [i];
  }

  /** The next signal starts a group. */
  lemma BeginGreedy(b: Batch, s: Grouping, base: nat, now: int, i: nat, r: Grouping)
    requires Ready(b, s, base, now, i) && AllGreedy(b, s.groups, base)
    requires Chosen(b, s, i) == None
    requires r.groups == s.groups + [Group([i], At(b, i).at)]
    ensures AllGreedy(b, r.groups, base)
  {
    assert AllBefore(b, s, base, i);
    hide First, Chosen, Greedy, Ready, OpenRightly;
    forall g, h, p | base <= g < |r.groups| && base <= h < |r.groups| && g != h && 0 <= p < |r.groups[g].members|
      ensures Greedy(b, r.groups, g, h, p)
    {
      if g == |s.groups| {
        StarterIsGreedy(b, s, base, now, i, r.groups, h);
      } else {
        assert s.groups[g].members[p] in s.groups[g].members;
        if h == |s.groups| {
          EmptyCut(b, r.groups, g, h, p, i);
        } else {
          assert Greedy(b, s.groups, g, h, p);
          StaysGreedy(b, s.groups, r.groups, g, h, p, i);
        }
      }
    }
  }

  // ---------- one bucket ----------

  /** The groups of the bucket so far, before signal `i` is placed. */
  ghost predicate BucketSoFar(b: Batch, s: Grouping, base: nat, now: int, before: seq<Group>) {
    && OpenRightly(b, s, base, now) && AllGreedy(b, s.groups, base)
    && |before| == base && s.groups[..base] == before
  }

  lemma PlacedIsGreedy(b: Batch, s: Grouping, base: nat, now: int, before: seq<Group>, i: nat, r: Grouping)
    requires BucketSoFar(b, s, base, now, before) && AllBefore(b, s, base, i) && now <= At(b, i).at && r == Place(b, s, i)
    ensures BucketSoFar(b, r, base, At(b, i).at, before)
  {
    var best := Chosen(b, s, i);
    assert Ready(b, s, base, now, i);
    OpenAfter(b, s, base, now, i, r);
    hide AllGreedy, OpenRightly, AllBefore, Ready;
    if best.Some? { JoinGreedy(b, s, base, now, i, best.value, r); } else { BeginGreedy(b, s, base, now, i, r); }
  }

  lemma OpenBefore(b: Batch, s: Grouping, base: nat, now: int, i: nat, open: seq<nat>)
    requires OpenRightly(b, s, base, now) && now <= At(b, i).at && open == StillOpen(s.groups, s.open, At(b, i).at)
    ensures OthersOld(s.groups, open, base, At(b, i).at)
  {
    StillOpenSorted(s.groups, s.open, At(b, i).at);
    forall k | 0 <= k < |open| ensures base <= open[k] < |s.groups| { assert open[k] in open; }
  }

  /** What placing a signal changes: a group of the bucket, or a new one, which is open then. */
  lemma OpenAfter(b: Batch, s: Grouping, base: nat, now: int, i: nat, r: Grouping)
    requires Ready(b, s, base, now, i) && r == Place(b, s, i)
    ensures OpenRightly(b, r, base, At(b, i).at)
    ensures base <= |s.groups| <= |r.groups| && r.groups[..base] == s.groups[..base]
    ensures var best := Chosen(b, s, i);
            if best.None? then r.groups == s.groups + [Group([i], At(b, i).at)]
            else
              var o := best.value;
              base <= o < |s.groups| && r.groups == s.groups[o := Group(s.groups[o].members + [i], At(b, i).at)]
  {
    var open := StillOpen(s.groups, s.open, At(b, i).at);
    var best := BestOf(b, s.groups, open, |open|, i);
    assert open[..|open|] == open && (best.Some? ==> best.value in open);
    OpenBefore(b, s, base, now, i, open);
    if best.Some? {
      var k :| 0 <= k < |open| && open[k] == best.value;
      LastIsBefore(b, s, base, i, best.value);
      JoinedOpen(b, s, base, i, best.value, open, r);
    } else {
      BegunOpen(b, s, base, i, open, r);
    }
  }

  /** The bucket's groups `open` leaves out are too old for `at` on. */
  ghost predicate OthersOld(groups: seq<Group>, open: seq<nat>, base: nat, at: int) {
    && Increasing(open) && (forall k | 0 <= k < |open| :: base <= open[k] < |groups|)
    && (forall g | base <= g < |groups| && g !in open :: at - groups[g].lastAt > 5000)
  }

  lemma JoinedOpen(b: Batch, s: Grouping, base: nat, i: nat, o: nat, open: seq<nat>, r: Grouping)
    requires OthersOld(s.groups, open, base, At(b, i).at) && o in open && base <= o < |s.groups|
    requires r.groups == s.groups[o := Group(s.groups[o].members + [i], At(b, i).at)] && r.open == open
    ensures OpenRightly(b, r, base, At(b, i).at) && r.groups[..base] == s.groups[..base]
  {
    forall g | base <= g < |r.groups| ensures g in r.open || At(b, i).at - r.groups[g].lastAt > 5000 {
      if g != o { assert r.groups[g] == s.groups[g]; }
    }
  }

  lemma BegunOpen(b: Batch, s: Grouping, base: nat, i: nat, open: seq<nat>, r: Grouping)
    requires OthersOld(s.groups, open, base, At(b, i).at) && base <= |s.groups|
    requires r.groups == s.groups + [Group([i], At(b, i).at)] && r.open == open + [|s.groups|]
    ensures OpenRightly(b, r, base, At(b, i).at) && r.groups[..base] == s.groups[..base]
  {
    OpenAppend(b, open, |s.groups|);
    forall k | 0 <= k < |r.open| ensures base <= r.open[k] < |r.groups| { assert k < |open| ==> r.open[k] == open[k]; }
    forall g | base <= g < |r.groups| ensures g in r.open || At(b, i).at - r.groups[g].lastAt > 5000 {
      if g < |s.groups| { assert r.groups[g] == s.groups[g] && (g in open ==> g in r.open); }
    }
  }

  lemma OpenAppend(b: Batch, open: seq<nat>, n: nat)
    requires Increasing(open) && forall k | 0 <= k < |open| :: open[k] < n
    ensures Increasing(open + [n]) && n in open + [n]
  {
    assert (open + [n])[|open|] == n;
  }

  lemma LastIsBefore(b: Batch, s: Grouping, base: nat, i: nat, g: nat)
    requires AllBefore(b, s, base, i) && base <= g < |s.groups|
    ensures Later(s.groups[g].lastAt, At(b, i).at) == At(b, i).at
  {
    var members := s.groups[g].members;
    assert members[|members| - 1] in members;
  }

  // ---------- a whole bucket ----------

  /** A group of the first `m` signals of a bucket, in time order. */
  ghost predicate Holds(b: Batch, order: seq<nat>, m: nat, g: Group)
    requires m <= |order|
  {
    && g.members != [] && InTimeOrder(b, g.members) && (forall x <- g.members :: x in order[..m])
    && g.lastAt == At(b, g.members[|g.members| - 1]).at
  }

  /** The groups from `base` on hold the first `m` signals of the bucket, each in time order. */
  ghost predicate HoldFirst(b: Batch, order: seq<nat>, m: nat, base: nat, r: Grouping)
    requires m <= |order|
  {
    forall g | base <= g < |r.groups| :: Holds(b, order, m, r.groups[g])
  }

  lemma HeldAreBefore(b: Batch, order: seq<nat>, m: nat, base: nat, r: Grouping)
    requires m < |order| && InTimeOrder(b, order) && HoldFirst(b, order, m, base, r)
    ensures AllBefore(b, r, base, order[m])
  {
    forall g, x | base <= g < |r.groups| && x in r.groups[g].members ensures First(b, x, order[m]) {
      var j :| 0 <= j < |order[..m]| && order[..m][j] == x;
      assert order[j] == x;
    }
  }

  lemma InTimeAppend(b: Batch, members: seq<nat>, i: nat)
    requires InTimeOrder(b, members) && forall m <- members :: First(b, m, i)
    ensures InTimeOrder(b, members + [i])
  {}

  lemma HoldsMore(b: Batch, order: seq<nat>, m: nat, g: Group)
    requires m < |order| && Holds(b, order, m, g)
    ensures Holds(b, order, m + 1, g)
  {
    assert order[..m + 1] == order[..m] + [order[m]];
  }

  lemma HoldsOneMore(b: Batch, order: seq<nat>, m: nat, g: Group)
    requires m < |order| && Holds(b, order, m, g) && forall x <- g.members :: First(b, x, order[m])
    ensures Holds(b, order, m + 1, Group(g.members + [order[m]], At(b, order[m]).at))
  {
    assert order[..m + 1] == order[..m] + [order[m]];
    InTimeAppend(b, g.members, order[m]);
  }

  lemma HoldJoined(b: Batch, order: seq<nat>, m: nat, base: nat, s: Grouping, r: Grouping, o: nat)
    requires m < |order| && HoldFirst(b, order, m, base, s) && base <= o < |s.groups|
    requires r.groups == s.groups[o := Group(s.groups[o].members + [order[m]], At(b, order[m]).at)]
    requires forall x <- s.groups[o].members :: First(b, x, order[m])
    ensures HoldFirst(b, order, m + 1, base, r)
  {
    HoldsOneMore(b, order, m, s.groups[o]);
    hide Holds, First;
    forall g | base <= g < |r.groups| ensures Holds(b, order, m + 1, r.groups[g]) {
      if g != o { HoldsMore(b, order, m, s.groups[g]); }
    }
  }

  lemma HoldBegun(b: Batch, order: seq<nat>, m: nat, base: nat, s: Grouping, r: Grouping)
    requires m < |order| && HoldFirst(b, order, m, base, s)
    requires r.groups == s.groups + [Group([order[m]], At(b, order[m]).at)]
    ensures HoldFirst(b, order, m + 1, base, r)
  {
    assert order[..m + 1] == order[..m] + [order[m]];
    assert Holds(b, order, m + 1, Group([order[m]], At(b, order[m]).at));
    hide Holds;
    forall g | base <= g < |r.groups| ensures Holds(b, order, m + 1, r.groups[g]) {
      if g < |s.groups| { HoldsMore(b, order, m, s.groups[g]); }
    }
  }

  lemma HoldNext(b: Batch, order: seq<nat>, m: nat, base: nat, now: int, s: Grouping, r: Grouping)
    requires m < |order| && HoldFirst(b, order, m, base, s)
    requires Ready(b, s, base, now, order[m]) && r == Place(b, s, order[m])
    ensures HoldFirst(b, order, m + 1, base, r)
  {
    OpenAfter(b, s, base, now, order[m], r);
    assert AllBefore(b, s, base, order[m]);
    var best := Chosen(b, s, order[m]);
    hide Place, Chosen, OpenRightly, First, Ready, HoldFirst;
    if best.Some? { HoldJoined(b, order, m, base, s, r, best.value); } else { HoldBegun(b, order, m, base, s, r); }
  }

  function SetOf(s: seq<nat>): (r: set<nat>)
    ensures forall x :: x in r <==> x in s
  {
    set x <- s
  }

  function NowAt(b: Batch, order: seq<nat>, m: nat): int
    requires m <= |order|
  {
    if m == 0 then (if order == [] then 0 else At(b, order[0]).at) else At(b, order[m - 1]).at
  }

  /** After the first `m` signals of a bucket: `before` are the groups of earlier buckets, `grouped` their signals. */
  ghost predicate GreedySoFar(b: Batch, before: seq<Group>, grouped: set<nat>, order: seq<nat>, r: Grouping, m: nat) {
    && m <= |order|
    && BucketSoFar(b, r, |before|, NowAt(b, order, m), before)
    && HoldFirst(b, order, m, |before|, r)
    && r.of.Keys == grouped + SetOf(order[..m])
  }

  lemma PlaceKeys(b: Batch, s: Grouping, i: nat)
    ensures Place(b, s, i).of.Keys == s.of.Keys + {i}
  {}

  lemma NowMoves(b: Batch, order: seq<nat>, m: nat)
    requires m < |order| && InTimeOrder(b, order)
    ensures NowAt(b, order, m) <= At(b, order[m]).at == NowAt(b, order, m + 1)
    ensures SetOf(order[..m + 1]) == SetOf(order[..m]) + {order[m]}
  {
    if m > 0 { assert First(b, order[m - 1], order[m]); }
    assert order[..m + 1] == order[..m] + [order[m]];
  }

  lemma GreedyStep(b: Batch, before: seq<Group>, grouped: set<nat>, order: seq<nat>, s: Grouping, m: nat)
    requires GreedySoFar(b, before, grouped, order, s, m) && m < |order| && InTimeOrder(b, order)
    ensures GreedySoFar(b, before, grouped, order, Place(b, s, order[m]), m + 1)
  {
    hide Place, HoldFirst, BucketSoFar, InTimeOrder, First, NowAt, AllBefore, Ready, SetOf;
    var r, i, base, now := Place(b, s, order[m]), order[m], |before|, NowAt(b, order, m);
    NowMoves(b, order, m);
    PlaceKeys(b, s, i);
    HeldAreBefore(b, order, m, base, s);
    PlacedIsGreedy(b, s, base, now, before, i, r);
    SoFarReady(b, s, base, now, before, i);
    HoldNext(b, order, m, base, now, s, r);
  }

  lemma SoFarReady(b: Batch, s: Grouping, base: nat, now: int, before: seq<Group>, i: nat)
    requires BucketSoFar(b, s, base, now, before) && AllBefore(b, s, base, i) && now <= At(b, i).at
    ensures Ready(b, s, base, now, i)
  {}

  ghost function GreedyBy(b: Batch, before: seq<Group>, grouped: set<nat>, order: seq<nat>): (Grouping, nat) -> bool {
    (r: Grouping, m: nat) => GreedySoFar(b, before, grouped, order, r, m)
  }

  lemma BucketIsGreedy(b: Batch, s: Grouping, order: seq<nat>, f: (Grouping, nat) -> Grouping)
    requires s.open == [] && InTimeOrder(b, order) && f == Placing(b)
    ensures GreedySoFar(b, s.groups, s.of.Keys, order, Fold(f, s, order, |order|), |order|)
  {
    var inv := GreedyBy(b, s.groups, s.of.Keys, order);
    assert inv(s, 0) by {
      assert order[..0] == [] && s.groups[..|s.groups|] == s.groups;
    }
    forall r, m: nat | m < |order| && inv(r, m) ensures inv(f(r, order[m]), m + 1) {
      GreedyStep(b, s.groups, s.of.Keys, order, r, m);
    }
    FoldKeeps(f, s, order, |order|, inv);
  }

  lemma OrderInTime(b: Batch, bucket: seq<nat>)
    requires Distinct(bucket)
    ensures InTimeOrder(b, InOrder(b, bucket)) && forall x :: x in InOrder(b, bucket) <==> x in bucket
  {
    var leq := (x: nat, y: nat) => Precedes(b, x, y);
    InOrderOk(b, bucket);
    PrecedesOrders(b);
    SortOrders(bucket, leq);
    var r := InOrder(b, bucket);
    forall j, k | 0 <= j < k < |r| ensures First(b, r[j], r[k]) { assert leq(r[j], r[k]) && r[j] != r[k]; }
  }

  /** A bucket of two or more is grouped greedily, all of it; one of a single signal is left alone. */
  lemma PlaceBucketGreedy(b: Batch, s: Grouping, bucket: seq<nat>, r: Grouping)
    requires Distinct(bucket) && r == PlaceBucket(b, s, bucket)
    ensures s.groups <= r.groups && AllGreedy(b, r.groups, |s.groups|)
    ensures r.of.Keys == s.of.Keys + (if |bucket| >= 2 then SetOf(bucket) else {})
    ensures forall g | |s.groups| <= g < |r.groups| ::
      r.groups[g].members != [] && InTimeOrder(b, r.groups[g].members) && forall x <- r.groups[g].members :: x in bucket
  {
    if |bucket| >= 2 {
      var order := InOrder(b, bucket);
      OrderInTime(b, bucket);
      BucketIsGreedy(b, s.(open := []), order, Placing(b));
      assert order[..|order|] == order;
    }
  }

  // ---------- all buckets ----------

  /** Of two groups of one trace and resource each is greedy as far as the other goes. */
  ghost predicate GreedyByKey(b: Batch, groups: seq<Group>) {
    forall g, h, p | 0 <= g < |groups| && 0 <= h < |groups| && g != h && 0 <= p < |groups[g].members|
                     && groups[h].members != []
                     && BucketKeyOf(At(b, groups[g].members[p])) == BucketKeyOf(At(b, groups[h].members[0])) ::
      Greedy(b, groups, g, h, p)
  }

  ghost predicate AllInTime(b: Batch, groups: seq<Group>) {
    forall g | 0 <= g < |groups| :: InTimeOrder(b, groups[g].members)
  }

  ghost predicate BucketsGreedy(b: Batch, buckets: seq<Bucket>, n: nat, r: Grouping)
    requires n <= |buckets|
  {
    && GreedyByKey(b, r.groups) && AllInTime(b, r.groups)
    && (forall p, i | 0 <= p < n && |buckets[p].members| >= 2 && i in buckets[p].members :: i in r.of.Keys)
  }

  lemma NextBucketGreedy(b: Batch, buckets: seq<Bucket>, n: nat, s: Grouping, r: Grouping)
    requires BucketsOk(b, |b.signals|, buckets) && n < |buckets|
    requires BucketsPlaced(b, buckets, n, s) && BucketsGreedy(b, buckets, n, s)
    requires r == PlaceBucket(b, s, buckets[n].members)
    ensures BucketsGreedy(b, buckets, n + 1, r)
  {
    PlaceBucketGreedy(b, s, buckets[n].members, r);
    assert AllInTime(b, r.groups) by {
      forall g | 0 <= g < |r.groups| ensures InTimeOrder(b, r.groups[g].members) {
        if g < |s.groups| { assert r.groups[g] == s.groups[g]; }
      }
    }
    hide PlaceBucket, GreedyByKey, AllInTime, InTimeOrder, BucketsPlaced, AllGreedy;
    NextGreedyByKey(b, buckets, n, s, r);
  }

  lemma NextGreedyByKey(b: Batch, buckets: seq<Bucket>, n: nat, s: Grouping, r: Grouping)
    requires BucketsOk(b, |b.signals|, buckets) && n < |buckets| && BucketsPlaced(b, buckets, n, s) && GreedyByKey(b, s.groups)
    requires s.groups <= r.groups && AllGreedy(b, r.groups, |s.groups|)
    requires forall g | |s.groups| <= g < |r.groups| :: forall x <- r.groups[g].members :: x in buckets[n].members
    ensures GreedyByKey(b, r.groups)
  {
    var base := |s.groups|;
    assert forall g | 0 <= g < base :: r.groups[g] == s.groups[g];
    hide BucketsOk, BucketsPlaced, Greedy;
    forall g, h, p | 0 <= g < |r.groups| && 0 <= h < |r.groups| && g != h && 0 <= p < |r.groups[g].members|
                     && r.groups[h].members != []
                     && BucketKeyOf(At(b, r.groups[g].members[p])) == BucketKeyOf(At(b, r.groups[h].members[0]))
      ensures Greedy(b, r.groups, g, h, p)
    {
      OldOrNew(b, buckets, n, s, r, g, p);
      OldOrNew(b, buckets, n, s, r, h, 0);
      if g < base {
        assert Greedy(b, s.groups, g, h, p);
        SameGreedy(b, s.groups, r.groups, g, h, p);
      }
    }
  }

  lemma SameGreedy(b: Batch, before: seq<Group>, after: seq<Group>, g: nat, h: nat, p: nat)
    requires g < |before| <= |after| && h < |before| && p < |before[g].members|
    requires after[g] == before[g] && after[h] == before[h] && Greedy(b, before, g, h, p)
    ensures Greedy(b, after, g, h, p)
  {}

  /** Groups of the bucket just placed have its key, the earlier ones do not. */
  lemma OldOrNew(b: Batch, buckets: seq<Bucket>, n: nat, s: Grouping, r: Grouping, g: nat, p: nat)
    requires BucketsOk(b, |b.signals|, buckets) && n < |buckets| && BucketsPlaced(b, buckets, n, s)
    requires s.groups <= r.groups && g < |r.groups| && p < |r.groups[g].members|
    requires g >= |s.groups| ==> forall x <- r.groups[g].members :: x in buckets[n].members
    ensures BucketKeyOf(At(b, r.groups[g].members[p])) == buckets[n].key <==> g >= |s.groups|
  {
    var x := r.groups[g].members[p];
    assert x in r.groups[g].members;
    if g < |s.groups| {
      assert r.groups[g] == s.groups[g] && x in s.of.Keys;
    } else {
      assert BucketOk(b, |b.signals|, buckets[n]);
    }
  }

  lemma {:induction false} AllBucketsGreedy(b: Batch, buckets: seq<Bucket>, n: nat, r: Grouping)
    requires BucketsOk(b, |b.signals|, buckets) && n <= |buckets| && r == PlaceBuckets(b, buckets, n)
    ensures BucketsGreedy(b, buckets, n, r)
    decreases n
  {
    if n > 0 {
      var s := PlaceBuckets(b, buckets, n - 1);
      assert r == PlaceBucket(b, s, buckets[n - 1].members);
      hide BucketsGreedy, BucketsOk, BucketsPlaced, PlaceBucket;
      AllBucketsGreedy(b, buckets, n - 1, s);
      PlaceBucketsOk(b, buckets, n - 1, s);
      NextBucketGreedy(b, buckets, n - 1, s, r);
    }
  }

  /** The signal is in the bucket of its trace and resource. */
  ghost predicate InItsBucket(b: Batch, buckets: seq<Bucket>, i: nat) {
    exists p | 0 <= p < |buckets| :: buckets[p].key == BucketKeyOf(At(b, i)) && i in buckets[p].members
  }

  lemma {:induction false} AddToHolds(b: Batch, buckets: seq<Bucket>, i: nat, j: nat)
    requires j == i || InItsBucket(b, buckets, j)
    ensures InItsBucket(b, AddTo(buckets, BucketKeyOf(At(b, i)), i), j)
  {
    var key := BucketKeyOf(At(b, i));
    var r := AddTo(buckets, key, i);
    if buckets == [] {
      assert r[0] == Bucket(key, [i]);
    } else if buckets[0].key == key {
      assert i in r[0].members && (j in buckets[0].members ==> j in r[0].members);
      if j != i {
        var p :| 0 <= p < |buckets| && buckets[p].key == BucketKeyOf(At(b, j)) && j in buckets[p].members;
        assert p > 0 ==> r[p] == buckets[p];
        assert r[p].key == BucketKeyOf(At(b, j)) && j in r[p].members;
      }
    } else {
      var rest := AddTo(buckets[1..], key, i);
      assert r == [buckets[0]] + rest;
      if j != i && buckets[0].key == BucketKeyOf(At(b, j)) && j in buckets[0].members {
        assert r[0] == buckets[0];
      } else {
        if j != i {
          var p :| 0 <= p < |buckets| && buckets[p].key == BucketKeyOf(At(b, j)) && j in buckets[p].members;
          assert buckets[1..][p - 1] == buckets[p];
        }
        AddToHolds(b, buckets[1..], i, j);
        var q :| 0 <= q < |rest| && rest[q].key == BucketKeyOf(At(b, j)) && j in rest[q].members;
        assert r[q + 1] == rest[q];
      }
    }
  }

  lemma {:induction false} EverySignalBucketed(b: Batch, n: nat, i: nat)
    requires i < n && Groupable(At(b, i))
    ensures InItsBucket(b, Buckets(b, n), i)
  {
    if i < n - 1 { EverySignalBucketed(b, n - 1, i); }
    if Groupable(At(b, n - 1)) { AddToHolds(b, Buckets(b, n - 1), n - 1, i); }
  }

  // ---------- main results: the groups ----------

  /** All groups of the pass are greedy, and hold every signal that shares its trace and resource with another one. */
  lemma GroupedGreedily(b: Batch)
    ensures GreedyByKey(b, Grouped(b).groups) && AllInTime(b, Grouped(b).groups)
    ensures forall i, j | 0 <= i < |b.signals| && 0 <= j < |b.signals| && i != j && Groupable(At(b, i)) && Groupable(At(b, j))
                          && BucketKeyOf(At(b, i)) == BucketKeyOf(At(b, j)) :: i in Grouped(b).of
  {
    var buckets := Buckets(b, |b.signals|);
    BucketsAreOk(b, |b.signals|);
    AllBucketsGreedy(b, buckets, |buckets|, Grouped(b));
    forall i, j | 0 <= i < |b.signals| && 0 <= j < |b.signals| && i != j && Groupable(At(b, i)) && Groupable(At(b, j))
                  && BucketKeyOf(At(b, i)) == BucketKeyOf(At(b, j))
      ensures i in Grouped(b).of
    {
      SharedBucket(b, buckets, i, j);
    }
  }

  lemma SharedBucket(b: Batch, buckets: seq<Bucket>, i: nat, j: nat)
    requires buckets == Buckets(b, |b.signals|) && BucketsOk(b, |b.signals|, buckets)
    requires i < |b.signals| && j < |b.signals| && i != j && Groupable(At(b, i)) && Groupable(At(b, j))
    requires BucketKeyOf(At(b, i)) == BucketKeyOf(At(b, j)) && BucketsGreedy(b, buckets, |buckets|, Grouped(b))
    ensures i in Grouped(b).of
  {
    EverySignalBucketed(b, |b.signals|, i);
    EverySignalBucketed(b, |b.signals|, j);
    var p :| 0 <= p < |buckets| && buckets[p].key == BucketKeyOf(At(b, i)) && i in buckets[p].members;
    var q :| 0 <= q < |buckets| && buckets[q].key == BucketKeyOf(At(b, j)) && j in buckets[q].members;
    assert p == q;
    assert |buckets[p].members| >= 2 by { TwoMembers(buckets[p].members, i, j); }
  }

  lemma TwoMembers(s: seq<nat>, i: nat, j: nat)
    requires i in s && j in s && i != j
    ensures |s| >= 2
  {}

  /**
   * Nothing is left unmerged: every exception that shares its trace and resource with another one is in a group; and
   * when it is the first of its group, every other group of that trace and resource, cut to the recordings before it,
   * is empty, or more than 5000 ms older, or has one on its span or one that does not match.
   */
  lemma StartsOnlyWhenItMust(b: Batch, i: nat, j: nat)
    requires i < |b.signals| && j < |b.signals| && i != j && Groupable(At(b, i)) && Groupable(At(b, j))
    requires BucketKeyOf(At(b, i)) == BucketKeyOf(At(b, j))
    ensures var s := Grouped(b);
            && i in s.of && s.of[i] < |s.groups| && i in s.groups[s.of[i]].members
            && (i == s.groups[s.of[i]].members[0] ==>
                  forall h | 0 <= h < |s.groups| && h != s.of[i] && s.groups[h].members != []
                             && BucketKeyOf(At(b, s.groups[h].members[0])) == BucketKeyOf(At(b, i)) ::
                    CannotTake(b, Cut(b, s.groups[h].members, i), i))
  {
    GroupedGreedily(b);
    GroupsAreCliques(b);
    var s := Grouped(b);
    var g := s.of[i];
    if i == s.groups[g].members[0] {
      forall h | 0 <= h < |s.groups| && h != g && s.groups[h].members != []
                 && BucketKeyOf(At(b, s.groups[h].members[0])) == BucketKeyOf(At(b, i))
        ensures CannotTake(b, Cut(b, s.groups[h].members, i), i)
      {
        assert Greedy(b, s.groups, g, h, 0);
      }
    }
  }

  // ---------- main results: the survivors ----------

  /** Of these recordings, `x` is the last one before `i`. */
  predicate LastBefore(b: Batch, members: seq<nat>, i: nat, x: nat) {
    && x in members && First(b, x, i)
    && forall m <- members :: First(b, m, i) ==> m == x || First(b, m, x)
  }

  /** Survivors in order: a group's recordings in time order, whatever order the survivor lists them in. */
  lemma CutLast(b: Batch, members: seq<nat>, i: nat)
    requires InTimeOrder(b, members) && Cut(b, members, i) != []
    ensures var cut := Cut(b, members, i);
            LastBefore(b, members, i, cut[|cut| - 1]) && forall m <- cut :: First(b, m, i)
  {
    var cut := Cut(b, members, i);
    var x := cut[|cut| - 1];
    forall k | 0 <= k < |members| && First(b, members[k], i) ensures members[k] == x || First(b, members[k], x) {
      assert k < |cut| && cut[k] == members[k];
    }
    hide First;
    forall k | 0 <= k < |cut| ensures First(b, cut[k], i) {
      assert cut[k] == members[k] && x == members[|cut| - 1];
      if k < |cut| - 1 { FirstTransitive(b, cut[k], x, i); }
    }
  }

  lemma FirstTransitive(b: Batch, x: nat, y: nat, z: nat)
    requires First(b, x, y) && First(b, y, z)
    ensures First(b, x, z)
  {}

  /** A survivor that stands for a grouped signal stands for its whole group. */
  lemma SurvivorIsGroup(b: Batch, s: Grouping, out: seq<Survivor>, k: nat, i: nat)
    requires GroupsGood(b, s) && out == Survivors(b, s, |b.signals|) && k < |out| && i in out[k].members && i in s.of
    ensures s.of[i] < |s.groups| && forall m :: m in out[k].members <==> m in s.groups[s.of[i]].members
  {
    hide GroupOk, Redundant;
    hide GroupOk;
    SurvivorsOk(b, s, |b.signals|);
    var index := out[k].index;
    var members := s.groups[s.of[i]].members;
    StandsForItsOwn(b, s, i, index);
    if GroupOf(s, i).Some? {
      KeptIsBest(b, s.groups[s.of[i]]);
      SameGroup(b, s, s.of[i], index);
      StandingMembers(b, s, index);
    } else {
      assert members == [i] && index == i;
    }
  }

  /** The first recording of a group comes first. */
  lemma FirstIsHead(b: Batch, members: seq<nat>, i: nat)
    requires InTimeOrder(b, members) && i in members && forall m <- members :: m == i || First(b, i, m)
    ensures members[0] == i
  {
    var k :| 0 <= k < |members| && members[k] == i;
    assert members[0] in members;
    assert k > 0 ==> First(b, members[0], members[k]);
  }

  /**
   * The output is merged fully. Of two survivors with exceptions of one trace and resource, let `i` be the first
   * recording of one. Then the other one has none before `i`, or the last of them is more than 5000 ms before `i`,
   * or one of them is on the span of `i` or does not match it.
   */
  lemma SurvivorsMergedFully(b: Batch, k: nat, l: nat, i: nat, y: nat)
    requires k < |Deduped(b)| && l < |Deduped(b)| && k != l
    requires i in Deduped(b)[k].members && y in Deduped(b)[l].members && i < |b.signals| && y < |b.signals|
    requires Groupable(At(b, i)) && Groupable(At(b, y)) && BucketKeyOf(At(b, i)) == BucketKeyOf(At(b, y))
    requires forall m <- Deduped(b)[k].members :: m == i || First(b, i, m)
    ensures var others := Deduped(b)[l].members;
            || (forall m <- others :: !First(b, m, i))
            || (exists x <- others :: LastBefore(b, others, i, x) && At(b, i).at - At(b, x).at > 5000)
            || (exists m <- others :: First(b, m, i) && (Key(b, m) == Key(b, i) || !Matches(b.parents, At(b, i), At(b, m))))
  {
    var s, out := Grouped(b), Deduped(b);
    GroupsAreCliques(b);
    GroupedGreedily(b);
    DifferentSignals(b, out, k, l, i, y);
    StartsOnlyWhenItMust(b, i, y);
    StartsOnlyWhenItMust(b, y, i);
    SurvivorIsGroup(b, s, out, k, i);
    SurvivorIsGroup(b, s, out, l, y);
    var g, h := s.of[i], s.of[y];
    if g == h { DifferentSignals(b, out, k, l, y, y); }
    FirstIsHead(b, s.groups[g].members, i);
    OtherCannotTake(b, s.groups[h].members, out[l].members, i) by {
      assert Clique(b, s.groups[h].members);
      SameKey(b, s.groups[h].members, y);
    }
  }

  lemma SameKey(b: Batch, members: seq<nat>, y: nat)
    requires Clique(b, members) && y in members
    ensures BucketKeyOf(At(b, members[0])) == BucketKeyOf(At(b, y))
  {
    var k :| 0 <= k < |members| && members[k] == y;
    if k > 0 { assert Twins(b, members[0], members[k]); }
  }

  lemma DifferentSignals(b: Batch, out: seq<Survivor>, k: nat, l: nat, i: nat, y: nat)
    requires out == Deduped(b) && k < |out| && l < |out| && k != l && i < |b.signals|
    requires i in out[k].members && y in out[l].members
    ensures i != y
  {
    EverySignalOnce(b, i);
  }

  lemma OtherCannotTake(b: Batch, members: seq<nat>, others: seq<nat>, i: nat)
    requires InTimeOrder(b, members) && (forall m :: m in others <==> m in members) && CannotTake(b, Cut(b, members, i), i)
    ensures || (forall m <- others :: !First(b, m, i))
            || (exists x <- others :: LastBefore(b, others, i, x) && At(b, i).at - At(b, x).at > 5000)
            || (exists m <- others :: First(b, m, i) && (Key(b, m) == Key(b, i) || !Matches(b.parents, At(b, i), At(b, m))))
  {
    var cut := Cut(b, members, i);
    if cut == [] {
      forall m <- others ensures !First(b, m, i) {
        var k :| 0 <= k < |members| && members[k] == m;
      }
    } else {
      CutLast(b, members, i);
      var x := cut[|cut| - 1];
      assert x in others && LastBefore(b, others, i, x);
      if At(b, i).at - At(b, x).at <= 5000 {
        var m :| m in cut && (Key(b, m) == Key(b, i) || !Matches(b.parents, At(b, i), At(b, m)));
        assert m in others && First(b, m, i);
      }
    }
  }

  /** Two recordings of one error, alone in their trace and resource and at most 5000 ms apart, become one survivor. */
  lemma TwoTwinsMerge(b: Batch, i: nat, j: nat) returns (k: nat)
    requires i < |b.signals| && j < |b.signals| && First(b, i, j) && Groupable(At(b, i)) && Groupable(At(b, j))
    requires BucketKeyOf(At(b, i)) == BucketKeyOf(At(b, j)) && Key(b, i) != Key(b, j)
    requires Matches(b.parents, At(b, j), At(b, i)) && At(b, j).at - At(b, i).at <= 5000
    requires forall m | 0 <= m < |b.signals| && Groupable(At(b, m)) && BucketKeyOf(At(b, m)) == BucketKeyOf(At(b, i)) :: m == i || m == j
    ensures k < |Deduped(b)| && forall m :: m in Deduped(b)[k].members <==> m == i || m == j
  {
    hide Clique, Matches;
    var s, out := Grouped(b), Deduped(b);
    OneGroupOfTwo(b, s, i, j);
    GroupsAreCliques(b);
    hide GroupOk, OfOk;
    ExceptionSurvives(b, i);
    k :| 0 <= k < |out| && i in out[k].members;
    SurvivorIsGroup(b, s, out, k, i);
  }

  /** A groupable signal is in some survivor. */
  lemma ExceptionSurvives(b: Batch, i: nat)
    requires i < |b.signals| && Groupable(At(b, i))
    ensures exists k :: 0 <= k < |Deduped(b)| && i in Deduped(b)[k].members
  {
    EverySignalOnce(b, i);
  }

  lemma OneGroupOfTwo(b: Batch, s: Grouping, i: nat, j: nat)
    requires s == Grouped(b)
    requires i < |b.signals| && j < |b.signals| && First(b, i, j) && Groupable(At(b, i)) && Groupable(At(b, j))
    requires BucketKeyOf(At(b, i)) == BucketKeyOf(At(b, j)) && Key(b, i) != Key(b, j)
    requires Matches(b.parents, At(b, j), At(b, i)) && At(b, j).at - At(b, i).at <= 5000
    requires forall m | 0 <= m < |b.signals| && Groupable(At(b, m)) && BucketKeyOf(At(b, m)) == BucketKeyOf(At(b, i)) :: m == i || m == j
    ensures i in s.of && s.of[i] < |s.groups| && forall m :: m in s.groups[s.of[i]].members <==> m == i || m == j
  {
    GroupsAreCliques(b);
    hide Clique, Matches, Grouped;
    StartsOnlyWhenItMust(b, j, i);
    StartsOnlyWhenItMust(b, i, j);
    var g, h := s.of[j], s.of[i];
    assert Clique(b, s.groups[g].members) && Clique(b, s.groups[h].members) by { assert GroupOk(b, s.groups[g]) && GroupOk(b, s.groups[h]); }
    OnlyTheTwo(b, s.groups[g].members, i, j);
    OnlyTheTwo(b, s.groups[h].members, i, j);
    assert g != h ==> i !in s.groups[g].members && j !in s.groups[h].members;
    hide GroupOk, OfOk;
    CouldTake(b, i, j);
  }

  /** The earlier recording alone could take the later one. */
  lemma CouldTake(b: Batch, i: nat, j: nat)
    requires First(b, i, j) && Key(b, i) != Key(b, j) && Matches(b.parents, At(b, j), At(b, i))
    requires At(b, j).at - At(b, i).at <= 5000
    ensures Cut(b, [i], j) == [i] && !CannotTake(b, [i], j)
  {}

  lemma OnlyTheTwo(b: Batch, members: seq<nat>, i: nat, j: nat)
    requires Clique(b, members) && (i in members || j in members) && BucketKeyOf(At(b, i)) == BucketKeyOf(At(b, j))
    requires forall m | 0 <= m < |b.signals| && Groupable(At(b, m)) && BucketKeyOf(At(b, m)) == BucketKeyOf(At(b, i)) :: m == i || m == j
    ensures forall m <- members :: m == i || m == j
    ensures i in members && j !in members ==> members == [i]
    ensures j in members && i !in members ==> members == [j]
  {
    CliqueDistinct(b, members);
    var y := if i in members then i else j;
    SameKey(b, members, y);
    forall m <- members ensures m == i || m == j { SameKey(b, members, m); }
    if |members| >= 2 { assert members[0] in members && members[1] in members && members[0] != members[1]; }
  }
}
