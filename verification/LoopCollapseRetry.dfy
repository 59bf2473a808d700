/**
 * A batch sent again within its minute, whatever ran in between: which of its occurrences are still recognised, and
 * exactly when planning it again folds nothing.
 */
module LoopCollapseRetry {
  import opened Wrappers
  import opened LoopCollapseModel
  import opened LoopCollapseProofs
  import opened LoopCollapseReplan
  import opened LoopCollapseTheorems
  import opened LoopCollapseIds

  // ---------- planning occurrences whose windows exist ----------

  predicate Placed(st: State, m: nat, tenant: Tenant, route: string, os: seq<Occurrence>)
    requires ValidRefs(st) && m < |st.minutes|
  {
    forall i | 0 <= i < |os| :: Lookup(st, m, tenant, route, os[i]).Some?
  }

  /** The ids of the batch that window `w` does not recognise. */
  function Unknown(st: State, m: nat, tenant: Tenant, route: string, os: seq<Occurrence>, w: nat): set<string>
    requires ValidRefs(st) && m < |st.minutes| && w < |st.windows|
  {
    if os == [] then {}
    else
      (if Lookup(st, m, tenant, route, os[0]) == Some(w) && !Knows(st.windows[w], os[0].id) then {os[0].id} else {})
      + Unknown(st, m, tenant, route, os[1..], w)
  }

  /** The window can take these ids without folding: there are none, it may keep them all, or no slot is free. */
  predicate Room(c: Config, win: Window, ids: set<string>, full: bool) {
    ids == {} || win.admitted + |ids| <= c.after || (!win.holdsSlot && full)
  }

  predicate AllRoom(c: Config, st: State, m: nat, tenant: Tenant, route: string, os: seq<Occurrence>)
    requires ValidRefs(st) && m < |st.minutes|
  {
    forall w: nat | w < |st.windows| ::
      Room(c, st.windows[w], Unknown(st, m, tenant, route, os, w), st.heldSamples >= c.maxSamples)
  }

  /** The same windows at the same places. */
  ghost predicate SamePlaces(st: State, st': State, m: nat) {
    && m < |st.minutes| == |st'.minutes| && st.minutes[m].refs == st'.minutes[m].refs
    && |st'.windows| == |st.windows| && forall w | 0 <= w < |st.windows| :: st'.windows[w].key == st.windows[w].key
  }

  lemma SameLookup(st: State, st': State, m: nat, tenant: Tenant, route: string, o: Occurrence)
    requires ValidRefs(st) && ValidRefs(st') && SamePlaces(st, st', m)
    ensures Lookup(st', m, tenant, route, o) == Lookup(st, m, tenant, route, o)
  {
    FindStays(st.windows, st'.windows, st.minutes[m].refs, st'.minutes[m].refs, Key(tenant, route, o.identity));
  }

  /** Ids the window learnt are no longer unknown. */
  lemma {:induction false} UnknownAfter(
      st: State, st': State, m: nat, tenant: Tenant, route: string, os: seq<Occurrence>, w: nat, learnt: set<string>)
    requires ValidRefs(st) && ValidRefs(st') && SamePlaces(st, st', m) && w < |st.windows|
    requires forall id :: Knows(st'.windows[w], id) <==> Knows(st.windows[w], id) || id in learnt
    ensures Unknown(st', m, tenant, route, os, w) == Unknown(st, m, tenant, route, os, w) - learnt
  {
    if os != [] {
      SameLookup(st, st', m, tenant, route, os[0]);
      UnknownAfter(st, st', m, tenant, route, os[1..], w, learnt);
    }
  }

  lemma Elsewhere(c: Config, st: State, st': State, m: nat, tenant: Tenant, route: string, os: seq<Occurrence>, w: nat, v: nat)
    requires ValidRefs(st) && ValidRefs(st') && SamePlaces(st, st', m) && w < |st.windows| && os != []
    requires st'.windows[w] == st.windows[w] && Lookup(st, m, tenant, route, os[0]) == Some(v) && v != w
    ensures Unknown(st', m, tenant, route, os[1..], w) == Unknown(st, m, tenant, route, os, w)
  {
    UnknownAfter(st, st', m, tenant, route, os[1..], w, {});
  }

  /** The window after a decision that folds nothing; `learnt`: the id it keeps from now on. */
  lemma DecisionEffect(c: Config, st: State, d: Plan, m: nat, w: nat, o: Occurrence, st': State, d': Plan, learnt: set<string>)
    requires m < |st.minutes| && w < |st.windows| && (st', d') == PlanOnWindow(c, st, d, w, st.minutes[m].minute, o)
    requires !Decide(c, st.windows[w], o.id, st.heldSamples >= c.maxSamples).FoldedNow?
    requires learnt == if Decide(c, st.windows[w], o.id, st.heldSamples >= c.maxSamples).KeptNow? then {o.id} else {}
    ensures d'.folds == d.folds && SamePlaces(st, st', m) && st'.heldSamples == st.heldSamples
    ensures st'.windows == st.windows[w := st'.windows[w]]
    ensures var a, b := st.windows[w], st'.windows[w];
            && b.admitted == a.admitted + |learnt| && b.holdsSlot == a.holdsSlot
            && forall id :: Knows(b, id) <==> Knows(a, id) || id in learnt
  {}

  /** A decision that folds nothing leaves the question to the rest of the batch. */
  lemma DecisionKeepsRoom(c: Config, st: State, d: Plan, m: nat, tenant: Tenant, route: string, os: seq<Occurrence>, w: nat,
                          st': State, d': Plan)
    requires ValidRefs(st) && m < |st.minutes| && os != [] && Lookup(st, m, tenant, route, os[0]) == Some(w)
    requires w < |st.windows| && (st', d') == PlanOnWindow(c, st, d, w, st.minutes[m].minute, os[0]) && ValidRefs(st')
    requires !Decide(c, st.windows[w], os[0].id, st.heldSamples >= c.maxSamples).FoldedNow?
    ensures d'.folds == d.folds && SamePlaces(st, st', m) && st'.heldSamples == st.heldSamples
    ensures st'.windows == st.windows[w := st'.windows[w]]
    ensures Room(c, st'.windows[w], Unknown(st', m, tenant, route, os[1..], w), st.heldSamples >= c.maxSamples)
       <==> Room(c, st.windows[w], Unknown(st, m, tenant, route, os, w), st.heldSamples >= c.maxSamples)
  {
    var id, full := os[0].id, st.heldSamples >= c.maxSamples;
    var learnt := if Decide(c, st.windows[w], id, full).KeptNow? then {id} else {};
    DecisionEffect(c, st, d, m, w, os[0], st', d', learnt);
    hide PlanOnWindow, ValidRefs, Room, SamePlaces;
    UnknownAfter(st, st', m, tenant, route, os[1..], w, learnt);
    RoomAfter(c, st.windows[w], st'.windows[w], Unknown(st, m, tenant, route, os, w),
              Unknown(st', m, tenant, route, os[1..], w), learnt, full);
  }

  /** One unknown id less, and one admitted more. */
  lemma RoomAfter(c: Config, a: Window, b: Window, all: set<string>, left: set<string>, learnt: set<string>, full: bool)
    requires b.admitted == a.admitted + |learnt| && b.holdsSlot == a.holdsSlot
    requires learnt == {} ==> left == all || (!a.holdsSlot && full)
    requires learnt != {} ==> learnt <= all && left == all - learnt && |learnt| == 1 && a.admitted < c.after
    ensures Room(c, b, left, full) <==> Room(c, a, all, full)
  {
    if learnt != {} { assert all == left + learnt && |all| == |left| + 1; }
  }

  lemma FoldingLacksRoom(c: Config, st: State, m: nat, tenant: Tenant, route: string, os: seq<Occurrence>, w: nat)
    requires ValidRefs(st) && m < |st.minutes| && os != [] && Lookup(st, m, tenant, route, os[0]) == Some(w)
    requires w < |st.windows| && Decide(c, st.windows[w], os[0].id, st.heldSamples >= c.maxSamples).FoldedNow?
    ensures !Room(c, st.windows[w], Unknown(st, m, tenant, route, os, w), st.heldSamples >= c.maxSamples)
  {
    var all := Unknown(st, m, tenant, route, os, w);
    assert os[0].id in all;
    assert |all| >= 1 by { assert all == (all - {os[0].id}) + {os[0].id}; }
  }

  lemma FoldsGrowOne(c: Config, st: State, d: Plan, m: nat, tenant: Tenant, route: string, o: Occurrence)
    requires ValidRefs(st) && m < |st.minutes|
    ensures |PlanOne(c, st, d, m, tenant, route, o).1.folds| >= |d.folds|
  {}

  lemma {:induction false} FoldsGrow(c: Config, st: State, d: Plan, m: nat, tenant: Tenant, route: string, os: seq<Occurrence>)
    requires ValidRefs(st) && m < |st.minutes| && ValidPlan(st, d)
    ensures |PlanAll(c, st, d, m, tenant, route, os).1.folds| >= |d.folds|
    decreases |os|
  {
    if os != [] {
      PlanOneRefs(c, st, d, m, tenant, route, os[0]);
      FoldsGrowOne(c, st, d, m, tenant, route, os[0]);
      hide ValidRefs, ValidPlan, PlanOne;
      var (st1, d1) := PlanOne(c, st, d, m, tenant, route, os[0]);
      FoldsGrow(c, st1, d1, m, tenant, route, os[1..]);
    }
  }

  lemma RoomStays(c: Config, st: State, d: Plan, m: nat, tenant: Tenant, route: string, os: seq<Occurrence>, w: nat,
                  st': State, d': Plan)
    requires ValidRefs(st) && m < |st.minutes| && os != [] && Lookup(st, m, tenant, route, os[0]) == Some(w)
    requires w < |st.windows| && (st', d') == PlanOnWindow(c, st, d, w, st.minutes[m].minute, os[0])
    requires ValidRefs(st') && m < |st'.minutes|
    requires !Decide(c, st.windows[w], os[0].id, st.heldSamples >= c.maxSamples).FoldedNow?
    ensures d'.folds == d.folds && SamePlaces(st, st', m)
    ensures AllRoom(c, st', m, tenant, route, os[1..]) <==> AllRoom(c, st, m, tenant, route, os)
  {
    DecisionKeepsRoom(c, st, d, m, tenant, route, os, w, st', d');
    hide Room, ValidRefs, PlanOnWindow;
    forall v: nat | v < |st.windows|
      ensures Room(c, st'.windows[v], Unknown(st', m, tenant, route, os[1..], v), st'.heldSamples >= c.maxSamples)
         <==> Room(c, st.windows[v], Unknown(st, m, tenant, route, os, v), st.heldSamples >= c.maxSamples)
    {
      if v != w { Elsewhere(c, st, st', m, tenant, route, os, v, w); }
    }
  }

  /** Planning occurrences whose windows exist folds nothing exactly when each window has room for its unknown ids. */
  lemma {:induction false} FoldsNothingExactly(
      c: Config, st: State, d: Plan, m: nat, tenant: Tenant, route: string, os: seq<Occurrence>)
    requires ValidRefs(st) && m < |st.minutes| && ValidPlan(st, d) && Placed(st, m, tenant, route, os)
    ensures PlanAll(c, st, d, m, tenant, route, os).1.folds == d.folds <==> AllRoom(c, st, m, tenant, route, os)
    decreases |os|
  {
    if os != [] {
      var w := Lookup(st, m, tenant, route, os[0]).value;
      PlanOneRefs(c, st, d, m, tenant, route, os[0]);
      var (st1, d1) := PlanOne(c, st, d, m, tenant, route, os[0]);
      assert (st1, d1) == PlanOnWindow(c, st, d, w, st.minutes[m].minute, os[0]);
      hide PlanOne, PlanOnWindow, ValidRefs, ValidPlan, Room;
      if Decide(c, st.windows[w], os[0].id, st.heldSamples >= c.maxSamples).FoldedNow? {
        FoldMakesLonger(c, st, d, w, st.minutes[m].minute, os[0]);
        FoldingLacksRoom(c, st, m, tenant, route, os, w);
        FoldsGrow(c, st1, d1, m, tenant, route, os[1..]);
      } else {
        RoomStays(c, st, d, m, tenant, route, os, w, st1, d1);
        PlacedRest(st, st1, m, tenant, route, os);
        FoldsNothingExactly(c, st1, d1, m, tenant, route, os[1..]);
      }
    }
  }

  lemma FoldMakesLonger(c: Config, st: State, d: Plan, w: nat, minute: int, o: Occurrence)
    requires w < |st.windows| && Decide(c, st.windows[w], o.id, st.heldSamples >= c.maxSamples).FoldedNow?
    ensures |PlanOnWindow(c, st, d, w, minute, o).1.folds| == |d.folds| + 1
  {}

  lemma PlacedRest(st: State, st': State, m: nat, tenant: Tenant, route: string, os: seq<Occurrence>)
    requires ValidRefs(st) && ValidRefs(st') && SamePlaces(st, st', m) && os != [] && Placed(st, m, tenant, route, os)
    ensures Placed(st', m, tenant, route, os[1..])
  {
    forall i | 0 <= i < |os[1..]| ensures Lookup(st', m, tenant, route, os[1..][i]).Some? {
      SameLookup(st, st', m, tenant, route, os[i + 1]);
    }
  }
}
