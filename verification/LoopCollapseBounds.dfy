/** The bounds of loop collapse are reached before anything passes through, and where a request's folds are reserved. */
module LoopCollapseBounds {
  import opened Wrappers
  import opened LoopCollapseModel
  import opened LoopCollapseProofs
  import opened LoopCollapseReplan
  import opened LoopCollapseTheorems
  import opened LoopCollapseIds
  import opened LoopCollapseResend
  import opened LoopCollapsePlanExact

  // ---------- one decision ----------

  /** A bound of the minute at entry `m` is reached: its windows, or the samples held for all minutes. */
  predicate Full(c: Config, st: State, m: nat)
    requires m < |st.minutes|
  {
    |st.minutes[m].refs| >= c.maxWindows || st.heldSamples >= c.maxSamples
  }

  /** What planning does to the counters: nothing passes through before a bound is reached. */
  ghost predicate Passes(c: Config, st: State, st': State, m: nat) {
    && m < |st.minutes| && m < |st'.minutes|
    && st.overflow <= st'.overflow && (st.overflow < st'.overflow ==> Full(c, st', m))
    && st.heldSamples <= st'.heldSamples && |st.minutes[m].refs| <= |st'.minutes[m].refs|
    && |st'.minutes[m].refs| <= (if |st.minutes[m].refs| <= c.maxWindows then c.maxWindows else |st.minutes[m].refs|)
  }

  lemma PassesOne(c: Config, st: State, d: Plan, m: nat, tenant: Tenant, route: string, o: Occurrence)
    requires ValidRefs(st) && m < |st.minutes|
    ensures Passes(c, st, PlanOne(c, st, d, m, tenant, route, o).0, m)
  {}

  lemma {:induction false} PassesAll(c: Config, st: State, d: Plan, m: nat, tenant: Tenant, route: string, os: seq<Occurrence>)
    requires ValidRefs(st) && m < |st.minutes| && ValidPlan(st, d)
    ensures Passes(c, st, PlanAll(c, st, d, m, tenant, route, os).0, m)
    decreases |os|
  {
    hide PlanOne, ValidRefs, ValidPlan;
    if os != [] {
      PlanOneRefs(c, st, d, m, tenant, route, os[0]);
      PassesOne(c, st, d, m, tenant, route, os[0]);
      var (st1, d1) := PlanOne(c, st, d, m, tenant, route, os[0]);
      PassesAll(c, st1, d1, m, tenant, route, os[1..]);
    }
  }

  // ---------- what passes through ----------

  /** The occurrence is not recognised and, for the rest of the request, will not be. */
  predicate Shut(c: Config, st: State, m: nat, tenant: Tenant, route: string, o: Occurrence)
    requires ValidRefs(st) && m < |st.minutes|
  {
    var w := Lookup(st, m, tenant, route, o);
    if w.None? then |st.minutes[m].refs| >= c.maxWindows
    else ShutOut(c, st.windows[w.value], o.id)
  }

  predicate ShutOut(c: Config, win: Window, id: string) {
    id !in win.kept && (win.admitted >= c.after || (win.foldedIds.Some? && id in win.foldedIds.value))
  }

  lemma ShutOn(c: Config, st: State, d: Plan, m: nat, w: nat, o: Occurrence, id: string)
    requires w < |st.windows| && m < |st.minutes|
    ensures var st' := PlanOnWindow(c, st, d, w, st.minutes[m].minute, o).0;
            && |st'.windows| == |st.windows| && st'.minutes == st.minutes
            && (forall v | 0 <= v < |st.windows| :: st'.windows[v].key == st.windows[v].key)
            && (forall v | 0 <= v < |st.windows| && ShutOut(c, st.windows[v], id) :: ShutOut(c, st'.windows[v], id))
  {}

  lemma ShutStays(c: Config, st: State, d: Plan, m: nat, tenant: Tenant, route: string, o: Occurrence, p: Occurrence, st': State)
    requires ValidRefs(st) && m < |st.minutes| && Shut(c, st, m, tenant, route, p)
    requires st' == PlanOne(c, st, d, m, tenant, route, o).0 && ValidRefs(st') && m < |st'.minutes|
    ensures Shut(c, st', m, tenant, route, p)
  {
    var found := Lookup(st, m, tenant, route, o);
    if found.Some? {
      ShutOn(c, st, d, m, found.value, o, p.id);
    } else if |st.minutes[m].refs| < c.maxWindows {
      ShutOn(c, AddWindow(st, m, Key(tenant, route, o.identity)), d, m, |st.windows|, o, p.id);
    }
    FindStays(st.windows, st'.windows, st.minutes[m].refs, st'.minutes[m].refs, Key(tenant, route, p.identity));
  }

  lemma {:induction false} ShutStaysAll(c: Config, st: State, d: Plan, m: nat, tenant: Tenant, route: string,
                                        os: seq<Occurrence>, p: Occurrence, st': State)
    requires ValidRefs(st) && m < |st.minutes| && ValidPlan(st, d) && Shut(c, st, m, tenant, route, p)
    requires st' == PlanAll(c, st, d, m, tenant, route, os).0 && ValidRefs(st') && m < |st'.minutes|
    ensures Shut(c, st', m, tenant, route, p)
    decreases |os|
  {
    hide PlanOne, ValidRefs, ValidPlan, Shut;
    if os != [] {
      PlanOneRefs(c, st, d, m, tenant, route, os[0]);
      var (st1, d1) := PlanOne(c, st, d, m, tenant, route, os[0]);
      ShutStays(c, st, d, m, tenant, route, os[0], p, st1);
      ShutStaysAll(c, st1, d1, m, tenant, route, os[1..], p, st');
    }
  }

  /** The id was folded on window `w` before the request, or by one of its folds so far. */
  ghost predicate FoldedBefore(start: State, folds: seq<Fold>, w: nat, id: string) {
    || (w < |start.windows| && start.windows[w].foldedIds.Some? && id in start.windows[w].foldedIds.value)
    || exists f <- folds :: f.window == w && f.occurrence.id == id
  }

  /** A window remembers as folded nothing else. */
  ghost predicate Traced(start: State, st: State, d: Plan) {
    forall w, id | 0 <= w < |st.windows| && st.windows[w].foldedIds.Some? && id in st.windows[w].foldedIds.value ::
      FoldedBefore(start, d.folds, w, id)
  }

  lemma TracedOn(c: Config, start: State, st: State, d: Plan, w: nat, minute: int, o: Occurrence)
    requires w < |st.windows| && Traced(start, st, d)
    ensures var (st', d') := PlanOnWindow(c, st, d, w, minute, o); Traced(start, st', d')
  {
    var (st', d') := PlanOnWindow(c, st, d, w, minute, o);
    forall v, id | 0 <= v < |st'.windows| && st'.windows[v].foldedIds.Some? && id in st'.windows[v].foldedIds.value
      ensures FoldedBefore(start, d'.folds, v, id)
    {
      if st.windows[v].foldedIds.Some? && id in st.windows[v].foldedIds.value {
        assert FoldedBefore(start, d.folds, v, id);
        assert forall f <- d.folds :: f in d'.folds;
      } else {
        assert Fold(w, o) in d'.folds;
      }
    }
  }

  lemma TracedOne(c: Config, start: State, st: State, d: Plan, m: nat, tenant: Tenant, route: string, o: Occurrence)
    requires ValidRefs(st) && m < |st.minutes| && Traced(start, st, d)
    ensures var (st', d') := PlanOne(c, st, d, m, tenant, route, o); Traced(start, st', d')
  {
    var found := Lookup(st, m, tenant, route, o);
    if found.Some? {
      TracedOn(c, start, st, d, found.value, st.minutes[m].minute, o);
    } else if |st.minutes[m].refs| < c.maxWindows {
      TracedOn(c, start, AddWindow(st, m, Key(tenant, route, o.identity)), d, |st.windows|, st.minutes[m].minute, o);
    }
  }

  /** One decision: the occurrence is kept from now on, passes through, is folded on its window, or is repeated. */
  ghost predicate Placed(c: Config, st: State, st': State, d: Plan, d': Plan, m: nat, tenant: Tenant, route: string, o: Occurrence)
    requires ValidRefs(st') && m < |st'.minutes|
  {
    var w, known := Lookup(st', m, tenant, route, o), KnownKept(st', m, tenant, route, o);
    var passed := st'.overflow - st.overflow;
    && (passed == 0 || (passed == 1 && !known))
    && (known || Shut(c, st', m, tenant, route, o))
    && if known || passed == 1 then d'.kept == d.kept + [o] && d'.folds == d.folds && d'.repeated == d.repeated
       else
         && d'.kept == d.kept
         && if d'.repeated == d.repeated then w.Some? && d'.folds == d.folds + [Fold(w.value, o)]
            else
              && d'.repeated == d.repeated + 1 && d'.folds == d.folds
              && w.Some? && w.value < |st.windows| && st.windows[w.value].foldedIds.Some?
              && o.id in st.windows[w.value].foldedIds.value
  }

  lemma PlacedOn(c: Config, st: State, d: Plan, m: nat, w: nat, tenant: Tenant, route: string, o: Occurrence, st': State, d': Plan)
    requires ValidRefs(st) && m < |st.minutes| && ValidRefs(st') && m < |st'.minutes|
    requires Lookup(st, m, tenant, route, o) == Some(w) && w < |st.windows|
    requires (st', d') == PlanOnWindow(c, st, d, w, st.minutes[m].minute, o)
    ensures Placed(c, st, st', d, d', m, tenant, route, o)
  {
    FindStays(st.windows, st'.windows, st.minutes[m].refs, st'.minutes[m].refs, Key(tenant, route, o.identity));
  }

  lemma PlacedOne(c: Config, st: State, d: Plan, m: nat, tenant: Tenant, route: string, o: Occurrence, st': State, d': Plan)
    requires ValidRefs(st) && m < |st.minutes| && ValidPlan(st, d) && ValidRefs(st') && m < |st'.minutes|
    requires (st', d') == PlanOne(c, st, d, m, tenant, route, o)
    ensures Placed(c, st, st', d, d', m, tenant, route, o)
  {
    var found := Lookup(st, m, tenant, route, o);
    if found.Some? {
      PlacedOn(c, st, d, m, found.value, tenant, route, o, st', d');
    } else if |st.minutes[m].refs| < c.maxWindows {
      var key := Key(tenant, route, o.identity);
      NewWindowRefs(st, d, m, key);
      FindNew(st.windows, NewWindow(key, st.minutes[m].minute), st.minutes[m].refs, key);
      PlacedOn(c, AddWindow(st, m, key), d, m, |st.windows|, tenant, route, o, st', d');
    } else {
      FindStays(st.windows, st'.windows, st.minutes[m].refs, st'.minutes[m].refs, Key(tenant, route, o.identity));
    }
  }

  // ---------- the whole request ----------

  /**
   * The request's occurrences, in order, dealt out to what it stores now and to its folds; a fold is reserved on its
   * occurrence's window, and an id that is kept is never among the folds. What is left out is an id folded before.
   */
  ghost predicate Dealt(start: State, before: seq<Fold>, st: State, m: nat, tenant: Tenant, route: string,
                        os: seq<Occurrence>, kept: seq<Occurrence>, folds: seq<Fold>)
    requires ValidRefs(st) && m < |st.minutes|
    decreases |os|
  {
    if os == [] then kept == [] && folds == []
    else
      var w := Lookup(st, m, tenant, route, os[0]);
      || (kept != [] && kept[0] == os[0] && Dealt(start, before, st, m, tenant, route, os[1..], kept[1..], folds))
      || (!KnownKept(st, m, tenant, route, os[0]) && w.Some?
          && ((folds != [] && folds[0] == Fold(w.value, os[0])
               && Dealt(start, before + [folds[0]], st, m, tenant, route, os[1..], kept, folds[1..]))
              || (FoldedBefore(start, before, w.value, os[0].id)
                  && Dealt(start, before, st, m, tenant, route, os[1..], kept, folds))))
  }

  /** What was decided on one occurrence still holds at the end of the request. */
  lemma PlacedStays(c: Config, st: State, d: Plan, m: nat, tenant: Tenant, route: string, os: seq<Occurrence>,
                    o: Occurrence, st': State)
    requires ValidRefs(st) && m < |st.minutes| && ValidPlan(st, d)
    requires st' == PlanAll(c, st, d, m, tenant, route, os).0 && ValidRefs(st') && m < |st'.minutes|
    requires KnownKept(st, m, tenant, route, o) || Shut(c, st, m, tenant, route, o)
    ensures KnownKept(st', m, tenant, route, o) == KnownKept(st, m, tenant, route, o)
    ensures Lookup(st, m, tenant, route, o).Some? ==>
              Lookup(st', m, tenant, route, o) == Lookup(st, m, tenant, route, o)
  {
    PlanAllRemembers(c, st, d, m, tenant, route, os);
    FindStays(st.windows, st'.windows, st.minutes[m].refs, st'.minutes[m].refs, Key(tenant, route, o.identity));
    if Shut(c, st, m, tenant, route, o) { ShutStaysAll(c, st, d, m, tenant, route, os, o, st'); }
  }

  /** `os` was planned from `d` to `d'`. */
  ghost predicate Planned(c: Config, start: State, st: State, st': State, d: Plan, d': Plan, m: nat, tenant: Tenant, route: string,
                          os: seq<Occurrence>)
    requires ValidRefs(st') && m < |st'.minutes|
  {
    && d.kept <= d'.kept && d.folds <= d'.folds
    && Dealt(start, d.folds, st', m, tenant, route, os, d'.kept[|d.kept|..], d'.folds[|d.folds|..])
    && |d'.kept| - |d.kept| == st'.overflow - st.overflow + |KeptPart(st', m, tenant, route, os)|
  }

  lemma {:induction false} PlannedAll(c: Config, start: State, st: State, d: Plan, m: nat, tenant: Tenant, route: string,
                                      os: seq<Occurrence>, st': State, d': Plan)
    requires Traced(start, st, d)
    requires ValidRefs(st) && m < |st.minutes| && ValidPlan(st, d)
    requires (st', d') == PlanAll(c, st, d, m, tenant, route, os) && ValidRefs(st') && m < |st'.minutes|
    ensures Planned(c, start, st, st', d, d', m, tenant, route, os)
    decreases |os|
  {
    if os != [] {
      PlanOneRefs(c, st, d, m, tenant, route, os[0]);
      var (st1, d1) := PlanOne(c, st, d, m, tenant, route, os[0]);
      PlacedOne(c, st, d, m, tenant, route, os[0], st1, d1);
      TracedOne(c, start, st, d, m, tenant, route, os[0]);
      hide PlanOne, ValidRefs, ValidPlan, Shut;
      PlannedAll(c, start, st1, d1, m, tenant, route, os[1..], st', d');
      PlacedStays(c, st1, d1, m, tenant, route, os[1..], os[0], st');
      PlannedHead(c, start, st, st1, st', d, d1, d', m, tenant, route, os);
    }
  }

  lemma PlannedHead(c: Config, start: State, st: State, st1: State, st': State, d: Plan, d1: Plan, d': Plan, m: nat, tenant: Tenant,
                    route: string, os: seq<Occurrence>)
    requires ValidRefs(st1) && m < |st1.minutes| && ValidRefs(st') && m < |st'.minutes| && os != []
    requires Placed(c, st, st1, d, d1, m, tenant, route, os[0])
    requires KnownKept(st', m, tenant, route, os[0]) == KnownKept(st1, m, tenant, route, os[0])
    requires Lookup(st1, m, tenant, route, os[0]).Some? ==>
               Lookup(st', m, tenant, route, os[0]) == Lookup(st1, m, tenant, route, os[0])
    requires Traced(start, st, d) && Planned(c, start, st1, st', d1, d', m, tenant, route, os[1..])
    ensures Planned(c, start, st, st', d, d', m, tenant, route, os)
  {
    hide ValidRefs, KnownKept, Shut, Lookup;
    var ks, fs := d'.kept[|d.kept|..], d'.folds[|d.folds|..];
    if d1.kept != d.kept { assert ks[0] == os[0] && ks[1..] == d'.kept[|d1.kept|..]; }
    if d1.folds != d.folds { assert fs[0] == d1.folds[|d.folds|] && fs[1..] == d'.folds[|d1.folds|..]; }
  }

  // ---------- the budget of remembered ids ----------

  /** The folds whose window still remembers its folded ids. */
  function Remembered(st: State, folds: seq<Fold>): nat {
    if folds == [] then 0
    else
      var f := folds[|folds| - 1];
      Remembered(st, folds[..|folds| - 1]) + if f.window < |st.windows| && st.windows[f.window].foldedIds.Some? then 1 else 0
  }

  /** Each remembered fold uses one of the minute's ids, and a window forgets only when all are used up. */
  ghost predicate Spends(c: Config, minute: int, st: State, d: Plan, st': State, d': Plan) {
    var used, used' := Tracked(st.trackedIds, minute), Tracked(st'.trackedIds, minute);
    && used <= used' <= used + |d'.folds| - |d.folds|
    && (used <= c.maxTrackedIds ==> used' <= c.maxTrackedIds)
    && used' - used >= Remembered(st', d'.folds) - Remembered(st', d.folds)
    && (forall other | other != minute :: Tracked(st'.trackedIds, other) == Tracked(st.trackedIds, other))
    && |st.windows| <= |st'.windows|
    && (forall w | 0 <= w < |st.windows| && st'.windows[w].foldedIds.Some? :: st.windows[w].foldedIds.Some?)
    && (forall w | 0 <= w < |st.windows| && st.windows[w].foldedIds.Some? && st'.windows[w].foldedIds.None? ::
          used' >= c.maxTrackedIds)
    && (forall w | |st.windows| <= w < |st'.windows| && st'.windows[w].foldedIds.None? :: used' >= c.maxTrackedIds)
  }

  lemma SpendsOn(c: Config, st: State, d: Plan, w: nat, minute: int, o: Occurrence)
    requires w < |st.windows|
    ensures var (st', d') := PlanOnWindow(c, st, d, w, minute, o); Spends(c, minute, st, d, st', d')
  {
    var (st', d') := PlanOnWindow(c, st, d, w, minute, o);
    if d'.folds != d.folds { assert d'.folds[..|d.folds|] == d.folds; }
  }

  lemma SpendsOne(c: Config, st: State, d: Plan, m: nat, tenant: Tenant, route: string, o: Occurrence, st': State, d': Plan)
    requires ValidRefs(st) && m < |st.minutes| && (st', d') == PlanOne(c, st, d, m, tenant, route, o)
    ensures Spends(c, st.minutes[m].minute, st, d, st', d') && m < |st'.minutes|
    ensures st'.minutes[m].minute == st.minutes[m].minute
  {
    var found := Lookup(st, m, tenant, route, o);
    if found.Some? {
      SpendsOn(c, st, d, found.value, st.minutes[m].minute, o);
    } else if |st.minutes[m].refs| < c.maxWindows {
      SpendsOn(c, AddWindow(st, m, Key(tenant, route, o.identity)), d, |st.windows|, st.minutes[m].minute, o);
    }
  }

  lemma FoldsAdded(c: Config, st: State, d: Plan, m: nat, tenant: Tenant, route: string, o: Occurrence)
    requires ValidRefs(st) && m < |st.minutes|
    ensures d.folds <= PlanOne(c, st, d, m, tenant, route, o).1.folds
  {}

  /** A later state remembers no more. */
  lemma {:induction false} RememberedFewer(st: State, st': State, a: seq<Fold>, b: seq<Fold>)
    requires a <= b && |st.windows| <= |st'.windows| && forall f <- b :: f.window < |st.windows|
    requires forall w | 0 <= w < |st.windows| && st'.windows[w].foldedIds.Some? :: st.windows[w].foldedIds.Some?
    ensures 0 <= Remembered(st', b) - Remembered(st', a) <= Remembered(st, b) - Remembered(st, a)
    decreases |b|
  {
    if |a| < |b| {
      var f := b[|b| - 1];
      assert f in b && a <= b[..|b| - 1] && forall g <- b[..|b| - 1] :: g in b;
      RememberedFewer(st, st', a, b[..|b| - 1]);
    } else {
      assert a == b;
    }
  }

  lemma {:induction false} SpendsAll(c: Config, st: State, d: Plan, m: nat, tenant: Tenant, route: string,
                                     os: seq<Occurrence>, st': State, d': Plan)
    requires ValidRefs(st) && m < |st.minutes| && ValidPlan(st, d)
    requires (st', d') == PlanAll(c, st, d, m, tenant, route, os)
    ensures Spends(c, st.minutes[m].minute, st, d, st', d') && d.folds <= d'.folds
    decreases |os|
  {
    if os != [] {
      PlanOneRefs(c, st, d, m, tenant, route, os[0]);
      var (st1, d1) := PlanOne(c, st, d, m, tenant, route, os[0]);
      SpendsOne(c, st, d, m, tenant, route, os[0], st1, d1);
      FoldsAdded(c, st, d, m, tenant, route, os[0]);
      hide PlanOne, ValidRefs, Spends;
      assert forall f <- d1.folds :: f.window < |st1.windows|;
      hide ValidPlan;
      SpendsAll(c, st1, d1, m, tenant, route, os[1..], st', d');
      SpendsTwice(c, st.minutes[m].minute, st, d, st1, d1, st', d');
    }
  }

  lemma SpendsTwice(c: Config, minute: int, st: State, d: Plan, st1: State, d1: Plan, st': State, d': Plan)
    requires Spends(c, minute, st, d, st1, d1) && Spends(c, minute, st1, d1, st', d')
    requires d.folds <= d1.folds && forall f <- d1.folds :: f.window < |st1.windows|
    ensures Spends(c, minute, st, d, st', d')
  {
    RememberedFewer(st1, st', d.folds, d1.folds);
  }

  // ---------- main results ----------

  /**
   * A request's plan, in every state a run can reach. Its occurrences are dealt out in order: kept now, folded on their
   * own window, or folded before. What is kept without being admitted passed through, is counted, and did so because a
   * bound is reached.
   */
  lemma PlanDealsExactly(c: Config, st: State, tenant: Tenant, route: string, os: seq<Occurrence>, st': State, m: nat)
    requires Good(c, st) && c.after > 0 && os != [] && st' == PlanBatch(c, st, tenant, route, os)
    requires m == IndexOfMinute(st'.minutes, MinuteOf(st.now))
    ensures ValidRefs(st') && m < |st'.minutes| && |st'.plans| == |st.plans| + 1
    ensures var d := st'.plans[|st.plans|];
            && Dealt(st, [], st', m, tenant, route, os, d.kept, d.folds)
            && |d.kept| == |KeptPart(st', m, tenant, route, os)| + (st'.overflow - st.overflow)
    ensures st'.overflow > st.overflow ==> |st'.minutes[m].refs| >= c.maxWindows || st'.heldSamples >= c.maxSamples
  {
    hide PlanAll, PlanOne;
    var (st0, m0) := OpenMinute(st);
    var (st1, d) := PlanAll(c, st0, EMPTY_PLAN, m0, tenant, route, os);
    StepGood(c, st, PlanRequest(tenant, route, os), st');
    PlannedEntry(c, st, tenant, route, os);
    PlanAllRefs(c, st0, EMPTY_PLAN, m0, tenant, route, os);
    PlanAllRows(c, st0, EMPTY_PLAN, m0, tenant, route, os);
    assert Traced(st, st0, EMPTY_PLAN);
    PlannedAll(c, st, st0, EMPTY_PLAN, m0, tenant, route, os, st1, d);
    PassesAll(c, st0, EMPTY_PLAN, m0, tenant, route, os);
    hide Good;
    DealtSame(st, [], st1, st', m, tenant, route, os, d.kept, d.folds);
    KeptPartSame(st1, st', m, tenant, route, os);
  }

  lemma {:induction false} DealtSame(start: State, before: seq<Fold>, st: State, st': State, m: nat, tenant: Tenant,
                                     route: string, os: seq<Occurrence>, kept: seq<Occurrence>, folds: seq<Fold>)
    requires ValidRefs(st) && ValidRefs(st') && m < |st.minutes| && st'.minutes == st.minutes && st'.windows == st.windows
    requires Dealt(start, before, st, m, tenant, route, os, kept, folds)
    ensures Dealt(start, before, st', m, tenant, route, os, kept, folds)
    decreases |os|
  {
    hide ValidRefs;
    if os != [] {
      if kept != [] && Dealt(start, before, st, m, tenant, route, os[1..], kept[1..], folds) {
        DealtSame(start, before, st, st', m, tenant, route, os[1..], kept[1..], folds);
      }
      if folds != [] && Dealt(start, before + [folds[0]], st, m, tenant, route, os[1..], kept, folds[1..]) {
        DealtSame(start, before + [folds[0]], st, st', m, tenant, route, os[1..], kept, folds[1..]);
      }
      if Dealt(start, before, st, m, tenant, route, os[1..], kept, folds) {
        DealtSame(start, before, st, st', m, tenant, route, os[1..], kept, folds);
      }
    }
  }

  /** The request's folds use up the minute's ids one by one; only when they are used up does a window forget its ids. */
  lemma IdsAreSpent(c: Config, st: State, tenant: Tenant, route: string, os: seq<Occurrence>, st': State)
    requires Good(c, st) && c.after > 0 && os != [] && st' == PlanBatch(c, st, tenant, route, os)
    ensures |st'.plans| == |st.plans| + 1
    ensures Spends(c, st.now / 60_000, st, EMPTY_PLAN, st', st'.plans[|st.plans|])
  {
    var (st0, m0) := OpenMinute(st);
    var (st1, d) := PlanAll(c, st0, EMPTY_PLAN, m0, tenant, route, os);
    PlanAllRows(c, st0, EMPTY_PLAN, m0, tenant, route, os);
    SpendsAll(c, st0, EMPTY_PLAN, m0, tenant, route, os, st1, d);
    RememberedSame(st1, st', d.folds);
  }

  lemma {:induction false} RememberedSame(st: State, st': State, folds: seq<Fold>)
    requires st'.windows == st.windows
    ensures Remembered(st', folds) == Remembered(st, folds)
    decreases |folds|
  {
    if folds != [] { RememberedSame(st, st', folds[..|folds| - 1]); }
  }

  /**
   * While no bound is reached, the window of each identity keeps the first ids new to it, as many as it may still admit,
   * and folds the others.
   */
  lemma FirstAreKept(c: Config, st: State, tenant: Tenant, route: string, os: seq<Occurrence>, identity: string, st': State)
    requires Good(c, st) && c.after > 0 && os != [] && st' == PlanBatch(c, st, tenant, route, os)
    requires ValidRefs(st') && st'.overflow == st.overflow
    requires var w := WindowFor(st', tenant, route, Of(identity)); w.Some? ==> st'.windows[w.value].foldedIds.Some?
    ensures var a, b := WindowFor(st, tenant, route, Of(identity)), WindowFor(st', tenant, route, Of(identity));
            FirstKept(c.after, os, identity, if a.Some? then KnowledgeOf(st.windows[a.value]) else NOTHING,
                      if b.Some? then KnowledgeOf(st'.windows[b.value]) else NOTHING)
  {
    var (st0, m) := OpenMinute(st);
    var (st1, d) := PlanAll(c, st0, EMPTY_PLAN, m, tenant, route, os);
    PlannedEntry(c, st, tenant, route, os);
    PlanAllRefs(c, st0, EMPTY_PLAN, m, tenant, route, os);
    PlanAllRows(c, st0, EMPTY_PLAN, m, tenant, route, os);
    assert OpenMinuteGood: Inv(c, st0, EMPTY_PLAN) by { OpenMinuteInv(c, st); }
    FindStays(st1.windows, st'.windows, st1.minutes[m].refs, st'.minutes[m].refs, Key(tenant, route, identity));
    assert Tracking(st1, m, tenant, route, identity);
    StartKnown(c, st, st0, m, tenant, route, identity);
    FirstEntry(st0.minutes, m, MinuteOf(st.now));
    BatchFirstKept(c, st0, EMPTY_PLAN, m, tenant, route, os, identity, st1);
  }

  lemma StartKnown(c: Config, st: State, st0: State, m: nat, tenant: Tenant, route: string, identity: string)
    requires Good(c, st) && ValidRefs(st0) && OpenMinute(st) == (st0, m)
    ensures var a := WindowFor(st, tenant, route, Of(identity));
            KnownAt(st0, m, tenant, route, identity) == (if a.Some? then KnowledgeOf(st.windows[a.value]) else NOTHING)
    ensures KnownAt(st0, m, tenant, route, identity).kept !! KnownAt(st0, m, tenant, route, identity).folded
  {
    var w := Lookup(st0, m, tenant, route, Of(identity));
    if w.Some? { assert WindowOk(c, st.plans, EMPTY_PLAN, w.value, st.windows[w.value]); }
  }
}
