/** What loop collapse guarantees over every run. */
module LoopCollapseTheorems {
  import opened Wrappers
  import opened LoopCollapseModel
  import opened LoopCollapseSums
  import opened LoopCollapseProofs
  import opened LoopCollapseFlushProofs

  /** Between steps: the invariant, and the statistics counter counts the committed folds. */
  ghost predicate Good(c: Config, st: State) {
    Inv(c, st, EMPTY_PLAN) && st.folded == |st.log|
  }

  /** Time passing keeps the invariant: a past minute may hold flushed windows. */
  lemma TickInv(c: Config, st: State, ms: nat)
    requires Inv(c, st, EMPTY_PLAN)
    ensures Inv(c, st.(now := st.now + ms), EMPTY_PLAN)
  {
    var st' := st.(now := st.now + ms);
    RefsKept(st, st', EMPTY_PLAN);
    SameSums(c, st, st');
    MinuteMonotone(st.now, st'.now);
    forall m | 0 <= m < |st'.minutes| ensures RowOk(st', st'.minutes[m]) {
      assert RowOk(st, st.minutes[m]);
    }
    forall w | 0 <= w < |st'.windows|
      ensures LateOk(st', w) && SlotOwned(st', w) && (!st'.windows[w].flushed ==> Listed(st', w))
    {
      assert LateOk(st, w) && SlotOwned(st, w);
      assert !st.windows[w].flushed ==> Listed(st, w);
    }
  }

  lemma MinuteMonotone(a: int, b: int)
    requires a <= b
    ensures MinuteOf(a) <= MinuteOf(b)
  {}

  /** Every step keeps the invariant. */
  lemma StepGood(c: Config, st: State, e: Event, st': State)
    requires Good(c, st) && st' == Step(c, st, e)
    ensures Good(c, st')
  {
    hide Inv;
    match e
    case Tick(ms) => TickInv(c, st, ms);
    case PlanRequest(tenant, route, os) => PlanBatchInv(c, st, tenant, route, os);
    case CommitRequest(p) => if p < |st.plans| { CommitInv(c, st, p); }
    case RollbackRequest(p) => if p < |st.plans| { RollbackInv(c, st, p); }
    case StartFlush(all) => CollectInv(c, st, all);
    case StoreOk => StoreInv(c, st, true, st');
    case StoreFail => StoreInv(c, st, false, st');
  }

  lemma InitGood(c: Config, now: int)
    ensures Good(c, Init(now))
  {
    assert forall m :: Weight(multiset{}, m) == 0;
  }

  /** `st` is reached from a fresh collapser by the steps `es`. */
  ghost predicate Reaches(c: Config, now: int, es: seq<Event>, st: State)
    decreases |es|
  {
    if es == [] then st == Init(now)
    else exists before ::
      ValidRefs(before) && Reaches(c, now, es[..|es| - 1], before) && st == Step(c, before, es[|es| - 1])
  }

  lemma {:induction false} RunGood(c: Config, now: int, es: seq<Event>, st: State)
    requires Reaches(c, now, es, st)
    ensures Good(c, st)
    decreases |es|
  {
    if es == [] {
      InitGood(c, now);
    } else {
      var before :| ValidRefs(before) && Reaches(c, now, es[..|es| - 1], before) && st == Step(c, before, es[|es| - 1]);
      RunGood(c, now, es[..|es| - 1], before);
      StepGood(c, before, es[|es| - 1], st);
    }
  }

  // ---------- conservation ----------

  /**
   * In every run, whatever interleaves and whichever writes fail: the folds committed so far are the
   * sum of `folded` over the stored samples, the counts of the windows not flushed yet, of the carried
   * samples and of those being written; and every single occurrence is represented exactly as often as
   * it was committed.
   */
  lemma Conservation(c: Config, now: int, es: seq<Event>, st: State)
    requires Reaches(c, now, es, st)
    ensures ValidDues(st, st.carry) && ValidDues(st, st.writing)
    ensures st.folded == StoredCount(st.stored) + WindowCount(st.windows)
                         + DueCount(st.dues, st.carry) + DueCount(st.dues, st.writing)
    ensures forall o :: st.log[o] == InStored(st.stored, Only(o)) + InWindows(st.windows, Only(o))
                                     + InDues(st.dues, st.carry, Only(o)) + InDues(st.dues, st.writing, Only(o))
  {
    hide WindowsOk, SlotsOk, LiveOk;
    RunGood(c, now, es, st);
    CountersExact(c, st);
    assert Weight(st.log, All) == Represented(st, All);
    forall o ensures st.log[o] == Represented(st, Only(o)) {
      assert Weight(st.log, Only(o)) == Represented(st, Only(o));
    }
  }

  /** The counters of windows, due and stored samples count what they stand for. */
  lemma CountersExact(c: Config, st: State)
    requires ValidRefs(st) && WindowsOk(c, st, EMPTY_PLAN) && DuesOk(st) && StoredOk(st)
    ensures StoredCount(st.stored) == InStored(st.stored, All) && WindowCount(st.windows) == InWindows(st.windows, All)
    ensures DueCount(st.dues, st.carry) == InDues(st.dues, st.carry, All)
    ensures DueCount(st.dues, st.writing) == InDues(st.dues, st.writing, All)
  {
    assert forall w | 0 <= w < |st.windows| :: WindowOk(c, st.plans, EMPTY_PLAN, w, st.windows[w]);
    assert forall i | 0 <= i < |st.carry| :: st.carry[i] in st.carry + st.writing && DueOk(st.dues[st.carry[i]]);
    assert forall i | 0 <= i < |st.writing| :: st.writing[i] in st.carry + st.writing && DueOk(st.dues[st.writing[i]]);
    StoredCounts(st.stored);
    WindowCounts(st.windows);
    DueCounts(st.dues, st.carry);
    DueCounts(st.dues, st.writing);
  }

  /** Every stored sample stands for `1 + collapsedCount` committed folds, of which it is the newest. */
  lemma SamplesExact(c: Config, now: int, es: seq<Event>, st: State, i: nat)
    requires Reaches(c, now, es, st) && i < |st.stored|
    ensures var s := st.stored[i];
            && s.collapsedCount + 1 == s.folded == |s.folds| >= 1
            && s.sample in s.folds && forall o | o in s.folds :: o.occurredAt <= s.sample.occurredAt
  {
    RunGood(c, now, es, st);
  }

  // ---------- accounting ----------

  /** The bounds and counters of every window in every run. */
  lemma Accounting(c: Config, now: int, es: seq<Event>, st: State, w: nat)
    requires Reaches(c, now, es, st) && w < |st.windows|
    ensures st.heldSamples == SlotHolders(st.windows) <= c.maxSamples
    ensures var win := st.windows[w];
            && |win.kept| <= c.after
            && win.reserved == ReservedFolds(st.plans, w, AnyId)
            && win.pending == Touching(st.plans, w)
            && win.admitted == |win.kept| + win.reserved + win.committed
            && (win.foldedIds.Some? ==>
                  win.foldedIds.value !! win.kept && |win.foldedIds.value| == win.reserved + win.committed)
            && (!win.flushed ==> (win.holdsSlot <==> win.count + win.reserved > 0))
  {
    RunGood(c, now, es, st);
    assert WindowOk(c, st.plans, EMPTY_PLAN, w, st.windows[w]);
  }

  /** A flush that is not forced takes only windows of past minutes that no unsettled request holds. */
  lemma FlushWaits(c: Config, now: int, es: seq<Event>, st: State, all: bool, w: nat)
    requires Reaches(c, now, es, st) && w < |st.windows|
    requires ValidRefs(st) && |Collect(c, st, all).windows| == |st.windows|
    requires Collect(c, st, all).windows[w].flushed && !st.windows[w].flushed
    ensures all || st.windows[w].minute < MinuteOf(st.now)
    ensures Forced(c, st, st.windows[w].minute, all) || Touching(st.plans, w) == 0
  {
    RunGood(c, now, es, st);
    CollectInv(c, st, all);
    assert FlushedRightly(c, st, w, all);
    assert WindowOk(c, st.plans, EMPTY_PLAN, w, st.windows[w]);
  }

  // ---------- a collected sample never changes ----------

  /** Nothing can count another fold on the due sample: no window's late folds go there. */
  ghost predicate Frozen(st: State, r: nat) {
    r < |st.dues| && forall w | 0 <= w < |st.windows| :: st.windows[w].late != Some(r)
  }

  ghost predicate KeepsFrozen(st: State, st': State) {
    forall r: nat :: Frozen(st, r) ==> Frozen(st', r) && st'.dues[r] == st.dues[r]
  }

  /** Steps that leave due samples and late links alone keep frozen ones. */
  ghost predicate SameLate(st: State, st': State) {
    && st'.dues == st.dues && |st.windows| <= |st'.windows|
    && (forall w | 0 <= w < |st.windows| :: st'.windows[w].late == st.windows[w].late)
    && (forall w | |st.windows| <= w < |st'.windows| :: st'.windows[w].late.None?)
  }

  lemma PlanOneLate(c: Config, st: State, d: Plan, m: nat, tenant: Tenant, route: string, o: Occurrence)
    requires ValidRefs(st) && m < |st.minutes|
    ensures SameLate(st, PlanOne(c, st, d, m, tenant, route, o).0)
  {}

  lemma {:induction false} PlanAllLate(c: Config, st: State, d: Plan, m: nat, tenant: Tenant, route: string, os: seq<Occurrence>)
    requires ValidRefs(st) && m < |st.minutes| && ValidPlan(st, d)
    ensures SameLate(st, PlanAll(c, st, d, m, tenant, route, os).0)
    decreases |os|
  {
    hide ValidRefs, ValidPlan, PlanOne;
    if os != [] {
      PlanOneRefs(c, st, d, m, tenant, route, os[0]);
      PlanOneLate(c, st, d, m, tenant, route, os[0]);
      var (st1, d1) := PlanOne(c, st, d, m, tenant, route, os[0]);
      PlanAllLate(c, st1, d1, m, tenant, route, os[1..]);
    }
  }

  lemma {:induction false} CommitFoldsFrozen(st: State, folds: seq<Fold>)
    requires ValidRefs(st) && ValidFolds(st, folds)
    ensures KeepsFrozen(st, CommitFolds(st, folds))
    decreases |folds|
  {
    if folds != [] {
      var st1 := CommitOne(st, folds[0]);
      forall r: nat | Frozen(st, r) ensures Frozen(st1, r) && st1.dues[r] == st.dues[r] {
        assert st.windows[folds[0].window].late != Some(r);
      }
      CommitHead(st, folds);
      hide ValidRefs, ValidFolds, Frozen, CommitOne;
      CommitFoldsFrozen(st1, folds[1..]);
    }
  }

  lemma {:induction false} ReleaseHoldsLate(st: State, holds: seq<Hold>)
    requires ValidHolds(st, holds)
    ensures SameLate(st, ReleaseHolds(st, holds))
    decreases |holds|
  {
    if holds != [] {
      var win := st.windows[holds[0].window];
      var st1 := st.(windows := st.windows[holds[0].window :=
        win.(admitted := win.admitted - 1, kept := win.kept - {holds[0].id})]);
      assert SameLate(st, st1);
      ReleaseHoldsLate(st1, holds[1..]);
    }
  }

  lemma {:induction false} RollbackFoldsLate(st: State, folds: seq<Fold>)
    requires ValidFolds(st, folds)
    ensures SameLate(st, RollbackFolds(st, folds))
    decreases |folds|
  {
    if folds != [] {
      assert SameLate(st, RollbackOne(st, folds[0]));
      RollbackFoldsLate(RollbackOne(st, folds[0]), folds[1..]);
    }
  }

  lemma {:induction false} CollectWindowsFrozen(st: State, refs: seq<nat>, forced: bool, open: nat)
    requires ValidWindows(st, refs)
    ensures KeepsFrozen(st, CollectWindows(st, refs, forced, open).0)
    decreases |refs|
  {
    if refs != [] {
      var win := st.windows[refs[0]];
      if win.flushed || (win.pending > 0 && !forced) {
        CollectWindowsFrozen(st, refs[1..], forced, if win.flushed then open else open + 1);
      } else {
        var st1 := FlushWindow(st, refs[0]);
        assert forall w | 0 <= w < |st.windows| :: st1.windows[w].late == st.windows[w].late;
        assert KeepsFrozen(st, st1);
        CollectWindowsFrozen(st1, refs[1..], forced, open);
      }
    }
  }

  lemma {:induction false} CollectMinutesFrozen(c: Config, st: State, m: nat, all: bool)
    requires ValidRefs(st) && m <= |st.minutes|
    ensures KeepsFrozen(st, CollectMinutes(c, st, m, all))
    decreases |st.minutes| - m
  {
    if m < |st.minutes| {
      var (st1, m1) := CollectEntry(c, st, m, all);
      CollectMinutesStep(c, st, m, all);
      if !Waits(st, st.minutes[m], all) {
        CollectWindowsFrozen(st, st.minutes[m].refs, Forced(c, st, st.minutes[m].minute, all), 0);
      }
      assert KeepsFrozen(st, st1);
      CollectMinutesFrozen(c, st1, m1, all);
    }
  }

  lemma {:induction false} StoreManyLate(st: State, n: nat)
    requires ValidRefs(st) && n <= |st.writing|
    ensures SameLate(st, StoreMany(st, n))
    decreases n
  {
    if n > 0 {
      assert SameLate(st, StoreNext(st));
      StoreManyLate(StoreNext(st), n - 1);
    }
  }

  lemma CollectFrozen(c: Config, st: State, all: bool)
    requires Good(c, st)
    ensures KeepsFrozen(st, Collect(c, st, all))
  {
    hide WindowsOk, SlotsOk;
    if st.writing == [] {
      StartCollectEffect(st);
      var st1 := StartCollect(st);
      ResetLateRefs(st.(writing := st.carry, carry := []), st.carry);
      assert KeepsFrozen(st, st1);
      hide Good;
      CollectMinutesFrozen(c, st1, 0, all);
    }
  }

  lemma StepFrozen(c: Config, st: State, e: Event)
    requires Good(c, st)
    ensures KeepsFrozen(st, Step(c, st, e))
  {
    match e
    case Tick(ms) =>
    case PlanRequest(tenant, route, os) => PlanFrozen(c, st, tenant, route, os);
    case CommitRequest(p) => if p < |st.plans| && !st.plans[p].settled { CommitFrozen(st, p); }
    case RollbackRequest(p) => if p < |st.plans| && !st.plans[p].settled { RollbackFrozen(st, p); }
    case StartFlush(all) => CollectFrozen(c, st, all);
    case StoreOk => StoreFrozen(st, true);
    case StoreFail => StoreFrozen(st, false);
  }

  lemma PlanFrozen(c: Config, st: State, tenant: Tenant, route: string, os: seq<Occurrence>)
    requires ValidRefs(st)
    ensures KeepsFrozen(st, PlanBatch(c, st, tenant, route, os))
  {
    if c.after > 0 && os != [] {
      var (st0, m) := OpenMinute(st);
      PlanAllLate(c, st0, EMPTY_PLAN, m, tenant, route, os);
      assert SameLate(st, PlanBatch(c, st, tenant, route, os));
    }
  }

  lemma RollbackFrozen(st: State, p: nat)
    requires ValidRefs(st) && p < |st.plans| && !st.plans[p].settled
    ensures KeepsFrozen(st, Rollback(st, p))
  {
    var st0 := st.(plans := st.plans[p := st.plans[p].(settled := true)]);
    assert ValidPlan(st, st.plans[p]);
    ReleaseHoldsLate(st0, st.plans[p].keptReservations);
    RollbackFoldsLate(ReleaseHolds(st0, st.plans[p].keptReservations), st.plans[p].folds);
    assert SameLate(st, Rollback(st, p));
  }

  lemma CommitFrozen(st: State, p: nat)
    requires ValidRefs(st) && p < |st.plans| && !st.plans[p].settled
    ensures KeepsFrozen(st, Commit(st, p))
  {
    var plan := st.plans[p];
    var st0 := st.(plans := st.plans[p := plan.(settled := true)]);
    assert ValidPlan(st, plan);
    CommitFoldsFrozen(st0, plan.folds);
    CommitFoldsRefs(st0, plan.folds);
    var st1 := CommitFolds(st0, plan.folds);
    var st' := Commit(st, p);
    assert SameLate(st1, st');
    forall r: nat | Frozen(st, r) ensures Frozen(st', r) && st'.dues[r] == st.dues[r] {
      assert Frozen(st0, r);
      assert Frozen(st1, r);
    }
  }

  lemma StoreFrozen(st: State, ok: bool)
    requires ValidRefs(st)
    ensures KeepsFrozen(st, Store(st, ok))
  {
    if st.writing != [] && ok {
      var tenant := st.dues[st.writing[0]].tenant;
      var items := OfTenant(st.dues, st.writing, tenant, true);
      var others := OfTenant(st.dues, st.writing, tenant, false);
      StoreManyLate(st.(writing := items + others, samplesFlushed := st.samplesFlushed + |items|), |items|);
      assert SameLate(st, Store(st, ok));
    }
  }

  /** Whatever runs after a sample was handed to a write, its count and contents never change again. */
  lemma {:induction false} CollectedNeverChanges(c: Config, st: State, es: seq<Event>, r: nat, states: seq<State>)
    requires Good(c, st) && r in st.writing
    requires |states| == |es| + 1 && states[0] == st
    requires forall i | 0 <= i < |es| :: ValidRefs(states[i]) && states[i + 1] == Step(c, states[i], es[i])
    ensures r < |st.dues| && r < |states[|es|].dues| && states[|es|].dues[r] == st.dues[r]
  {
    assert r in st.carry + st.writing;
    CarriedApart(st, r);
    forall w | 0 <= w < |st.windows| ensures st.windows[w].late != Some(r) {
      assert LateOk(st, w);
    }
    FrozenForever(c, st, es, r, states);
  }

  lemma CarriedApart(st: State, r: nat)
    requires Distinct(st.carry + st.writing) && r in st.writing
    ensures r !in st.carry
  {
    DistinctParts(st.carry, st.writing);
  }

  lemma {:induction false} FrozenForever(c: Config, st: State, es: seq<Event>, r: nat, states: seq<State>)
    requires Good(c, st) && Frozen(st, r)
    requires |states| == |es| + 1 && states[0] == st
    requires forall i | 0 <= i < |es| :: ValidRefs(states[i]) && states[i + 1] == Step(c, states[i], es[i])
    ensures Frozen(states[|es|], r) && states[|es|].dues[r] == st.dues[r]
    decreases |es|
  {
    if es != [] {
      assert states[1] == Step(c, states[0], es[0]);
      StepFrozen(c, st, es[0]);
      StepGood(c, st, es[0], states[1]);
      FrozenForever(c, states[1], es[1..], r, states[1..]);
    }
  }

  // ---------- shutdown ----------

  /** Every write of the flush in progress succeeds. */
  function StoreEverything(c: Config, st: State): State
    requires ValidRefs(st)
    decreases |st.writing|
  {
    if st.writing == [] then st
    else
      StoreOkEffect(st);
      StoreRefs(st, true);
      OthersFewer(st);
      StoreEverything(c, Store(st, true))
  }

  lemma StoreRefs(st: State, ok: bool)
    requires ValidRefs(st)
    ensures ValidRefs(Store(st, ok))
  {
    hide OfTenant;
    if st.writing != [] && ok {
      var tenant := st.dues[st.writing[0]].tenant;
      var items := OfTenant(st.dues, st.writing, tenant, true);
      var others := OfTenant(st.dues, st.writing, tenant, false);
      var st1 := st.(writing := items + others, samplesFlushed := st.samplesFlushed + |items|);
      forall i | 0 <= i < |st1.plans| ensures ValidPlan(st1, st1.plans[i]) { assert ValidPlan(st, st.plans[i]); }
      StoreManyRefs(st1, |items|);
    } else {
      var st1 := Store(st, ok);
      forall i | 0 <= i < |st1.plans| ensures ValidPlan(st1, st1.plans[i]) { assert ValidPlan(st, st.plans[i]); }
    }
  }

  lemma OthersFewer(st: State)
    requires ValidRefs(st) && st.writing != []
    ensures |OfTenant(st.dues, st.writing, st.dues[st.writing[0]].tenant, false)| < |st.writing|
  {
    NoLonger(st.dues, st.writing[1..], st.dues[st.writing[0]].tenant, false);
  }

  lemma {:induction false} NoLonger(dues: seq<Due>, refs: seq<nat>, tenant: Tenant, mine: bool)
    requires forall i | 0 <= i < |refs| :: refs[i] < |dues|
    ensures |OfTenant(dues, refs, tenant, mine)| <= |refs|
  {
    if refs != [] { NoLonger(dues, refs[1..], tenant, mine); }
  }

  lemma {:induction false} StoreEverythingGood(c: Config, st: State)
    requires Good(c, st)
    ensures var st' := StoreEverything(c, st);
            && Good(c, st') && st'.writing == [] && st'.carry == st.carry && st'.minutes == st.minutes
            && st'.folded == st.folded
    decreases |st.writing|
  {
    if st.writing != [] {
      StoreInv(c, st, true, Store(st, true));
      StoreOkEffect(st);
      OthersFewer(st);
      StoreEverythingGood(c, Store(st, true));
    }
  }

  lemma {:induction false} NoHolders(windows: seq<Window>)
    requires forall w | 0 <= w < |windows| :: windows[w].flushed && !windows[w].holdsSlot
    ensures SlotHolders(windows) == 0 && WindowCount(windows) == 0
  {
    if windows != [] { NoHolders(windows[1..]); }
  }

  /**
   * A shutdown flush whose writes succeed leaves no window, carried sample or slot behind, and every
   * fold ever committed is then in a stored sample.
   */
  lemma ShutdownComplete(c: Config, now: int, es: seq<Event>, st: State)
    requires Reaches(c, now, es, st) && st.writing == []
    requires ValidRefs(st) && ValidRefs(Collect(c, st, true))
    ensures var st' := StoreEverything(c, Collect(c, st, true));
            && st'.minutes == [] && st'.carry == [] && st'.writing == [] && st'.heldSamples == 0
            && st'.folded == st.folded == StoredCount(st'.stored)
  {
    RunGood(c, now, es, st);
    CollectInv(c, st, true);
    var st1 := Collect(c, st, true);
    StoreEverythingGood(c, st1);
    var st' := StoreEverything(c, st1);
    NothingLeft(c, st');
  }

  /** With no minute, carried sample or write left, every fold is in a stored sample. */
  lemma NothingLeft(c: Config, st': State)
    requires Good(c, st') && st'.minutes == [] && st'.carry == [] && st'.writing == []
    ensures st'.heldSamples == 0 && st'.folded == StoredCount(st'.stored)
  {
    forall w | 0 <= w < |st'.windows| ensures st'.windows[w].flushed && !st'.windows[w].holdsSlot {
      assert !st'.windows[w].flushed ==> Listed(st', w);
      assert SlotOwned(st', w);
    }
    NoHolders(st'.windows);
    assert forall w | 0 <= w < |st'.windows| :: WindowOk(c, st'.plans, EMPTY_PLAN, w, st'.windows[w]);
    WindowCounts(st'.windows);
    StoredCounts(st'.stored);
    assert Weight(st'.log, All) == Represented(st', All);
  }
}
