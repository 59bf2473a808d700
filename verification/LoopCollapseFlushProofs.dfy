/** Flushing keeps the loop-collapse invariant, whichever writes fail and whatever runs in between. */
module LoopCollapseFlushProofs {
  import opened Wrappers
  import opened LoopCollapseModel
  import opened LoopCollapseSums
  import opened LoopCollapseProofs

  /** The invariant between the steps of a flush: a minute being collected may be partly flushed. */
  ghost predicate FlushInv(c: Config, st: State) {
    && ValidRefs(st) && WindowsOk(c, st, EMPTY_PLAN) && SlotsOk(c, st) && DuesOk(st) && ListingOk(st)
    && StoredOk(st) && Conserved(st)
  }


  /** Windows that only become flushed stay listed. */
  lemma ListingKept(st: State, st': State)
    requires ListingOk(st) && |st'.windows| == |st.windows| && st'.minutes == st.minutes && st'.now == st.now
    requires forall w | 0 <= w < |st.windows| ::
      st'.windows[w].minute == st.windows[w].minute && (st.windows[w].flushed ==> st'.windows[w].flushed)
    ensures ListingOk(st')
  {}

  // ---------- late samples ----------

  lemma {:induction false} ResetLateEffect(st: State, refs: seq<nat>)
    requires ValidRefs(st) && ValidDues(st, refs)
    ensures var st' := ResetLate(st, refs);
            && st' == st.(windows := st'.windows) && |st'.windows| == |st.windows|
            && forall w | 0 <= w < |st.windows| ::
                 var l := st.windows[w].late;
                 st'.windows[w] ==
                 if l.Some? && l.value in refs && st.dues[l.value].lateOf == Some(w)
                 then st.windows[w].(late := None) else st.windows[w]
    decreases |refs|
  {
    if refs != [] {
      var of := st.dues[refs[0]].lateOf;
      var st1 := if of.Some? && st.windows[of.value].late == Some(refs[0])
        then st.(windows := st.windows[of.value := st.windows[of.value].(late := None)]) else st;
      ResetLateEffect(st1, refs[1..]);
    }
  }

  function StartCollect(st: State): State
    requires ValidRefs(st)
  {
    var st0 := st.(writing := st.carry, carry := []);
    ResetLateRefs(st0, st0.writing);
    ResetLate(st0, st0.writing)
  }

  lemma StartCollectInv(c: Config, st: State)
    requires FlushInv(c, st) && st.writing == []
    ensures FlushInv(c, StartCollect(st))
  {
    var st0 := st.(writing := st.carry, carry := []);
    ResetLateRefs(st0, st0.writing);
    StartCollectEffect(st);
    StartCollectWindows(c, st);
    StartCollectDues(st);
    StartCollectSums(c, st);
    ListingKept(st, StartCollect(st));
  }

  /** Starting a collection takes the carried samples and forgets every late one. */
  lemma StartCollectEffect(st: State)
    requires ValidRefs(st) && DuesOk(st)
    ensures var st' := StartCollect(st);
            && st' == st.(windows := st'.windows, writing := st.carry, carry := []) && |st'.windows| == |st.windows|
            && forall w | 0 <= w < |st.windows| :: st'.windows[w] == st.windows[w].(late := None)
  {
    var st0 := st.(writing := st.carry, carry := []);
    ResetLateEffect(st0, st0.writing);
    var st' := StartCollect(st);
    forall w | 0 <= w < |st.windows| ensures st'.windows[w] == st.windows[w].(late := None) {
      assert LateOk(st, w);
      var win := st.windows[w];
      if win.late.None? { assert win.(late := None) == win; }
    }
  }

  lemma StartCollectDues(st: State)
    requires ValidRefs(st) && DuesOk(st) && st.writing == []
    ensures DuesOk(StartCollect(st))
  {
    var st' := StartCollect(st);
    StartCollectEffect(st);
    assert st.carry + st.writing == st'.carry + st'.writing;
    forall w | 0 <= w < |st'.windows| ensures LateOk(st', w) && SlotOwned(st', w) {
      assert LateOk(st, w) && SlotOwned(st, w);
    }
  }

  lemma StartCollectSums(c: Config, st: State)
    requires ValidRefs(st) && DuesOk(st) && st.writing == [] && SlotsOk(c, st) && Conserved(st)
    requires ValidRefs(StartCollect(st))
    ensures SlotsOk(c, StartCollect(st)) && Conserved(StartCollect(st))
  {
    var st' := StartCollect(st);
    StartCollectEffect(st);
    WindowsSame(st.windows, st'.windows, All);
    forall m ensures Weight(st'.log, m) == Represented(st', m) {
      assert Weight(st.log, m) == Represented(st, m);
      WindowsSame(st.windows, st'.windows, m);
    }
  }

  lemma StartCollectWindows(c: Config, st: State)
    requires FlushInv(c, st) && st.writing == []
    ensures WindowsOk(c, StartCollect(st), EMPTY_PLAN)
  {
    var st' := StartCollect(st);
    StartCollectEffect(st);
    forall w | 0 <= w < |st'.windows| ensures WindowOk(c, st'.plans, EMPTY_PLAN, w, st'.windows[w]) {
      assert WindowOk(c, st.plans, EMPTY_PLAN, w, st.windows[w]);
      SameIds(c, st.plans, w, st.windows[w], st'.windows[w]);
    }
  }

  /** A change of the flush state or the slot leaves the reserved ids alone. */
  lemma SameIds(c: Config, plans: seq<Plan>, w: nat, win: Window, win': Window)
    requires WindowOk(c, plans, EMPTY_PLAN, w, win)
    requires win' == win.(late := win'.late, flushed := win'.flushed, holdsSlot := win'.holdsSlot)
    requires SampleOk(win')
    ensures WindowOk(c, plans, EMPTY_PLAN, w, win')
  {
    forall id ensures IdOk(plans, EMPTY_PLAN, w, win', id) {
      assert IdOk(plans, EMPTY_PLAN, w, win, id);
    }
  }

  // ---------- collecting a window ----------

  lemma FlushWindowInv(c: Config, st: State, w: nat)
    requires FlushInv(c, st) && w < |st.windows| && !st.windows[w].flushed
    ensures FlushInv(c, FlushWindow(st, w))
  {
    var st' := FlushWindow(st, w);
    FlushWindowRefs(st, w);
    FlushWindowWindows(c, st, w);
    FlushWindowDues(c, st, w);
    FlushWindowSums(c, st, w);
    ListingKept(st, st');
  }

  lemma FlushWindowRefs(st: State, w: nat)
    requires ValidRefs(st) && w < |st.windows|
    ensures ValidRefs(FlushWindow(st, w))
  {}

  lemma FlushWindowWindows(c: Config, st: State, w: nat)
    requires WindowsOk(c, st, EMPTY_PLAN) && w < |st.windows| && !st.windows[w].flushed
    ensures WindowsOk(c, FlushWindow(st, w), EMPTY_PLAN)
  {
    var st' := FlushWindow(st, w);
    forall i | 0 <= i < |st'.windows| ensures WindowOk(c, st'.plans, EMPTY_PLAN, i, st'.windows[i]) {
      assert WindowOk(c, st.plans, EMPTY_PLAN, i, st.windows[i]);
      if i == w { SameIds(c, st.plans, w, st.windows[w], st'.windows[w]); }
    }
  }

  lemma FlushWindowDues(c: Config, st: State, w: nat)
    requires ValidRefs(st) && WindowsOk(c, st, EMPTY_PLAN) && DuesOk(st) && w < |st.windows| && !st.windows[w].flushed
    ensures DuesOk(FlushWindow(st, w))
  {
    hide ValidPlan, CountsOk, IdOk;
    var st' := FlushWindow(st, w);
    var win := st.windows[w];
    assert WindowOk(c, st.plans, EMPTY_PLAN, w, win);
    var all, all' := st.carry + st.writing, st'.carry + st'.writing;
    if win.count > 0 {
      assert all' == all + [|st.dues|];
      assert st'.dues[|st.dues|].window == Some(w) && DueOk(st'.dues[|st.dues|]);
      assert |st.dues| in all';
    } else {
      assert all' == all;
    }
    assert forall r | r in all :: r in all' && st'.dues[r] == st.dues[r] && DueOk(st.dues[r]);
    forall i | 0 <= i < |st'.windows| ensures LateOk(st', i) && SlotOwned(st', i) {
      assert LateOk(st, i) && SlotOwned(st, i);
    }
  }

  lemma FlushWindowSums(c: Config, st: State, w: nat)
    requires ValidRefs(st) && WindowsOk(c, st, EMPTY_PLAN) && SlotsOk(c, st) && Conserved(st)
    requires w < |st.windows| && !st.windows[w].flushed && ValidRefs(FlushWindow(st, w))
    ensures SlotsOk(c, FlushWindow(st, w)) && Conserved(FlushWindow(st, w))
  {
    hide ValidPlan;
    var st' := FlushWindow(st, w);
    var win := st.windows[w];
    assert WindowOk(c, st.plans, EMPTY_PLAN, w, win);
    assert st'.windows == st.windows[w := st'.windows[w]];
    WindowsUpdate(st.windows, w, st'.windows[w], All);
    forall m ensures Weight(st'.log, m) == Represented(st', m) { FlushWindowConserves(st, w, m); }
  }

  lemma FlushWindowConserves(st: State, w: nat, m: Which)
    requires ValidRefs(st) && Conserved(st) && w < |st.windows| && !st.windows[w].flushed && SampleOk(st.windows[w])
    requires ValidRefs(FlushWindow(st, w))
    ensures Weight(FlushWindow(st, w).log, m) == Represented(FlushWindow(st, w), m)
  {
    hide SampleOk;
    var st' := FlushWindow(st, w);
    assert Weight(st.log, m) == Represented(st, m);
    assert InWindows(st'.windows, m) + Weight(st.windows[w].folds, m) == InWindows(st.windows, m) by {
      assert st'.windows == st.windows[w := st'.windows[w]];
      WindowsUpdate(st.windows, w, st'.windows[w], m);
    }
    FlushedDue(st, w, m);
  }

  /** What a flushed window folded is now written. */
  lemma FlushedDue(st: State, w: nat, m: Which)
    requires ValidRefs(st) && w < |st.windows| && SampleOk(st.windows[w]) && ValidRefs(FlushWindow(st, w))
    ensures var st' := FlushWindow(st, w);
            && InDues(st'.dues, st'.writing, m) == InDues(st.dues, st.writing, m) + Weight(st.windows[w].folds, m)
            && InDues(st'.dues, st'.carry, m) == InDues(st.dues, st.carry, m)
            && st'.stored == st.stored && st'.log == st.log
  {
    var st' := FlushWindow(st, w);
    DuesSame(st.dues, st'.dues, st.carry, m);
    DuesSame(st.dues, st'.dues, st.writing, m);
    if st.windows[w].count > 0 {
      DuesAppend(st'.dues, st.writing, [|st.dues|], m);
    } else {
      assert st.windows[w].folds == multiset{};
    }
  }

  // ---------- collecting a minute ----------

  /** What collecting windows leaves alone. */
  ghost predicate Collecting(st: State, st': State) {
    && |st'.windows| == |st.windows| && st'.now == st.now && st'.plans == st.plans
    && st'.folded == st.folded && st'.log == st.log && st'.carry == st.carry && st'.stored == st.stored
    && (forall w | 0 <= w < |st.windows| ::
          && st'.windows[w].minute == st.windows[w].minute && st'.windows[w].pending == st.windows[w].pending
          && (st.windows[w].flushed ==> st'.windows[w].flushed)
          && (st'.windows[w].flushed == st.windows[w].flushed ==> st'.windows[w] == st.windows[w]))
  }

  lemma {:induction false} CollectWindowsInv(c: Config, st: State, refs: seq<nat>, forced: bool, open: nat)
    requires FlushInv(c, st) && ValidWindows(st, refs)
    ensures FlushInv(c, CollectWindows(st, refs, forced, open).0)
    decreases |refs|
  {
    if refs != [] {
      var win := st.windows[refs[0]];
      if win.flushed || (win.pending > 0 && !forced) {
        CollectWindowsInv(c, st, refs[1..], forced, if win.flushed then open else open + 1);
      } else {
        FlushWindowInv(c, st, refs[0]);
        CollectWindowsInv(c, FlushWindow(st, refs[0]), refs[1..], forced, open);
      }
    }
  }

  /** Collecting flushes a window only when no request holds it or it is forced, and counts the others. */
  lemma {:induction false} CollectWindowsEffect(st: State, refs: seq<nat>, forced: bool, open: nat)
    requires ValidWindows(st, refs)
    ensures var (st', open') := CollectWindows(st, refs, forced, open);
            && Collecting(st, st') && st'.minutes == st.minutes
            && (forall w | 0 <= w < |st.windows| && st'.windows[w].flushed && !st.windows[w].flushed ::
                  w in refs && (forced || st.windows[w].pending <= 0))
            && open' >= open
            && (open' == open ==> forall j | 0 <= j < |refs| :: st'.windows[refs[j]].flushed)
            && (forced ==> open' == open)
    decreases |refs|
  {
    if refs != [] {
      var win := st.windows[refs[0]];
      if win.flushed {
        CollectWindowsEffect(st, refs[1..], forced, open);
      } else if win.pending > 0 && !forced {
        CollectWindowsEffect(st, refs[1..], forced, open + 1);
      } else {
        assert Collecting(st, FlushWindow(st, refs[0]));
        CollectWindowsEffect(FlushWindow(st, refs[0]), refs[1..], forced, open);
      }
    }
  }

  // ---------- collecting every due minute ----------

  predicate Waits(st: State, row: Minute, all: bool) {
    !all && row.minute >= MinuteOf(st.now)
  }

  /** Deleting a minute all of whose windows are flushed loses no unflushed window. */
  lemma DeleteMinute(c: Config, st: State, m: nat, st': State)
    requires FlushInv(c, st) && m < |st.minutes|
    requires forall j | 0 <= j < |st.minutes[m].refs| :: st.windows[st.minutes[m].refs[j]].flushed
    requires st' == st.(minutes := st.minutes[..m] + st.minutes[m + 1..], trackedIds := st'.trackedIds)
    ensures FlushInv(c, st')
  {
    DeleteMinuteListing(st, m, st');
    DeleteMinuteRefs(st, m, st');
    forall w | 0 <= w < |st'.windows| ensures LateOk(st', w) && SlotOwned(st', w) {
      assert LateOk(st, w) && SlotOwned(st, w);
    }
    forall m ensures Weight(st'.log, m) == Represented(st', m) {
      assert Weight(st.log, m) == Represented(st, m);
    }
  }

  lemma DeleteMinuteRefs(st: State, m: nat, st': State)
    requires ValidRefs(st) && m < |st.minutes|
    requires st' == st.(minutes := st.minutes[..m] + st.minutes[m + 1..], trackedIds := st'.trackedIds)
    ensures ValidRefs(st')
  {}

  lemma DeleteMinuteListing(st: State, m: nat, st': State)
    requires ListingOk(st) && m < |st.minutes|
    requires forall j | 0 <= j < |st.minutes[m].refs| ::
      st.minutes[m].refs[j] < |st.windows| && st.windows[st.minutes[m].refs[j]].flushed
    requires st' == st.(minutes := st.minutes[..m] + st.minutes[m + 1..], trackedIds := st'.trackedIds)
    ensures ListingOk(st')
  {
    forall i | 0 <= i < |st'.minutes| ensures RowOk(st', st'.minutes[i]) {
      assert RowOk(st, st.minutes[if i < m then i else i + 1]);
    }
    forall w | 0 <= w < |st'.windows| && !st'.windows[w].flushed ensures Listed(st', w) {
      assert Listed(st, w);
      var n :| 0 <= n < |st.minutes| && w in st.minutes[n].refs;
      assert n != m;
      assert w in st'.minutes[if n < m then n else n - 1].refs;
    }
  }

  /** The state after the entry at `m` was collected, before the next one is. */
  function CollectEntry(c: Config, st: State, m: nat, all: bool): (State, nat)
    requires ValidRefs(st) && m < |st.minutes|
  {
    var row := st.minutes[m];
    if Waits(st, row, all) then (st, m + 1)
    else
      var (st1, open) := CollectWindows(st, row.refs, Forced(c, st, row.minute, all), 0);
      if open == 0 && m < |st1.minutes| then
        (st1.(minutes := st1.minutes[..m] + st1.minutes[m + 1..], trackedIds := st1.trackedIds - {row.minute}), m)
      else (st1, m + 1)
  }

  lemma CollectEntryInv(c: Config, st: State, m: nat, all: bool)
    requires FlushInv(c, st) && m < |st.minutes|
    ensures FlushInv(c, CollectEntry(c, st, m, all).0)
  {
    var row := st.minutes[m];
    if !Waits(st, row, all) {
      var forced := Forced(c, st, row.minute, all);
      CollectWindowsInv(c, st, row.refs, forced, 0);
      CollectWindowsEffect(st, row.refs, forced, 0);
      var (st1, open) := CollectWindows(st, row.refs, forced, 0);
      if open == 0 { DeleteMinute(c, st1, m, CollectEntry(c, st, m, all).0); }
    }
  }

  /** A flush takes a window only when its minute is over, and no request holds it unless it is overdue. */
  ghost predicate FlushedRightly(c: Config, st: State, w: nat, all: bool)
    requires w < |st.windows|
  {
    var win := st.windows[w];
    && (all || win.minute < MinuteOf(st.now))
    && (win.pending <= 0 || Forced(c, st, win.minute, all))
  }

  ghost predicate CollectingRightly(c: Config, st: State, st': State, all: bool) {
    && Collecting(st, st')
    && (forall w | 0 <= w < |st.windows| && st'.windows[w].flushed && !st.windows[w].flushed ::
          FlushedRightly(c, st, w, all))
  }

  lemma CollectEntryEffect(c: Config, st: State, m: nat, all: bool)
    requires ValidRefs(st) && ListingOk(st) && m < |st.minutes|
    ensures CollectingRightly(c, st, CollectEntry(c, st, m, all).0, all)
  {
    var row := st.minutes[m];
    assert RowOk(st, row);
    if !Waits(st, row, all) {
      CollectWindowsEffect(st, row.refs, Forced(c, st, row.minute, all), 0);
    }
  }

  lemma CollectEntryRows(c: Config, st: State, m: nat, all: bool)
    requires ValidRefs(st) && m < |st.minutes|
    ensures var (st', m') := CollectEntry(c, st, m, all);
            && m <= m' <= |st'.minutes| && st'.minutes[..m] == st.minutes[..m]
            && (all ==> m' == m && |st'.minutes| < |st.minutes|)
            && (m' == m ==> st'.minutes[m..] == st.minutes[m + 1..] && !Waits(st, st.minutes[m], all))
            && (m' == m + 1 ==> st'.minutes == st.minutes)
  {
    var row := st.minutes[m];
    if !Waits(st, row, all) {
      CollectWindowsEffect(st, row.refs, Forced(c, st, row.minute, all), 0);
    }
  }

  lemma CollectMinutesStep(c: Config, st: State, m: nat, all: bool)
    requires ValidRefs(st) && m < |st.minutes|
    ensures var (st', m') := CollectEntry(c, st, m, all);
            && ValidRefs(st') && m' <= |st'.minutes| && |st'.minutes| - m' < |st.minutes| - m
            && CollectMinutes(c, st, m, all) == CollectMinutes(c, st', m', all)
  {
    var row := st.minutes[m];
    if !Waits(st, row, all) {
      CollectWindowsRefs(st, row.refs, Forced(c, st, row.minute, all), 0);
      var st1 := CollectWindows(st, row.refs, Forced(c, st, row.minute, all), 0).0;
      DeleteMinuteRefs(st1, m, st1.(minutes := st1.minutes[..m] + st1.minutes[m + 1..],
                                    trackedIds := st1.trackedIds - {row.minute}));
    }
  }

  lemma {:induction false} CollectMinutesInv(c: Config, st: State, m: nat, all: bool)
    requires FlushInv(c, st) && m <= |st.minutes|
    ensures FlushInv(c, CollectMinutes(c, st, m, all))
    decreases |st.minutes| - m
  {
    if m < |st.minutes| {
      CollectMinutesStep(c, st, m, all);
      CollectEntryInv(c, st, m, all);
      CollectMinutesInv(c, CollectEntry(c, st, m, all).0, CollectEntry(c, st, m, all).1, all);
    }
  }

  lemma {:induction false} CollectMinutesEffect(c: Config, st: State, m: nat, all: bool)
    requires FlushInv(c, st) && m <= |st.minutes|
    ensures var st' := CollectMinutes(c, st, m, all);
            CollectingRightly(c, st, st', all) && (all && m == 0 ==> st'.minutes == [])
    decreases |st.minutes| - m
  {
    hide WindowsOk, SlotsOk, DuesOk, ListingOk, StoredOk, Conserved;
    if m < |st.minutes| {
      var (st1, m1) := CollectEntry(c, st, m, all);
      CollectMinutesStep(c, st, m, all);
      CollectEntryInv(c, st, m, all);
      CollectEntryEffect(c, st, m, all);
      CollectEntryRows(c, st, m, all);
      CollectMinutesEffect(c, st1, m1, all);
      var st' := CollectMinutes(c, st, m, all);
      forall w | 0 <= w < |st.windows| && st'.windows[w].flushed && !st.windows[w].flushed
        ensures FlushedRightly(c, st, w, all)
      {
        if st1.windows[w].flushed { } else { assert FlushedRightly(c, st1, w, all); }
      }
    }
  }

  lemma {:induction false} CollectMinutesRows(c: Config, st: State, m: nat, all: bool)
    requires ValidRefs(st) && m <= |st.minutes|
    ensures forall row :: row in CollectMinutes(c, st, m, all).minutes ==> row in st.minutes
    decreases |st.minutes| - m
  {
    if m < |st.minutes| {
      CollectMinutesStep(c, st, m, all);
      CollectEntryRows(c, st, m, all);
      var (st1, m1) := CollectEntry(c, st, m, all);
      CollectMinutesRows(c, st1, m1, all);
      assert st1.minutes == st1.minutes[..m] + st1.minutes[m..];
    }
  }

  /** Collecting keeps the invariant, and flushes each window only when it may. */
  lemma CollectInv(c: Config, st: State, all: bool)
    requires Inv(c, st, EMPTY_PLAN)
    ensures Inv(c, Collect(c, st, all), EMPTY_PLAN)
    ensures CollectingFrom(c, st, Collect(c, st, all), all)
  {
    hide WindowsOk, SlotsOk, StoredOk, Conserved, DuesOk, ValidRefs;
    if st.writing == [] {
      var st1 := StartCollect(st);
      assert FlushInv(c, st1) by { StartCollectInv(c, st); }
      StartCollectEffect(st);
      CollectMinutesInv(c, st1, 0, all);
      CollectMinutesEffect(c, st1, 0, all);
      CollectCurrent(c, st, st1, all);
      var st' := CollectMinutes(c, st1, 0, all);
      assert st' == Collect(c, st, all);
      forall w | 0 <= w < |st.windows| && st'.windows[w].flushed && !st.windows[w].flushed
        ensures FlushedRightly(c, st, w, all)
      {
        assert FlushedRightly(c, st1, w, all);
      }
    }
  }

  /** The effect of a whole collection on windows and counters. */
  ghost predicate CollectingFrom(c: Config, st: State, st': State, all: bool) {
    && |st'.windows| == |st.windows| && st'.now == st.now && st'.plans == st.plans
    && st'.folded == st.folded && st'.log == st.log
    && (forall w | 0 <= w < |st.windows| && st'.windows[w].flushed && !st.windows[w].flushed ::
          FlushedRightly(c, st, w, all))
    && (st.writing == [] ==> st'.carry == [] && (all ==> st'.minutes == []))
  }

  lemma CollectCurrent(c: Config, st: State, st1: State, all: bool)
    requires ListingOk(st) && CurrentOk(st) && FlushInv(c, st1)
    requires st1.minutes == st.minutes && st1.now == st.now && |st1.windows| == |st.windows|
    requires forall w | 0 <= w < |st.windows| :: st1.windows[w] == st.windows[w].(late := None)
    ensures CurrentOk(CollectMinutes(c, st1, 0, all))
  {
    hide WindowsOk, SlotsOk, DuesOk, StoredOk, Conserved;
    var st' := CollectMinutes(c, st1, 0, all);
    CollectMinutesEffect(c, st1, 0, all);
    CollectMinutesRows(c, st1, 0, all);
    forall w | 0 <= w < |st.windows| && st'.windows[w].flushed && !st1.windows[w].flushed
      ensures all || st.windows[w].minute < MinuteOf(st.now)
    {
      assert FlushedRightly(c, st1, w, all);
    }
    forall m | 0 <= m < |st'.minutes| && st'.minutes[m].minute == MinuteOf(st'.now)
      ensures forall j | 0 <= j < |st'.minutes[m].refs| ::
        st'.minutes[m].refs[j] < |st'.windows| && !st'.windows[st'.minutes[m].refs[j]].flushed
    {
      var row := st'.minutes[m];
      assert row in st.minutes && RowOk(st, row);
      assert forall j | 0 <= j < |row.refs| :: !st1.windows[row.refs[j]].flushed;
    }
  }

  // ---------- settling a write ----------

  /** The same due samples in another order or place. */
  lemma RearrangeInv(c: Config, st: State, st': State)
    requires Inv(c, st, EMPTY_PLAN)
    requires st' == st.(carry := st'.carry, writing := st'.writing,
                        samplesFlushed := st'.samplesFlushed, failedFlushes := st'.failedFlushes)
    requires forall r :: r in st'.carry + st'.writing <==> r in st.carry + st.writing
    requires forall r :: r in st.carry ==> r in st'.carry
    requires Distinct(st'.carry + st'.writing)
    requires ValidDues(st', st'.carry) && ValidDues(st', st'.writing)
    requires forall m: Which ::
      InDues(st.dues, st'.carry, m) + InDues(st.dues, st'.writing, m) ==
      InDues(st.dues, st.carry, m) + InDues(st.dues, st.writing, m)
    ensures Inv(c, st', EMPTY_PLAN)
  {
    forall i | 0 <= i < |st'.plans| ensures ValidPlan(st', st'.plans[i]) {
      assert ValidPlan(st, st.plans[i]);
    }
    forall w | 0 <= w < |st'.windows| ensures LateOk(st', w) && SlotOwned(st', w) {
      assert LateOk(st, w) && SlotOwned(st, w);
    }
    LiveKept(st, st');
    forall m ensures Weight(st'.log, m) == Represented(st', m) {
      assert Weight(st.log, m) == Represented(st, m);
    }
  }

  lemma TenantParts(st: State, tenant: Tenant)
    requires ValidRefs(st) && DuesOk(st)
    ensures var items := OfTenant(st.dues, st.writing, tenant, true);
            var others := OfTenant(st.dues, st.writing, tenant, false);
            && (forall r :: r in items + others <==> r in st.writing)
            && (forall r :: r in items ==> r !in others)
            && Distinct(st.carry + (items + others)) && Distinct((st.carry + items) + others)
  {
    var items := OfTenant(st.dues, st.writing, tenant, true);
    var others := OfTenant(st.dues, st.writing, tenant, false);
    OfTenantSplits(st.dues, st.writing, tenant, true);
    OfTenantSplits(st.dues, st.writing, tenant, false);
    DistinctParts(st.carry, st.writing);
    JoinDistinct(items, others);
    JoinDistinct(st.carry, items + others);
    assert st.carry + (items + others) == (st.carry + items) + others;
  }

  lemma DistinctParts(a: seq<nat>, b: seq<nat>)
    requires Distinct(a + b)
    ensures Distinct(a) && Distinct(b) && forall r :: r in a ==> r !in b
  {
    assert forall i | 0 <= i < |a| :: (a + b)[i] == a[i];
    assert forall i | 0 <= i < |b| :: (a + b)[|a| + i] == b[i];
  }

  lemma JoinDistinct(a: seq<nat>, b: seq<nat>)
    requires Distinct(a) && Distinct(b) && forall r :: r in a ==> r !in b
    ensures Distinct(a + b)
  {
    forall i, j | 0 <= i < j < |a + b| ensures (a + b)[i] != (a + b)[j] {
      if i < |a| && j >= |a| { assert a[i] in a && b[j - |a|] in b; }
    }
  }

  /** Storing a sample moves its folds to the store and frees its window's slot. */
  lemma StoreNextInv(c: Config, st: State)
    requires Inv(c, st, EMPTY_PLAN) && st.writing != []
    ensures Inv(c, StoreNext(st), EMPTY_PLAN)
  {
    hide LiveOk, WindowsOk, SlotsOk;
    var st' := StoreNext(st);
    assert ValidRefs(st') by {
      StoreManyRefs(st, 1);
      assert StoreMany(st, 1) == st';
    }
    assert WindowsOk(c, st', EMPTY_PLAN) by { StoreNextWindows(c, st); }
    assert DuesOk(st') by { StoreNextDues(st); }
    assert SlotsOk(c, st') && Conserved(st') by { StoreNextSums(c, st); }
    assert LiveOk(st') by { LiveKept(st, st'); }
    assert st.writing[0] in st.carry + st.writing && DueOk(st.dues[st.writing[0]]);
  }

  /** A due sample's window is a flushed one. */
  lemma StoreNextWindows(c: Config, st: State)
    requires ValidRefs(st) && WindowsOk(c, st, EMPTY_PLAN) && st.writing != [] && DuesOk(st)
    ensures WindowsOk(c, StoreNext(st), EMPTY_PLAN)
  {
    var st' := StoreNext(st);
    forall w | 0 <= w < |st'.windows| ensures WindowOk(c, st'.plans, EMPTY_PLAN, w, st'.windows[w]) {
      assert WindowOk(c, st.plans, EMPTY_PLAN, w, st.windows[w]);
      if st'.windows[w] != st.windows[w] { SameIds(c, st.plans, w, st.windows[w], st'.windows[w]); }
    }
  }

  lemma DropHead(a: seq<nat>, b: seq<nat>)
    requires Distinct(a + b) && b != []
    ensures Distinct(a + b[1..]) && b[0] !in a + b[1..]
    ensures forall x :: x in a + b <==> x == b[0] || x in a + b[1..]
  {
    DistinctParts(a, b);
    assert b == [b[0]] + b[1..];
    DistinctParts([b[0]], b[1..]);
    JoinDistinct(a, b[1..]);
  }

  lemma StoreNextDues(st: State)
    requires ValidRefs(st) && DuesOk(st) && st.writing != []
    ensures DuesOk(StoreNext(st))
  {
    hide DueOk;
    var st' := StoreNext(st);
    var all, all' := st.carry + st.writing, st'.carry + st'.writing;
    DropHead(st.carry, st.writing);
    forall w | 0 <= w < |st'.windows| ensures LateOk(st', w) && SlotOwned(st', w) {
      assert LateOk(st, w) && SlotOwned(st, w);
      if st'.windows[w].flushed && st'.windows[w].holdsSlot {
        var x :| x in all && x < |st.dues| && st.dues[x].window == Some(w);
        assert x in all';
      }
    }
    assert forall x | 0 <= x < |st.dues| :: OwnerFlushed(st, st.dues[x]);
  }

  lemma StoreNextSums(c: Config, st: State)
    requires ValidRefs(st) && SlotsOk(c, st) && Conserved(st) && st.writing != [] && ValidRefs(StoreNext(st))
    ensures SlotsOk(c, StoreNext(st)) && Conserved(StoreNext(st))
  {
    var st' := StoreNext(st);
    var due := st.dues[st.writing[0]];
    forall m ensures Weight(st'.log, m) == Represented(st', m) && SlotsOk(c, st') {
      assert Weight(st.log, m) == Represented(st, m);
      StoredPush(st.stored, StoredOf(due), m);
      if due.window.Some? {
        var w := due.window.value;
        WindowsUpdate(st.windows, w, st'.windows[w], m);
        assert st'.windows == st.windows[w := st'.windows[w]];
      }
    }
    assert Weight(st'.log, All) == Represented(st', All);
  }

  lemma {:induction false} StoreManyInv(c: Config, st: State, n: nat)
    requires Inv(c, st, EMPTY_PLAN) && n <= |st.writing|
    ensures Inv(c, StoreMany(st, n), EMPTY_PLAN)
    decreases n
  {
    hide FlushInv;
    if n > 0 {
      StoreNextInv(c, st);
      StoreManyInv(c, StoreNext(st), n - 1);
    }
  }

  lemma {:induction false} StoreManyEffect(st: State, n: nat)
    requires ValidRefs(st) && n <= |st.writing|
    ensures var st' := StoreMany(st, n);
            && st'.writing == st.writing[n..] && st'.carry == st.carry && st'.minutes == st.minutes
            && st'.folded == st.folded && st'.log == st.log && st'.plans == st.plans
    decreases n
  {
    if n > 0 { StoreManyEffect(StoreNext(st), n - 1); }
  }

  /** Moving a tenant's samples to the front of the write, or back to the carried ones, moves no fold. */
  lemma TenantSums(st: State, tenant: Tenant, m: Which)
    requires ValidRefs(st)
    ensures var items := OfTenant(st.dues, st.writing, tenant, true);
            var others := OfTenant(st.dues, st.writing, tenant, false);
            && InDues(st.dues, items + others, m) == InDues(st.dues, st.writing, m)
            && InDues(st.dues, st.carry + items, m) + InDues(st.dues, others, m) ==
               InDues(st.dues, st.carry, m) + InDues(st.dues, st.writing, m)
  {
    var items := OfTenant(st.dues, st.writing, tenant, true);
    var others := OfTenant(st.dues, st.writing, tenant, false);
    DuesSplit(st.dues, st.writing, tenant, m);
    DuesAppend(st.dues, items, others, m);
    DuesAppend(st.dues, st.carry, items, m);
  }

  lemma FrontInv(c: Config, st: State, tenant: Tenant, st1: State)
    requires Inv(c, st, EMPTY_PLAN)
    requires var items := OfTenant(st.dues, st.writing, tenant, true);
             var others := OfTenant(st.dues, st.writing, tenant, false);
             || st1 == st.(writing := items + others, samplesFlushed := st1.samplesFlushed)
             || st1 == st.(writing := others, carry := st.carry + items, failedFlushes := st1.failedFlushes)
    ensures Inv(c, st1, EMPTY_PLAN)
  {
    TenantParts(st, tenant);
    forall m: Which
      ensures InDues(st.dues, st1.carry, m) + InDues(st.dues, st1.writing, m) ==
              InDues(st.dues, st.carry, m) + InDues(st.dues, st.writing, m)
    {
      TenantSums(st, tenant, m);
    }
    RearrangeInv(c, st, st1);
  }

  ghost predicate StoredTenant(st: State, st': State)
    requires ValidRefs(st) && st.writing != []
  {
    && st'.folded == st.folded && st'.log == st.log && st'.plans == st.plans
    && st'.minutes == st.minutes && st'.carry == st.carry
    && st'.writing == OfTenant(st.dues, st.writing, st.dues[st.writing[0]].tenant, false)
  }

  /** A successful write leaves exactly the other tenants' samples to be written. */
  lemma StoreOkEffect(st: State)
    requires ValidRefs(st) && st.writing != []
    ensures StoredTenant(st, Store(st, true))
  {
    var tenant := st.dues[st.writing[0]].tenant;
    var items := OfTenant(st.dues, st.writing, tenant, true);
    var others := OfTenant(st.dues, st.writing, tenant, false);
    assert (items + others)[|items|..] == others;
    StoreManyEffect(st.(writing := items + others, samplesFlushed := st.samplesFlushed + |items|), |items|);
  }

  /** Settling a write keeps the invariant, whether it succeeded or failed. */
  lemma StoreInv(c: Config, st: State, ok: bool, st': State)
    requires Inv(c, st, EMPTY_PLAN) && st' == Store(st, ok)
    ensures Inv(c, st', EMPTY_PLAN)
    ensures st'.folded == st.folded && st'.log == st.log
  {
    hide WindowsOk, SlotsOk, DuesOk, LiveOk, StoredOk, Conserved;
    if st.writing != [] {
      var tenant := st.dues[st.writing[0]].tenant;
      if ok {
        var items := OfTenant(st.dues, st.writing, tenant, true);
        var st1 := st.(writing := items + OfTenant(st.dues, st.writing, tenant, false),
                       samplesFlushed := st.samplesFlushed + |items|);
        FrontInv(c, st, tenant, st1);
        StoreManyInv(c, st1, |items|);
        assert st' == StoreMany(st1, |items|);
        StoreOkEffect(st);
      } else {
        FrontInv(c, st, tenant, st');
      }
    }
  }
}
