/**
 * What every step of loop collapse keeps, under every interleaving of requests and flushes.
 *
 * The invariant has four parts: each window agrees with the plans that hold it (`WindowOk`), the due
 * samples are owned once (`DuesOk`), every window that can still collect folds is reachable (`LiveOk`),
 * and no committed fold is lost or counted twice (`Conserved`). The parameter `d` is the request being
 * planned or settled; between steps it is `EMPTY_PLAN`.
 */
module LoopCollapseProofs {
  import opened Wrappers
  import opened LoopCollapseModel
  import opened LoopCollapseSums

  // ---------- the invariant ----------

  ghost predicate IsNewest(o: Occurrence, folds: multiset<Occurrence>) {
    o in folds && forall p | p in folds :: p.occurredAt <= o.occurredAt
  }

  function Bit(b: bool): nat {
    if b then 1 else 0
  }

  /** Folds the unsettled plans and the request at hand reserve on a window. */
  ghost function Folding(plans: seq<Plan>, d: Plan, w: nat, m: Ids): nat {
    ReservedFolds(plans, w, m) + FoldSum(d.folds, w, m)
  }

  ghost function Keeping(plans: seq<Plan>, d: Plan, w: nat, m: Ids): nat {
    ReservedHolds(plans, w, m) + HoldSum(d.keptReservations, w, m)
  }

  ghost function HoldersOf(plans: seq<Plan>, d: Plan, w: nat): nat {
    Touching(plans, w) + Bit(w in d.touched)
  }

  /** A window counts exactly what the unsettled plans reserve on it and what was committed to it. */
  ghost predicate CountsOk(c: Config, plans: seq<Plan>, d: Plan, w: nat, win: Window) {
    && win.reserved == Folding(plans, d, w, AnyId)
    && win.admitted == |win.kept| + win.reserved + win.committed
    && |win.kept| <= c.after
    && win.pending == HoldersOf(plans, d, w)
    && (win.foldedIds.Some? ==>
          |win.foldedIds.value| == win.reserved + win.committed && win.foldedIds.value !! win.kept)
  }

  /** Each reserved id is recorded on its window, and reserved once. */
  ghost predicate IdOk(plans: seq<Plan>, d: Plan, w: nat, win: Window, id: string) {
    && Keeping(plans, d, w, OneId(id)) <= Bit(id in win.kept)
    && (win.foldedIds.Some? ==> Folding(plans, d, w, OneId(id)) <= Bit(id in win.foldedIds.value))
  }

  /** The sample is the newest committed fold; an unflushed window holds a slot exactly while it folds. */
  ghost predicate SampleOk(win: Window) {
    && win.count == |win.folds|
    && (win.count == 0 ==> win.sample == None)
    && (win.count > 0 ==> win.sample.Some? && IsNewest(win.sample.value, win.folds))
    && (!win.flushed ==>
          (win.holdsSlot <==> win.count + win.reserved > 0) && win.late == None && win.committed == win.count)
  }

  ghost predicate WindowOk(c: Config, plans: seq<Plan>, d: Plan, w: nat, win: Window) {
    && CountsOk(c, plans, d, w, win)
    && (forall id :: IdOk(plans, d, w, win, id))
    && SampleOk(win)
  }

  ghost predicate WindowsOk(c: Config, st: State, d: Plan) {
    forall w | 0 <= w < |st.windows| :: WindowOk(c, st.plans, d, w, st.windows[w])
  }

  ghost predicate SlotsOk(c: Config, st: State) {
    st.heldSamples == SlotHolders(st.windows) <= c.maxSamples
  }

  ghost predicate DueOk(due: Due) {
    due.count == |due.folds| >= 1 && IsNewest(due.sample, due.folds)
  }

  /** A window's late sample is a carried one of its own. */
  ghost predicate LateOk(st: State, w: nat)
    requires w < |st.windows|
  {
    st.windows[w].late.Some? ==>
      var l := st.windows[w].late.value;
      && st.windows[w].flushed
      && l in st.carry && l < |st.dues| && st.dues[l].lateOf == Some(w)
  }

  /** A flushed window that still holds a slot waits for its own sample to be stored. */
  ghost predicate SlotOwned(st: State, w: nat)
    requires w < |st.windows|
  {
    st.windows[w].flushed && st.windows[w].holdsSlot ==>
      exists r :: r in st.carry + st.writing && r < |st.dues| && st.dues[r].window == Some(w)
  }

  /** A due sample that came from a window came from its flush. */
  ghost predicate OwnerFlushed(st: State, due: Due) {
    due.window.Some? ==> due.window.value < |st.windows| && st.windows[due.window.value].flushed
  }

  ghost predicate DuesOk(st: State) {
    && (forall r | 0 <= r < |st.dues| :: OwnerFlushed(st, st.dues[r]))
    && Distinct(st.carry + st.writing)
    && (forall r | r in st.carry + st.writing :: r < |st.dues| && DueOk(st.dues[r]))
    && (forall w | 0 <= w < |st.windows| :: LateOk(st, w))
    && (forall w | 0 <= w < |st.windows| :: SlotOwned(st, w))
  }

  ghost predicate Listed(st: State, w: nat)
    requires w < |st.windows|
  {
    exists m :: 0 <= m < |st.minutes| && w in st.minutes[m].refs
  }

  /** A minute's entry lists windows of that minute. */
  ghost predicate RowOk(st: State, row: Minute) {
    && row.minute <= MinuteOf(st.now)
    && (forall j | 0 <= j < |row.refs| ::
          row.refs[j] < |st.windows| && st.windows[row.refs[j]].minute == row.minute)
  }

  /** Every unflushed window is still listed, so a flush will reach it. */
  ghost predicate ListingOk(st: State) {
    && (forall m | 0 <= m < |st.minutes| :: RowOk(st, st.minutes[m]))
    && (forall w | 0 <= w < |st.windows| :: !st.windows[w].flushed ==> Listed(st, w))
  }

  /** While a minute lasts, none of its listed windows is flushed. */
  ghost predicate CurrentOk(st: State) {
    forall m | 0 <= m < |st.minutes| && st.minutes[m].minute == MinuteOf(st.now) ::
      forall j | 0 <= j < |st.minutes[m].refs| ::
        st.minutes[m].refs[j] < |st.windows| && !st.windows[st.minutes[m].refs[j]].flushed
  }

  ghost predicate LiveOk(st: State) {
    ListingOk(st) && CurrentOk(st)
  }

  /** The committed folds, by where they are now. */
  ghost function Represented(st: State, m: Which): nat
    requires ValidDues(st, st.carry) && ValidDues(st, st.writing)
  {
    InStored(st.stored, m) + InWindows(st.windows, m) + InDues(st.dues, st.carry, m) + InDues(st.dues, st.writing, m)
  }

  ghost predicate StoredOk(st: State) {
    forall i | 0 <= i < |st.stored| ::
      var s := st.stored[i];
      s.collapsedCount == s.folded - 1 && s.folded == |s.folds| >= 1 && IsNewest(s.sample, s.folds)
  }

  ghost predicate Conserved(st: State)
    requires ValidDues(st, st.carry) && ValidDues(st, st.writing)
  {
    forall m :: Weight(st.log, m) == Represented(st, m)
  }

  /** Everything but the windows' agreement with the plans. */
  ghost predicate RestOk(c: Config, st: State) {
    ValidRefs(st) && SlotsOk(c, st) && DuesOk(st) && LiveOk(st) && StoredOk(st) && Conserved(st)
  }

  ghost predicate Inv(c: Config, st: State, d: Plan) {
    RestOk(c, st) && ValidPlan(st, d) && WindowsOk(c, st, d)
  }

  /** Window `w` changed in what it admits, keeps and reserves, with its slot counted; nothing else did. */
  ghost predicate Adjusted(c: Config, st: State, st': State, w: nat) {
    && w < |st.windows| && st'.windows == st.windows[w := if w < |st'.windows| then st'.windows[w] else st.windows[w]]
    && st' == st.(windows := st'.windows, heldSamples := st'.heldSamples, trackedIds := st'.trackedIds,
                  overflow := st'.overflow)
    && SameFlush(st.windows[w], st'.windows[w]) && st'.windows[w].folds == st.windows[w].folds
    && st'.heldSamples - st.heldSamples == SlotOf(st'.windows[w]) - SlotOf(st.windows[w])
    && st'.heldSamples <= c.maxSamples
  }

  /** Such a change leaves the rest in order. */
  lemma AdjustedKeeps(c: Config, st: State, st': State, w: nat, d: Plan)
    requires RestOk(c, st) && ValidPlan(st, d) && Adjusted(c, st, st', w)
    ensures RestOk(c, st') && ValidPlan(st', d)
  {
    assert forall i | 0 <= i < |st.windows| :: SameFlush(st.windows[i], st'.windows[i]);
    hide SlotsOk, DuesOk, LiveOk, Conserved;
    RefsKept(st, st', d);
    SameFlushKeeps(st, st');
    SumsKept(c, st, st', w);
  }

  lemma InvRefs(c: Config, st: State, d: Plan)
    requires Inv(c, st, d)
    ensures ValidRefs(st) && ValidPlan(st, d)
  {}

  /** Plans and statistics are no part of the rest. */
  lemma PlansKeep(c: Config, st: State, st': State)
    requires RestOk(c, st) && forall i | 0 <= i < |st'.plans| :: ValidPlan(st', st'.plans[i])
    requires st' == st.(plans := st'.plans, overflow := st'.overflow, folded := st'.folded,
                        samplesFlushed := st'.samplesFlushed, failedFlushes := st'.failedFlushes)
    ensures RestOk(c, st')
  {
    SameFlushKeeps(st, st');
    SameSums(c, st, st');
  }

  // ---------- plan ----------

  /** Planning an occurrence on a window keeps it in agreement with the plans. */
  lemma PlannedWindowOk(c: Config, plans: seq<Plan>, d: Plan, w: nat, win: Window, o: Occurrence, full: bool, canTrack: bool)
    requires WindowOk(c, plans, d, w, win)
    ensures var touched := Touch(win, d.touched, w);
            var out := Decide(c, touched, o.id, full);
            WindowOk(c, plans, Note(d.(touched := d.touched + {w}), w, o, out), w, Admit(touched, o.id, out, canTrack))
  {
    var touched := Touch(win, d.touched, w);
    var out := Decide(c, touched, o.id, full);
    var d' := Note(d.(touched := d.touched + {w}), w, o, out);
    var win' := Admit(touched, o.id, out, canTrack);
    NoteSums(plans, d, w, o, out, w, AnyId);
    forall id ensures IdOk(plans, d', w, win', id) {
      assert IdOk(plans, d, w, win, id);
      NoteSums(plans, d, w, o, out, w, OneId(id));
    }
  }

  /** How a decision on window `w` changes what is reserved on window `i`. */
  lemma NoteSums(plans: seq<Plan>, d: Plan, w: nat, o: Occurrence, out: Outcome, i: nat, m: Ids)
    ensures var d' := Note(d.(touched := d.touched + {w}), w, o, out);
            && Keeping(plans, d', i, m) == Keeping(plans, d, i, m) + (if i == w && out.KeptNow? then One(m, o.id) else 0)
            && Folding(plans, d', i, m) == Folding(plans, d, i, m) + (if i == w && out.FoldedNow? then One(m, o.id) else 0)
            && HoldersOf(plans, d', i) == HoldersOf(plans, d, i) + Bit(i == w && w !in d.touched)
  {
    FoldSumPush(d.folds, Fold(w, o), i, m);
    HoldSumPush(d.keptReservations, Hold(w, o.id), i, m);
  }

  lemma NoteElsewhere(c: Config, plans: seq<Plan>, d: Plan, w: nat, o: Occurrence, out: Outcome, i: nat, win: Window)
    requires i != w && WindowOk(c, plans, d, i, win)
    ensures WindowOk(c, plans, Note(d.(touched := d.touched + {w}), w, o, out), i, win)
  {
    NoteSums(plans, d, w, o, out, i, AnyId);
    forall id ensures IdOk(plans, Note(d.(touched := d.touched + {w}), w, o, out), i, win, id) {
      assert IdOk(plans, d, i, win, id);
      NoteSums(plans, d, w, o, out, i, OneId(id));
    }
  }

  lemma PlanOnWindowOk(c: Config, st: State, d: Plan, w: nat, minute: int, o: Occurrence)
    requires w < |st.windows| && WindowsOk(c, st, d)
    ensures var (st', d') := PlanOnWindow(c, st, d, w, minute, o); WindowsOk(c, st', d')
  {
    var full := st.heldSamples >= c.maxSamples;
    PlannedWindowOk(c, st.plans, d, w, st.windows[w], o, full, Tracked(st.trackedIds, minute) < c.maxTrackedIds);
    var out := Decide(c, Touch(st.windows[w], d.touched, w), o.id, full);
    var (st', d') := PlanOnWindow(c, st, d, w, minute, o);
    forall i | 0 <= i < |st'.windows| ensures WindowOk(c, st'.plans, d', i, st'.windows[i]) {
      if i != w {
        NoteElsewhere(c, st.plans, d, w, o, out, i, st.windows[i]);
      }
    }
  }

  /** What the other parts of the invariant read of a window. */
  ghost predicate SameFlush(a: Window, b: Window) {
    && a.minute == b.minute && a.flushed == b.flushed && a.late == b.late
    && (a.flushed ==> a.holdsSlot == b.holdsSlot)
  }

  /** A change of windows that `SameFlush` allows leaves due samples and minutes in order. */
  lemma SameFlushKeeps(st: State, st': State)
    requires DuesOk(st) && LiveOk(st) && |st'.windows| == |st.windows|
    requires forall i | 0 <= i < |st.windows| :: SameFlush(st.windows[i], st'.windows[i])
    requires st'.minutes == st.minutes && st'.now == st.now
    requires st'.carry == st.carry && st'.writing == st.writing && st'.dues == st.dues
    ensures DuesOk(st') && LiveOk(st')
  {
    forall w | 0 <= w < |st'.windows|
      ensures LateOk(st', w) && SlotOwned(st', w) && (!st'.windows[w].flushed ==> Listed(st', w))
    {
      assert SameFlush(st.windows[w], st'.windows[w]) && LateOk(st, w) && SlotOwned(st, w);
      assert !st.windows[w].flushed ==> Listed(st, w);
    }
    forall m | 0 <= m < |st'.minutes| ensures RowOk(st', st'.minutes[m]) {
      var row := st.minutes[m];
      assert RowOk(st, row);
      assert forall j | 0 <= j < |row.refs| :: SameFlush(st.windows[row.refs[j]], st'.windows[row.refs[j]]);
    }
  }

  /** One window changed without touching its unflushed folds, and slots stay counted. */
  lemma SumsKept(c: Config, st: State, st': State, w: nat)
    requires SlotsOk(c, st) && ValidRefs(st) && Conserved(st)
    requires w < |st.windows| && |st'.windows| == |st.windows| && st'.windows == st.windows[w := st'.windows[w]]
    requires st'.log == st.log && st'.stored == st.stored && st'.dues == st.dues
    requires st'.carry == st.carry && st'.writing == st.writing
    requires st'.windows[w].flushed == st.windows[w].flushed && st'.windows[w].folds == st.windows[w].folds
    requires st'.heldSamples - st.heldSamples == SlotOf(st'.windows[w]) - SlotOf(st.windows[w])
    requires st'.heldSamples <= c.maxSamples
    ensures SlotsOk(c, st') && Conserved(st')
  {
    WindowsUpdate(st.windows, w, st'.windows[w], All);
    forall m ensures Weight(st'.log, m) == Represented(st', m) {
      WindowsUpdate(st.windows, w, st'.windows[w], m);
      assert Weight(st.log, m) == Represented(st, m);
    }
  }

  ghost predicate SameClock(st: State, st': State) {
    && st'.now == st.now && st'.log == st.log && st'.folded == st.folded
    && |st'.minutes| == |st.minutes|
    && (forall m | 0 <= m < |st.minutes| :: st'.minutes[m].minute == st.minutes[m].minute)
  }

  lemma PlanOnWindowInv(c: Config, st: State, d: Plan, w: nat, minute: int, o: Occurrence)
    requires Inv(c, st, d) && w < |st.windows| && !st.windows[w].flushed
    ensures var (st', d') := PlanOnWindow(c, st, d, w, minute, o); Inv(c, st', d')
  {
    var (st', d') := PlanOnWindow(c, st, d, w, minute, o);
    assert Adjusted(c, st, st', w) by { assert st.heldSamples <= c.maxSamples; }
    assert WindowsOk(c, st', d') by { PlanOnWindowOk(c, st, d, w, minute, o); }
    assert ValidPlan(st', d') by { PlanOnWindowRefs(c, st, d, w, minute, o); }
    hide RestOk, WindowsOk, Adjusted;
    AdjustedKeeps(c, st, st', w, d);
  }

  lemma FreshWindow(c: Config, st: State, d: Plan, key: Key, minute: int)
    requires ValidRefs(st) && ValidPlan(st, d)
    ensures WindowOk(c, st.plans, d, |st.windows|, NewWindow(key, minute))
  {
    var w := |st.windows|;
    forall i | 0 <= i < |st.plans|
      ensures forall j | 0 <= j < |st.plans[i].folds| :: st.plans[i].folds[j].window != w
      ensures forall j | 0 <= j < |st.plans[i].keptReservations| :: st.plans[i].keptReservations[j].window != w
      ensures w !in st.plans[i].touched
    {
      assert ValidPlan(st, st.plans[i]);
    }
    forall m ensures Keeping(st.plans, d, w, m) == Folding(st.plans, d, w, m) == 0 && HoldersOf(st.plans, d, w) == 0 {
      NothingReserved(st.plans, w, m);
      NoFolds(d.folds, w, m);
      NoHolds(d.keptReservations, w, m);
    }
    assert forall id :: IdOk(st.plans, d, w, NewWindow(key, minute), id);
  }

  lemma AddWindowLive(st: State, m: nat, key: Key)
    requires DuesOk(st) && LiveOk(st) && m < |st.minutes| && st.minutes[m].minute == MinuteOf(st.now)
    ensures DuesOk(AddWindow(st, m, key)) && LiveOk(AddWindow(st, m, key))
  {
    var st' := AddWindow(st, m, key);
    var new_ := |st.windows|;
    forall w | 0 <= w < |st'.windows|
      ensures LateOk(st', w) && SlotOwned(st', w) && (!st'.windows[w].flushed ==> Listed(st', w))
    {
      if w == new_ {
        assert w in st'.minutes[m].refs;
      } else {
        assert LateOk(st, w) && SlotOwned(st, w);
        if !st.windows[w].flushed {
          assert Listed(st, w);
          var n :| 0 <= n < |st.minutes| && w in st.minutes[n].refs;
          assert w in st'.minutes[n].refs;
        }
      }
    }
    forall n | 0 <= n < |st'.minutes| ensures RowOk(st', st'.minutes[n]) {
      assert RowOk(st, st.minutes[n]);
    }
  }

  lemma AddWindowInv(c: Config, st: State, d: Plan, m: nat, key: Key)
    requires Inv(c, st, d) && m < |st.minutes| && st.minutes[m].minute == MinuteOf(st.now)
    ensures Inv(c, AddWindow(st, m, key), d)
  {
    NewWindowRefs(st, d, m, key);
    var win := NewWindow(key, st.minutes[m].minute);
    FreshWindow(c, st, d, key, st.minutes[m].minute);
    AddWindowLive(st, m, key);
    WindowsPush(st.windows, win, All);
    forall m ensures InWindows(st.windows + [win], m) == InWindows(st.windows, m) {
      WindowsPush(st.windows, win, m);
    }
  }

  lemma PlanOneInv(c: Config, st: State, d: Plan, m: nat, tenant: Tenant, route: string, o: Occurrence, r: (State, Plan))
    requires Inv(c, st, d) && m < |st.minutes| && st.minutes[m].minute == MinuteOf(st.now)
    requires r == PlanOne(c, st, d, m, tenant, route, o)
    ensures Inv(c, r.0, r.1) && SameClock(st, r.0)
  {
    hide WindowsOk, ValidPlan;
    var row := st.minutes[m];
    var key := Key(tenant, route, o.identity);
    var found := FindWindow(st.windows, row.refs, key);
    assert found.Some? ==> !st.windows[found.value].flushed by {
      if found.Some? { ListedUnflushed(st, m, found.value); }
    }
    hide Inv;
    if found.Some? {
      PlanOnWindowInv(c, st, d, found.value, row.minute, o);
      assert SameClock(st, r.0);
    } else if |row.refs| < c.maxWindows {
      PlanNewWindowInv(c, st, d, m, key, o);
    } else {
      OverflowInv(c, st, d, o);
    }
  }

  lemma PlanNewWindowInv(c: Config, st: State, d: Plan, m: nat, key: Key, o: Occurrence)
    requires Inv(c, st, d) && m < |st.minutes| && st.minutes[m].minute == MinuteOf(st.now)
    ensures var (st', d') := PlanOnWindow(c, AddWindow(st, m, key), d, |st.windows|, st.minutes[m].minute, o);
            (Inv(c, st', d') && SameClock(st, st'))
  {
    var st1 := AddWindow(st, m, key);
    AddWindowInv(c, st, d, m, key);
    PlanOnWindowInv(c, st1, d, |st.windows|, st.minutes[m].minute, o);
  }

  lemma ListedUnflushed(st: State, m: nat, w: nat)
    requires LiveOk(st) && m < |st.minutes| && st.minutes[m].minute == MinuteOf(st.now) && w in st.minutes[m].refs
    ensures w < |st.windows| && !st.windows[w].flushed
  {
    assert RowOk(st, st.minutes[m]);
  }

  lemma OverflowInv(c: Config, st: State, d: Plan, o: Occurrence)
    requires Inv(c, st, d)
    ensures Inv(c, st.(overflow := st.overflow + 1), d.(kept := d.kept + [o]))
  {
    var st' := st.(overflow := st.overflow + 1);
    forall w | 0 <= w < |st.windows| ensures WindowOk(c, st.plans, d.(kept := d.kept + [o]), w, st.windows[w]) {
      SamePlan(c, st.plans, d, d.(kept := d.kept + [o]), w, st.windows[w]);
    }
    assert forall i | 0 <= i < |st.plans| :: ValidPlan(st, st.plans[i]) ==> ValidPlan(st', st.plans[i]);
    PlansKeep(c, st, st');
  }

  lemma SamePlan(c: Config, plans: seq<Plan>, d: Plan, d': Plan, w: nat, win: Window)
    requires WindowOk(c, plans, d, w, win)
    requires d'.folds == d.folds && d'.keptReservations == d.keptReservations && d'.touched == d.touched
    ensures WindowOk(c, plans, d', w, win)
  {
    forall id ensures IdOk(plans, d', w, win, id) { assert IdOk(plans, d, w, win, id); }
  }

  lemma {:induction false} PlanAllInv(
      c: Config, st: State, d: Plan, m: nat, tenant: Tenant, route: string, os: seq<Occurrence>)
    requires Inv(c, st, d) && m < |st.minutes| && st.minutes[m].minute == MinuteOf(st.now)
    ensures var (st', d') := PlanAll(c, st, d, m, tenant, route, os);
            Inv(c, st', d') && st'.log == st.log && st'.folded == st.folded
    decreases |os|
  {
    if os != [] {
      var (st1, d1) := PlanOne(c, st, d, m, tenant, route, os[0]);
      PlanOneInv(c, st, d, m, tenant, route, os[0], (st1, d1));
      PlanAllInv(c, st1, d1, m, tenant, route, os[1..]);
    }
  }

  /** The draft becomes the last row of the plan table. */
  lemma PushPlanInv(c: Config, st: State, d: Plan)
    requires Inv(c, st, d) && !d.settled
    ensures Inv(c, st.(plans := st.plans + [d]), EMPTY_PLAN)
  {
    var st' := st.(plans := st.plans + [d]);
    forall w | 0 <= w < |st.windows| ensures WindowOk(c, st'.plans, EMPTY_PLAN, w, st.windows[w]) {
      assert WindowOk(c, st.plans, d, w, st.windows[w]);
      PushPlan(st.plans, d, w, AnyId);
      forall id ensures IdOk(st'.plans, EMPTY_PLAN, w, st.windows[w], id) {
        assert IdOk(st.plans, d, w, st.windows[w], id);
        PushPlan(st.plans, d, w, OneId(id));
      }
    }
    forall i | 0 <= i < |st'.plans| ensures ValidPlan(st', st'.plans[i]) {
      if i < |st.plans| { assert ValidPlan(st, st.plans[i]); }
    }
    PlansKeep(c, st, st');
  }

  lemma OpenMinuteInv(c: Config, st: State)
    requires Inv(c, st, EMPTY_PLAN)
    ensures Inv(c, OpenMinute(st).0, EMPTY_PLAN)
  {
    hide WindowOk;
    var st' := OpenMinute(st).0;
    forall n | 0 <= n < |st'.minutes| ensures RowOk(st', st'.minutes[n]) {
      if n < |st.minutes| { assert RowOk(st, st.minutes[n]); }
    }
    forall w | 0 <= w < |st.windows|
      ensures LateOk(st', w) && SlotOwned(st', w) && (!st.windows[w].flushed ==> Listed(st', w))
    {
      assert LateOk(st, w) && SlotOwned(st, w);
      if !st.windows[w].flushed {
        assert Listed(st, w);
        var n :| 0 <= n < |st.minutes| && w in st.minutes[n].refs;
        assert w in st'.minutes[n].refs;
      }
    }
    forall m ensures Weight(st'.log, m) == Represented(st', m) {
      assert Weight(st.log, m) == Represented(st, m);
    }
  }

  lemma {:induction false} NeverSettled(
      c: Config, st: State, d: Plan, m: nat, tenant: Tenant, route: string, os: seq<Occurrence>)
    requires ValidRefs(st) && m < |st.minutes| && ValidPlan(st, d)
    ensures PlanAll(c, st, d, m, tenant, route, os).1.settled == d.settled
    decreases |os|
  {
    hide ValidRefs, ValidPlan;
    if os != [] {
      PlanOneRefs(c, st, d, m, tenant, route, os[0]);
      var (st1, d1) := PlanOne(c, st, d, m, tenant, route, os[0]);
      NeverSettled(c, st1, d1, m, tenant, route, os[1..]);
    }
  }

  lemma PlanBatchInv(c: Config, st: State, tenant: Tenant, route: string, os: seq<Occurrence>)
    requires Inv(c, st, EMPTY_PLAN)
    ensures var st' := PlanBatch(c, st, tenant, route, os);
            Inv(c, st', EMPTY_PLAN) && st'.log == st.log && st'.folded == st.folded
  {
    if c.after == 0 || os == [] {
      var d := EMPTY_PLAN.(kept := os);
      forall w | 0 <= w < |st.windows| ensures WindowOk(c, st.plans, d, w, st.windows[w]) {
        SamePlan(c, st.plans, EMPTY_PLAN, d, w, st.windows[w]);
      }
      PushPlanInv(c, st, d);
    } else {
      var (st0, m) := OpenMinute(st);
      OpenMinuteInv(c, st);
      PlanAllInv(c, st0, EMPTY_PLAN, m, tenant, route, os);
      NeverSettled(c, st0, EMPTY_PLAN, m, tenant, route, os);
      var (st1, d) := PlanAll(c, st0, EMPTY_PLAN, m, tenant, route, os);
      PushPlanInv(c, st1, d);
    }
  }

  // ---------- commit ----------

  /** Marking a plan settled moves its reservations to the request at hand; its kept ids are now final. */
  lemma SettledWindow(c: Config, plans: seq<Plan>, p: nat, d: Plan, w: nat, win: Window)
    requires p < |plans| && !plans[p].settled
    requires WindowOk(c, plans, EMPTY_PLAN, w, win)
    requires d.folds == plans[p].folds && d.touched == plans[p].touched
    requires d.keptReservations == [] || d.keptReservations == plans[p].keptReservations
    ensures WindowOk(c, plans[p := plans[p].(settled := true)], d, w, win)
  {
    SettlePlan(plans, p, w, AnyId);
    var settled := plans[p := plans[p].(settled := true)];
    forall id ensures IdOk(settled, d, w, win, id) {
      assert IdOk(plans, EMPTY_PLAN, w, win, id);
      SettlePlan(plans, p, w, OneId(id));
    }
  }

  lemma SettleInv(c: Config, st: State, p: nat, d: Plan)
    requires Inv(c, st, EMPTY_PLAN) && p < |st.plans| && !st.plans[p].settled
    requires d.folds == st.plans[p].folds && d.touched == st.plans[p].touched
    requires d.keptReservations == [] || d.keptReservations == st.plans[p].keptReservations
    ensures Inv(c, st.(plans := st.plans[p := st.plans[p].(settled := true)]), d)
  {
    var st' := st.(plans := st.plans[p := st.plans[p].(settled := true)]);
    forall w | 0 <= w < |st.windows| ensures WindowOk(c, st'.plans, d, w, st.windows[w]) {
      SettledWindow(c, st.plans, p, d, w, st.windows[w]);
    }
    assert ValidPlan(st, st.plans[p]);
    forall i | 0 <= i < |st'.plans| ensures ValidPlan(st', st'.plans[i]) {
      assert ValidPlan(st, st.plans[i]);
    }
    PlansKeep(c, st, st');
  }

  /** Counting a reserved fold turns a reservation into a committed fold. */
  lemma CommittedWindow(c: Config, plans: seq<Plan>, d: Plan, w: nat, win: Window, win': Window)
    requires d.folds != [] && d.folds[0].window == w && WindowOk(c, plans, d, w, win)
    requires win' == win.(reserved := win.reserved - 1, committed := win.committed + 1,
                          count := win'.count, sample := win'.sample, folds := win'.folds, late := win'.late)
    requires SampleOk(win')
    ensures WindowOk(c, plans, d.(folds := d.folds[1..]), w, win')
  {
    forall id ensures IdOk(plans, d.(folds := d.folds[1..]), w, win', id) {
      assert IdOk(plans, d, w, win, id);
    }
  }

  lemma FoldElsewhere(c: Config, plans: seq<Plan>, d: Plan, w: nat, win: Window)
    requires d.folds != [] && d.folds[0].window != w && WindowOk(c, plans, d, w, win)
    ensures WindowOk(c, plans, d.(folds := d.folds[1..]), w, win)
  {
    forall id ensures IdOk(plans, d.(folds := d.folds[1..]), w, win, id) {
      assert IdOk(plans, d, w, win, id);
    }
  }

  lemma NewestAfter(s: Occurrence, o: Occurrence, folds: multiset<Occurrence>)
    requires IsNewest(s, folds)
    ensures IsNewest(if Later(s, o) then o else s, folds + multiset{o})
  {
  }

  /** The window a fold was reserved on counts it now; an unflushed one still holds a slot. */
  lemma CommitWindowOk(c: Config, st: State, d: Plan)
    requires d.folds != [] && d.folds[0].window < |st.windows| && ValidRefs(st)
    requires WindowOk(c, st.plans, d, d.folds[0].window, st.windows[d.folds[0].window])
    ensures var st' := CommitOne(st, d.folds[0]);
            WindowOk(c, st.plans, d.(folds := d.folds[1..]), d.folds[0].window, st'.windows[d.folds[0].window])
  {
    var f := d.folds[0];
    hide WindowOk, SampleOk, CommitOne;
    ReservedFold(c, st.plans, d, st.windows[f.window]);
    CommittedSample(st, f);
    CommittedRow(st, f);
    CommittedWindow(c, st.plans, d, f.window, st.windows[f.window], CommitOne(st, f).windows[f.window]);
  }

  /** A window with a fold to commit has reserved it, and its sample is in order. */
  lemma ReservedFold(c: Config, plans: seq<Plan>, d: Plan, win: Window)
    requires d.folds != [] && WindowOk(c, plans, d, d.folds[0].window, win)
    ensures win.reserved > 0 && SampleOk(win)
  {}

  /** What committing a fold changes of its window. */
  lemma CommittedRow(st: State, f: Fold)
    requires f.window < |st.windows|
    requires st.windows[f.window].late.Some? ==> st.windows[f.window].late.value < |st.dues|
    ensures var win, win' := st.windows[f.window], CommitOne(st, f).windows[f.window];
            win' == win.(reserved := win.reserved - 1, committed := win.committed + 1,
                         count := win'.count, sample := win'.sample, folds := win'.folds, late := win'.late)
    ensures |CommitOne(st, f).windows| == |st.windows| && CommitOne(st, f).plans == st.plans
  {}

  lemma CommittedSample(st: State, f: Fold)
    requires f.window < |st.windows| && SampleOk(st.windows[f.window]) && st.windows[f.window].reserved > 0
    requires st.windows[f.window].late.Some? ==> st.windows[f.window].late.value < |st.dues|
    ensures SampleOk(CommitOne(st, f).windows[f.window])
  {
    var win := st.windows[f.window];
    if !win.flushed && win.sample.Some? { NewestAfter(win.sample.value, f.occurrence, win.folds); }
  }

  lemma CommitWindowsOk(c: Config, st: State, d: Plan)
    requires d.folds != [] && d.folds[0].window < |st.windows| && WindowsOk(c, st, d) && ValidRefs(st)
    ensures WindowsOk(c, CommitOne(st, d.folds[0]), d.(folds := d.folds[1..]))
  {
    var w := d.folds[0].window;
    assert WindowOk(c, st.plans, d, w, st.windows[w]);
    CommitWindowOk(c, st, d);
    var st' := CommitOne(st, d.folds[0]);
    forall i | 0 <= i < |st.windows|
      ensures WindowOk(c, st'.plans, d.(folds := d.folds[1..]), i, st'.windows[i])
    {
      if i != w { FoldElsewhere(c, st.plans, d, i, st.windows[i]); }
    }
  }

  /** Committing one fold adds it once to what is represented. */
  lemma CommitSums(c: Config, st: State, f: Fold)
    requires ValidRefs(st) && SlotsOk(c, st) && DuesOk(st) && Conserved(st) && f.window < |st.windows|
    requires ValidRefs(CommitOne(st, f))
    ensures SlotsOk(c, CommitOne(st, f)) && Conserved(CommitOne(st, f))
  {
    var st' := CommitOne(st, f);
    WindowsUpdate(st.windows, f.window, st'.windows[f.window], All);
    forall m ensures Weight(st'.log, m) == Represented(st', m) { CommitConserves(st, f, m); }
  }

  lemma CommitConserves(st: State, f: Fold, m: Which)
    requires ValidRefs(st) && DuesOk(st) && Conserved(st) && f.window < |st.windows|
    requires ValidRefs(CommitOne(st, f))
    ensures Weight(CommitOne(st, f).log, m) == Represented(CommitOne(st, f), m)
  {
    hide DuesOk;
    var st', w := CommitOne(st, f), f.window;
    assert Weight(st.log, m) == Represented(st, m);
    assert Weight(st'.log, m) == Weight(st.log, m) + Unit(f.occurrence, m);
    WindowsUpdate(st.windows, w, st'.windows[w], m);
    if st.windows[w].flushed { CommitDueSums(st, f, m); }
  }

  lemma CommitNewDue(st: State, f: Fold, m: Which)
    requires ValidRefs(st) && f.window < |st.windows| && st.windows[f.window].flushed && st.windows[f.window].late.None?
    requires ValidRefs(CommitOne(st, f))
    ensures var st' := CommitOne(st, f);
            && InDues(st'.dues, st'.carry, m) == InDues(st.dues, st.carry, m) + Unit(f.occurrence, m)
            && InDues(st'.dues, st'.writing, m) == InDues(st.dues, st.writing, m)
  {
    var st' := CommitOne(st, f);
    DuesSame(st.dues, st'.dues, st.carry, m);
    DuesSame(st.dues, st'.dues, st.writing, m);
    DuesAppend(st'.dues, st.carry, [|st.dues|], m);
  }

  lemma CommitDueSums(st: State, f: Fold, m: Which)
    requires ValidRefs(st) && DuesOk(st) && f.window < |st.windows| && st.windows[f.window].flushed
    requires ValidRefs(CommitOne(st, f))
    ensures var st' := CommitOne(st, f);
            && InDues(st'.dues, st'.carry, m) == InDues(st.dues, st.carry, m) + Unit(f.occurrence, m)
            && InDues(st'.dues, st'.writing, m) == InDues(st.dues, st.writing, m)
  {
    if st.windows[f.window].late.None? {
      CommitNewDue(st, f, m);
    } else {
      hide OwnerFlushed, SlotOwned, DueOk;
      var st' := CommitOne(st, f);
      var l := st.windows[f.window].late.value;
      assert LateOk(st, f.window);
      CarriedOnce(st, l);
      DuesUpdate(st.dues, st.carry, l, st'.dues[l], m);
      DuesSame(st.dues, st'.dues, st.writing, m);
    }
  }

  lemma CommitFlow(st: State, f: Fold)
    requires ValidRefs(st) && DuesOk(st) && LiveOk(st) && f.window < |st.windows|
    ensures DuesOk(CommitOne(st, f)) && LiveOk(CommitOne(st, f))
  {
    var win := st.windows[f.window];
    if !win.flushed {
      assert LateOk(st, f.window);
      SameFlushKeeps(st, CommitOne(st, f));
    } else if win.late.None? {
      CommitLateNewDues(st, f);
    } else {
      CommitLateMoreDues(st, f);
    }
  }

  lemma CommitRefs(st: State, d: Plan)
    requires ValidRefs(st) && ValidPlan(st, d) && d.folds != []
    ensures var st' := CommitOne(st, d.folds[0]); ValidRefs(st') && ValidPlan(st', d.(folds := d.folds[1..]))
  {
    CommitHead(st, d.folds);
    hide ValidRefs, CommitOne;
  }

  lemma CommitLateNewDues(st: State, f: Fold)
    requires ValidRefs(st) && DuesOk(st) && LiveOk(st) && f.window < |st.windows|
    requires st.windows[f.window].flushed && st.windows[f.window].late.None?
    ensures DuesOk(CommitOne(st, f)) && LiveOk(CommitOne(st, f))
  {
    var st' := CommitOne(st, f);
    var all, all' := st.carry + st.writing, st'.carry + st'.writing;
    assert forall r :: r in all' <==> r in all || r == |st.dues|;
    assert forall r | r in all :: st'.dues[r] == st.dues[r] && DueOk(st.dues[r]);
    forall w | 0 <= w < |st'.windows|
      ensures LateOk(st', w) && SlotOwned(st', w) && (!st'.windows[w].flushed ==> Listed(st', w))
    {
      assert LateOk(st, w) && SlotOwned(st, w);
      assert !st.windows[w].flushed ==> Listed(st, w);
    }
    InsertDistinct(st.carry, |st.dues|, st.writing);
    LiveKept(st, st');
  }

  lemma InsertDistinct(a: seq<nat>, x: nat, b: seq<nat>)
    requires Distinct(a + b) && x !in a + b
    ensures Distinct((a + [x]) + b)
  {
    var all, all' := a + b, (a + [x]) + b;
    var n := |a|;
    forall i, j | 0 <= i < j < |all'| ensures all'[i] != all'[j] {
      assert all'[i] == if i < n then all[i] else if i == n then x else all[i - 1];
      assert all'[j] == if j < n then all[j] else if j == n then x else all[j - 1];
      assert i < n ==> all[i] in all;
      assert j > n ==> all[j - 1] in all;
    }
  }

  /** Windows that keep their minute and their flush stay listed. */
  lemma LiveKept(st: State, st': State)
    requires LiveOk(st) && |st'.windows| == |st.windows| && st'.minutes == st.minutes && st'.now == st.now
    requires forall i | 0 <= i < |st.windows| ::
      st'.windows[i].minute == st.windows[i].minute && st'.windows[i].flushed == st.windows[i].flushed
    ensures LiveOk(st')
  {
    forall w | 0 <= w < |st'.windows| && !st'.windows[w].flushed ensures Listed(st', w) {
      assert Listed(st, w);
    }
    forall m | 0 <= m < |st'.minutes| ensures RowOk(st', st'.minutes[m]) {
      assert RowOk(st, st.minutes[m]);
    }
  }

  lemma CarriedOnce(st: State, l: nat)
    requires Distinct(st.carry + st.writing) && l in st.carry
    ensures Distinct(st.carry) && l !in st.writing
  {
    var all := st.carry + st.writing;
    assert forall i | 0 <= i < |st.carry| :: all[i] == st.carry[i];
    assert forall i | 0 <= i < |st.writing| :: all[|st.carry| + i] == st.writing[i];
  }

  lemma CommitLateMoreDues(st: State, f: Fold)
    requires ValidRefs(st) && DuesOk(st) && LiveOk(st) && f.window < |st.windows|
    requires st.windows[f.window].flushed && st.windows[f.window].late.Some?
    ensures DuesOk(CommitOne(st, f)) && LiveOk(CommitOne(st, f))
  {
    var st' := CommitOne(st, f);
    var l := st.windows[f.window].late.value;
    assert LateOk(st, f.window);
    assert l in st.carry + st.writing;
    assert DueOk(st.dues[l]);
    NewestAfter(st.dues[l].sample, f.occurrence, st.dues[l].folds);
    assert DueOk(st'.dues[l]);
    assert forall r | r in st.carry + st.writing && r != l :: st'.dues[r] == st.dues[r] && DueOk(st.dues[r]);
    forall w | 0 <= w < |st'.windows| ensures LateOk(st', w) && SlotOwned(st', w) {
      assert LateOk(st, w) && SlotOwned(st, w);
    }
    LiveKept(st, st');
  }

  lemma CommitOneInv(c: Config, st: State, d: Plan)
    requires Inv(c, st, d) && d.folds != []
    ensures Inv(c, CommitOne(st, d.folds[0]), d.(folds := d.folds[1..]))
  {
    hide WindowsOk, SlotsOk, DuesOk, LiveOk, Conserved;
    CommitRefs(st, d);
    CommitWindowsOk(c, st, d);
    CommitFlow(st, d.folds[0]);
    CommitSums(c, st, d.folds[0]);
  }

  lemma {:induction false} CommitFoldsInv(c: Config, st: State, d: Plan)
    requires Inv(c, st, d)
    ensures Inv(c, CommitFolds(st, d.folds), d.(folds := []))
    ensures var st' := CommitFolds(st, d.folds);
            |st'.log| == |st.log| + |d.folds| && st'.folded == st.folded && st'.plans == st.plans
    decreases |d.folds|
  {
    if d.folds == [] {
      assert d.(folds := []) == d;
    } else {
      CommitOneInv(c, st, d);
      CommitHead(st, d.folds);
      assert |CommitOne(st, d.folds[0]).log| == |st.log| + 1;
      hide Inv, ValidRefs, ValidFolds;
      CommitFoldsInv(c, CommitOne(st, d.folds[0]), d.(folds := d.folds[1..]));
    }
  }

  lemma ReleaseWindowsOk(c: Config, st: State, d: Plan)
    requires WindowsOk(c, st, d) && d.folds == [] && d.keptReservations == []
    ensures WindowsOk(c, Release(st, d.touched), EMPTY_PLAN)
  {
    hide IsNewest;
    var st' := Release(st, d.touched);
    forall w | 0 <= w < |st.windows| ensures WindowOk(c, st'.plans, EMPTY_PLAN, w, st'.windows[w]) {
      assert WindowOk(c, st.plans, d, w, st.windows[w]);
      forall id ensures IdOk(st'.plans, EMPTY_PLAN, w, st'.windows[w], id) {
        assert IdOk(st.plans, d, w, st.windows[w], id);
      }
    }
  }

  /** A settled request lets go of the windows it held. */
  lemma ReleaseInv(c: Config, st: State, d: Plan)
    requires Inv(c, st, d) && d.folds == [] && d.keptReservations == []
    ensures Inv(c, Release(st, d.touched), EMPTY_PLAN)
  {
    hide WindowsOk, SlotsOk, DuesOk, LiveOk, Conserved;
    var st' := Release(st, d.touched);
    ReleaseWindowsOk(c, st, d);
    SameFlushKeeps(st, st');
    RefsKept(st, st', EMPTY_PLAN);
    SameSums(c, st, st');
  }

  /** Rows that keep their references keep pointing at rows. */
  lemma RefsKept(st: State, st': State, d: Plan)
    requires ValidRefs(st) && |st'.windows| == |st.windows| && |st'.dues| == |st.dues|
    requires forall i | 0 <= i < |st.windows| :: st'.windows[i].late == st.windows[i].late
    requires forall i | 0 <= i < |st.dues| ::
      st'.dues[i].window == st.dues[i].window && st'.dues[i].lateOf == st.dues[i].lateOf
    requires st'.plans == st.plans && st'.minutes == st.minutes && st'.carry == st.carry && st'.writing == st.writing
    ensures ValidRefs(st') && (ValidPlan(st, d) ==> ValidPlan(st', d))
  {
    forall i | 0 <= i < |st'.plans| ensures ValidPlan(st', st'.plans[i]) {
      assert ValidPlan(st, st.plans[i]);
    }
  }

  lemma SameSums(c: Config, st: State, st': State)
    requires SlotsOk(c, st) && ValidRefs(st) && Conserved(st) && |st'.windows| == |st.windows|
    requires forall i | 0 <= i < |st.windows| ::
      && st'.windows[i].folds == st.windows[i].folds && st'.windows[i].flushed == st.windows[i].flushed
      && st'.windows[i].holdsSlot == st.windows[i].holdsSlot
    requires st'.log == st.log && st'.stored == st.stored && st'.dues == st.dues && st'.heldSamples == st.heldSamples
    requires st'.carry == st.carry && st'.writing == st.writing
    ensures SlotsOk(c, st') && Conserved(st')
  {
    WindowsSame(st.windows, st'.windows, All);
    forall m ensures Weight(st'.log, m) == Represented(st', m) {
      assert Weight(st.log, m) == Represented(st, m);
      WindowsSame(st.windows, st'.windows, m);
    }
  }

  lemma CommitInv(c: Config, st: State, p: nat)
    requires Inv(c, st, EMPTY_PLAN) && p < |st.plans|
    ensures Inv(c, Commit(st, p), EMPTY_PLAN)
    ensures Commit(st, p).folded - st.folded == |Commit(st, p).log| - |st.log|
  {
    var plan := st.plans[p];
    if !plan.settled {
      var d := EMPTY_PLAN.(folds := plan.folds, touched := plan.touched);
      var st0 := st.(plans := st.plans[p := plan.(settled := true)]);
      SettleInv(c, st, p, d);
      InvRefs(c, st0, d);
      hide Inv;
      CommitFoldsInv(c, st0, d);
      var st1 := CommitFolds(st0, plan.folds);
      var st2 := st1.(folded := st1.folded + |plan.folds|);
      CounterInv(c, st1, st2, d.(folds := []));
      ReleaseInv(c, st2, d.(folds := []));
      assert Commit(st, p) == Release(st2, plan.touched);
    }
  }

  /** The statistics are no part of the invariant. */
  lemma CounterInv(c: Config, st: State, st': State, d: Plan)
    requires Inv(c, st, d)
    requires st' == st.(folded := st'.folded, samplesFlushed := st'.samplesFlushed, failedFlushes := st'.failedFlushes)
    ensures Inv(c, st', d)
  {
    SameFlushKeeps(st, st');
    RefsKept(st, st', d);
    SameSums(c, st, st');
  }

  // ---------- rollback ----------

  lemma ReleasedHoldWindow(c: Config, plans: seq<Plan>, d: Plan, w: nat, win: Window)
    requires d.keptReservations != [] && WindowOk(c, plans, d, w, win)
    ensures var h := d.keptReservations[0];
            var win' := if h.window == w then win.(admitted := win.admitted - 1, kept := win.kept - {h.id}) else win;
            WindowOk(c, plans, d.(keptReservations := d.keptReservations[1..]), w, win')
  {
    var h := d.keptReservations[0];
    var d' := d.(keptReservations := d.keptReservations[1..]);
    var win' := if h.window == w then win.(admitted := win.admitted - 1, kept := win.kept - {h.id}) else win;
    assert IdOk(plans, d, w, win, h.id);
    forall id ensures IdOk(plans, d', w, win', id) {
      assert IdOk(plans, d, w, win, id);
    }
  }

  lemma {:induction false} ReleaseHoldsInv(c: Config, st: State, d: Plan)
    requires Inv(c, st, d)
    ensures Inv(c, ReleaseHolds(st, d.keptReservations), d.(keptReservations := []))
    decreases |d.keptReservations|
  {
    hide RestOk, WindowsOk;
    if d.keptReservations == [] {
      assert d.(keptReservations := []) == d;
    } else {
      var h := d.keptReservations[0];
      var win := st.windows[h.window];
      var st' := st.(windows := st.windows[h.window := win.(admitted := win.admitted - 1, kept := win.kept - {h.id})]);
      var d' := d.(keptReservations := d.keptReservations[1..]);
      ReleaseHoldInv(c, st, d, st', d');
      ReleaseHoldsInv(c, st', d');
    }
  }

  lemma ReleaseHoldInv(c: Config, st: State, d: Plan, st': State, d': Plan)
    requires Inv(c, st, d) && d.keptReservations != [] && d' == d.(keptReservations := d.keptReservations[1..])
    requires var h := d.keptReservations[0]; var win := st.windows[h.window];
             st' == st.(windows := st.windows[h.window := win.(admitted := win.admitted - 1, kept := win.kept - {h.id})])
    ensures Inv(c, st', d')
  {
    hide SlotsOk, DuesOk, LiveOk, Conserved, WindowsOk;
    ReleaseHoldWindows(c, st, d, st', d');
    SameFlushKeeps(st, st');
    RefsKept(st, st', d);
    SameSums(c, st, st');
  }

  lemma ReleaseHoldWindows(c: Config, st: State, d: Plan, st': State, d': Plan)
    requires WindowsOk(c, st, d) && d.keptReservations != [] && d' == d.(keptReservations := d.keptReservations[1..])
    requires d.keptReservations[0].window < |st.windows|
    requires var h := d.keptReservations[0]; var win := st.windows[h.window];
             st' == st.(windows := st.windows[h.window := win.(admitted := win.admitted - 1, kept := win.kept - {h.id})])
    ensures WindowsOk(c, st', d')
  {
    forall w | 0 <= w < |st.windows| ensures WindowOk(c, st'.plans, d', w, st'.windows[w]) {
      ReleasedHoldWindow(c, st.plans, d, w, st.windows[w]);
    }
  }

  lemma RolledBackWindow(c: Config, plans: seq<Plan>, d: Plan, w: nat, win: Window, win': Window)
    requires d.folds != [] && d.folds[0].window == w && WindowOk(c, plans, d, w, win)
    requires win' == win.(admitted := win.admitted - 1, reserved := win.reserved - 1,
      foldedIds := if win.foldedIds.Some? then Some(win.foldedIds.value - {d.folds[0].occurrence.id}) else None,
      holdsSlot := win'.holdsSlot)
    requires win'.holdsSlot == (win.holdsSlot && (win.flushed || win.count != 0 || win.reserved != 1))
    ensures WindowOk(c, plans, d.(folds := d.folds[1..]), w, win')
  {
    assert IdOk(plans, d, w, win, d.folds[0].occurrence.id);
    forall id ensures IdOk(plans, d.(folds := d.folds[1..]), w, win', id) {
      assert IdOk(plans, d, w, win, id);
    }
  }

  lemma RollbackWindowsOk(c: Config, st: State, d: Plan)
    requires WindowsOk(c, st, d) && d.folds != [] && d.folds[0].window < |st.windows|
    ensures WindowsOk(c, RollbackOne(st, d.folds[0]), d.(folds := d.folds[1..]))
  {
    var w := d.folds[0].window;
    var st' := RollbackOne(st, d.folds[0]);
    assert st'.windows == st.windows[w := st'.windows[w]];
    RolledBackWindow(c, st.plans, d, w, st.windows[w], st'.windows[w]);
    forall i | 0 <= i < |st.windows| ensures WindowOk(c, st'.plans, d.(folds := d.folds[1..]), i, st'.windows[i]) {
      if i != w { FoldElsewhere(c, st.plans, d, i, st.windows[i]); }
    }
  }

  lemma RollbackOneInv(c: Config, st: State, d: Plan)
    requires Inv(c, st, d) && d.folds != []
    ensures Inv(c, RollbackOne(st, d.folds[0]), d.(folds := d.folds[1..]))
  {
    var w := d.folds[0].window;
    var st' := RollbackOne(st, d.folds[0]);
    assert Adjusted(c, st, st', w) by { assert st.heldSamples <= c.maxSamples; }
    hide RestOk, Adjusted;
    RollbackWindowsOk(c, st, d);
    hide WindowsOk;
    AdjustedKeeps(c, st, st', w, d);
  }

  lemma {:induction false} RollbackFoldsInv(c: Config, st: State, d: Plan)
    requires Inv(c, st, d)
    ensures Inv(c, RollbackFolds(st, d.folds), d.(folds := []))
    decreases |d.folds|
  {
    if d.folds == [] {
      assert d.(folds := []) == d;
    } else {
      RollbackOneInv(c, st, d);
      RollbackFoldsInv(c, RollbackOne(st, d.folds[0]), d.(folds := d.folds[1..]));
    }
  }

  lemma {:induction false} ReleaseHoldsLog(st: State, holds: seq<Hold>)
    requires ValidHolds(st, holds)
    ensures var st' := ReleaseHolds(st, holds); st'.log == st.log && st'.folded == st.folded
    decreases |holds|
  {
    if holds != [] {
      var win := st.windows[holds[0].window];
      ReleaseHoldsLog(
        st.(windows := st.windows[holds[0].window := win.(admitted := win.admitted - 1, kept := win.kept - {holds[0].id})]),
        holds[1..]);
    }
  }

  lemma {:induction false} RollbackFoldsLog(st: State, folds: seq<Fold>)
    requires ValidFolds(st, folds)
    ensures var st' := RollbackFolds(st, folds); st'.log == st.log && st'.folded == st.folded
    decreases |folds|
  {
    if folds != [] { RollbackFoldsLog(RollbackOne(st, folds[0]), folds[1..]); }
  }

  lemma RollbackInv(c: Config, st: State, p: nat)
    requires Inv(c, st, EMPTY_PLAN) && p < |st.plans|
    ensures Inv(c, Rollback(st, p), EMPTY_PLAN)
    ensures Rollback(st, p).folded == st.folded && Rollback(st, p).log == st.log
  {
    var plan := st.plans[p];
    if !plan.settled {
      var d := EMPTY_PLAN.(folds := plan.folds, touched := plan.touched, keptReservations := plan.keptReservations);
      var st0 := st.(plans := st.plans[p := plan.(settled := true)]);
      SettleInv(c, st, p, d);
      ReleaseHoldsInv(c, st0, d);
      var st1 := ReleaseHolds(st0, plan.keptReservations);
      RollbackFoldsInv(c, st1, d.(keptReservations := []));
      ReleaseHoldsLog(st0, plan.keptReservations);
      RollbackFoldsLog(st1, plan.folds);
      var st2 := RollbackFolds(st1, plan.folds);
      ReleaseInv(c, st2, d.(keptReservations := [], folds := []));
      assert Rollback(st, p) == Release(st2, plan.touched);
    }
  }
}
