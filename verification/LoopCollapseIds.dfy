/** How each step of loop collapse changes the ids a window recognises, and where its minute lists it. */
module LoopCollapseIds {
  import opened Wrappers
  import opened LoopCollapseModel
  import opened LoopCollapseSums
  import opened LoopCollapseProofs
  import opened LoopCollapseFlushProofs
  import opened LoopCollapseReplan
  import opened LoopCollapseTheorems

  /** An occurrence with this id is recognised: stored again, or reported as repeated. */
  predicate Knows(win: Window, id: string) {
    id in win.kept || (win.foldedIds.Some? && id in win.foldedIds.value)
  }

  predicate HoldsId(holds: seq<Hold>, w: nat, id: string) {
    exists i | 0 <= i < |holds| :: holds[i] == Hold(w, id)
  }

  predicate FoldsId(folds: seq<Fold>, w: nat, id: string) {
    exists i | 0 <= i < |folds| :: folds[i].window == w && folds[i].occurrence.id == id
  }

  /** The request reserved the id on window `w`: to keep it, or to fold it. */
  predicate Reserves(p: Plan, w: nat, id: string) {
    HoldsId(p.keptReservations, w, id) || FoldsId(p.folds, w, id)
  }

  /** The step rolls back a request that reserved the id. */
  predicate GivesBack(st: State, e: Event, w: nat, id: string) {
    e.RollbackRequest? && e.plan < |st.plans| && !st.plans[e.plan].settled && Reserves(st.plans[e.plan], w, id)
  }

  /** The step plans a request that reserves the id. */
  predicate TakesUp(st: State, e: Event, st': State, w: nat, id: string) {
    e.PlanRequest? && |st.plans| < |st'.plans| && Reserves(st'.plans[|st.plans|], w, id)
  }

  // ---------- planning ----------

  lemma PushReserves(d: Plan, h: Hold, f: Fold, w: nat, id: string)
    ensures HoldsId(d.keptReservations + [h], w, id) <==> HoldsId(d.keptReservations, w, id) || h == Hold(w, id)
    ensures FoldsId(d.folds + [f], w, id) <==> FoldsId(d.folds, w, id) || (f.window == w && f.occurrence.id == id)
  {
    var holds, folds := d.keptReservations + [h], d.folds + [f];
    assert holds[|d.keptReservations|] == h && folds[|d.folds|] == f;
    forall i | 0 <= i < |d.keptReservations| ensures holds[i] == d.keptReservations[i] {}
    forall i | 0 <= i < |d.folds| ensures folds[i] == d.folds[i] {}
  }

  /** Planning reserves exactly the ids it makes known. */
  ghost predicate Learns(a: Window, b: Window, d: Plan, d': Plan, w: nat, id: string) {
    && b.key == a.key && (id in a.kept ==> id in b.kept)
    && (Reserves(d, w, id) ==> Reserves(d', w, id))
    && (b.foldedIds.Some? ==>
          && a.foldedIds.Some? && (id in a.foldedIds.value ==> id in b.foldedIds.value)
          && (Knows(b, id) ==> Knows(a, id) || Reserves(d', w, id))
          && (Reserves(d', w, id) ==> Reserves(d, w, id) || Knows(b, id)))
  }

  lemma LearnsTwice(a: Window, b: Window, c: Window, d: Plan, d1: Plan, d2: Plan, w: nat, id: string)
    requires Learns(a, b, d, d1, w, id) && Learns(b, c, d1, d2, w, id)
    ensures Learns(a, c, d, d2, w, id)
  {}

  lemma PlanOnWindowLearns(c: Config, st: State, d: Plan, v: nat, minute: int, o: Occurrence, w: nat, id: string)
    requires v < |st.windows| && w < |st.windows|
    ensures var (st', d') := PlanOnWindow(c, st, d, v, minute, o);
            Learns(st.windows[w], st'.windows[w], d, d', w, id)
  {
    PushReserves(d, Hold(v, o.id), Fold(v, o), w, id);
  }

  lemma PlanOneLearns(c: Config, st: State, d: Plan, m: nat, tenant: Tenant, route: string, o: Occurrence, w: nat, id: string)
    requires ValidRefs(st) && m < |st.minutes| && w < |st.windows|
    ensures var (st', d') := PlanOne(c, st, d, m, tenant, route, o);
            |st.windows| <= |st'.windows| && Learns(st.windows[w], st'.windows[w], d, d', w, id)
  {
    var row := st.minutes[m];
    var found := Lookup(st, m, tenant, route, o);
    if found.Some? {
      PlanOnWindowLearns(c, st, d, found.value, row.minute, o, w, id);
    } else if |row.refs| < c.maxWindows {
      var st1 := AddWindow(st, m, Key(tenant, route, o.identity));
      assert st1.windows[w] == st.windows[w];
      PlanOnWindowLearns(c, st1, d, |st.windows|, row.minute, o, w, id);
    }
  }

  lemma {:induction false} PlanAllLearns(
      c: Config, st: State, d: Plan, m: nat, tenant: Tenant, route: string, os: seq<Occurrence>, w: nat, id: string)
    requires ValidRefs(st) && m < |st.minutes| && ValidPlan(st, d) && w < |st.windows|
    ensures var (st', d') := PlanAll(c, st, d, m, tenant, route, os);
            |st.windows| <= |st'.windows| && Learns(st.windows[w], st'.windows[w], d, d', w, id)
    decreases |os|
  {
    if os != [] {
      PlanOneRefs(c, st, d, m, tenant, route, os[0]);
      PlanOneLearns(c, st, d, m, tenant, route, os[0], w, id);
      var (st1, d1) := PlanOne(c, st, d, m, tenant, route, os[0]);
      PlanAllLearns(c, st1, d1, m, tenant, route, os[1..], w, id);
      var (st', d') := PlanAll(c, st1, d1, m, tenant, route, os[1..]);
      LearnsTwice(st.windows[w], st1.windows[w], st'.windows[w], d, d1, d', w, id);
    }
  }

  // ---------- rolling back ----------

  lemma {:induction false} ReleaseHoldsForgets(st: State, holds: seq<Hold>, w: nat, id: string)
    requires ValidHolds(st, holds) && w < |st.windows|
    ensures var a, b := st.windows[w], ReleaseHolds(st, holds).windows[w];
            && b.key == a.key && b.foldedIds == a.foldedIds
            && (id in b.kept <==> id in a.kept && !HoldsId(holds, w, id))
    decreases |holds|
  {
    if holds != [] {
      var h := holds[0];
      var win := st.windows[h.window];
      var one := st.(windows := st.windows[h.window := win.(admitted := win.admitted - 1, kept := win.kept - {h.id})]);
      ReleaseHoldsForgets(one, holds[1..], w, id);
      assert HoldsId(holds, w, id) <==> h == Hold(w, id) || HoldsId(holds[1..], w, id) by {
        forall i | 0 <= i < |holds[1..]| ensures holds[1..][i] == holds[i + 1] {}
        if HoldsId(holds, w, id) && h != Hold(w, id) {
          var i :| 0 <= i < |holds| && holds[i] == Hold(w, id);
          assert holds[1..][i - 1] == Hold(w, id);
        }
      }
    }
  }

  lemma RollbackOneForgets(st: State, f: Fold, w: nat, id: string)
    requires f.window < |st.windows| && w < |st.windows|
    ensures var a, b := st.windows[w], RollbackOne(st, f).windows[w];
            && b.key == a.key && b.kept == a.kept && b.foldedIds.Some? == a.foldedIds.Some?
            && (b.foldedIds.Some? ==>
                  (id in b.foldedIds.value <==> id in a.foldedIds.value && !(f.window == w && f.occurrence.id == id)))
  {}

  lemma {:induction false} RollbackFoldsForgets(st: State, folds: seq<Fold>, w: nat, id: string)
    requires ValidFolds(st, folds) && w < |st.windows|
    ensures var a, b := st.windows[w], RollbackFolds(st, folds).windows[w];
            && b.key == a.key && b.kept == a.kept && b.foldedIds.Some? == a.foldedIds.Some?
            && (b.foldedIds.Some? ==> (id in b.foldedIds.value <==> id in a.foldedIds.value && !FoldsId(folds, w, id)))
    decreases |folds|
  {
    if folds != [] {
      RollbackOneForgets(st, folds[0], w, id);
      RollbackFoldsForgets(RollbackOne(st, folds[0]), folds[1..], w, id);
      FoldsIdHead(folds, w, id);
    }
  }

  lemma FoldsIdHead(folds: seq<Fold>, w: nat, id: string)
    requires folds != []
    ensures FoldsId(folds, w, id) <==>
              (folds[0].window == w && folds[0].occurrence.id == id) || FoldsId(folds[1..], w, id)
  {
    forall i | 0 <= i < |folds[1..]| ensures folds[1..][i] == folds[i + 1] {}
    if FoldsId(folds, w, id) && !(folds[0].window == w && folds[0].occurrence.id == id) {
      var i :| 0 <= i < |folds| && folds[i].window == w && folds[i].occurrence.id == id;
      assert folds[1..][i - 1] == folds[i];
    }
  }

  /** A rollback forgets exactly the ids the request reserved. */
  lemma RollbackForgets(st: State, p: nat, w: nat, id: string)
    requires ValidRefs(st) && p < |st.plans| && !st.plans[p].settled && w < |st.windows|
    ensures |Rollback(st, p).windows| == |st.windows|
    ensures var a, b, plan := st.windows[w], Rollback(st, p).windows[w], st.plans[p];
            && b.key == a.key && b.foldedIds.Some? == a.foldedIds.Some?
            && (id in b.kept <==> id in a.kept && !HoldsId(plan.keptReservations, w, id))
            && (b.foldedIds.Some? ==>
                  (id in b.foldedIds.value <==> id in a.foldedIds.value && !FoldsId(plan.folds, w, id)))
  {
    var plan := st.plans[p];
    assert ValidPlan(st, plan);
    var st0 := st.(plans := st.plans[p := plan.(settled := true)]);
    ReleaseHoldsForgets(st0, plan.keptReservations, w, id);
    RollbackFoldsForgets(ReleaseHolds(st0, plan.keptReservations), plan.folds, w, id);
  }

  lemma {:induction false} ReleaseHoldsMinutes(st: State, holds: seq<Hold>)
    requires ValidHolds(st, holds)
    ensures ReleaseHolds(st, holds).minutes == st.minutes
    decreases |holds|
  {
    if holds != [] {
      var win := st.windows[holds[0].window];
      ReleaseHoldsMinutes(
        st.(windows := st.windows[holds[0].window := win.(admitted := win.admitted - 1, kept := win.kept - {holds[0].id})]),
        holds[1..]);
    }
  }

  lemma {:induction false} RollbackFoldsMinutes(st: State, folds: seq<Fold>)
    requires ValidFolds(st, folds)
    ensures RollbackFolds(st, folds).minutes == st.minutes
    decreases |folds|
  {
    if folds != [] { RollbackFoldsMinutes(RollbackOne(st, folds[0]), folds[1..]); }
  }

  lemma RollbackMinutes(st: State, p: nat)
    requires ValidRefs(st) && p < |st.plans|
    ensures Rollback(st, p).minutes == st.minutes && |Rollback(st, p).windows| == |st.windows|
  {
    var plan := st.plans[p];
    if !plan.settled {
      assert ValidPlan(st, plan);
      var st0 := st.(plans := st.plans[p := plan.(settled := true)]);
      ReleaseHoldsMinutes(st0, plan.keptReservations);
      RollbackFoldsMinutes(ReleaseHolds(st0, plan.keptReservations), plan.folds);
    }
  }

  lemma {:induction false} HeldOnce(holds: seq<Hold>, w: nat, id: string)
    requires HoldsId(holds, w, id)
    ensures HoldSum(holds, w, OneId(id)) >= 1
  {
    if holds[0] != Hold(w, id) {
      var i :| 0 <= i < |holds| && holds[i] == Hold(w, id);
      assert holds[1..][i - 1] == Hold(w, id);
      HeldOnce(holds[1..], w, id);
    }
  }

  lemma {:induction false} FoldedOnce(folds: seq<Fold>, w: nat, id: string)
    requires FoldsId(folds, w, id)
    ensures FoldSum(folds, w, OneId(id)) >= 1
  {
    FoldsIdHead(folds, w, id);
    if !(folds[0].window == w && folds[0].occurrence.id == id) { FoldedOnce(folds[1..], w, id); }
  }

  /** What an open request reserved is recorded on its window, as kept or as folded, never both. */
  lemma ReservedIsKnown(c: Config, st: State, p: nat, w: nat, id: string)
    requires Inv(c, st, EMPTY_PLAN) && p < |st.plans| && !st.plans[p].settled && w < |st.windows|
    ensures var win, plan := st.windows[w], st.plans[p];
            && (HoldsId(plan.keptReservations, w, id) ==> id in win.kept)
            && (win.foldedIds.Some? ==>
                  (FoldsId(plan.folds, w, id) ==> id in win.foldedIds.value) && win.foldedIds.value !! win.kept)
  {
    assert WindowOk(c, st.plans, EMPTY_PLAN, w, st.windows[w]);
    assert IdOk(st.plans, EMPTY_PLAN, w, st.windows[w], id);
    SettlePlan(st.plans, p, w, OneId(id));
    if HoldsId(st.plans[p].keptReservations, w, id) { HeldOnce(st.plans[p].keptReservations, w, id); }
    if FoldsId(st.plans[p].folds, w, id) { FoldedOnce(st.plans[p].folds, w, id); }
  }

  // ---------- the other steps ----------

  /** Every window recognises what it did. */
  ghost predicate SameKnown(st: State, st': State) {
    && |st'.windows| == |st.windows|
    && (forall w | 0 <= w < |st.windows| ::
          var a, b := st.windows[w], st'.windows[w];
          b.key == a.key && b.kept == a.kept && b.foldedIds == a.foldedIds)
  }

  lemma {:induction false} CommitFoldsKnown(st: State, folds: seq<Fold>)
    requires ValidRefs(st) && ValidFolds(st, folds)
    ensures SameKnown(st, CommitFolds(st, folds)) && CommitFolds(st, folds).minutes == st.minutes
    decreases |folds|
  {
    if folds != [] {
      CommitHead(st, folds);
      assert SameKnown(st, CommitOne(st, folds[0]));
      hide ValidRefs, ValidFolds;
      CommitFoldsKnown(CommitOne(st, folds[0]), folds[1..]);
    }
  }

  lemma CommitKnown(st: State, p: nat)
    requires ValidRefs(st) && p < |st.plans|
    ensures SameKnown(st, Commit(st, p)) && Commit(st, p).minutes == st.minutes
  {
    var plan := st.plans[p];
    if !plan.settled {
      assert ValidPlan(st, plan);
      CommitFoldsKnown(st.(plans := st.plans[p := plan.(settled := true)]), plan.folds);
    }
  }

  lemma {:induction false} ResetLateKnown(st: State, refs: seq<nat>)
    requires ValidRefs(st) && ValidDues(st, refs)
    ensures SameKnown(st, ResetLate(st, refs)) && ResetLate(st, refs).now == st.now
    decreases |refs|
  {
    if refs != [] {
      var of := st.dues[refs[0]].lateOf;
      var st1 := if of.Some? && st.windows[of.value].late == Some(refs[0])
        then st.(windows := st.windows[of.value := st.windows[of.value].(late := None)]) else st;
      ResetLateKnown(st1, refs[1..]);
    }
  }

  lemma {:induction false} CollectWindowsKnown(st: State, refs: seq<nat>, forced: bool, open: nat)
    requires ValidWindows(st, refs)
    ensures SameKnown(st, CollectWindows(st, refs, forced, open).0)
    decreases |refs|
  {
    if refs != [] {
      var win := st.windows[refs[0]];
      if win.flushed || (win.pending > 0 && !forced) {
        CollectWindowsKnown(st, refs[1..], forced, if win.flushed then open else open + 1);
      } else {
        assert SameKnown(st, FlushWindow(st, refs[0]));
        CollectWindowsKnown(FlushWindow(st, refs[0]), refs[1..], forced, open);
      }
    }
  }

  /** The windows listed for a minute. */
  function RefsOf(minutes: seq<Minute>, minute: int): (r: seq<nat>)
    ensures r == [] || exists m | 0 <= m < |minutes| :: r == minutes[m].refs
  {
    var m := IndexOfMinute(minutes, minute);
    if m < |minutes| then minutes[m].refs else []
  }

  lemma RefsOfRest(minutes: seq<Minute>, minute: int)
    requires minutes != []
    ensures RefsOf(minutes, minute) == if minutes[0].minute == minute then minutes[0].refs else RefsOf(minutes[1..], minute)
  {}

  lemma {:induction false} RefsWithout(minutes: seq<Minute>, m: nat, minute: int)
    requires m < |minutes| && minutes[m].minute != minute
    ensures RefsOf(minutes[..m] + minutes[m + 1..], minute) == RefsOf(minutes, minute)
  {
    var rest := minutes[..m] + minutes[m + 1..];
    RefsOfRest(minutes, minute);
    if m == 0 {
      assert rest == minutes[1..];
    } else {
      assert rest[0] == minutes[0] && rest[1..] == minutes[1..][..m - 1] + minutes[1..][m..];
      hide RefsOf;
      RefsOfRest(rest, minute);
      RefsWithout(minutes[1..], m - 1, minute);
    }
  }

  lemma {:induction false} CollectMinutesKnown(c: Config, st: State, m: nat)
    requires ValidRefs(st) && m <= |st.minutes|
    ensures var st' := CollectMinutes(c, st, m, false);
            SameKnown(st, st') && RefsOf(st'.minutes, MinuteOf(st.now)) == RefsOf(st.minutes, MinuteOf(st.now))
    decreases |st.minutes| - m
  {
    if m < |st.minutes| {
      var row := st.minutes[m];
      if row.minute >= MinuteOf(st.now) {
        CollectMinutesKnown(c, st, m + 1);
      } else {
        var forced := Forced(c, st, row.minute, false);
        CollectWindowsRefs(st, row.refs, forced, 0);
        CollectWindowsKnown(st, row.refs, forced, 0);
        var (st1, open) := CollectWindows(st, row.refs, forced, 0);
        if open == 0 {
          RefsWithout(st1.minutes, m, MinuteOf(st.now));
          CollectMinutesKnown(c, st1.(minutes := st1.minutes[..m] + st1.minutes[m + 1..],
                                      trackedIds := st1.trackedIds - {row.minute}), m);
        } else {
          CollectMinutesKnown(c, st1, m + 1);
        }
      }
    }
  }

  /** A flush that is not forced leaves the ids alone, and the current minute's list. */
  lemma CollectKnown(c: Config, st: State)
    requires ValidRefs(st)
    ensures var st' := Collect(c, st, false);
            SameKnown(st, st') && RefsOf(st'.minutes, MinuteOf(st.now)) == RefsOf(st.minutes, MinuteOf(st.now))
  {
    if st.writing == [] {
      var st0 := st.(writing := st.carry, carry := []);
      ResetLateRefs(st0, st0.writing);
      ResetLateKnown(st0, st0.writing);
      CollectMinutesKnown(c, ResetLate(st0, st0.writing), 0);
    }
  }

  lemma {:induction false} StoreManyKnown(st: State, n: nat)
    requires ValidRefs(st) && n <= |st.writing|
    ensures SameKnown(st, StoreMany(st, n)) && StoreMany(st, n).minutes == st.minutes
    decreases n
  {
    if n > 0 {
      assert SameKnown(st, StoreNext(st));
      StoreManyKnown(StoreNext(st), n - 1);
    }
  }

  lemma StoreKnown(st: State, ok: bool)
    requires ValidRefs(st)
    ensures SameKnown(st, Store(st, ok)) && Store(st, ok).minutes == st.minutes
  {
    if st.writing != [] && ok {
      var tenant := st.dues[st.writing[0]].tenant;
      var items := OfTenant(st.dues, st.writing, tenant, true);
      var others := OfTenant(st.dues, st.writing, tenant, false);
      var st1 := st.(writing := items + others, samplesFlushed := st.samplesFlushed + |items|);
      FrontRefs(st, st1);
      StoreManyKnown(st1, |items|);
    }
  }

  lemma FrontRefs(st: State, st1: State)
    requires ValidRefs(st)
    requires st1 == st.(writing := st1.writing, samplesFlushed := st1.samplesFlushed) && ValidDues(st1, st1.writing)
    ensures ValidRefs(st1)
  {
    forall i | 0 <= i < |st1.plans| ensures ValidPlan(st1, st1.plans[i]) { assert ValidPlan(st, st.plans[i]); }
  }

  // ---------- one step ----------

  /** What a step that is no forced flush does to one id on one window. */
  ghost predicate IdStep(st: State, e: Event, st': State, w: nat, id: string)
    requires w < |st.windows|
  {
    && |st.windows| <= |st'.windows|
    && var a, b := st.windows[w], st'.windows[w];
       && (b.foldedIds.Some? ==> a.foldedIds.Some?)
       && (GivesBack(st, e, w, id) && b.foldedIds.Some? ==> !Knows(b, id))
       && (!GivesBack(st, e, w, id) ==>
             && (id in a.kept ==> id in b.kept)
             && (b.foldedIds.Some? && id in a.foldedIds.value ==> id in b.foldedIds.value)
             && (b.foldedIds.Some? ==> (Knows(b, id) <==> Knows(a, id) || TakesUp(st, e, st', w, id))))
  }

  lemma PlanIdStep(c: Config, st: State, e: Event, st': State, w: nat, id: string)
    requires Good(c, st) && e.PlanRequest? && st' == Step(c, st, e) && w < |st.windows|
    ensures IdStep(st, e, st', w, id)
  {
    hide WindowsOk, SlotsOk, DuesOk, LiveOk, StoredOk, Conserved;
    if c.after != 0 && e.occurrences != [] {
      var (st0, m) := OpenMinute(st);
      assert ValidPlan(st0, EMPTY_PLAN);
      PlanAllLearns(c, st0, EMPTY_PLAN, m, e.tenant, e.route, e.occurrences, w, id);
      PlanAllRows(c, st0, EMPTY_PLAN, m, e.tenant, e.route, e.occurrences);
    }
  }

  lemma RollbackIdStep(c: Config, st: State, e: Event, st': State, w: nat, id: string)
    requires Good(c, st) && e.RollbackRequest? && st' == Step(c, st, e) && w < |st.windows|
    ensures IdStep(st, e, st', w, id)
  {
    if e.plan < |st.plans| && !st.plans[e.plan].settled {
      RollbackForgets(st, e.plan, w, id);
      ReservedIsKnown(c, st, e.plan, w, id);
    }
  }

  lemma StepIds(c: Config, st: State, e: Event, st': State, w: nat, id: string)
    requires Good(c, st) && e != StartFlush(true) && st' == Step(c, st, e) && w < |st.windows|
    ensures IdStep(st, e, st', w, id)
  {
    match e
    case Tick(_) =>
    case PlanRequest(_, _, _) => PlanIdStep(c, st, e, st', w, id);
    case CommitRequest(p) => if p < |st.plans| { CommitKnown(st, p); }
    case RollbackRequest(_) => RollbackIdStep(c, st, e, st', w, id);
    case StartFlush(_) => CollectKnown(c, st);
    case StoreOk => StoreKnown(st, true);
    case StoreFail => StoreKnown(st, false);
  }
}
