/**
 * `LoopCollapser` as the program has it: an object whose methods update its maps, lists and counters.
 * Each method is proved to take exactly the step of LoopCollapseModel, so that everything proved there
 * holds of the object.
 */
module LoopCollapserClass {
  import opened Wrappers
  import opened LoopCollapseModel

  class LoopCollapser {
    const config: Config
    var now: int
    var windows: seq<Window>
    var dues: seq<Due>
    var plans: seq<Plan>
    var minutes: seq<Minute>
    var carry: seq<nat>
    var writing: seq<nat>
    var heldSamples: int
    var trackedIds: map<int, int>
    var folded: int
    var samplesFlushed: int
    var overflow: int
    var failedFlushes: int
    var stored: seq<Stored>
    ghost var log: multiset<Occurrence>

    /** The state the model speaks about. */
    ghost function St(): State
      reads this
    {
      State(now, windows, dues, plans, minutes, carry, writing, heldSamples, trackedIds,
            folded, samplesFlushed, overflow, failedFlushes, stored, log)
    }

    constructor (config: Config, now: int)
      ensures St() == Init(now) && this.config == config
    {
      this.config := config;
      this.now := now;
      windows, dues, plans, minutes, carry, writing, stored := [], [], [], [], [], [], [];
      heldSamples, folded, samplesFlushed, overflow, failedFlushes := 0, 0, 0, 0, 0;
      trackedIds := map[];
      log := multiset{};
    }

    /** Find or create the window of an occurrence and decide on it; `d` is the request's plan so far. */
    method PlanOccurrence(d: Plan, m: nat, tenant: Tenant, route: string, o: Occurrence) returns (d': Plan)
      requires ValidRefs(St()) && m < |minutes|
      modifies this
      ensures (St(), d') == PlanOne(config, old(St()), d, m, tenant, route, o)
    {
      var row := minutes[m];
      var key := Key(tenant, route, o.identity);
      var found := FindWindow(windows, row.refs, key);
      if found.Some? {
        d' := Admitted(d, found.value, row.minute, o);
      } else if |row.refs| >= config.maxWindows {
        overflow := overflow + 1;
        d' := d.(kept := d.kept + [o]);
      } else {
        var w := |windows|;
        windows := windows + [NewWindow(key, row.minute)];
        minutes := minutes[m := row.(refs := row.refs + [w])];
        d' := Admitted(d, w, row.minute, o);
      }
    }

    /** Keep, recognise or fold an occurrence on its window. */
    method Admitted(d: Plan, w: nat, minute: int, o: Occurrence) returns (d': Plan)
      requires w < |windows|
      modifies this`windows, this`overflow, this`heldSamples, this`trackedIds
      ensures (St(), d') == PlanOnWindow(config, old(St()), d, w, minute, o)
    {
      hide Tracked;
      d' := d;
      var win := windows[w];
      if w !in d'.touched {
        win := win.(pending := win.pending + 1);
      }
      d' := d'.(touched := d'.touched + {w});
      if o.id in win.kept {
        d' := d'.(kept := d'.kept + [o]);
      } else if win.foldedIds.Some? && o.id in win.foldedIds.value {
        d' := d'.(repeated := d'.repeated + 1);
      } else if win.admitted < config.after {
        win := win.(admitted := win.admitted + 1, kept := win.kept + {o.id});
        d' := d'.(keptReservations := d'.keptReservations + [Hold(w, o.id)], kept := d'.kept + [o]);
      } else if !win.holdsSlot && heldSamples >= config.maxSamples {
        overflow := overflow + 1;
        d' := d'.(kept := d'.kept + [o]);
      } else {
        win := ReserveFold(win, minute, o.id);
        d' := d'.(folds := d'.folds + [Fold(w, o)]);
      }
      windows := windows[w := win];
    }

    /** A fold takes the window's slot and, while the minute's budget of ids lasts, records its id. */
    method ReserveFold(window: Window, minute: int, id: string) returns (win: Window)
      modifies this`heldSamples, this`trackedIds
      ensures var tracked := Tracked(old(trackedIds), minute);
              && win == Admit(window, id, FoldedNow, tracked < config.maxTrackedIds)
              && heldSamples == old(heldSamples) + (if window.holdsSlot then 0 else 1)
              && trackedIds == if window.foldedIds.Some? && tracked < config.maxTrackedIds
                               then old(trackedIds)[minute := tracked + 1] else old(trackedIds)
    {
      win := window;
      if !win.holdsSlot {
        win := win.(holdsSlot := true);
        heldSamples := heldSamples + 1;
      }
      win := win.(admitted := win.admitted + 1, reserved := win.reserved + 1);
      if win.foldedIds.Some? {
        var tracked := Tracked(trackedIds, minute);
        if tracked < config.maxTrackedIds {
          win := win.(foldedIds := Some(win.foldedIds.value + {id}));
          trackedIds := trackedIds[minute := tracked + 1];
        } else {
          win := win.(foldedIds := None);
        }
      }
    }

    /** `plan`: the request's plan becomes the last one. */
    method PlanWindows(tenant: Tenant, route: string, occurrences: seq<Occurrence>) returns (plan: nat)
      requires ValidRefs(St())
      modifies this
      ensures St() == PlanBatch(config, old(St()), tenant, route, occurrences)
      ensures plan == |old(plans)| < |plans|
    {
      hide ValidRefs;
      plan := |plans|;
      var d := EMPTY_PLAN;
      if config.after == 0 || occurrences == [] {
        plans := plans + [d.(kept := occurrences)];
        return;
      }
      var minute := MinuteOf(now);
      var m := IndexOfMinute(minutes, minute);
      if m == |minutes| {
        minutes := minutes + [Minute(minute, [])];
      }
      ghost var st0 := St();
      assert (st0, m) == OpenMinute(old(St()));
      PlanAllPlans(config, st0, d, m, tenant, route, occurrences);
      var i := 0;
      while i < |occurrences|
        invariant 0 <= i <= |occurrences|
        invariant ValidRefs(St()) && ValidPlan(St(), d) && m < |minutes|
        invariant PlanAll(config, St(), d, m, tenant, route, occurrences[i..]) ==
                  PlanAll(config, st0, EMPTY_PLAN, m, tenant, route, occurrences)
      {
        PlanOneRefs(config, St(), d, m, tenant, route, occurrences[i]);
        d := PlanOccurrence(d, m, tenant, route, occurrences[i]);
        i := i + 1;
      }
      plans := plans + [d];
    }

    lemma {:induction false} PlanAllPlans(
        c: Config, st: State, d: Plan, m: nat, tenant: Tenant, route: string, os: seq<Occurrence>)
      requires ValidRefs(st) && m < |st.minutes| && ValidPlan(st, d)
      ensures PlanAll(c, st, d, m, tenant, route, os).0.plans == st.plans
      decreases |os|
    {
      if os != [] {
        PlanOneRefs(c, st, d, m, tenant, route, os[0]);
        var (st1, d1) := PlanOne(c, st, d, m, tenant, route, os[0]);
        PlanAllPlans(c, st1, d1, m, tenant, route, os[1..]);
      }
    }

    /** The plan's `commit`: count its folds, on their windows or on carried late samples. */
    method CommitPlan(p: nat)
      requires ValidRefs(St()) && p < |plans|
      modifies this
      ensures St() == Commit(old(St()), p)
    {
      hide CommitOne;
      var plan := plans[p];
      if plan.settled { return; }
      plans := plans[p := plan.(settled := true)];
      ghost var st0 := St();
      SettledRefs(old(St()), p);
      var i := 0;
      while i < |plan.folds|
        invariant 0 <= i <= |plan.folds|
        invariant ValidRefs(St()) && ValidFolds(St(), plan.folds)
        invariant CommitFolds(St(), plan.folds[i..]) == CommitFolds(st0, plan.folds)
      {
        CommitOneRefs(St(), plan.folds, i);
        CommitFold(plan.folds[i]);
        i := i + 1;
      }
      folded := folded + |plan.folds|;
      ReleaseHeld(plan.touched);
    }

    /** Count one fold on its window, or late on a carried sample. */
    method CommitFold(f: Fold)
      requires f.window < |windows|
      requires windows[f.window].late.Some? ==> windows[f.window].late.value < |dues|
      modifies this`windows, this`dues, this`carry, this`log
      ensures St() == CommitOne(old(St()), f)
    {
      var w, o := f.window, f.occurrence;
      log := log + multiset{o};
      var win := windows[w].(reserved := windows[w].reserved - 1, committed := windows[w].committed + 1);
      if win.flushed {
        CountLateFold(w, win, o);
      } else {
        win := win.(count := win.count + 1, folds := win.folds + multiset{o});
        if win.sample.None? || o.occurredAt >= win.sample.value.occurredAt {
          win := win.(sample := Some(o));
        }
        windows := windows[w := win];
      }
    }

    /** The window was flushed while the request ran: carry the fold into the next flush. */
    method CountLateFold(w: nat, win: Window, o: Occurrence)
      requires w < |windows| && (win.late.Some? ==> win.late.value < |dues|)
      modifies this`windows, this`dues, this`carry
      ensures St() == CountLate(old(St()), w, win, o)
    {
      if win.late.None? {
        carry := carry + [|dues|];
        dues := dues + [Due(win.key.tenant, win.key.route, o, 1, None, Some(w), multiset{o})];
        windows := windows[w := win.(late := Some(|dues| - 1))];
      } else {
        var late := win.late.value;
        var due := dues[late];
        due := due.(count := due.count + 1, folds := due.folds + multiset{o});
        if o.occurredAt >= due.sample.occurredAt {
          due := due.(sample := o);
        }
        dues := dues[late := due];
        windows := windows[w := win];
      }
    }

    /** Every window the request held is held by one request less. */
    method ReleaseHeld(touched: set<nat>)
      modifies this`windows
      ensures St() == Release(old(St()), touched)
    {
      var i := 0;
      var out := windows;
      while i < |windows|
        invariant 0 <= i <= |windows| == |out|
        invariant forall j | 0 <= j < |windows| ::
          out[j] == if j < i && j in touched then windows[j].(pending := windows[j].pending - 1) else windows[j]
      {
        if i in touched {
          out := out[i := windows[i].(pending := windows[i].pending - 1)];
        }
        i := i + 1;
      }
      windows := out;
    }

    method FreeSlot(w: nat)
      requires w < |windows|
      modifies this`windows, this`heldSamples
      ensures St() == ReleaseSlot(old(St()), w)
    {
      if !windows[w].holdsSlot { return; }
      windows := windows[w := windows[w].(holdsSlot := false)];
      heldSamples := heldSamples - 1;
    }

    /** The plan's `rollback`: give its reservations back. */
    method RollbackPlan(p: nat)
      requires ValidRefs(St()) && p < |plans|
      modifies this
      ensures St() == Rollback(old(St()), p)
    {
      var plan := plans[p];
      if plan.settled { return; }
      assert ValidPlan(old(St()), plan);
      plans := plans[p := plan.(settled := true)];
      ReleaseKept(plan.keptReservations);
      RollbackReserved(plan.folds);
      ReleaseHeld(plan.touched);
    }

    method ReleaseKept(holds: seq<Hold>)
      requires ValidHolds(St(), holds)
      modifies this`windows
      ensures St() == ReleaseHolds(old(St()), holds)
    {
      var i := 0;
      while i < |holds|
        invariant 0 <= i <= |holds| && |windows| == old(|windows|)
        invariant ReleaseHolds(St(), holds[i..]) == ReleaseHolds(old(St()), holds)
      {
        var w, id := holds[i].window, holds[i].id;
        windows := windows[w := windows[w].(admitted := windows[w].admitted - 1, kept := windows[w].kept - {id})];
        i := i + 1;
      }
    }

    method RollbackReserved(folds: seq<Fold>)
      requires ValidFolds(St(), folds)
      modifies this`windows, this`heldSamples
      ensures St() == RollbackFolds(old(St()), folds)
    {
      var i := 0;
      while i < |folds|
        invariant 0 <= i <= |folds| && |windows| == old(|windows|)
        invariant RollbackFolds(St(), folds[i..]) == RollbackFolds(old(St()), folds)
      {
        RollbackFold(folds[i]);
        i := i + 1;
      }
    }

    method RollbackFold(f: Fold)
      requires f.window < |windows|
      modifies this`windows, this`heldSamples
      ensures St() == RollbackOne(old(St()), f)
    {
      var w := f.window;
      var win := windows[w].(admitted := windows[w].admitted - 1, reserved := windows[w].reserved - 1);
      if win.foldedIds.Some? {
        win := win.(foldedIds := Some(win.foldedIds.value - {f.occurrence.id}));
      }
      windows := windows[w := win];
      if !win.flushed && win.count == 0 && win.reserved == 0 {
        FreeSlot(w);
      }
    }

    /**
     * `flush`: one at a time. While one is under way a call changes nothing; a forced one starts `again`
     * when that one has ended.
     */
    method Flush(all: bool) returns (again: bool)
      requires ValidRefs(St())
      modifies this
      ensures St() == Collect(config, old(St()), all)
      ensures old(writing) != [] ==> St() == old(St())
      ensures again <==> old(writing) != [] && all
    {
      again := writing != [] && all;
      if writing == [] { CollectDue(all); }
    }

    /** `collectDue`: the carried samples, then the due windows of every minute, become the flush's work. */
    method CollectDue(all: bool)
      requires ValidRefs(St()) && writing == []
      modifies this
      ensures St() == Collect(config, old(St()), all)
    {
      writing, carry := carry, [];
      ResetLateRefs(St(), writing);
      ForgetLate();
      CollectAll(all);
    }

    method CollectAll(all: bool)
      requires ValidRefs(St())
      modifies this
      ensures St() == CollectMinutes(config, old(St()), 0, all)
    {
      var m: nat := 0;
      while m < |minutes|
        invariant m <= |minutes|
        invariant ValidRefs(St())
        invariant CollectMinutes(config, St(), m, all) == CollectMinutes(config, old(St()), 0, all)
        decreases |minutes| - m
      {
        if !all && minutes[m].minute >= MinuteOf(now) {
          m := m + 1;
        } else {
          m := CollectEntry(m, all);
        }
      }
    }

    /** One minute's entry; deleted when no request holds a window of it any more. */
    method CollectEntry(m: nat, all: bool) returns (next: nat)
      requires ValidRefs(St()) && m < |minutes| && (all || minutes[m].minute < MinuteOf(now))
      modifies this
      ensures ValidRefs(St()) && next <= |minutes| && |minutes| - next < old(|minutes|) - m
      ensures CollectMinutes(config, St(), next, all) == CollectMinutes(config, old(St()), m, all)
    {
      var row := minutes[m];
      CollectWindowsRefs(St(), row.refs, Forced(config, St(), row.minute, all), 0);
      var open := CollectMinute(row.refs, all || now - (row.minute + 1) * MINUTE_MS >= config.forceAfterMs);
      if open == 0 {
        ghost var before := St();
        minutes := minutes[..m] + minutes[m + 1..];
        trackedIds := trackedIds - {row.minute};
        DroppedMinuteRefs(before, m, St());
        next := m;
      } else {
        next := m + 1;
      }
    }

    /** Cut the windows' links to the carried samples being collected. */
    method ForgetLate()
      requires ValidRefs(St())
      modifies this`windows
      ensures St() == ResetLate(old(St()), writing)
    {
      var i := 0;
      while i < |writing|
        invariant 0 <= i <= |writing|
        invariant ValidRefs(St())
        invariant ResetLate(St(), writing[i..]) == ResetLate(old(St()), writing)
      {
        var of := dues[writing[i]].lateOf;
        ResetLateRefs(St(), [writing[i]]);
        if of.Some? && windows[of.value].late == Some(writing[i]) {
          windows := windows[of.value := windows[of.value].(late := None)];
        }
        i := i + 1;
      }
    }

    /** Flush the due windows of one minute; the result counts those a request still holds. */
    method CollectMinute(refs: seq<nat>, forced: bool) returns (open: nat)
      requires ValidWindows(St(), refs)
      modifies this
      ensures (St(), open) == CollectWindows(old(St()), refs, forced, 0)
    {
      open := 0;
      var i := 0;
      while i < |refs|
        invariant 0 <= i <= |refs| && |windows| == old(|windows|)
        invariant CollectWindows(St(), refs[i..], forced, open) == CollectWindows(old(St()), refs, forced, 0)
      {
        if windows[refs[i]].flushed {
        } else if windows[refs[i]].pending > 0 && !forced {
          open := open + 1;
        } else {
          FlushOne(refs[i]);
        }
        i := i + 1;
      }
    }

    /** A window's committed folds become a due sample; with none, its slot is free. */
    method FlushOne(w: nat)
      requires w < |windows|
      modifies this`windows, this`dues, this`writing, this`heldSamples
      ensures St() == FlushWindow(old(St()), w)
    {
      var win := windows[w].(flushed := true);
      windows := windows[w := win];
      if win.count > 0 && win.sample.Some? {
        dues := dues + [Due(win.key.tenant, win.key.route, win.sample.value, win.count, Some(w), None, win.folds)];
        writing := writing + [|dues| - 1];
      } else {
        FreeSlot(w);
      }
    }

    /** One tenant's write of the flush in progress settles; `ok`: the store accepted it. */
    method SettleWrite(ok: bool)
      requires ValidRefs(St()) && writing != []
      modifies this
      ensures St() == Store(old(St()), ok)
    {
      hide StoreMany, StoreNext;
      var tenant := dues[writing[0]].tenant;
      var items := OfTenant(dues, writing, tenant, true);
      var others := OfTenant(dues, writing, tenant, false);
      if !ok {
        writing, carry := others, carry + items;
        failedFlushes := failedFlushes + 1;
        assert St() == Store(old(St()), false);
        return;
      }
      samplesFlushed := samplesFlushed + |items|;
      writing := items + others;
      WritingRefs(old(St()), St());
      StoreSamples(|items|);
    }

    method StoreSamples(count: nat)
      requires ValidRefs(St()) && count <= |writing|
      modifies this`windows, this`heldSamples, this`stored, this`writing
      ensures St() == StoreMany(old(St()), count)
    {
      hide StoreNext, ValidRefs;
      var n := count;
      ghost var s := St();
      while n > 0
        invariant 0 <= n <= |writing| && St() == s
        invariant ValidRefs(s)
        invariant StoreMany(s, n) == StoreMany(old(St()), count)
      {
        StoreNextRefs(s);
        StoreSample();
        s := StoreNext(s);
        n := n - 1;
      }
    }

    method StoreSample()
      requires ValidRefs(St()) && writing != []
      modifies this`windows, this`heldSamples, this`stored, this`writing
      ensures St() == StoreNext(old(St()))
    {
      var due := dues[writing[0]];
      if due.window.Some? {
        FreeSlot(due.window.value);
      }
      stored := stored + [Stored(due.tenant, due.route, due.sample, due.count - 1, due.count, due.folds)];
      writing := writing[1..];
    }
  }

  // ---------- references stay valid ----------

  lemma StoreNextRefs(st: State)
    requires ValidRefs(st) && st.writing != []
    ensures ValidRefs(StoreNext(st)) && StoreNext(st).writing == st.writing[1..]
    ensures forall n | 0 < n <= |st.writing| :: StoreMany(st, n) == StoreMany(StoreNext(st), n - 1)
  {
    StoreManyRefs(st, 1);
    assert StoreMany(st, 1) == StoreNext(st);
  }

  lemma SettledRefs(st: State, p: nat)
    requires ValidRefs(st) && p < |st.plans|
    ensures var st' := st.(plans := st.plans[p := st.plans[p].(settled := true)]);
            (ValidRefs(st') && ValidFolds(st', st.plans[p].folds))
  {
    var st' := st.(plans := st.plans[p := st.plans[p].(settled := true)]);
    assert ValidPlan(st, st.plans[p]);
    forall i | 0 <= i < |st'.plans| ensures ValidPlan(st', st'.plans[i]) { assert ValidPlan(st, st.plans[i]); }
  }

  lemma CommitOneRefs(st: State, folds: seq<Fold>, i: nat)
    requires ValidRefs(st) && ValidFolds(st, folds) && i < |folds|
    ensures var st' := CommitOne(st, folds[i]); (ValidRefs(st') && ValidFolds(st', folds))
  {
    CommitFoldsRefs(st, [folds[i]]);
    assert CommitFolds(st, [folds[i]]) == CommitOne(st, folds[i]);
  }

  lemma DroppedMinuteRefs(st: State, m: nat, st': State)
    requires ValidRefs(st) && m < |st.minutes|
    requires st' == st.(minutes := st.minutes[..m] + st.minutes[m + 1..], trackedIds := st'.trackedIds)
    ensures ValidRefs(st')
  {
    forall i | 0 <= i < |st'.plans| ensures ValidPlan(st', st'.plans[i]) { assert ValidPlan(st, st.plans[i]); }
    forall i | 0 <= i < |st'.minutes| ensures ValidWindows(st', st'.minutes[i].refs) {
      assert ValidWindows(st, st.minutes[if i < m then i else i + 1].refs);
    }
  }

  lemma WritingRefs(st: State, st': State)
    requires ValidRefs(st) && ValidDues(st, st'.writing)
    requires st' == st.(writing := st'.writing, samplesFlushed := st'.samplesFlushed)
    ensures ValidRefs(st')
  {
    forall i | 0 <= i < |st'.plans| ensures ValidPlan(st', st'.plans[i]) { assert ValidPlan(st, st.plans[i]); }
  }
}
