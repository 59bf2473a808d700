/** Which windows a flush takes, exactly, and what becomes of them. */
module LoopCollapseFlushExact {
  import opened Wrappers
  import opened LoopCollapseModel
  import opened LoopCollapseSums
  import opened LoopCollapseProofs
  import opened LoopCollapseFlushProofs
  import opened LoopCollapseTheorems

  // ---------- what becomes of a flushed window ----------

  /** Due samples and the work of the flush are only added. */
  ghost predicate Grows(st: State, st': State) {
    st.dues <= st'.dues && st.writing <= st'.writing
  }

  /** The folds counted on window `w` wait in the flush's work as a sample of that window; with none, its slot is free. */
  ghost predicate TakenUp(st: State, st': State, w: nat)
    requires w < |st.windows| && w < |st'.windows|
  {
    var win := st.windows[w];
    if win.count > 0 then
      exists r <- st'.writing :: r < |st'.dues| && win.sample.Some?
        && st'.dues[r] == Due(win.key.tenant, win.key.route, win.sample.value, win.count, Some(w), None, win.folds)
    else !st'.windows[w].holdsSlot
  }

  /** Every window flushed on the way is taken up. */
  ghost predicate TakesUp(st: State, st': State) {
    && Collecting(st, st') && Grows(st, st')
    && forall w | 0 <= w < |st.windows| && !st.windows[w].flushed && st'.windows[w].flushed :: TakenUp(st, st', w)
  }

  lemma TakenUpStays(st: State, mid: State, st': State, w: nat)
    requires w < |st.windows| && Collecting(st, mid) && Collecting(mid, st') && Grows(mid, st')
    requires mid.windows[w].flushed && TakenUp(st, mid, w)
    ensures TakenUp(st, st', w)
  {}

  lemma TakenUpLater(st: State, mid: State, st': State, w: nat)
    requires w < |st.windows| && Collecting(st, mid) && Collecting(mid, st')
    requires mid.windows[w].flushed == st.windows[w].flushed && TakenUp(mid, st', w)
    ensures TakenUp(st, st', w)
  {}

  lemma TakesUpTwice(st: State, mid: State, st': State)
    requires TakesUp(st, mid) && TakesUp(mid, st')
    ensures TakesUp(st, st')
  {
    forall w | 0 <= w < |st.windows| && !st.windows[w].flushed && st'.windows[w].flushed ensures TakenUp(st, st', w) {
      if mid.windows[w].flushed { TakenUpStays(st, mid, st', w); } else { TakenUpLater(st, mid, st', w); }
    }
  }

  lemma FlushTakesUp(st: State, w: nat)
    requires w < |st.windows| && !st.windows[w].flushed && SampleOk(st.windows[w])
    ensures TakesUp(st, FlushWindow(st, w))
  {
    var st' := FlushWindow(st, w);
    if st.windows[w].count > 0 { assert |st.dues| in st'.writing; }
  }

  lemma {:induction false} WindowsTakeUp(st: State, refs: seq<nat>, forced: bool, open: nat)
    requires ValidWindows(st, refs) && forall w | 0 <= w < |st.windows| :: SampleOk(st.windows[w])
    ensures TakesUp(st, CollectWindows(st, refs, forced, open).0)
    decreases |refs|
  {
    if refs != [] {
      var win := st.windows[refs[0]];
      if win.flushed || (win.pending > 0 && !forced) {
        WindowsTakeUp(st, refs[1..], forced, if win.flushed then open else open + 1);
      } else {
        var one := FlushWindow(st, refs[0]);
        FlushTakesUp(st, refs[0]);
        forall w | 0 <= w < |one.windows| ensures SampleOk(one.windows[w]) { assert SampleOk(st.windows[w]); }
        WindowsTakeUp(one, refs[1..], forced, open);
        TakesUpTwice(st, one, CollectWindows(one, refs[1..], forced, open).0);
      }
    }
  }

  // ---------- no window is passed over ----------

  /** A window stays only while a request holds it and it is not overdue. */
  lemma {:induction false} WindowsAllTaken(st: State, refs: seq<nat>, forced: bool, open: nat)
    requires ValidWindows(st, refs)
    ensures var st' := CollectWindows(st, refs, forced, open).0;
            forall w <- refs :: w < |st'.windows| && (st'.windows[w].flushed || (st.windows[w].pending > 0 && !forced))
    decreases |refs|
  {
    if refs != [] {
      var win := st.windows[refs[0]];
      if win.flushed || (win.pending > 0 && !forced) {
        var next := if win.flushed then open else open + 1;
        WindowsAllTaken(st, refs[1..], forced, next);
        CollectWindowsEffect(st, refs[1..], forced, next);
      } else {
        var one := FlushWindow(st, refs[0]);
        WindowsAllTaken(one, refs[1..], forced, open);
        CollectWindowsEffect(one, refs[1..], forced, open);
      }
    }
  }

  /** A window that a flush must take: its minute is over or the flush is forced, and nothing holds it back. */
  ghost predicate MustGo(c: Config, st: State, w: nat, all: bool)
    requires w < |st.windows|
  {
    var win := st.windows[w];
    && (all || win.minute < st.now / 60_000)
    && (win.pending <= 0 || all || st.now - (win.minute + 1) * 60_000 >= c.forceAfterMs)
  }

  ghost predicate ListedFrom(st: State, m: nat, w: nat) {
    exists i :: m <= i < |st.minutes| && w in st.minutes[i].refs
  }

  lemma EntryTakes(c: Config, st: State, m: nat, all: bool, w: nat)
    requires ValidRefs(st) && ListingOk(st) && m < |st.minutes| && w < |st.windows|
    requires w in st.minutes[m].refs && MustGo(c, st, w, all)
    ensures var st' := CollectEntry(c, st, m, all).0; w < |st'.windows| && st'.windows[w].flushed
  {
    var row := st.minutes[m];
    assert RowOk(st, row);
    CollectWindowsEffect(st, row.refs, Forced(c, st, row.minute, all), 0);
    WindowsAllTaken(st, row.refs, Forced(c, st, row.minute, all), 0);
  }

  lemma EntryTakesUp(c: Config, st: State, m: nat, all: bool)
    requires FlushInv(c, st) && m < |st.minutes|
    ensures TakesUp(st, CollectEntry(c, st, m, all).0)
  {
    var row := st.minutes[m];
    forall w | 0 <= w < |st.windows| ensures SampleOk(st.windows[w]) { assert WindowOk(c, st.plans, EMPTY_PLAN, w, st.windows[w]); }
    if !Waits(st, row, all) {
      var (st1, open) := CollectWindows(st, row.refs, Forced(c, st, row.minute, all), 0);
      WindowsTakeUp(st, row.refs, Forced(c, st, row.minute, all), 0);
    }
  }

  /** What was listed after the entry is listed after it still. */
  lemma EntryMovesOn(c: Config, st: State, m: nat, all: bool, w: nat)
    requires ValidRefs(st) && m < |st.minutes| && ListedFrom(st, m, w) && w !in st.minutes[m].refs
    ensures var (st1, m1) := CollectEntry(c, st, m, all); ListedFrom(st1, m1, w)
  {
    CollectEntryRows(c, st, m, all);
    var (st1, m1) := CollectEntry(c, st, m, all);
    var i :| m <= i < |st.minutes| && w in st.minutes[i].refs;
    assert i > m;
    if m1 == m {
      assert st1.minutes[m..][i - 1 - m] == st.minutes[m + 1..][i - 1 - m];
      assert st1.minutes[i - 1] == st.minutes[i];
    }
  }

  /** From entry `m` on, every window that must go goes, and is taken up. */
  lemma {:induction false} MinutesTake(c: Config, st: State, m: nat, all: bool)
    requires FlushInv(c, st) && m <= |st.minutes|
    ensures var st' := CollectMinutes(c, st, m, all);
            && TakesUp(st, st')
            && forall w | 0 <= w < |st.windows| && ListedFrom(st, m, w) && MustGo(c, st, w, all) :: st'.windows[w].flushed
    decreases |st.minutes| - m
  {
    hide WindowsOk, SlotsOk, DuesOk, StoredOk, Conserved;
    if m < |st.minutes| {
      var (st1, m1) := CollectEntry(c, st, m, all);
      CollectMinutesStep(c, st, m, all);
      CollectEntryInv(c, st, m, all);
      EntryTakesUp(c, st, m, all);
      MinutesTake(c, st1, m1, all);
      var st' := CollectMinutes(c, st, m, all);
      TakesUpTwice(st, st1, st');
      forall w | 0 <= w < |st.windows| && ListedFrom(st, m, w) && MustGo(c, st, w, all) ensures st'.windows[w].flushed {
        if w in st.minutes[m].refs { EntryTakes(c, st, m, all, w); } else { EntryMovesOn(c, st, m, all, w); }
      }
    }
  }

  // ---------- which minutes go ----------

  /** A minute stays while it lasts, unless forced, and while one of its windows is held. */
  ghost predicate Stays(c: Config, st: State, row: Minute, all: bool) {
    || (!all && row.minute >= st.now / 60_000)
    || exists w <- row.refs :: w < |st.windows| && !st.windows[w].flushed && !MustGo(c, st, w, all)
  }

  /** The windows counted as open are those a request holds. */
  lemma {:induction false} OpenCounts(st: State, refs: seq<nat>, forced: bool, open: nat)
    requires ValidWindows(st, refs)
    ensures CollectWindows(st, refs, forced, open).1 >= open
    ensures CollectWindows(st, refs, forced, open).1 > open <==>
              exists w <- refs :: !st.windows[w].flushed && st.windows[w].pending > 0 && !forced
    decreases |refs|
  {
    if refs != [] {
      var win := st.windows[refs[0]];
      assert forall w <- refs :: w == refs[0] || w in refs[1..];
      if win.flushed || (win.pending > 0 && !forced) {
        OpenCounts(st, refs[1..], forced, if win.flushed then open else open + 1);
      } else {
        OpenCounts(FlushWindow(st, refs[0]), refs[1..], forced, open);
      }
    }
  }

  lemma EntryStays(c: Config, st: State, m: nat, all: bool)
    requires ValidRefs(st) && ListingOk(st) && m < |st.minutes|
    ensures CollectEntry(c, st, m, all).1 == m + 1 <==> Stays(c, st, st.minutes[m], all)
  {
    var row := st.minutes[m];
    assert RowOk(st, row);
    if !Waits(st, row, all) {
      OpenCounts(st, row.refs, Forced(c, st, row.minute, all), 0);
      CollectWindowsEffect(st, row.refs, Forced(c, st, row.minute, all), 0);
      forall w <- row.refs ensures w < |st.windows| && st.windows[w].minute == row.minute {}
    }
  }

  /** Taking some windows does not change which minutes stay. */
  lemma StaysAlike(c: Config, st: State, st': State, row: Minute, all: bool)
    requires CollectingRightly(c, st, st', all)
    ensures Stays(c, st', row, all) == Stays(c, st, row, all)
  {
    forall w: nat | w < |st.windows|
      ensures !st.windows[w].flushed && !MustGo(c, st, w, all) <==> !st'.windows[w].flushed && !MustGo(c, st', w, all)
    {
      if st'.windows[w].flushed && !st.windows[w].flushed { assert FlushedRightly(c, st, w, all); }
    }
  }

  lemma {:induction false} MinutesStay(c: Config, st: State, m: nat, all: bool)
    requires FlushInv(c, st) && m <= |st.minutes|
    ensures var st' := CollectMinutes(c, st, m, all);
            && m <= |st'.minutes| && st'.minutes[..m] == st.minutes[..m]
            && forall row :: row in st'.minutes[m..] <==> row in st.minutes[m..] && Stays(c, st, row, all)
    decreases |st.minutes| - m
  {
    hide WindowsOk, SlotsOk, DuesOk, StoredOk, Conserved, Stays;
    if m < |st.minutes| {
      var (st1, m1) := CollectEntry(c, st, m, all);
      CollectMinutesStep(c, st, m, all);
      CollectEntryInv(c, st, m, all);
      CollectEntryEffect(c, st, m, all);
      CollectEntryRows(c, st, m, all);
      EntryStays(c, st, m, all);
      MinutesStay(c, st1, m1, all);
      var st' := CollectMinutes(c, st, m, all);
      assert st.minutes[m..] == [st.minutes[m]] + st.minutes[m + 1..];
      forall row ensures Stays(c, st1, row, all) == Stays(c, st, row, all) { StaysAlike(c, st, st1, row, all); }
      StayingRows(st.minutes, st1.minutes, st'.minutes, m, m1);
    }
  }

  lemma StayingRows(before: seq<Minute>, mid: seq<Minute>, after: seq<Minute>, m: nat, m1: nat)
    requires m < |before| && m <= m1 <= m + 1 && m1 <= |mid| && m1 <= |after| && after[..m1] == mid[..m1]
    requires mid[..m] == before[..m]
    requires if m1 == m then mid[m..] == before[m + 1..] else mid == before
    ensures after[..m] == before[..m] && mid[m1..] == before[m + 1..]
    ensures after[m..] == (if m1 == m then [] else [before[m]]) + after[m1..]
  {
    assert after[..m] == after[..m1][..m] && mid[..m] == mid[..m1][..m];
    if m1 == m + 1 { assert after[m] == after[..m1][m] == mid[..m1][m]; }
  }

  // ---------- main results ----------

  /** A flush starts with its unflushed windows as they are, each listed. */
  lemma OpenAtStart(c: Config, st: State, w: nat)
    requires Good(c, st) && w < |st.windows| && !st.windows[w].flushed
    ensures ValidRefs(st)
    ensures var st1 := StartCollect(st);
            w < |st1.windows| && st1.windows[w] == st.windows[w] && st1.now == st.now && ListedFrom(st1, 0, w)
    ensures st.windows[w].pending == Touching(st.plans, w) && st.windows[w].count >= 0
  {
    assert WindowOk(c, st.plans, EMPTY_PLAN, w, st.windows[w]);
    assert Listed(st, w);
    hide WindowsOk;
    StartCollectEffect(st);
  }

  /** From the start of a flush on: what is taken must be, what must be is taken, and it is taken up. */
  lemma TakenFromStart(c: Config, st: State, all: bool, st': State)
    requires Good(c, st) && st.writing == [] && ValidRefs(st) && st' == Collect(c, st, all)
    ensures var st1 := StartCollect(st);
            && |st1.windows| == |st.windows| && CollectingRightly(c, st1, st', all) && TakesUp(st1, st')
            && forall w | 0 <= w < |st1.windows| && ListedFrom(st1, 0, w) && MustGo(c, st1, w, all) :: st'.windows[w].flushed
  {
    var st1 := StartCollect(st);
    assert FlushInv(c, st1) by { StartCollectInv(c, st); }
    StartCollectEffect(st);
    assert st' == CollectMinutes(c, st1, 0, all);
    hide Good, FlushInv, TakesUp, CollectingRightly, CollectMinutes, ListedFrom, MustGo;
    MinutesTake(c, st1, 0, all);
    CollectMinutesEffect(c, st1, 0, all);
  }

  lemma OneWindow(c: Config, st1: State, st': State, all: bool, w: nat)
    requires w < |st1.windows| && CollectingRightly(c, st1, st', all) && TakesUp(st1, st') && !st1.windows[w].flushed
    requires MustGo(c, st1, w, all) ==> st'.windows[w].flushed
    ensures st'.windows[w].flushed <==> MustGo(c, st1, w, all)
    ensures if st'.windows[w].flushed then TakenUp(st1, st', w) else st'.windows[w] == st1.windows[w]
  {
    if st'.windows[w].flushed { assert FlushedRightly(c, st1, w, all); }
  }

  /**
   * What a flush takes, in every reached state: exactly the windows of past minutes (of every minute when it is
   * forced) that no open request holds or that are overdue. Each one's folds go into the flush's work as its sample,
   * and the slot of one that folded nothing is free; every other window stays as it is.
   */
  lemma FlushTakesExactly(c: Config, now: int, es: seq<Event>, st: State, all: bool, st': State, w: nat)
    requires Reaches(c, now, es, st) && ValidRefs(st) && st.writing == [] && st' == Collect(c, st, all)
    requires w < |st.windows| && !st.windows[w].flushed
    ensures |st'.windows| == |st.windows|
    ensures st'.windows[w].flushed <==>
              && (all || st.windows[w].minute < st.now / 60_000)
              && (Touching(st.plans, w) == 0 || all || st.now - (st.windows[w].minute + 1) * 60_000 >= c.forceAfterMs)
    ensures var win := st.windows[w];
            && (st'.windows[w].flushed && win.count > 0 ==>
                  exists r <- st'.writing :: r < |st'.dues| && win.sample.Some?
                    && st'.dues[r] == Due(win.key.tenant, win.key.route, win.sample.value, win.count, Some(w), None, win.folds))
            && (st'.windows[w].flushed && win.count == 0 ==> !st'.windows[w].holdsSlot)
            && (!st'.windows[w].flushed ==> st'.windows[w] == win)
  {
    RunGood(c, now, es, st);
    OpenAtStart(c, st, w);
    hide Good, Reaches, ValidRefs, StartCollect, Collect, Touching, TakesUp, CollectingRightly, ListedFrom;
    TakenFromStart(c, st, all, st');
    OneWindow(c, StartCollect(st), st', all, w);
  }

  /** Every carried sample, and nothing else from before, is in the flush's work as it was. */
  lemma CarriedIsWritten(c: Config, now: int, es: seq<Event>, st: State, all: bool, st': State)
    requires Reaches(c, now, es, st) && ValidRefs(st) && st.writing == [] && st' == Collect(c, st, all)
    ensures st'.carry == [] && st.carry <= st'.writing && st.dues <= st'.dues
  {
    RunGood(c, now, es, st);
    var st1 := StartCollect(st);
    assert FlushInv(c, st1) by { StartCollectInv(c, st); }
    StartCollectEffect(st);
    hide Good, FlushInv;
    MinutesTake(c, st1, 0, all);
  }

  /** A minute goes exactly when a flush may take it and leaves none of its windows open. */
  lemma MinutesGoExactly(c: Config, now: int, es: seq<Event>, st: State, all: bool, st': State, row: Minute)
    requires Reaches(c, now, es, st) && ValidRefs(st) && st.writing == [] && st' == Collect(c, st, all)
    requires row in st.minutes
    ensures row in st'.minutes <==>
              || (!all && row.minute >= st.now / 60_000)
              || exists w <- row.refs :: w < |st'.windows| && !st'.windows[w].flushed
  {
    RunGood(c, now, es, st);
    var st1 := StartCollect(st);
    assert FlushInv(c, st1) by { StartCollectInv(c, st); }
    StartCollectEffect(st);
    assert RowOk(st, row);
    hide Good, FlushInv;
    MinutesStay(c, st1, 0, all);
    assert st1.minutes[0..] == st.minutes && st'.minutes[0..] == st'.minutes;
    forall w <- row.refs ensures w < |st'.windows| && (st'.windows[w].flushed <==> st1.windows[w].flushed || MustGo(c, st1, w, all)) {
      TakenExactly(c, now, es, st, all, st1, st', w);
    }
  }

  lemma TakenExactly(c: Config, now: int, es: seq<Event>, st: State, all: bool, st1: State, st': State, w: nat)
    requires Reaches(c, now, es, st) && ValidRefs(st) && st.writing == [] && st' == Collect(c, st, all)
    requires st1 == StartCollect(st) && w < |st.windows| && |st1.windows| == |st.windows|
    requires st1.windows[w] == st.windows[w].(late := None) && st1.now == st.now && FlushInv(c, st1)
    ensures w < |st'.windows| && (st'.windows[w].flushed <==> st1.windows[w].flushed || MustGo(c, st1, w, all))
  {
    if st.windows[w].flushed {
      CollectMinutesEffect(c, st1, 0, all);
    } else {
      RunGood(c, now, es, st);
      assert WindowOk(c, st.plans, EMPTY_PLAN, w, st.windows[w]);
      FlushTakesExactly(c, now, es, st, all, st', w);
    }
  }
}
