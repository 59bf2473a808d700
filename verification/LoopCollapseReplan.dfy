/** A batch sent again after its commit is recognised: nothing of it is counted a second time. */
module LoopCollapseReplan {
  import opened Wrappers
  import opened LoopCollapseModel
  import opened LoopCollapseSums
  import opened LoopCollapseProofs

  // ---------- every occurrence of a request is decided once ----------

  lemma PlanOnePartition(c: Config, st: State, d: Plan, m: nat, tenant: Tenant, route: string, o: Occurrence)
    requires ValidRefs(st) && m < |st.minutes|
    ensures var d' := PlanOne(c, st, d, m, tenant, route, o).1;
            |d'.kept| + |d'.folds| + d'.repeated == |d.kept| + |d.folds| + d.repeated + 1
  {
  }

  lemma {:induction false} PlanAllPartition(
      c: Config, st: State, d: Plan, m: nat, tenant: Tenant, route: string, os: seq<Occurrence>)
    requires ValidRefs(st) && m < |st.minutes| && ValidPlan(st, d)
    ensures var d' := PlanAll(c, st, d, m, tenant, route, os).1;
            |d'.kept| + |d'.folds| + d'.repeated == |d.kept| + |d.folds| + d.repeated + |os|
    decreases |os|
  {
    if os != [] {
      PlanOneRefs(c, st, d, m, tenant, route, os[0]);
      PlanOnePartition(c, st, d, m, tenant, route, os[0]);
      var (st1, d1) := PlanOne(c, st, d, m, tenant, route, os[0]);
      PlanAllPartition(c, st1, d1, m, tenant, route, os[1..]);
    }
  }

  /** Every plan splits its request: kept, folded and repeated occurrences add up to the input. */
  lemma PlanPartition(c: Config, st: State, tenant: Tenant, route: string, os: seq<Occurrence>)
    requires ValidRefs(st)
    ensures var st' := PlanBatch(c, st, tenant, route, os);
            && |st'.plans| == |st.plans| + 1
            && var d := st'.plans[|st.plans|]; |d.kept| + |d.folds| + d.repeated == |os| && !d.settled
  {
    if c.after != 0 && os != [] {
      var (st0, m) := OpenMinute(st);
      PlanAllPartition(c, st0, EMPTY_PLAN, m, tenant, route, os);
      PlanAllRows(c, st0, EMPTY_PLAN, m, tenant, route, os);
      NeverSettled(c, st0, EMPTY_PLAN, m, tenant, route, os);
    }
  }

  lemma {:induction false} PlanAllRows(
      c: Config, st: State, d: Plan, m: nat, tenant: Tenant, route: string, os: seq<Occurrence>)
    requires ValidRefs(st) && m < |st.minutes| && ValidPlan(st, d)
    ensures PlanAll(c, st, d, m, tenant, route, os).0.plans == st.plans
    ensures PlanAll(c, st, d, m, tenant, route, os).0.overflow >= st.overflow
    decreases |os|
  {
    hide ValidRefs, ValidPlan;
    if os != [] {
      PlanOneRefs(c, st, d, m, tenant, route, os[0]);
      var (st1, d1) := PlanOne(c, st, d, m, tenant, route, os[0]);
      PlanAllRows(c, st1, d1, m, tenant, route, os[1..]);
    }
  }

  // ---------- recognition ----------

  /** The window of an occurrence in the minute at entry `m`. */
  function Lookup(st: State, m: nat, tenant: Tenant, route: string, o: Occurrence): (r: Option<nat>)
    requires ValidRefs(st) && m < |st.minutes|
    ensures r.Some? ==> r.value < |st.windows| && r.value in st.minutes[m].refs
  {
    FindWindow(st.windows, st.minutes[m].refs, Key(tenant, route, o.identity))
  }

  predicate KnownKept(st: State, m: nat, tenant: Tenant, route: string, o: Occurrence)
    requires ValidRefs(st) && m < |st.minutes|
  {
    var w := Lookup(st, m, tenant, route, o);
    w.Some? && o.id in st.windows[w.value].kept
  }

  predicate KnownFolded(st: State, m: nat, tenant: Tenant, route: string, o: Occurrence)
    requires ValidRefs(st) && m < |st.minutes|
  {
    var w := Lookup(st, m, tenant, route, o);
    && w.Some? && o.id !in st.windows[w.value].kept
    && st.windows[w.value].foldedIds.Some? && o.id in st.windows[w.value].foldedIds.value
  }

  /** The occurrences stored individually, in order. */
  function KeptPart(st: State, m: nat, tenant: Tenant, route: string, os: seq<Occurrence>): (r: seq<Occurrence>)
    requires ValidRefs(st) && m < |st.minutes|
    ensures |r| <= |os|
  {
    if os == [] then []
    else (if KnownKept(st, m, tenant, route, os[0]) then [os[0]] else []) + KeptPart(st, m, tenant, route, os[1..])
  }

  predicate AllKnown(st: State, m: nat, tenant: Tenant, route: string, os: seq<Occurrence>)
    requires ValidRefs(st) && m < |st.minutes|
  {
    forall i | 0 <= i < |os| :: KnownKept(st, m, tenant, route, os[i]) || KnownFolded(st, m, tenant, route, os[i])
  }

  /** `st'` knows at least the ids `st` knows on the windows of entry `m`. */
  ghost predicate Remembers(st: State, st': State, m: nat) {
    && m < |st.minutes| == |st'.minutes|
    && |st.windows| <= |st'.windows|
    && st.minutes[m].refs <= st'.minutes[m].refs
    && (forall w | 0 <= w < |st.windows| ::
          var a, b := st.windows[w], st'.windows[w];
          && b.key == a.key && a.kept <= b.kept
          && (b.foldedIds.Some? ==> a.foldedIds.Some? && a.foldedIds.value <= b.foldedIds.value))
  }

  /** The window of `o` still remembers the ids it folds, apart from the kept ones. */
  predicate Tracks(st: State, m: nat, tenant: Tenant, route: string, o: Occurrence)
    requires ValidRefs(st) && m < |st.minutes|
  {
    var w := Lookup(st, m, tenant, route, o);
    w.Some? ==> st.windows[w.value].foldedIds.Some? && st.windows[w.value].foldedIds.value !! st.windows[w.value].kept
  }

  predicate TracksAll(st: State, m: nat, tenant: Tenant, route: string, os: seq<Occurrence>)
    requires ValidRefs(st) && m < |st.minutes|
  {
    forall i | 0 <= i < |os| :: Tracks(st, m, tenant, route, os[i])
  }

  lemma {:induction false} FindStays(ws: seq<Window>, ws': seq<Window>, refs: seq<nat>, refs': seq<nat>, key: Key)
    requires refs <= refs' && |ws| <= |ws'|
    requires forall i | 0 <= i < |refs| :: refs[i] < |ws|
    requires forall i | 0 <= i < |refs'| :: refs'[i] < |ws'|
    requires forall w | 0 <= w < |ws| :: ws'[w].key == ws[w].key
    ensures FindWindow(ws, refs, key).Some? ==> FindWindow(ws', refs', key) == FindWindow(ws, refs, key)
    ensures refs == refs' && |ws| == |ws'| ==> FindWindow(ws', refs', key) == FindWindow(ws, refs, key)
  {
    if refs != [] { FindStays(ws, ws', refs[1..], refs'[1..], key); }
  }

  /** An id stays recognised, the same way, as long as ids are only added. */
  lemma KnownStays(st: State, st': State, m: nat, tenant: Tenant, route: string, o: Occurrence)
    requires ValidRefs(st) && ValidRefs(st') && Remembers(st, st', m) && Tracks(st', m, tenant, route, o)
    ensures KnownKept(st, m, tenant, route, o) ==> KnownKept(st', m, tenant, route, o)
    ensures KnownFolded(st, m, tenant, route, o) ==> KnownFolded(st', m, tenant, route, o)
  {
    FindStays(st.windows, st'.windows, st.minutes[m].refs, st'.minutes[m].refs, Key(tenant, route, o.identity));
  }

  lemma RemembersOn(c: Config, st: State, d: Plan, w: nat, minute: int, o: Occurrence, m: nat)
    requires w < |st.windows| && m < |st.minutes|
    ensures Remembers(st, PlanOnWindow(c, st, d, w, minute, o).0, m)
  {}

  lemma PlanOneRemembers(c: Config, st: State, d: Plan, m: nat, tenant: Tenant, route: string, o: Occurrence)
    requires ValidRefs(st) && m < |st.minutes|
    ensures Remembers(st, PlanOne(c, st, d, m, tenant, route, o).0, m)
    ensures PlanOne(c, st, d, m, tenant, route, o).0.overflow >= st.overflow
  {
    var row := st.minutes[m];
    var found := Lookup(st, m, tenant, route, o);
    if found.Some? {
      RemembersOn(c, st, d, found.value, row.minute, o, m);
    } else if |row.refs| < c.maxWindows {
      var st1 := AddWindow(st, m, Key(tenant, route, o.identity));
      RemembersOn(c, st1, d, |st.windows|, row.minute, o, m);
      var st' := PlanOnWindow(c, st1, d, |st.windows|, row.minute, o).0;
      assert forall w | 0 <= w < |st.windows| :: st'.windows[w] == st.windows[w];
    }
  }

  lemma {:induction false} PlanAllRemembers(
      c: Config, st: State, d: Plan, m: nat, tenant: Tenant, route: string, os: seq<Occurrence>)
    requires ValidRefs(st) && m < |st.minutes| && ValidPlan(st, d)
    ensures var st' := PlanAll(c, st, d, m, tenant, route, os).0;
            Remembers(st, st', m) && st'.overflow >= st.overflow
    decreases |os|
  {
    if os != [] {
      PlanOneRefs(c, st, d, m, tenant, route, os[0]);
      PlanOneRemembers(c, st, d, m, tenant, route, os[0]);
      var (st1, d1) := PlanOne(c, st, d, m, tenant, route, os[0]);
      PlanAllRemembers(c, st1, d1, m, tenant, route, os[1..]);
    }
  }

  /** After its decision, when no bound was reached, an occurrence is recognised: kept or folded. */
  lemma {:induction false} FindNew(ws: seq<Window>, win: Window, refs: seq<nat>, key: Key)
    requires forall i | 0 <= i < |refs| :: refs[i] < |ws|
    requires FindWindow(ws, refs, key).None? && win.key == key
    ensures FindWindow(ws + [win], refs + [|ws|], key) == Some(|ws|)
  {
    if refs != [] {
      FindNew(ws, win, refs[1..], key);
      assert (refs + [|ws|])[1..] == refs[1..] + [|ws|];
    }
  }

  lemma DecidedKnown(c: Config, st: State, d: Plan, m: nat, tenant: Tenant, route: string, o: Occurrence, st': State, d': Plan)
    requires ValidRefs(st) && ValidPlan(st, d) && m < |st.minutes| && ValidRefs(st') && m < |st'.minutes|
    requires (st', d') == PlanOne(c, st, d, m, tenant, route, o) && st'.overflow == st.overflow
    requires Tracks(st', m, tenant, route, o)
    ensures KnownKept(st', m, tenant, route, o) || KnownFolded(st', m, tenant, route, o)
    ensures d'.kept == d.kept + (if KnownKept(st', m, tenant, route, o) then [o] else [])
  {
    var row := st.minutes[m];
    var key := Key(tenant, route, o.identity);
    var found := Lookup(st, m, tenant, route, o);
    if found.Some? {
      DecidedOn(c, st, d, m, found.value, tenant, route, o, st', d');
    } else {
      var st1 := AddWindow(st, m, key);
      NewWindowRefs(st, d, m, key);
      FindNew(st.windows, NewWindow(key, row.minute), row.refs, key);
      DecidedOn(c, st1, d, m, |st.windows|, tenant, route, o, st', d');
    }
  }

  lemma DecidedOn(c: Config, st: State, d: Plan, m: nat, w: nat, tenant: Tenant, route: string, o: Occurrence,
                  st': State, d': Plan)
    requires ValidRefs(st) && m < |st.minutes| && ValidRefs(st') && m < |st'.minutes|
    requires Lookup(st, m, tenant, route, o) == Some(w) && w < |st.windows|
    requires (st', d') == PlanOnWindow(c, st, d, w, st.minutes[m].minute, o)
    requires st'.overflow == st.overflow && Tracks(st', m, tenant, route, o)
    ensures KnownKept(st', m, tenant, route, o) || KnownFolded(st', m, tenant, route, o)
    ensures d'.kept == d.kept + (if KnownKept(st', m, tenant, route, o) then [o] else [])
  {
    FindStays(st.windows, st'.windows, st.minutes[m].refs, st'.minutes[m].refs, Key(tenant, route, o.identity));
    var win := st'.windows[w];
    assert win.foldedIds.Some? && win.foldedIds.value !! win.kept;
  }

  lemma TracksBack(st: State, st': State, m: nat, tenant: Tenant, route: string, o: Occurrence)
    requires ValidRefs(st) && ValidRefs(st') && Remembers(st, st', m) && Tracks(st', m, tenant, route, o)
    ensures Tracks(st, m, tenant, route, o)
  {
    FindStays(st.windows, st'.windows, st.minutes[m].refs, st'.minutes[m].refs, Key(tenant, route, o.identity));
  }

  /** First pass: whatever a request keeps or folds is recognised when it is done. */
  lemma {:induction false} FirstPass(
      c: Config, st: State, d: Plan, m: nat, tenant: Tenant, route: string, os: seq<Occurrence>, st': State, d': Plan)
    requires ValidRefs(st) && m < |st.minutes| && ValidPlan(st, d)
    requires (st', d') == PlanAll(c, st, d, m, tenant, route, os) && ValidRefs(st') && m < |st'.minutes|
    requires st'.overflow == st.overflow && TracksAll(st', m, tenant, route, os)
    ensures AllKnown(st', m, tenant, route, os)
    ensures d'.kept == d.kept + KeptPart(st', m, tenant, route, os)
    decreases |os|
  {
    if os != [] {
      PlanOneRefs(c, st, d, m, tenant, route, os[0]);
      PlanOneRemembers(c, st, d, m, tenant, route, os[0]);
      var (st1, d1) := PlanOne(c, st, d, m, tenant, route, os[0]);
      PlanAllRemembers(c, st1, d1, m, tenant, route, os[1..]);
      TracksBack(st1, st', m, tenant, route, os[0]);
      DecidedKnown(c, st, d, m, tenant, route, os[0], st1, d1);
      FirstPass(c, st1, d1, m, tenant, route, os[1..], st', d');
      KnownStays(st1, st', m, tenant, route, os[0]);
      KnownHead(st', m, tenant, route, os);
      var head := if KnownKept(st', m, tenant, route, os[0]) then [os[0]] else [];
      Associate(d.kept, head, KeptPart(st', m, tenant, route, os[1..]));
    }
  }

  lemma KnownHead(st: State, m: nat, tenant: Tenant, route: string, os: seq<Occurrence>)
    requires ValidRefs(st) && m < |st.minutes| && os != []
    ensures AllKnown(st, m, tenant, route, os) <==>
            && (KnownKept(st, m, tenant, route, os[0]) || KnownFolded(st, m, tenant, route, os[0]))
            && AllKnown(st, m, tenant, route, os[1..])
  {}

  /** States with the same ids on the same windows. */
  ghost predicate SameIds(st: State, st': State, m: nat) {
    && m < |st.minutes| == |st'.minutes| && st.minutes[m].refs == st'.minutes[m].refs
    && |st'.windows| == |st.windows|
    && (forall w | 0 <= w < |st.windows| ::
          var a, b := st.windows[w], st'.windows[w];
          b.key == a.key && b.kept == a.kept && b.foldedIds == a.foldedIds)
  }

  lemma KnownSame(st: State, st': State, m: nat, tenant: Tenant, route: string, o: Occurrence)
    requires ValidRefs(st) && ValidRefs(st') && SameIds(st, st', m)
    ensures KnownKept(st, m, tenant, route, o) == KnownKept(st', m, tenant, route, o)
    ensures KnownFolded(st, m, tenant, route, o) == KnownFolded(st', m, tenant, route, o)
  {
    FindStays(st.windows, st'.windows, st.minutes[m].refs, st'.minutes[m].refs, Key(tenant, route, o.identity));
  }

  lemma {:induction false} KeptPartSame(st: State, st': State, m: nat, tenant: Tenant, route: string, os: seq<Occurrence>)
    requires ValidRefs(st) && ValidRefs(st') && SameIds(st, st', m)
    ensures KeptPart(st, m, tenant, route, os) == KeptPart(st', m, tenant, route, os)
    ensures AllKnown(st, m, tenant, route, os) ==> AllKnown(st', m, tenant, route, os)
  {
    if os != [] { KeptPartSame(st, st', m, tenant, route, os[1..]); }
    forall i | 0 <= i < |os|
      ensures KnownKept(st, m, tenant, route, os[i]) == KnownKept(st', m, tenant, route, os[i])
      ensures KnownFolded(st, m, tenant, route, os[i]) == KnownFolded(st', m, tenant, route, os[i])
    {
      KnownSame(st, st', m, tenant, route, os[i]);
    }
  }

  lemma Associate<T>(a: seq<T>, b: seq<T>, c: seq<T>)
    ensures (a + b) + c == a + (b + c)
  {}

  lemma SecondOne(c: Config, st: State, d: Plan, m: nat, tenant: Tenant, route: string, o: Occurrence)
    requires ValidRefs(st) && m < |st.minutes|
    requires KnownKept(st, m, tenant, route, o) || KnownFolded(st, m, tenant, route, o)
    ensures var (st', d') := PlanOne(c, st, d, m, tenant, route, o);
            && SameIds(st, st', m)
            && d'.folds == d.folds && d'.keptReservations == d.keptReservations
            && d'.kept == d.kept + (if KnownKept(st, m, tenant, route, o) then [o] else [])
            && d'.repeated == d.repeated + (if KnownKept(st, m, tenant, route, o) then 0 else 1)
  {
  }

  /** Second pass: recognised occurrences are kept again or reported as repeated; nothing is folded. */
  lemma {:induction false} SecondPass(
      c: Config, st: State, d: Plan, m: nat, tenant: Tenant, route: string, os: seq<Occurrence>, d': Plan)
    requires ValidRefs(st) && m < |st.minutes| && ValidPlan(st, d) && AllKnown(st, m, tenant, route, os)
    requires d' == PlanAll(c, st, d, m, tenant, route, os).1
    ensures d'.folds == d.folds && d'.keptReservations == d.keptReservations
    ensures d'.kept == d.kept + KeptPart(st, m, tenant, route, os)
    ensures d'.repeated == d.repeated + |os| - |KeptPart(st, m, tenant, route, os)|
    decreases |os|
  {
    if os != [] {
      PlanOneRefs(c, st, d, m, tenant, route, os[0]);
      var (st1, d1) := PlanOne(c, st, d, m, tenant, route, os[0]);
      KnownHead(st, m, tenant, route, os);
      SecondOne(c, st, d, m, tenant, route, os[0]);
      KeptPartSame(st, st1, m, tenant, route, os[1..]);
      SecondPass(c, st1, d1, m, tenant, route, os[1..], d');
      var head := if KnownKept(st, m, tenant, route, os[0]) then [os[0]] else [];
      Associate(d.kept, head, KeptPart(st, m, tenant, route, os[1..]));
    }
  }

  // ---------- a request and its retry ----------

  lemma {:induction false} PlanAllMinutes(
      c: Config, st: State, d: Plan, m: nat, tenant: Tenant, route: string, os: seq<Occurrence>)
    requires ValidRefs(st) && m < |st.minutes| && ValidPlan(st, d)
    ensures var st' := PlanAll(c, st, d, m, tenant, route, os).0;
            && st'.now == st.now && |st'.minutes| == |st.minutes|
            && forall i | 0 <= i < |st.minutes| :: st'.minutes[i].minute == st.minutes[i].minute
    decreases |os|
  {
    if os != [] {
      PlanOneRefs(c, st, d, m, tenant, route, os[0]);
      var (st1, d1) := PlanOne(c, st, d, m, tenant, route, os[0]);
      PlanAllMinutes(c, st1, d1, m, tenant, route, os[1..]);
    }
  }

  lemma {:induction false} FirstEntry(minutes: seq<Minute>, m: nat, minute: int)
    requires m < |minutes| && minutes[m].minute == minute
    requires forall j | 0 <= j < m :: minutes[j].minute != minute
    ensures IndexOfMinute(minutes, minute) == m
  {}

  /** Planning known occurrences keeps the recognised ones again and folds nothing. */
  lemma PlanKnown(c: Config, st: State, m: nat, tenant: Tenant, route: string, os: seq<Occurrence>)
    requires ValidRefs(st) && m < |st.minutes| && AllKnown(st, m, tenant, route, os) && os != [] && c.after > 0
    requires OpenMinute(st) == (st, m) && ValidPlan(st, EMPTY_PLAN)
    ensures var again := PlanBatch(c, st, tenant, route, os);
            && |again.plans| == |st.plans| + 1
            && var p := again.plans[|st.plans|];
               && p.folds == [] && p.keptReservations == [] && p.kept == KeptPart(st, m, tenant, route, os)
               && p.repeated == |os| - |p.kept|
  {
    SecondPass(c, st, EMPTY_PLAN, m, tenant, route, os, PlanAll(c, st, EMPTY_PLAN, m, tenant, route, os).1);
    PlanAllRows(c, st, EMPTY_PLAN, m, tenant, route, os);
  }

  /** No window of the batch has run out of its minute's budget of ids. */
  predicate Remembering(st: State, m: nat, tenant: Tenant, route: string, os: seq<Occurrence>)
    requires ValidRefs(st) && m < |st.minutes|
  {
    forall i | 0 <= i < |os| ::
      var w := Lookup(st, m, tenant, route, os[i]);
      w.Some? ==> st.windows[w.value].foldedIds.Some?
  }

  lemma RememberingTracks(c: Config, st: State, d: Plan, st': State, m: nat, tenant: Tenant, route: string,
                          os: seq<Occurrence>)
    requires Inv(c, st, d) && ValidRefs(st') && SameIds(st, st', m) && Remembering(st', m, tenant, route, os)
    ensures TracksAll(st, m, tenant, route, os)
  {
    forall i | 0 <= i < |os| ensures Tracks(st, m, tenant, route, os[i]) {
      FindStays(st.windows, st'.windows, st.minutes[m].refs, st'.minutes[m].refs, Key(tenant, route, os[i].identity));
      var w := Lookup(st, m, tenant, route, os[i]);
      if w.Some? { assert WindowOk(c, st.plans, d, w.value, st.windows[w.value]); }
    }
  }

  /** The first plan leaves every occurrence of the batch known. */
  lemma PlannedKnows(c: Config, st: State, m: nat, tenant: Tenant, route: string, os: seq<Occurrence>, planned: State)
    requires Inv(c, st, EMPTY_PLAN) && c.after > 0 && os != [] && OpenMinute(st).1 == m
    requires planned == PlanBatch(c, st, tenant, route, os) && ValidRefs(planned) && planned.overflow == st.overflow
    requires m < |planned.minutes| && Remembering(planned, m, tenant, route, os)
    ensures |planned.plans| == |st.plans| + 1 && planned.now == st.now
    ensures AllKnown(planned, m, tenant, route, os)
    ensures planned.plans[|st.plans|].kept == KeptPart(planned, m, tenant, route, os)
    ensures planned.minutes[m].minute == MinuteOf(planned.now)
    ensures forall j | 0 <= j < m :: planned.minutes[j].minute != MinuteOf(planned.now)
  {
    hide PlanAll, KeptPart, AllKnown;
    var (st0, m) := OpenMinute(st);
    var (st1, d1) := PlanAll(c, st0, EMPTY_PLAN, m, tenant, route, os);
    OpenMinuteInv(c, st);
    PlanAllInv(c, st0, EMPTY_PLAN, m, tenant, route, os);
    PlanAllRefs(c, st0, EMPTY_PLAN, m, tenant, route, os);
    PlanAllMinutes(c, st0, EMPTY_PLAN, m, tenant, route, os);
    PlanAllRows(c, st0, EMPTY_PLAN, m, tenant, route, os);
    assert planned == st1.(plans := st1.plans + [d1]);
    assert SameIds(st1, planned, m);
    RememberingTracks(c, st1, d1, planned, m, tenant, route, os);
    FirstPass(c, st0, EMPTY_PLAN, m, tenant, route, os, st1, d1);
    KeptPartSame(st1, planned, m, tenant, route, os);
  }
}
