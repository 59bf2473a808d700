/**
 * Loop collapse (packages/otlp-ingester/src/loop-collapse.ts) as a state machine.
 *
 * The windows, the due samples and the plans of the program are rows of three tables that only
 * grow; a reference to one of them is its row number. Every step of the program is a function from
 * state to state. `LoopCollapser` (LoopCollapser.dfy) is the imperative form, proved to take exactly
 * these steps; LoopCollapseProofs.dfy proves what the steps keep.
 */
module LoopCollapseModel {
  import opened Wrappers

  const MINUTE_MS := 60_000

  datatype Tenant = Tenant(orgId: string, repositoryId: string)

  /** `identity` is the value of `collapseIdentity`; the hash itself is opaque. */
  datatype Occurrence = Occurrence(id: string, identity: string, occurredAt: int, payload: string)

  /** A window's key: the tenant, the route and the identity. */
  datatype Key = Key(tenant: Tenant, route: string, identity: string)

  datatype Config = Config(after: nat, maxWindows: nat, maxSamples: nat, maxTrackedIds: nat, forceAfterMs: int)

  /** `folds` and `committed` are history: the occurrences `count` counts, and every fold ever committed. */
  datatype Window = Window(
    key: Key, minute: int, admitted: int, kept: set<string>, foldedIds: Option<set<string>>,
    count: int, sample: Option<Occurrence>, reserved: int, pending: int,
    holdsSlot: bool, flushed: bool, late: Option<nat>,
    folds: multiset<Occurrence>, committed: nat)

  /** `folds` is history: the occurrences the sample stands for. */
  datatype Due = Due(
    tenant: Tenant, route: string, sample: Occurrence, count: int, window: Option<nat>, lateOf: Option<nat>,
    folds: multiset<Occurrence>)

  datatype Fold = Fold(window: nat, occurrence: Occurrence)

  datatype Hold = Hold(window: nat, id: string)

  datatype Plan = Plan(
    kept: seq<Occurrence>, keptReservations: seq<Hold>, folds: seq<Fold>, touched: set<nat>, repeated: nat,
    settled: bool)

  /** One entry of the outer map: the windows of a minute, in insertion order. */
  datatype Minute = Minute(minute: int, refs: seq<nat>)

  /** A sample handed to the store, with the number of occurrences it stands for. */
  datatype Stored = Stored(
    tenant: Tenant, route: string, sample: Occurrence, collapsedCount: int, folded: int, folds: multiset<Occurrence>)

  /**
   * `writing` holds the due samples of the flush in progress that no write has settled yet, `stored`
   * every sample written so far, and `log` (history) every fold committed so far.
   */
  datatype State = State(
    now: int, windows: seq<Window>, dues: seq<Due>, plans: seq<Plan>,
    minutes: seq<Minute>, carry: seq<nat>, writing: seq<nat>, heldSamples: int, trackedIds: map<int, int>,
    folded: int, samplesFlushed: int, overflow: int, failedFlushes: int,
    stored: seq<Stored>, log: multiset<Occurrence>)

  const EMPTY_PLAN := Plan([], [], [], {}, 0, false)

  function Init(now: int): State {
    State(now, [], [], [], [], [], [], 0, map[], 0, 0, 0, 0, [], multiset{})
  }

  function MinuteOf(now: int): int {
    now / MINUTE_MS
  }

  // ---------- references ----------

  ghost predicate ValidFolds(st: State, folds: seq<Fold>) {
    forall i | 0 <= i < |folds| :: folds[i].window < |st.windows|
  }

  ghost predicate ValidHolds(st: State, holds: seq<Hold>) {
    forall i | 0 <= i < |holds| :: holds[i].window < |st.windows|
  }

  ghost predicate ValidPlan(st: State, p: Plan) {
    && ValidFolds(st, p.folds)
    && ValidHolds(st, p.keptReservations)
    && (forall w | w in p.touched :: w < |st.windows|)
  }

  ghost predicate ValidDues(st: State, refs: seq<nat>) {
    forall i | 0 <= i < |refs| :: refs[i] < |st.dues|
  }

  ghost predicate ValidWindows(st: State, refs: seq<nat>) {
    forall i | 0 <= i < |refs| :: refs[i] < |st.windows|
  }

  /** Every reference points at a row. */
  ghost predicate ValidRefs(st: State) {
    && (forall i | 0 <= i < |st.plans| :: ValidPlan(st, st.plans[i]))
    && (forall i | 0 <= i < |st.minutes| :: ValidWindows(st, st.minutes[i].refs))
    && (forall w | 0 <= w < |st.windows| :: st.windows[w].late.Some? ==> st.windows[w].late.value < |st.dues|)
    && (forall d | 0 <= d < |st.dues| :: st.dues[d].window.Some? ==> st.dues[d].window.value < |st.windows|)
    && (forall d | 0 <= d < |st.dues| :: st.dues[d].lateOf.Some? ==> st.dues[d].lateOf.value < |st.windows|)
    && ValidDues(st, st.carry)
    && ValidDues(st, st.writing)
  }

  // ---------- plan ----------

  function IndexOfMinute(minutes: seq<Minute>, minute: int): (i: nat)
    ensures i <= |minutes|
    ensures i < |minutes| ==> minutes[i].minute == minute
    ensures forall j | 0 <= j < i :: minutes[j].minute != minute
  {
    if minutes == [] then 0
    else if minutes[0].minute == minute then 0
    else 1 + IndexOfMinute(minutes[1..], minute)
  }

  function FindWindow(windows: seq<Window>, refs: seq<nat>, key: Key): (r: Option<nat>)
    requires forall i | 0 <= i < |refs| :: refs[i] < |windows|
    ensures r.Some? ==> r.value in refs && windows[r.value].key == key
  {
    if refs == [] then None
    else if windows[refs[0]].key == key then Some(refs[0])
    else FindWindow(windows, refs[1..], key)
  }

  function NewWindow(key: Key, minute: int): Window {
    Window(key, minute, 0, {}, Some({}), 0, None, 0, 0, false, false, None, multiset{}, 0)
  }

  function Tracked(trackedIds: map<int, int>, minute: int): int {
    if minute in trackedIds then trackedIds[minute] else 0
  }

  datatype Outcome = KeptAgain | Repeated | KeptNow | NoSlot | FoldedNow

  /** What becomes of an occurrence id on its window. */
  function Decide(c: Config, win: Window, id: string, slotsFull: bool): Outcome {
    if id in win.kept then KeptAgain
    else if win.foldedIds.Some? && id in win.foldedIds.value then Repeated
    else if win.admitted < c.after then KeptNow
    else if !win.holdsSlot && slotsFull then NoSlot
    else FoldedNow
  }

  /** The window after the decision; `canTrack`: the minute's id budget is not used up. */
  function Admit(win: Window, id: string, out: Outcome, canTrack: bool): Window {
    match out
    case KeptNow => win.(admitted := win.admitted + 1, kept := win.kept + {id})
    case FoldedNow =>
      win.(holdsSlot := true, admitted := win.admitted + 1, reserved := win.reserved + 1,
           foldedIds := if win.foldedIds.Some? && canTrack then Some(win.foldedIds.value + {id}) else None)
    case _ => win
  }

  /** The request's plan after the decision. */
  function Note(d: Plan, w: nat, o: Occurrence, out: Outcome): Plan {
    match out
    case Repeated => d.(repeated := d.repeated + 1)
    case FoldedNow => d.(folds := d.folds + [Fold(w, o)])
    case KeptNow => d.(kept := d.kept + [o], keptReservations := d.keptReservations + [Hold(w, o.id)])
    case _ => d.(kept := d.kept + [o])
  }

  /** The request holds the window from its first occurrence there on. */
  function Touch(win: Window, touched: set<nat>, w: nat): Window {
    if w in touched then win else win.(pending := win.pending + 1)
  }

  /** Decide one occurrence of a batch on its window: keep, recognise or fold. */
  function PlanOnWindow(c: Config, st: State, d: Plan, w: nat, minute: int, o: Occurrence): (State, Plan)
    requires w < |st.windows|
  {
    var win := Touch(st.windows[w], d.touched, w);
    var out := Decide(c, win, o.id, st.heldSamples >= c.maxSamples);
    var tracked := Tracked(st.trackedIds, minute);
    var canTrack := tracked < c.maxTrackedIds;
    (st.(windows := st.windows[w := Admit(win, o.id, out, canTrack)],
         overflow := if out.NoSlot? then st.overflow + 1 else st.overflow,
         heldSamples := if out.FoldedNow? && !win.holdsSlot then st.heldSamples + 1 else st.heldSamples,
         trackedIds := if out.FoldedNow? && win.foldedIds.Some? && canTrack
                       then st.trackedIds[minute := tracked + 1] else st.trackedIds),
     Note(d.(touched := d.touched + {w}), w, o, out))
  }

  /** A new window of the minute at entry `m`. */
  function AddWindow(st: State, m: nat, key: Key): State
    requires m < |st.minutes|
  {
    var row := st.minutes[m];
    st.(windows := st.windows + [NewWindow(key, row.minute)],
        minutes := st.minutes[m := row.(refs := row.refs + [|st.windows|])])
  }

  /** Decide one occurrence: find or create its window, within the window bound. `m` is the minute's entry. */
  function PlanOne(c: Config, st: State, d: Plan, m: nat, tenant: Tenant, route: string, o: Occurrence): (State, Plan)
    requires ValidRefs(st) && m < |st.minutes|
  {
    var row := st.minutes[m];
    var key := Key(tenant, route, o.identity);
    var found := FindWindow(st.windows, row.refs, key);
    if found.Some? then
      PlanOnWindow(c, st, d, found.value, row.minute, o)
    else if |row.refs| >= c.maxWindows then
      (st.(overflow := st.overflow + 1), d.(kept := d.kept + [o]))
    else
      PlanOnWindow(c, AddWindow(st, m, key), d, |st.windows|, row.minute, o)
  }

  lemma PlanOnWindowRefs(c: Config, st: State, d: Plan, w: nat, minute: int, o: Occurrence)
    requires ValidRefs(st) && ValidPlan(st, d) && w < |st.windows|
    ensures var (st', d') := PlanOnWindow(c, st, d, w, minute, o);
            ValidRefs(st') && ValidPlan(st', d') && |st'.windows| == |st.windows| && st'.minutes == st.minutes
  {
    var (st', d') := PlanOnWindow(c, st, d, w, minute, o);
    assert |st'.windows| == |st.windows| && st'.dues == st.dues && st'.plans == st.plans;
    assert forall i | 0 <= i < |st.windows| :: st'.windows[i].late == st.windows[i].late;
    assert forall i | 0 <= i < |st.plans| :: ValidPlan(st, st.plans[i]) ==> ValidPlan(st', st.plans[i]);
  }

  lemma NewWindowRefs(st: State, d: Plan, m: nat, key: Key)
    requires ValidRefs(st) && ValidPlan(st, d) && m < |st.minutes|
    ensures var st' := AddWindow(st, m, key); ValidRefs(st') && ValidPlan(st', d)
  {
    var st' := AddWindow(st, m, key);
    assert forall i | 0 <= i < |st.plans| :: ValidPlan(st, st.plans[i]) ==> ValidPlan(st', st.plans[i]);
  }

  lemma PlanOneRefs(c: Config, st: State, d: Plan, m: nat, tenant: Tenant, route: string, o: Occurrence)
    requires ValidRefs(st) && m < |st.minutes| && ValidPlan(st, d)
    ensures var (st', d') := PlanOne(c, st, d, m, tenant, route, o);
            ValidRefs(st') && ValidPlan(st', d') && |st'.minutes| == |st.minutes|
  {
    var row := st.minutes[m];
    var key := Key(tenant, route, o.identity);
    var found := FindWindow(st.windows, row.refs, key);
    if found.Some? {
      PlanOnWindowRefs(c, st, d, found.value, row.minute, o);
    } else if |row.refs| < c.maxWindows {
      NewWindowRefs(st, d, m, key);
      PlanOnWindowRefs(c, AddWindow(st, m, key), d, |st.windows|, row.minute, o);
    }
  }

  /** Decide the occurrences in order. */
  function PlanAll(c: Config, st: State, d: Plan, m: nat, tenant: Tenant, route: string, os: seq<Occurrence>): (State, Plan)
    requires ValidRefs(st) && m < |st.minutes| && ValidPlan(st, d)
    decreases |os|
  {
    if os == [] then (st, d)
    else
      PlanOneRefs(c, st, d, m, tenant, route, os[0]);
      var (st1, d1) := PlanOne(c, st, d, m, tenant, route, os[0]);
      PlanAll(c, st1, d1, m, tenant, route, os[1..])
  }

  /** The entry of the current minute, created when it is missing. */
  function OpenMinute(st: State): (r: (State, nat))
    ensures r.1 < |r.0.minutes| && r.0.minutes[r.1].minute == MinuteOf(st.now)
    ensures ValidRefs(st) ==> ValidRefs(r.0)
  {
    var minute := MinuteOf(st.now);
    var m := IndexOfMinute(st.minutes, minute);
    if m < |st.minutes| then (st, m) else (st.(minutes := st.minutes + [Minute(minute, [])]), m)
  }

  lemma PlanAllRefs(c: Config, st: State, d: Plan, m: nat, tenant: Tenant, route: string, os: seq<Occurrence>)
    requires ValidRefs(st) && m < |st.minutes| && ValidPlan(st, d)
    ensures var (st', d') := PlanAll(c, st, d, m, tenant, route, os);
            ValidRefs(st') && ValidPlan(st', d')
    decreases |os|
  {
    if os != [] {
      PlanOneRefs(c, st, d, m, tenant, route, os[0]);
      var (st1, d1) := PlanOne(c, st, d, m, tenant, route, os[0]);
      PlanAllRefs(c, st1, d1, m, tenant, route, os[1..]);
    }
  }

  /** `plan`: the new plan is the last row of the plan table. */
  function PlanBatch(c: Config, st: State, tenant: Tenant, route: string, os: seq<Occurrence>): State
    requires ValidRefs(st)
  {
    if c.after == 0 || os == [] then st.(plans := st.plans + [EMPTY_PLAN.(kept := os)])
    else
      var (st0, m) := OpenMinute(st);
      var (st1, d) := PlanAll(c, st0, EMPTY_PLAN, m, tenant, route, os);
      st1.(plans := st1.plans + [d])
  }

  // ---------- commit and rollback ----------

  function Later(a: Occurrence, b: Occurrence): bool {
    b.occurredAt >= a.occurredAt
  }

  /** A fold whose window was flushed meanwhile: it goes with the window's other late ones. */
  function CountLate(st: State, w: nat, win: Window, o: Occurrence): State
    requires w < |st.windows| && (win.late.Some? ==> win.late.value < |st.dues|)
  {
    if win.late.None? then
      var late := Due(win.key.tenant, win.key.route, o, 1, None, Some(w), multiset{o});
      st.(windows := st.windows[w := win.(late := Some(|st.dues|))], dues := st.dues + [late],
          carry := st.carry + [|st.dues|])
    else
      var d := win.late.value;
      var due := st.dues[d].(count := st.dues[d].count + 1, folds := st.dues[d].folds + multiset{o});
      st.(windows := st.windows[w := win],
          dues := st.dues[d := if Later(due.sample, o) then due.(sample := o) else due])
  }

  /** Count one fold of a settled request: on its window, or late, on a carried sample. */
  function CommitOne(st: State, f: Fold): State
    requires f.window < |st.windows|
    requires st.windows[f.window].late.Some? ==> st.windows[f.window].late.value < |st.dues|
  {
    var w, o := f.window, f.occurrence;
    var win := st.windows[w].(reserved := st.windows[w].reserved - 1, committed := st.windows[w].committed + 1);
    var st := st.(log := st.log + multiset{o});
    if win.flushed then CountLate(st, w, win, o)
    else
      var sample := if win.sample.None? || Later(win.sample.value, o) then Some(o) else win.sample;
      st.(windows := st.windows[w := win.(count := win.count + 1, sample := sample, folds := win.folds + multiset{o})])
  }

  lemma CommitHead(st: State, folds: seq<Fold>)
    requires ValidRefs(st) && ValidFolds(st, folds) && folds != []
    ensures var st' := CommitOne(st, folds[0]);
            ValidRefs(st') && ValidFolds(st', folds[1..]) && |st'.windows| == |st.windows| && st'.plans == st.plans
  {
    hide Later;
    var st' := CommitOne(st, folds[0]);
    assert forall i | 0 <= i < |st.plans| :: ValidPlan(st, st.plans[i]) ==> ValidPlan(st', st.plans[i]);
  }

  function CommitFolds(st: State, folds: seq<Fold>): State
    requires ValidRefs(st) && ValidFolds(st, folds)
    decreases |folds|
  {
    if folds == [] then st
    else
      CommitHead(st, folds);
      CommitFolds(CommitOne(st, folds[0]), folds[1..])
  }

  function Release(st: State, touched: set<nat>): State {
    st.(windows := seq(|st.windows|, i requires 0 <= i < |st.windows| =>
      if i in touched then st.windows[i].(pending := st.windows[i].pending - 1) else st.windows[i]))
  }

  lemma CommitFoldsRefs(st: State, folds: seq<Fold>)
    requires ValidRefs(st) && ValidFolds(st, folds)
    ensures var st' := CommitFolds(st, folds);
            ValidRefs(st') && |st'.windows| == |st.windows| && st'.plans == st.plans
    decreases |folds|
  {
    if folds != [] {
      CommitHead(st, folds);
      hide ValidRefs, ValidFolds, CommitOne;
      CommitFoldsRefs(CommitOne(st, folds[0]), folds[1..]);
    }
  }

  function Commit(st: State, p: nat): State
    requires ValidRefs(st) && p < |st.plans|
  {
    var plan := st.plans[p];
    if plan.settled then st
    else
      var st0 := st.(plans := st.plans[p := plan.(settled := true)]);
      var st1 := CommitFolds(st0, plan.folds);
      Release(st1.(folded := st1.folded + |plan.folds|), plan.touched)
  }

  function ReleaseSlot(st: State, w: nat): State
    requires w < |st.windows|
  {
    if !st.windows[w].holdsSlot then st
    else st.(windows := st.windows[w := st.windows[w].(holdsSlot := false)], heldSamples := st.heldSamples - 1)
  }

  function ReleaseHolds(st: State, holds: seq<Hold>): (r: State)
    requires ValidHolds(st, holds)
    ensures |r.windows| == |st.windows|
    decreases |holds|
  {
    if holds == [] then st
    else
      var win := st.windows[holds[0].window];
      ReleaseHolds(
        st.(windows := st.windows[holds[0].window := win.(admitted := win.admitted - 1, kept := win.kept - {holds[0].id})]),
        holds[1..])
  }

  /** Give one reserved fold back, and its window's slot when nothing was folded after all. */
  function RollbackOne(st: State, f: Fold): (r: State)
    requires f.window < |st.windows|
    ensures |r.windows| == |st.windows|
  {
    var w := f.window;
    var win := st.windows[w];
    var foldedIds := if win.foldedIds.Some? then Some(win.foldedIds.value - {f.occurrence.id}) else None;
    var win := win.(admitted := win.admitted - 1, reserved := win.reserved - 1, foldedIds := foldedIds);
    var st := st.(windows := st.windows[w := win]);
    if !win.flushed && win.count == 0 && win.reserved == 0 then ReleaseSlot(st, w) else st
  }

  function RollbackFolds(st: State, folds: seq<Fold>): (r: State)
    requires ValidFolds(st, folds)
    ensures |r.windows| == |st.windows|
    decreases |folds|
  {
    if folds == [] then st else RollbackFolds(RollbackOne(st, folds[0]), folds[1..])
  }

  function Rollback(st: State, p: nat): State
    requires ValidRefs(st) && p < |st.plans|
  {
    var plan := st.plans[p];
    if plan.settled then st
    else
      var st0 := st.(plans := st.plans[p := plan.(settled := true)]);
      var st1 := ReleaseHolds(st0, plan.keptReservations);
      Release(RollbackFolds(st1, plan.folds), plan.touched)
  }

  // ---------- flush ----------

  /** Late folds committed after a collection start a new carried sample. */
  function ResetLate(st: State, refs: seq<nat>): State
    requires ValidRefs(st) && ValidDues(st, refs)
    decreases |refs|
  {
    if refs == [] then st
    else
      var of := st.dues[refs[0]].lateOf;
      var st1 := if of.Some? && st.windows[of.value].late == Some(refs[0])
        then st.(windows := st.windows[of.value := st.windows[of.value].(late := None)]) else st;
      ResetLate(st1, refs[1..])
  }

  /** Flush one window: its committed folds become a due sample, or its slot is released. */
  function FlushWindow(st: State, w: nat): (r: State)
    requires w < |st.windows|
    ensures |r.windows| == |st.windows|
  {
    var win := st.windows[w].(flushed := true);
    var st := st.(windows := st.windows[w := win]);
    if win.count > 0 && win.sample.Some? then
      st.(dues := st.dues + [Due(win.key.tenant, win.key.route, win.sample.value, win.count, Some(w), None, win.folds)],
          writing := st.writing + [|st.dues|])
    else ReleaseSlot(st, w)
  }

  /** The windows of one minute in order; the second result counts those a request still holds. */
  function CollectWindows(st: State, refs: seq<nat>, forced: bool, open: nat): (State, nat)
    requires ValidWindows(st, refs)
    decreases |refs|
  {
    if refs == [] then (st, open)
    else
      var win := st.windows[refs[0]];
      if win.flushed then CollectWindows(st, refs[1..], forced, open)
      else if win.pending > 0 && !forced then CollectWindows(st, refs[1..], forced, open + 1)
      else CollectWindows(FlushWindow(st, refs[0]), refs[1..], forced, open)
  }

  predicate Forced(c: Config, st: State, minute: int, all: bool) {
    all || st.now - (minute + 1) * MINUTE_MS >= c.forceAfterMs
  }

  lemma CollectWindowsRefs(st: State, refs: seq<nat>, forced: bool, open: nat)
    requires ValidRefs(st) && ValidWindows(st, refs)
    ensures var st' := CollectWindows(st, refs, forced, open).0;
            && ValidRefs(st') && |st'.windows| == |st.windows| && st'.now == st.now
            && st'.minutes == st.minutes && st'.plans == st.plans
    decreases |refs|
  {
    if refs != [] {
      var win := st.windows[refs[0]];
      if win.flushed || (win.pending > 0 && !forced) {
        CollectWindowsRefs(st, refs[1..], forced, if win.flushed then open else open + 1);
      } else {
        CollectWindowsRefs(FlushWindow(st, refs[0]), refs[1..], forced, open);
      }
    }
  }

  /** The minutes from entry `m` on; an entry none of whose windows stays open is deleted. */
  function CollectMinutes(c: Config, st: State, m: nat, all: bool): State
    requires ValidRefs(st) && m <= |st.minutes|
    decreases |st.minutes| - m
  {
    if m == |st.minutes| then st
    else
      var row := st.minutes[m];
      if !all && row.minute >= MinuteOf(st.now) then CollectMinutes(c, st, m + 1, all)
      else
        CollectWindowsRefs(st, row.refs, Forced(c, st, row.minute, all), 0);
        var (st1, open) := CollectWindows(st, row.refs, Forced(c, st, row.minute, all), 0);
        if open == 0 then
          CollectMinutes(c, st1.(minutes := st1.minutes[..m] + st1.minutes[m + 1..],
                                 trackedIds := st1.trackedIds - {row.minute}), m, all)
        else CollectMinutes(c, st1, m + 1, all)
  }

  lemma ResetLateRefs(st: State, refs: seq<nat>)
    requires ValidRefs(st) && ValidDues(st, refs)
    ensures var st' := ResetLate(st, refs);
            ValidRefs(st') && |st'.windows| == |st.windows| && st'.dues == st.dues && st'.minutes == st.minutes
    decreases |refs|
  {
    if refs != [] {
      var of := st.dues[refs[0]].lateOf;
      var st1 := if of.Some? && st.windows[of.value].late == Some(refs[0])
        then st.(windows := st.windows[of.value := st.windows[of.value].(late := None)]) else st;
      ResetLateRefs(st1, refs[1..]);
    }
  }

  /** `collectDue`, when no flush is in progress: the due samples are moved to `writing`. */
  function Collect(c: Config, st: State, all: bool): State
    requires ValidRefs(st)
  {
    if st.writing != [] then st
    else
      var st0 := st.(writing := st.carry, carry := []);
      ResetLateRefs(st0, st0.writing);
      CollectMinutes(c, ResetLate(st0, st0.writing), 0, all)
  }

  /** The refs whose due sample belongs to the tenant (`mine`), or to another one. */
  function OfTenant(dues: seq<Due>, refs: seq<nat>, tenant: Tenant, mine: bool): (r: seq<nat>)
    requires forall i | 0 <= i < |refs| :: refs[i] < |dues|
    ensures forall i | 0 <= i < |r| :: r[i] in refs && r[i] < |dues|
  {
    if refs == [] then []
    else
      var rest := OfTenant(dues, refs[1..], tenant, mine);
      if (dues[refs[0]].tenant == tenant) == mine then [refs[0]] + rest else rest
  }

  function StoredOf(due: Due): Stored {
    Stored(due.tenant, due.route, due.sample, due.count - 1, due.count, due.folds)
  }

  /** The next due sample is stored and its window's slot released. */
  function StoreNext(st: State): State
    requires ValidRefs(st) && st.writing != []
  {
    var due := st.dues[st.writing[0]];
    var st1 := if due.window.Some? then ReleaseSlot(st, due.window.value) else st;
    st1.(stored := st1.stored + [StoredOf(due)], writing := st1.writing[1..])
  }

  function StoreMany(st: State, n: nat): State
    requires ValidRefs(st) && n <= |st.writing|
    decreases n
  {
    if n == 0 then st else StoreMany(StoreNext(st), n - 1)
  }

  /**
   * Settle the write of the first tenant still being written: its samples are stored, or kept (with
   * their slots) for the next flush.
   */
  function Store(st: State, ok: bool): State
    requires ValidRefs(st)
  {
    if st.writing == [] then st
    else
      var tenant := st.dues[st.writing[0]].tenant;
      var items := OfTenant(st.dues, st.writing, tenant, true);
      var others := OfTenant(st.dues, st.writing, tenant, false);
      if ok then
        StoreMany(st.(writing := items + others, samplesFlushed := st.samplesFlushed + |items|), |items|)
      else
        st.(writing := others, carry := st.carry + items, failedFlushes := st.failedFlushes + 1)
  }

  lemma StoreManyRefs(st: State, n: nat)
    requires ValidRefs(st) && n <= |st.writing|
    ensures var st' := StoreMany(st, n); ValidRefs(st') && |st'.windows| == |st.windows| && st'.plans == st.plans
    decreases n
  {
    if n > 0 { StoreManyRefs(StoreNext(st), n - 1); }
  }

  // ---------- runs ----------

  datatype Event =
    | Tick(ms: nat)
    | PlanRequest(tenant: Tenant, route: string, occurrences: seq<Occurrence>)
    | CommitRequest(plan: nat)
    | RollbackRequest(plan: nat)
    | StartFlush(all: bool)
    | StoreOk
    | StoreFail

  function Step(c: Config, st: State, e: Event): State
    requires ValidRefs(st)
  {
    match e
    case Tick(ms) => st.(now := st.now + ms)
    case PlanRequest(tenant, route, os) => PlanBatch(c, st, tenant, route, os)
    case CommitRequest(p) => if p < |st.plans| then Commit(st, p) else st
    case RollbackRequest(p) => if p < |st.plans| then Rollback(st, p) else st
    case StartFlush(all) => Collect(c, st, all)
    case StoreOk => Store(st, true)
    case StoreFail => Store(st, false)
  }
}
