/**
 * A batch planned, and sent again after any other steps of the same minute, its own commit among them (a shutdown
 * flush excepted): what the program remembers of it, and when counting it twice is impossible.
 */
module LoopCollapseResend {
  import opened Wrappers
  import opened LoopCollapseModel
  import opened LoopCollapseSums
  import opened LoopCollapseProofs
  import opened LoopCollapseReplan
  import opened LoopCollapseTheorems
  import opened LoopCollapseIds
  import opened LoopCollapseRetry

  /** `es` leads through `states`, without a forced flush and within one minute. */
  ghost predicate WithinMinute(c: Config, states: seq<State>, es: seq<Event>) {
    && |states| == |es| + 1
    && (forall i | 0 <= i < |es| ::
          ValidRefs(states[i]) && states[i + 1] == Step(c, states[i], es[i]) && es[i] != StartFlush(true))
    && (forall i | 0 <= i < |states| :: MinuteOf(states[i].now) == MinuteOf(states[0].now))
  }

  // ---------- ids over the run ----------

  /** Step `k` gave the id back. */
  predicate GivenBackAt(states: seq<State>, es: seq<Event>, w: nat, id: string, k: nat)
    requires |states| == |es| + 1 && k < |es|
  {
    GivesBack(states[k], es[k], w, id)
  }

  predicate TakenUpAt(states: seq<State>, es: seq<Event>, w: nat, id: string, k: nat)
    requires |states| == |es| + 1 && k < |es|
  {
    TakesUp(states[k], es[k], states[k + 1], w, id)
  }

  /** A request that reserved the id was rolled back, and none reserved it again. */
  ghost predicate Lost(states: seq<State>, es: seq<Event>, w: nat, id: string)
    requires |states| == |es| + 1
  {
    exists k: nat | k < |es| ::
      GivenBackAt(states, es, w, id, k) && forall j: nat | k < j < |es| :: !TakenUpAt(states, es, w, id, j)
  }

  lemma Shorter(c: Config, states: seq<State>, es: seq<Event>)
    requires WithinMinute(c, states, es) && es != []
    ensures WithinMinute(c, states[..|es|], es[..|es| - 1])
  {}

  lemma LostSoFar(states: seq<State>, es: seq<Event>, w: nat, id: string)
    requires |states| == |es| + 1 && es != []
    ensures var n := |es| - 1;
            Lost(states, es, w, id) <==>
              GivenBackAt(states, es, w, id, n) || (!TakenUpAt(states, es, w, id, n) && Lost(states[..n + 1], es[..n], w, id))
  {
    var n := |es| - 1;
    var states', es' := states[..n + 1], es[..n];
    forall k: nat | k < n
      ensures GivenBackAt(states', es', w, id, k) == GivenBackAt(states, es, w, id, k)
      ensures TakenUpAt(states', es', w, id, k) == TakenUpAt(states, es, w, id, k)
    {}
    if Lost(states', es', w, id) && !TakenUpAt(states, es, w, id, n) {
      var k: nat :| k < n && GivenBackAt(states', es', w, id, k)
                    && forall j: nat | k < j < n :: !TakenUpAt(states', es', w, id, j);
      assert GivenBackAt(states, es, w, id, k);
    }
    if Lost(states, es, w, id) && !GivenBackAt(states, es, w, id, n) {
      var k: nat :| k < |es| && GivenBackAt(states, es, w, id, k)
                    && forall j: nat | k < j < |es| :: !TakenUpAt(states, es, w, id, j);
      assert GivenBackAt(states', es', w, id, k);
    }
  }

  /** What a run does to one id on one window. */
  ghost predicate IdKept(states: seq<State>, es: seq<Event>, w: nat, id: string)
    requires |states| == |es| + 1 && w < |states[0].windows|
  {
    var last := states[|es|];
    && w < |last.windows|
    && var a, b := states[0].windows[w], last.windows[w];
       && (b.foldedIds.Some? ==> a.foldedIds.Some?)
       && (b.foldedIds.Some? && Knows(a, id) ==> (Knows(b, id) <==> !Lost(states, es, w, id)))
       && ((forall k: nat | k < |es| :: !GivenBackAt(states, es, w, id, k)) ==>
             && (id in a.kept ==> id in b.kept)
             && (b.foldedIds.Some? && id in a.foldedIds.value ==> id in b.foldedIds.value))
  }

  /** An id known at the start is known at the end exactly unless it was lost; how it is known does not change. */
  lemma {:induction false} RunIds(c: Config, states: seq<State>, es: seq<Event>, w: nat, id: string)
    requires WithinMinute(c, states, es) && Good(c, states[0]) && w < |states[0].windows|
    ensures Good(c, states[|es|]) && IdKept(states, es, w, id)
    decreases |es|
  {
    if es != [] {
      var n := |es| - 1;
      Shorter(c, states, es);
      RunIds(c, states[..n + 1], es[..n], w, id);
      assert states[..n + 1][n] == states[n];
      assert Good(c, states[n + 1]) by { StepGood(c, states[n], es[n], states[n + 1]); }
      assert IdStep(states[n], es[n], states[n + 1], w, id) by { StepIds(c, states[n], es[n], states[n + 1], w, id); }
      IdKeptStep(states, es, w, id);
    }
  }

  lemma IdKeptStep(states: seq<State>, es: seq<Event>, w: nat, id: string)
    requires |states| == |es| + 1 && es != [] && w < |states[0].windows|
    requires IdKept(states[..|es|], es[..|es| - 1], w, id) && w < |states[|es| - 1].windows|
    requires IdStep(states[|es| - 1], es[|es| - 1], states[|es|], w, id)
    ensures IdKept(states, es, w, id)
  {
    var n := |es| - 1;
    var states', es' := states[..n + 1], es[..n];
    LostSoFar(states, es, w, id);
    forall k: nat | k < n ensures GivenBackAt(states', es', w, id, k) == GivenBackAt(states, es, w, id, k) {}
    assert GivenBackAt(states, es, w, id, n) == GivesBack(states[n], es[n], w, id);
    assert TakenUpAt(states, es, w, id, n) == TakesUp(states[n], es[n], states[n + 1], w, id);
    assert states'[n] == states[n] && states'[0] == states[0];
  }

  // ---------- places over the run ----------

  /** The current minute lists at least the windows it listed. */
  ghost predicate Lists(st: State, st': State) {
    && |st.windows| <= |st'.windows|
    && (forall w | 0 <= w < |st.windows| :: st'.windows[w].key == st.windows[w].key)
    && RefsOf(st.minutes, MinuteOf(st.now)) <= RefsOf(st'.minutes, MinuteOf(st.now))
  }

  lemma PlanLists(c: Config, st: State, tenant: Tenant, route: string, os: seq<Occurrence>)
    requires ValidRefs(st)
    ensures Lists(st, PlanBatch(c, st, tenant, route, os))
  {
    if c.after != 0 && os != [] {
      var (st0, m) := OpenMinute(st);
      PlanAllRemembers(c, st0, EMPTY_PLAN, m, tenant, route, os);
      PlanAllMinutes(c, st0, EMPTY_PLAN, m, tenant, route, os);
      var st1 := PlanAll(c, st0, EMPTY_PLAN, m, tenant, route, os).0;
      FirstEntry(st0.minutes, m, MinuteOf(st.now));
      FirstEntry(st1.minutes, m, MinuteOf(st.now));
    }
  }

  lemma RollbackLists(st: State, p: nat)
    requires ValidRefs(st) && p < |st.plans|
    ensures Lists(st, Rollback(st, p))
  {
    RollbackMinutes(st, p);
    if !st.plans[p].settled {
      forall w: nat | w < |st.windows| ensures Rollback(st, p).windows[w].key == st.windows[w].key {
        RollbackForgets(st, p, w, "");
      }
    }
  }

  lemma StepLists(c: Config, st: State, e: Event, st': State)
    requires ValidRefs(st) && e != StartFlush(true) && st' == Step(c, st, e)
    ensures Lists(st, st')
  {
    match e
    case Tick(_) =>
    case PlanRequest(tenant, route, os) => PlanLists(c, st, tenant, route, os);
    case CommitRequest(p) => if p < |st.plans| { CommitKnown(st, p); }
    case RollbackRequest(p) => if p < |st.plans| { RollbackLists(st, p); }
    case StartFlush(_) => CollectKnown(c, st);
    case StoreOk => StoreKnown(st, true);
    case StoreFail => StoreKnown(st, false);
  }

  lemma {:induction false} RunLists(c: Config, states: seq<State>, es: seq<Event>)
    requires WithinMinute(c, states, es)
    ensures Lists(states[0], states[|es|])
    decreases |es|
  {
    if es != [] {
      var n := |es| - 1;
      Shorter(c, states, es);
      RunLists(c, states[..n + 1], es[..n]);
      StepLists(c, states[n], es[n], states[n + 1]);
    }
  }

  // ---------- the retry ----------

  /** The window of an occurrence in the current minute. */
  function WindowFor(st: State, tenant: Tenant, route: string, o: Occurrence): (r: Option<nat>)
    requires ValidRefs(st)
    ensures r.Some? ==> r.value < |st.windows|
  {
    var m := IndexOfMinute(st.minutes, MinuteOf(st.now));
    if m < |st.minutes| then Lookup(st, m, tenant, route, o) else None
  }

  /** No window of the batch has run out of ids to remember. */
  predicate StillTracked(st: State, tenant: Tenant, route: string, os: seq<Occurrence>)
    requires ValidRefs(st)
  {
    forall i | 0 <= i < |os| ::
      var w := WindowFor(st, tenant, route, os[i]);
      w.Some? ==> st.windows[w.value].foldedIds.Some?
  }

  lemma WindowStays(st: State, st': State, tenant: Tenant, route: string, o: Occurrence)
    requires ValidRefs(st) && ValidRefs(st') && Lists(st, st') && MinuteOf(st'.now) == MinuteOf(st.now)
    requires WindowFor(st, tenant, route, o).Some?
    ensures WindowFor(st', tenant, route, o) == WindowFor(st, tenant, route, o)
  {
    var refs, refs' := RefsOf(st.minutes, MinuteOf(st.now)), RefsOf(st'.minutes, MinuteOf(st.now));
    FindStays(st.windows, st'.windows, refs, refs', Key(tenant, route, o.identity));
  }

  /** A request planned at `st` without reaching a bound, and a later moment of the same minute. */
  ghost predicate Resent(c: Config, st: State, tenant: Tenant, route: string, os: seq<Occurrence>,
                         states: seq<State>, es: seq<Event>)
  {
    && Good(c, st) && WithinMinute(c, states, es)
    && states[0] == PlanBatch(c, st, tenant, route, os) && states[0].overflow == st.overflow
    && ValidRefs(states[|es|]) && StillTracked(states[|es|], tenant, route, os)
  }

  /** The ids of the batch on window `w` that were lost since. */
  ghost function LostIds(c: Config, st: State, tenant: Tenant, route: string, os: seq<Occurrence>,
                         states: seq<State>, es: seq<Event>, w: nat): set<string>
    requires Resent(c, st, tenant, route, os, states, es)
  {
    set i | 0 <= i < |os| && WindowFor(states[|es|], tenant, route, os[i]) == Some(w) && Lost(states, es, w, os[i].id) ::
      os[i].id
  }

  lemma PlannedEntry(c: Config, st: State, tenant: Tenant, route: string, os: seq<Occurrence>)
    requires ValidRefs(st) && c.after > 0 && os != []
    ensures var st', m := PlanBatch(c, st, tenant, route, os), OpenMinute(st).1;
            st'.now == st.now && m < |st'.minutes| && IndexOfMinute(st'.minutes, MinuteOf(st.now)) == m
  {
    var (st0, m) := OpenMinute(st);
    PlanAllMinutes(c, st0, EMPTY_PLAN, m, tenant, route, os);
    FirstEntry(PlanAll(c, st0, EMPTY_PLAN, m, tenant, route, os).0.minutes, m, MinuteOf(st.now));
  }

  /** A window that remembers its ids at the end remembered them all along. */
  lemma TrackedThen(c: Config, st: State, tenant: Tenant, route: string, os: seq<Occurrence>,
                    states: seq<State>, es: seq<Event>)
    requires Resent(c, st, tenant, route, os, states, es) && c.after > 0 && os != [] && Good(c, states[0])
    ensures var m := OpenMinute(st).1; m < |states[0].minutes| && Remembering(states[0], m, tenant, route, os)
  {
    var m := OpenMinute(st).1;
    PlannedEntry(c, st, tenant, route, os);
    RunLists(c, states, es);
    forall i | 0 <= i < |os|
      ensures var w := Lookup(states[0], m, tenant, route, os[i]);
              w.Some? ==> states[0].windows[w.value].foldedIds.Some?
    {
      var w := WindowFor(states[0], tenant, route, os[i]);
      if w.Some? {
        WindowStays(states[0], states[|es|], tenant, route, os[i]);
        RunIds(c, states, es, w.value, os[i].id);
      }
    }
  }

  /** The first plan leaves every occurrence of the batch recognised. */
  lemma AllPlanned(c: Config, st: State, tenant: Tenant, route: string, os: seq<Occurrence>,
                   states: seq<State>, es: seq<Event>)
    requires Resent(c, st, tenant, route, os, states, es) && c.after > 0 && os != []
    ensures Good(c, states[0])
    ensures var m := IndexOfMinute(states[0].minutes, MinuteOf(states[0].now));
            && m < |states[0].minutes| && AllKnown(states[0], m, tenant, route, os)
            && |states[0].plans| == |st.plans| + 1
            && states[0].plans[|st.plans|].kept == KeptPart(states[0], m, tenant, route, os)
  {
    var planned := states[0];
    assert Good(c, planned) by { StepGood(c, st, PlanRequest(tenant, route, os), planned); }
    TrackedThen(c, st, tenant, route, os, states, es);
    PlannedEntry(c, st, tenant, route, os);
    PlannedKnows(c, st, OpenMinute(st).1, tenant, route, os, planned);
  }

  /** What holds of an occurrence of the batch once it is planned, and how it is found at the end. */
  lemma PlannedThenFound(c: Config, st: State, tenant: Tenant, route: string, os: seq<Occurrence>,
                         states: seq<State>, es: seq<Event>, i: nat)
    requires Resent(c, st, tenant, route, os, states, es) && c.after > 0 && i < |os|
    ensures Good(c, states[0]) && Good(c, states[|es|])
    ensures var w := WindowFor(states[|es|], tenant, route, os[i]);
            && w.Some? && w.value < |states[0].windows| && WindowFor(states[0], tenant, route, os[i]) == w
            && Knows(states[0].windows[w.value], os[i].id) && states[|es|].windows[w.value].foldedIds.Some?
            && IdKept(states, es, w.value, os[i].id)
  {
    AllPlanned(c, st, tenant, route, os, states, es);
    RunLists(c, states, es);
    var w := WindowFor(states[0], tenant, route, os[i]);
    WindowStays(states[0], states[|es|], tenant, route, os[i]);
    RunIds(c, states, es, w.value, os[i].id);
  }

  lemma {:induction false} UnknownIds(st: State, m: nat, tenant: Tenant, route: string, os: seq<Occurrence>, w: nat)
    requires ValidRefs(st) && m < |st.minutes| && w < |st.windows|
    ensures Unknown(st, m, tenant, route, os, w) ==
              set i | 0 <= i < |os| && Lookup(st, m, tenant, route, os[i]) == Some(w) && !Knows(st.windows[w], os[i].id) ::
                os[i].id
  {
    if os != [] { UnknownIds(st, m, tenant, route, os[1..], w); }
  }

  /** What the retry does not recognise is what was lost. */
  lemma UnknownAreLost(c: Config, st: State, tenant: Tenant, route: string, os: seq<Occurrence>,
                       states: seq<State>, es: seq<Event>, m: nat, w: nat)
    requires Resent(c, st, tenant, route, os, states, es) && c.after > 0 && w < |states[|es|].windows|
    requires m == IndexOfMinute(states[|es|].minutes, MinuteOf(states[|es|].now)) < |states[|es|].minutes|
    ensures Unknown(states[|es|], m, tenant, route, os, w) == LostIds(c, st, tenant, route, os, states, es, w)
  {
    var last := states[|es|];
    UnknownIds(last, m, tenant, route, os, w);
    forall i | 0 <= i < |os| && Lookup(last, m, tenant, route, os[i]) == Some(w)
      ensures Knows(last.windows[w], os[i].id) <==> !Lost(states, es, w, os[i].id)
    {
      PlannedThenFound(c, st, tenant, route, os, states, es, i);
    }
  }

  /** The plan of a request sent at `st`. */
  function PlanOf(c: Config, st: State, tenant: Tenant, route: string, os: seq<Occurrence>): Plan
    requires ValidRefs(st)
  {
    PlanPartition(c, st, tenant, route, os);
    PlanBatch(c, st, tenant, route, os).plans[|st.plans|]
  }

  /** All windows of the batch are still there. */
  lemma ResentPlaced(c: Config, st: State, tenant: Tenant, route: string, os: seq<Occurrence>,
                     states: seq<State>, es: seq<Event>)
    requires Resent(c, st, tenant, route, os, states, es) && c.after > 0 && os != []
    ensures var last := states[|es|];
            var m := IndexOfMinute(last.minutes, MinuteOf(last.now));
            m < |last.minutes| && Placed(last, m, tenant, route, os)
  {
    forall i | 0 <= i < |os| ensures WindowFor(states[|es|], tenant, route, os[i]).Some? {
      PlannedThenFound(c, st, tenant, route, os, states, es, i);
    }
    assert WindowFor(states[|es|], tenant, route, os[0]).Some?;
  }

  lemma PlanFoldsNothingExactly(c: Config, st: State, tenant: Tenant, route: string, os: seq<Occurrence>)
    requires ValidRefs(st) && c.after > 0 && os != []
    requires var m := IndexOfMinute(st.minutes, MinuteOf(st.now)); m < |st.minutes| && Placed(st, m, tenant, route, os)
    ensures var m := IndexOfMinute(st.minutes, MinuteOf(st.now));
            PlanOf(c, st, tenant, route, os).folds == [] <==> AllRoom(c, st, m, tenant, route, os)
  {
    var (now, m) := OpenMinute(st);
    assert now == st;
    FoldsNothingExactly(c, st, EMPTY_PLAN, m, tenant, route, os);
    PlanAllRows(c, st, EMPTY_PLAN, m, tenant, route, os);
  }

  /** Every window has room for what was lost. */
  ghost predicate RoomForLost(c: Config, st: State, tenant: Tenant, route: string, os: seq<Occurrence>,
                              states: seq<State>, es: seq<Event>)
    requires Resent(c, st, tenant, route, os, states, es)
  {
    var last := states[|es|];
    forall w: nat | w < |last.windows| ::
      Room(c, last.windows[w], LostIds(c, st, tenant, route, os, states, es, w), last.heldSamples >= c.maxSamples)
  }

  /**
   * Sent again after any run of the same minute, a batch folds nothing exactly when each of its windows has room for
   * the ids that were lost: there are none, the window may still keep them all, or it has no slot and none is free.
   */
  lemma ResentFoldsNothingExactly(c: Config, st: State, tenant: Tenant, route: string, os: seq<Occurrence>,
                                  states: seq<State>, es: seq<Event>)
    requires Resent(c, st, tenant, route, os, states, es) && c.after > 0
    ensures PlanOf(c, states[|es|], tenant, route, os).folds == [] <==> RoomForLost(c, st, tenant, route, os, states, es)
  {
    var last := states[|es|];
    if os == [] {
      assert forall w: nat | w < |last.windows| :: LostIds(c, st, tenant, route, os, states, es, w) == {};
    } else {
      ResentPlaced(c, st, tenant, route, os, states, es);
      PlanFoldsNothingExactly(c, last, tenant, route, os);
      var m := IndexOfMinute(last.minutes, MinuteOf(last.now));
      forall w: nat | w < |last.windows|
        ensures Unknown(last, m, tenant, route, os, w) == LostIds(c, st, tenant, route, os, states, es, w)
      {
        UnknownAreLost(c, st, tenant, route, os, states, es, m, w);
      }
    }
  }

  // ---------- when nothing of the batch was given back ----------

  /** No step of the run rolls back a request that reserved an id of the batch on its window. */
  ghost predicate NothingGivenBack(tenant: Tenant, route: string, os: seq<Occurrence>, states: seq<State>, es: seq<Event>)
    requires |states| == |es| + 1 && ValidRefs(states[|es|])
  {
    forall k: nat, i | k < |es| && 0 <= i < |os| ::
      var w := WindowFor(states[|es|], tenant, route, os[i]);
      w.Some? ==> !GivenBackAt(states, es, w.value, os[i].id, k)
  }

  lemma SameAnswer(c: Config, st: State, tenant: Tenant, route: string, os: seq<Occurrence>,
                   states: seq<State>, es: seq<Event>, i: nat, m0: nat, m: nat)
    requires Resent(c, st, tenant, route, os, states, es) && c.after > 0 && i < |os|
    requires NothingGivenBack(tenant, route, os, states, es)
    requires m0 == IndexOfMinute(states[0].minutes, MinuteOf(states[0].now)) < |states[0].minutes|
    requires m == IndexOfMinute(states[|es|].minutes, MinuteOf(states[|es|].now)) < |states[|es|].minutes|
    ensures KnownKept(states[|es|], m, tenant, route, os[i]) == KnownKept(states[0], m0, tenant, route, os[i])
    ensures KnownKept(states[|es|], m, tenant, route, os[i]) || KnownFolded(states[|es|], m, tenant, route, os[i])
  {
    PlannedThenFound(c, st, tenant, route, os, states, es, i);
    var w := WindowFor(states[|es|], tenant, route, os[i]).value;
    assert forall k: nat | k < |es| :: !GivenBackAt(states, es, w, os[i].id, k);
    assert WindowOk(c, states[|es|].plans, EMPTY_PLAN, w, states[|es|].windows[w]);
  }

  lemma {:induction false} SameKeptPart(st: State, m: nat, st': State, m': nat, tenant: Tenant, route: string,
                                        os: seq<Occurrence>)
    requires ValidRefs(st) && ValidRefs(st') && m < |st.minutes| && m' < |st'.minutes|
    requires forall i | 0 <= i < |os| :: KnownKept(st', m', tenant, route, os[i]) == KnownKept(st, m, tenant, route, os[i])
    ensures KeptPart(st', m', tenant, route, os) == KeptPart(st, m, tenant, route, os)
  {
    if os != [] { SameKeptPart(st, m, st', m', tenant, route, os[1..]); }
  }

  /**
   * A batch sent again in its minute, whatever ran in between but a rollback of a request that had reserved one of
   * its ids: the same occurrences are kept again (stored under the same ids), every other one is reported as
   * repeated, and nothing is reserved, so nothing is counted twice.
   */
  lemma ReplanFoldsNothing(c: Config, st: State, tenant: Tenant, route: string, os: seq<Occurrence>,
                           states: seq<State>, es: seq<Event>)
    requires Resent(c, st, tenant, route, os, states, es) && NothingGivenBack(tenant, route, os, states, es)
    ensures var p1, p2 := PlanOf(c, st, tenant, route, os), PlanOf(c, states[|es|], tenant, route, os);
            && p2.folds == [] && p2.keptReservations == [] && p2.kept == p1.kept
            && p2.repeated == |p1.folds| + p1.repeated
  {
    PlanPartition(c, st, tenant, route, os);
    if c.after > 0 && os != [] {
      var last := states[|es|];
      ResentPlaced(c, st, tenant, route, os, states, es);
      AllPlanned(c, st, tenant, route, os, states, es);
      var m0, m := IndexOfMinute(states[0].minutes, MinuteOf(states[0].now)), IndexOfMinute(last.minutes, MinuteOf(last.now));
      forall i | 0 <= i < |os|
        ensures KnownKept(last, m, tenant, route, os[i]) == KnownKept(states[0], m0, tenant, route, os[i])
        ensures KnownKept(last, m, tenant, route, os[i]) || KnownFolded(last, m, tenant, route, os[i])
      {
        SameAnswer(c, st, tenant, route, os, states, es, i, m0, m);
      }
      SameKeptPart(states[0], m0, last, m, tenant, route, os);
      PlanKnown(c, last, m, tenant, route, os);
    }
  }

  // ---------- a run in which an occurrence is stored and counted ----------

  /** The collapser has one window, in the current minute, with no folds; `kept`, `admitted` and `pending` vary. */
  predicate OneWindow(st: State, key: Key, admitted: int, kept: set<string>, pending: int) {
    && st.minutes == [Minute(MinuteOf(st.now), [0])]
    && st.windows == [NewWindow(key, MinuteOf(st.now)).(admitted := admitted, kept := kept, pending := pending)]
    && st.heldSamples == 0 && st.overflow == 0
  }

  /** Planning one occurrence on the only window. */
  lemma PlanOnOne(c: Config, st: State, tenant: Tenant, route: string, o: Occurrence)
    requires ValidRefs(st) && c.after > 0 && st.minutes == [Minute(MinuteOf(st.now), [0])] && |st.windows| == 1
    requires st.windows[0].key == Key(tenant, route, o.identity)
    ensures var (st', d) := PlanOnWindow(c, st, EMPTY_PLAN, 0, MinuteOf(st.now), o);
            PlanBatch(c, st, tenant, route, [o]) == st'.(plans := st'.plans + [d])
  {
    assert OpenMinute(st) == (st, 0);
    assert PlanOne(c, st, EMPTY_PLAN, 0, tenant, route, o) == PlanOnWindow(c, st, EMPTY_PLAN, 0, MinuteOf(st.now), o);
    PlanOneRefs(c, st, EMPTY_PLAN, 0, tenant, route, o);
    var (st1, d1) := PlanOne(c, st, EMPTY_PLAN, 0, tenant, route, o);
    assert [o][1..] == [] && PlanAll(c, st1, d1, 0, tenant, route, []) == (st1, d1);
  }

  const KEPT_AGAIN := (o: Occurrence) => Plan([o], [], [], {0}, 0, false)
  const KEPT_NOW := (o: Occurrence) => Plan([o], [Hold(0, o.id)], [], {0}, 0, false)

  /** The plan of one occurrence on that window: kept again, kept now, or folded. */
  lemma PlanOfOne(c: Config, st: State, tenant: Tenant, route: string, o: Occurrence,
                  admitted: int, kept: set<string>, pending: int, st': State)
    requires ValidRefs(st) && c.after == 1 && c.maxSamples >= 1 && st' == PlanBatch(c, st, tenant, route, [o])
    requires OneWindow(st, Key(tenant, route, o.identity), admitted, kept, pending)
    ensures st'.now == st.now && |st'.plans| == |st.plans| + 1 && st'.plans[..|st.plans|] == st.plans
    ensures o.id in kept ==>
              && OneWindow(st', Key(tenant, route, o.identity), admitted, kept, pending + 1)
              && st'.plans[|st.plans|] == KEPT_AGAIN(o)
    ensures o.id !in kept && admitted == 0 ==>
              && OneWindow(st', Key(tenant, route, o.identity), 1, kept + {o.id}, pending + 1)
              && st'.plans[|st.plans|] == KEPT_NOW(o)
    ensures o.id !in kept && admitted == 1 ==> st'.plans[|st.plans|].folds == [Fold(0, o)]
  {
    PlanOnOne(c, st, tenant, route, o);
    var d := PlanOnWindow(c, st, EMPTY_PLAN, 0, MinuteOf(st.now), o).1;
    assert [] + [o] == [o] && {} + {0} == {0 as nat};
  }

  lemma ReadyForFirst(now: int, tenant: Tenant, route: string, o: Occurrence)
    ensures var (st0, m) := OpenMinute(Init(now));
            && m == 0 && st0 == Init(now).(minutes := [Minute(MinuteOf(now), [])])
            && AddWindow(st0, 0, Key(tenant, route, o.identity))
               == Init(now).(minutes := [Minute(MinuteOf(now), [0])],
                             windows := [NewWindow(Key(tenant, route, o.identity), MinuteOf(now))])
  {
    var (st0, m) := OpenMinute(Init(now));
    assert [] + [Minute(MinuteOf(now), [])] == [Minute(MinuteOf(now), [])];
    assert [] + [0 as nat] == [0];
    var st1 := AddWindow(st0, 0, Key(tenant, route, o.identity));
    assert st1.minutes == [Minute(MinuteOf(now), [0])];
    assert st1.windows == [NewWindow(Key(tenant, route, o.identity), MinuteOf(now))];
  }

  /** The first plan of all makes the window and keeps its occurrence. */
  lemma PlanFirst(c: Config, now: int, tenant: Tenant, route: string, o: Occurrence, st: State)
    requires c.after == 1 && c.maxWindows >= 1 && st == PlanBatch(c, Init(now), tenant, route, [o])
    ensures OneWindow(st, Key(tenant, route, o.identity), 1, {o.id}, 1) && st.now == now && st.plans == [KEPT_NOW(o)]
  {
    var st0 := OpenMinute(Init(now)).0;
    var empty := AddWindow(st0, 0, Key(tenant, route, o.identity));
    ReadyForFirst(now, tenant, route, o);
    var (st1, d1) := PlanOne(c, st0, EMPTY_PLAN, 0, tenant, route, o);
    assert (st1, d1) == PlanOnWindow(c, empty, EMPTY_PLAN, 0, MinuteOf(now), o);
    PlanOneRefs(c, st0, EMPTY_PLAN, 0, tenant, route, o);
    assert [o][1..] == [] && PlanAll(c, st1, d1, 0, tenant, route, []) == (st1, d1);
    assert [] + [o] == [o] && [] + [Hold(0, o.id)] == [Hold(0, o.id)] && {} + {0} == {0 as nat} && {} + {o.id} == {o.id};
    assert d1 == KEPT_NOW(o) && [] + [d1] == [d1];
  }

  /** A request that folded nothing commits: it only lets go of the window. */
  lemma CommitOfKept(st: State, p: nat, key: Key, admitted: int, kept: set<string>, pending: int)
    requires ValidRefs(st) && OneWindow(st, key, admitted, kept, pending)
    requires p < |st.plans| && !st.plans[p].settled && st.plans[p].folds == [] && st.plans[p].touched == {0}
    ensures var st' := Commit(st, p);
            && OneWindow(st', key, admitted, kept, pending - 1) && st'.now == st.now
            && st'.plans == st.plans[p := st.plans[p].(settled := true)]
  {}

  /** A request that kept one occurrence is rolled back: the window forgets the id. */
  lemma RollbackOfKept(st: State, p: nat, o: Occurrence, key: Key, admitted: int, kept: set<string>, pending: int)
    requires ValidRefs(st) && OneWindow(st, key, admitted, kept, pending)
    requires p < |st.plans| && st.plans[p] == KEPT_NOW(o)
    ensures OneWindow(Rollback(st, p), key, admitted - 1, kept - {o.id}, pending - 1) && Rollback(st, p).now == st.now
  {
    var st0 := st.(plans := st.plans[p := st.plans[p].(settled := true)]);
    var win := st.windows[0];
    assert [Hold(0, o.id)][1..] == [];
    assert ReleaseHolds(st0, [Hold(0, o.id)]) ==
           st0.(windows := st0.windows[0 := win.(admitted := win.admitted - 1, kept := win.kept - {o.id})]);
  }

  /** `b` comes after `a` in the run that loses `x`. */
  ghost predicate OneStep(c: Config, a: State, e: Event, b: State) {
    Good(c, a) && b == Step(c, a, e) && Good(c, b) && b.now == a.now
  }

  /** The second request with `x` keeps it again and commits. */
  lemma AgainThenCommit(c: Config, st: State, tenant: Tenant, route: string, x: Occurrence) returns (a: State, b: State)
    requires c.after == 1 && c.maxSamples >= 1 && Good(c, st)
    requires OneWindow(st, Key(tenant, route, x.identity), 1, {x.id}, 1) && st.plans == [KEPT_NOW(x)]
    ensures OneStep(c, st, PlanRequest(tenant, route, [x]), a) && a.overflow == 0 && a.plans == [KEPT_NOW(x), KEPT_AGAIN(x)]
    ensures OneStep(c, a, CommitRequest(1), b) && OneWindow(b, Key(tenant, route, x.identity), 1, {x.id}, 1)
    ensures |b.plans| == 2 && b.plans[0] == KEPT_NOW(x)
  {
    hide PlanBatch, Rollback, Commit;
    GoodRefs(c, st);
    hide Good;
    a := Step(c, st, PlanRequest(tenant, route, [x]));
    assert Good(c, a) by { StepGood(c, st, PlanRequest(tenant, route, [x]), a); }
    PlanOfOne(c, st, tenant, route, x, 1, {x.id}, 1, a);
    assert a.plans == [KEPT_NOW(x), KEPT_AGAIN(x)];
    GoodRefs(c, a);
    b := Step(c, a, CommitRequest(1));
    assert Good(c, b) by { StepGood(c, a, CommitRequest(1), b); }
    CommitOfKept(a, 1, Key(tenant, route, x.identity), 1, {x.id}, 2);
  }

  /** The first request rolls back and a third keeps `y`. */
  lemma BackThenOther(c: Config, b: State, tenant: Tenant, route: string, x: Occurrence, y: Occurrence) returns (d: State, f: State)
    requires c.after == 1 && c.maxSamples >= 1 && x.identity == y.identity && Good(c, b)
    requires OneWindow(b, Key(tenant, route, x.identity), 1, {x.id}, 1) && |b.plans| == 2 && b.plans[0] == KEPT_NOW(x)
    ensures OneStep(c, b, RollbackRequest(0), d) && OneStep(c, d, PlanRequest(tenant, route, [y]), f)
    ensures OneWindow(f, Key(tenant, route, x.identity), 1, {y.id}, 1)
  {
    hide PlanBatch, Rollback, Commit;
    GoodRefs(c, b);
    hide Good;
    d := Step(c, b, RollbackRequest(0));
    assert Good(c, d) by { StepGood(c, b, RollbackRequest(0), d); }
    RollbackOfKept(b, 0, x, Key(tenant, route, x.identity), 1, {x.id}, 1);
    assert {x.id} - {x.id} == {} && {} + {y.id} == {y.id};
    GoodRefs(c, d);
    f := Step(c, d, PlanRequest(tenant, route, [y]));
    assert Good(c, f) by { StepGood(c, d, PlanRequest(tenant, route, [y]), f); }
    PlanOfOne(c, d, tenant, route, y, 0, {}, 0, f);
  }

  /** Three steps of one moment are a run within a minute. */
  lemma ThreeSteps(c: Config, states: seq<State>, es: seq<Event>)
    requires |states| == 4 && |es| == 3 && !es[0].StartFlush? && !es[1].StartFlush? && !es[2].StartFlush?
    requires OneStep(c, states[0], es[0], states[1]) && OneStep(c, states[1], es[1], states[2])
    requires OneStep(c, states[2], es[2], states[3])
    ensures WithinMinute(c, states, es)
  {
    hide OneStep, Step, ValidRefs;
    forall i | 0 <= i < 3
      ensures ValidRefs(states[i]) && states[i + 1] == Step(c, states[i], es[i]) && es[i] != StartFlush(true)
      ensures states[i + 1].now == states[i].now
    {
      assert i == 0 || i == 1 || i == 2;
      IsStep(c, states[i], es[i], states[i + 1]);
    }
    assert states[1].now == states[0].now && states[2].now == states[1].now && states[3].now == states[2].now;
  }

  lemma IsStep(c: Config, a: State, e: Event, b: State)
    requires OneStep(c, a, e, b)
    ensures ValidRefs(a) && ValidRefs(b) && b == Step(c, a, e) && b.now == a.now
  {}

  lemma GoodRefs(c: Config, st: State)
    requires Good(c, st)
    ensures ValidRefs(st)
  {}

  lemma LosingRun(c: Config, st: State, tenant: Tenant, route: string, x: Occurrence, y: Occurrence)
    returns (a: State, b: State, d: State, f: State)
    requires c.after == 1 && c.maxSamples >= 1 && x.identity == y.identity && Good(c, st)
    requires OneWindow(st, Key(tenant, route, x.identity), 1, {x.id}, 1) && st.plans == [KEPT_NOW(x)]
    ensures OneStep(c, st, PlanRequest(tenant, route, [x]), a) && OneStep(c, a, CommitRequest(1), b)
    ensures OneStep(c, b, RollbackRequest(0), d) && OneStep(c, d, PlanRequest(tenant, route, [y]), f)
    ensures a.overflow == 0 && OneWindow(f, Key(tenant, route, x.identity), 1, {y.id}, 1)
    ensures a.plans == [KEPT_NOW(x), KEPT_AGAIN(x)]
  {
    a, b := AgainThenCommit(c, st, tenant, route, x);
    d, f := BackThenOther(c, b, tenant, route, x, y);
  }

  /**
   * What the documentation promises of a retried batch can fail. With `after` = 1: one request keeps `x`, and so
   * reserves it; another one with `x` keeps it again, reserving nothing, and commits; the first one rolls back, a
   * third keeps `y`; and now `x`, stored by the second request, is folded when that request is sent again.
   */
  lemma StoredThenCounted(c: Config, now: int, tenant: Tenant, route: string, x: Occurrence, y: Occurrence)
    returns (st: State, states: seq<State>, es: seq<Event>)
    requires c.after == 1 && c.maxWindows >= 1 && c.maxSamples >= 1 && x.identity == y.identity && x.id != y.id
    ensures st == PlanBatch(c, Init(now), tenant, route, [x])
    ensures es == [CommitRequest(1), RollbackRequest(0), PlanRequest(tenant, route, [y])]
    ensures Resent(c, st, tenant, route, [x], states, es) && states[3].overflow == 0
    ensures PlanOf(c, st, tenant, route, [x]).kept == [x] && PlanOf(c, states[3], tenant, route, [x]).folds == [Fold(0, x)]
  {
    hide OneStep, PlanBatch, Inv, Good;
    es := [CommitRequest(1), RollbackRequest(0), PlanRequest(tenant, route, [y])];
    st := PlanBatch(c, Init(now), tenant, route, [x]);
    assert Good(c, st) by {
      InitGood(c, now);
      StepGood(c, Init(now), PlanRequest(tenant, route, [x]), st);
    }
    PlanFirst(c, now, tenant, route, x, st);
    var a, b, d, f := LosingRun(c, st, tenant, route, x, y);
    states := [a, b, d, f];
    IsStep(c, st, PlanRequest(tenant, route, [x]), a);
    IsStep(c, d, PlanRequest(tenant, route, [y]), f);
    assert WithinMinute(c, states, es) by {
      ThreeSteps(c, states, es);
    }
    assert a == PlanBatch(c, st, tenant, route, [x]);
    assert PlanOf(c, f, tenant, route, [x]).folds == [Fold(0, x)] by {
      PlanOfOne(c, f, tenant, route, x, 1, {y.id}, 1, PlanBatch(c, f, tenant, route, [x]));
    }
  }
}
