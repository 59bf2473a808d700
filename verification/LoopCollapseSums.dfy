/**
 * Sums over the tables of the loop-collapse model, and how each changes when one row does. Every sum
 * is taken either over all the elements or over the copies of one of them, so that equal sums mean
 * equal totals and equal contents.
 */
module LoopCollapseSums {
  import opened Wrappers
  import opened LoopCollapseModel

  // ---------- ids reserved by plans ----------

  /** All reserved ids, or the reservations of one id. */
  datatype Ids = AnyId | OneId(id: string)

  function One(m: Ids, id: string): nat {
    if m.AnyId? || m.id == id then 1 else 0
  }

  function FoldSum(folds: seq<Fold>, w: nat, m: Ids): nat {
    if folds == [] then 0
    else (if folds[0].window == w then One(m, folds[0].occurrence.id) else 0) + FoldSum(folds[1..], w, m)
  }

  function HoldSum(holds: seq<Hold>, w: nat, m: Ids): nat {
    if holds == [] then 0
    else (if holds[0].window == w then One(m, holds[0].id) else 0) + HoldSum(holds[1..], w, m)
  }

  /** Folds the unsettled plans reserve on window `w`. */
  function ReservedFolds(plans: seq<Plan>, w: nat, m: Ids): nat {
    if plans == [] then 0
    else (if plans[0].settled then 0 else FoldSum(plans[0].folds, w, m)) + ReservedFolds(plans[1..], w, m)
  }

  /** Kept ids the unsettled plans would give back on window `w`. */
  function ReservedHolds(plans: seq<Plan>, w: nat, m: Ids): nat {
    if plans == [] then 0
    else (if plans[0].settled then 0 else HoldSum(plans[0].keptReservations, w, m)) + ReservedHolds(plans[1..], w, m)
  }

  /** The number of unsettled plans that hold window `w`. */
  function Touching(plans: seq<Plan>, w: nat): nat {
    if plans == [] then 0
    else (if !plans[0].settled && w in plans[0].touched then 1 else 0) + Touching(plans[1..], w)
  }

  lemma {:induction false} FoldSumPush(folds: seq<Fold>, f: Fold, w: nat, m: Ids)
    ensures FoldSum(folds + [f], w, m) == FoldSum(folds, w, m) + (if f.window == w then One(m, f.occurrence.id) else 0)
  {
    if folds == [] {
    } else {
      FoldSumPush(folds[1..], f, w, m);
      assert (folds + [f])[1..] == folds[1..] + [f];
    }
  }

  lemma {:induction false} HoldSumPush(holds: seq<Hold>, h: Hold, w: nat, m: Ids)
    ensures HoldSum(holds + [h], w, m) == HoldSum(holds, w, m) + (if h.window == w then One(m, h.id) else 0)
  {
    if holds == [] {
    } else {
      HoldSumPush(holds[1..], h, w, m);
      assert (holds + [h])[1..] == holds[1..] + [h];
    }
  }

  lemma {:induction false} PushPlan(plans: seq<Plan>, p: Plan, w: nat, m: Ids)
    requires !p.settled
    ensures ReservedFolds(plans + [p], w, m) == ReservedFolds(plans, w, m) + FoldSum(p.folds, w, m)
    ensures ReservedHolds(plans + [p], w, m) == ReservedHolds(plans, w, m) + HoldSum(p.keptReservations, w, m)
    ensures Touching(plans + [p], w) == Touching(plans, w) + (if w in p.touched then 1 else 0)
  {
    if plans == [] {
    } else {
      PushPlan(plans[1..], p, w, m);
      assert (plans + [p])[1..] == plans[1..] + [p];
    }
  }

  lemma {:induction false} SettlePlan(plans: seq<Plan>, i: nat, w: nat, m: Ids)
    requires i < |plans| && !plans[i].settled
    ensures var settled := plans[i := plans[i].(settled := true)];
            && ReservedFolds(plans, w, m) == ReservedFolds(settled, w, m) + FoldSum(plans[i].folds, w, m)
            && ReservedHolds(plans, w, m) == ReservedHolds(settled, w, m) + HoldSum(plans[i].keptReservations, w, m)
            && Touching(plans, w) == Touching(settled, w) + (if w in plans[i].touched then 1 else 0)
  {
    var settled := plans[i := plans[i].(settled := true)];
    if i == 0 {
      assert settled[1..] == plans[1..];
    } else {
      SettlePlan(plans[1..], i - 1, w, m);
      assert settled[1..] == plans[1..][i - 1 := plans[i].(settled := true)];
    }
  }

  /** Nothing is reserved on a window no plan refers to. */
  lemma {:induction false} NothingReserved(plans: seq<Plan>, w: nat, m: Ids)
    requires forall i | 0 <= i < |plans| :: forall j | 0 <= j < |plans[i].folds| :: plans[i].folds[j].window != w
    requires forall i | 0 <= i < |plans| ::
      forall j | 0 <= j < |plans[i].keptReservations| :: plans[i].keptReservations[j].window != w
    requires forall i | 0 <= i < |plans| :: w !in plans[i].touched
    ensures ReservedFolds(plans, w, m) == ReservedHolds(plans, w, m) == Touching(plans, w) == 0
  {
    if plans != [] {
      NothingReserved(plans[1..], w, m);
      NoHolds(plans[0].keptReservations, w, m);
      NoFolds(plans[0].folds, w, m);
    }
  }

  lemma NoFolds(folds: seq<Fold>, w: nat, m: Ids)
    requires forall j | 0 <= j < |folds| :: folds[j].window != w
    ensures FoldSum(folds, w, m) == 0
  {
  }

  lemma NoHolds(holds: seq<Hold>, w: nat, m: Ids)
    requires forall j | 0 <= j < |holds| :: holds[j].window != w
    ensures HoldSum(holds, w, m) == 0
  {
  }

  // ---------- occurrences and slots ----------

  /** All occurrences, or the copies of one occurrence. */
  datatype Which = All | Only(o: Occurrence)

  function Weight(folds: multiset<Occurrence>, m: Which): nat {
    if m.All? then |folds| else folds[m.o]
  }

  function Unit(o: Occurrence, m: Which): nat {
    if m.All? || m.o == o then 1 else 0
  }

  function Unflushed(win: Window, m: Which): nat {
    if win.flushed then 0 else Weight(win.folds, m)
  }

  /** The committed folds no flush has taken from their window yet. */
  function InWindows(windows: seq<Window>, m: Which): nat {
    if windows == [] then 0 else Unflushed(windows[0], m) + InWindows(windows[1..], m)
  }

  function SlotOf(win: Window): nat {
    if win.holdsSlot then 1 else 0
  }

  function SlotHolders(windows: seq<Window>): nat {
    if windows == [] then 0 else SlotOf(windows[0]) + SlotHolders(windows[1..])
  }

  lemma {:induction false} WindowsUpdate(windows: seq<Window>, w: nat, win: Window, m: Which)
    requires w < |windows|
    ensures InWindows(windows[w := win], m) + Unflushed(windows[w], m) == InWindows(windows, m) + Unflushed(win, m)
    ensures SlotHolders(windows[w := win]) + SlotOf(windows[w]) == SlotHolders(windows) + SlotOf(win)
  {
    var updated := windows[w := win];
    if w == 0 {
      assert updated[1..] == windows[1..];
    } else {
      WindowsUpdate(windows[1..], w - 1, win, m);
      assert updated[1..] == windows[1..][w - 1 := win];
    }
  }

  lemma {:induction false} WindowsPush(windows: seq<Window>, win: Window, m: Which)
    ensures InWindows(windows + [win], m) == InWindows(windows, m) + Unflushed(win, m)
    ensures SlotHolders(windows + [win]) == SlotHolders(windows) + SlotOf(win)
  {
    if windows != [] {
      WindowsPush(windows[1..], win, m);
      assert (windows + [win])[1..] == windows[1..] + [win];
    }
  }

  /** Changing neither folds nor slots nor flushes moves nothing. */
  lemma {:induction false} WindowsSame(a: seq<Window>, b: seq<Window>, m: Which)
    requires |a| == |b|
    requires forall i | 0 <= i < |a| ::
      a[i].folds == b[i].folds && a[i].flushed == b[i].flushed && a[i].holdsSlot == b[i].holdsSlot
    ensures InWindows(a, m) == InWindows(b, m) && SlotHolders(a) == SlotHolders(b)
  {
    if a != [] { WindowsSame(a[1..], b[1..], m); }
  }

  function InDues(dues: seq<Due>, refs: seq<nat>, m: Which): nat
    requires forall i | 0 <= i < |refs| :: refs[i] < |dues|
  {
    if refs == [] then 0 else Weight(dues[refs[0]].folds, m) + InDues(dues, refs[1..], m)
  }

  predicate Distinct(refs: seq<nat>) {
    forall i, j | 0 <= i < j < |refs| :: refs[i] != refs[j]
  }

  lemma {:induction false} DuesSame(dues: seq<Due>, dues': seq<Due>, refs: seq<nat>, m: Which)
    requires forall i | 0 <= i < |refs| :: refs[i] < |dues| && refs[i] < |dues'|
    requires forall i | 0 <= i < |refs| :: dues'[refs[i]].folds == dues[refs[i]].folds
    ensures InDues(dues', refs, m) == InDues(dues, refs, m)
  {
    if refs != [] { DuesSame(dues, dues', refs[1..], m); }
  }

  lemma {:induction false} DuesAppend(dues: seq<Due>, a: seq<nat>, b: seq<nat>, m: Which)
    requires forall i | 0 <= i < |a| :: a[i] < |dues|
    requires forall i | 0 <= i < |b| :: b[i] < |dues|
    ensures InDues(dues, a + b, m) == InDues(dues, a, m) + InDues(dues, b, m)
  {
    if a == [] {
      assert a + b == b;
    } else {
      DuesAppend(dues, a[1..], b, m);
      assert (a + b)[1..] == a[1..] + b;
    }
  }

  lemma {:induction false} DuesUpdate(dues: seq<Due>, refs: seq<nat>, d: nat, due: Due, m: Which)
    requires forall i | 0 <= i < |refs| :: refs[i] < |dues|
    requires Distinct(refs) && d in refs && d < |dues|
    ensures InDues(dues[d := due], refs, m) + Weight(dues[d].folds, m) == InDues(dues, refs, m) + Weight(due.folds, m)
  {
    if refs[0] == d {
      DuesSame(dues, dues[d := due], refs[1..], m);
    } else {
      DuesUpdate(dues, refs[1..], d, due, m);
    }
  }

  /** Splitting by tenant loses no ref and moves no occurrence. */
  lemma {:induction false} DuesSplit(dues: seq<Due>, refs: seq<nat>, tenant: Tenant, m: Which)
    requires forall i | 0 <= i < |refs| :: refs[i] < |dues|
    ensures InDues(dues, refs, m) ==
            InDues(dues, OfTenant(dues, refs, tenant, true), m) + InDues(dues, OfTenant(dues, refs, tenant, false), m)
  {
    if refs != [] { DuesSplit(dues, refs[1..], tenant, m); }
  }

  lemma {:induction false} OfTenantSplits(dues: seq<Due>, refs: seq<nat>, tenant: Tenant, mine: bool)
    requires forall i | 0 <= i < |refs| :: refs[i] < |dues|
    ensures forall d :: d in OfTenant(dues, refs, tenant, mine) <==> d in refs && (dues[d].tenant == tenant) == mine
    ensures Distinct(refs) ==> Distinct(OfTenant(dues, refs, tenant, mine))
  {
    if refs != [] { OfTenantSplits(dues, refs[1..], tenant, mine); }
  }

  function InStored(stored: seq<Stored>, m: Which): nat {
    if stored == [] then 0 else Weight(stored[0].folds, m) + InStored(stored[1..], m)
  }

  lemma {:induction false} StoredPush(stored: seq<Stored>, s: Stored, m: Which)
    ensures InStored(stored + [s], m) == InStored(stored, m) + Weight(s.folds, m)
  {
    if stored != [] {
      StoredPush(stored[1..], s, m);
      assert (stored + [s])[1..] == stored[1..] + [s];
    }
  }

  // ---------- the counters the program keeps ----------

  function StoredCount(stored: seq<Stored>): int {
    if stored == [] then 0 else stored[0].folded + StoredCount(stored[1..])
  }

  function WindowCount(windows: seq<Window>): int {
    if windows == [] then 0 else (if windows[0].flushed then 0 else windows[0].count) + WindowCount(windows[1..])
  }

  function DueCount(dues: seq<Due>, refs: seq<nat>): int
    requires forall i | 0 <= i < |refs| :: refs[i] < |dues|
  {
    if refs == [] then 0 else dues[refs[0]].count + DueCount(dues, refs[1..])
  }

  lemma StoredCounts(stored: seq<Stored>)
    requires forall i | 0 <= i < |stored| :: stored[i].folded == |stored[i].folds|
    ensures StoredCount(stored) == InStored(stored, All)
  {
  }

  lemma WindowCounts(windows: seq<Window>)
    requires forall i | 0 <= i < |windows| :: windows[i].count == |windows[i].folds|
    ensures WindowCount(windows) == InWindows(windows, All)
  {
  }

  lemma DueCounts(dues: seq<Due>, refs: seq<nat>)
    requires forall i | 0 <= i < |refs| :: refs[i] < |dues| && dues[refs[i]].count == |dues[refs[i]].folds|
    ensures DueCount(dues, refs) == InDues(dues, refs, All)
  {
  }
}
