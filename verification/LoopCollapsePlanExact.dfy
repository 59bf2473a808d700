/**
 * What a request's plan does, exactly: in each window the first ids up to the limit are kept and the others folded, and
 * only a bound makes an occurrence pass through.
 */
module LoopCollapsePlanExact {
  import opened Wrappers
  import opened LoopCollapseModel
  import opened LoopCollapseProofs
  import opened LoopCollapseReplan
  import opened LoopCollapseTheorems
  import opened LoopCollapseIds
  import opened LoopCollapseResend

  // ---------- what one window knows ----------

  /** Of the window of an identity: the ids it keeps and folds, and how many it admitted. Nothing without a window. */
  datatype Knowledge = Knowledge(kept: set<string>, folded: set<string>, admitted: int)

  const NOTHING := Knowledge({}, {}, 0)

  function KnowledgeOf(win: Window): Knowledge {
    Knowledge(win.kept, if win.foldedIds.Some? then win.foldedIds.value else {}, win.admitted)
  }

  function Of(identity: string): Occurrence {
    Occurrence("", identity, 0, "")
  }

  /** What the window of `identity` in the minute at entry `m` knows. */
  function KnownAt(st: State, m: nat, tenant: Tenant, route: string, identity: string): Knowledge
    requires ValidRefs(st) && m < |st.minutes|
  {
    var w := Lookup(st, m, tenant, route, Of(identity));
    if w.None? then NOTHING else KnowledgeOf(st.windows[w.value])
  }

  /** The window still remembers the ids it folds. */
  predicate Tracking(st: State, m: nat, tenant: Tenant, route: string, identity: string)
    requires ValidRefs(st) && m < |st.minutes|
  {
    var w := Lookup(st, m, tenant, route, Of(identity));
    w.Some? ==> st.windows[w.value].foldedIds.Some?
  }

  // ---------- the law ----------

  /** The ids of the batch that are new to the window of `identity`. */
  function NewIds(os: seq<Occurrence>, identity: string, known: set<string>): (r: set<string>)
    ensures forall id :: id in r <==> id !in known && exists i | 0 <= i < |os| :: os[i].identity == identity && os[i].id == id
  {
    set i | 0 <= i < |os| && os[i].identity == identity && os[i].id !in known :: os[i].id
  }

  function Least(a: int, b: int): int {
    if a <= b then a else b
  }

  /** An id new to the window comes after occurrence `i` of the batch. */
  predicate NewAfter(os: seq<Occurrence>, identity: string, known: set<string>, i: nat, j: nat)
    requires i < j < |os|
  {
    && os[j].identity == identity && os[j].id !in known
    && forall l | 0 <= l <= i :: os[l].identity == identity ==> os[l].id != os[j].id
  }

  /** Once an id is folded, every id that is new after it is folded too. */
  ghost predicate FoldedFromThere(os: seq<Occurrence>, identity: string, known: set<string>, folded: set<string>,
                                  all: set<string>) {
    forall i, j | 0 <= i < j < |os| && os[i].identity == identity && os[i].id in folded
                  && NewAfter(os, identity, known, i, j) :: os[j].id in all
  }

  /** The new ids are kept, as many as the window may still admit, or folded; no id is both. */
  ghost predicate Admits(after: int, news: set<string>, a: Knowledge, b: Knowledge) {
    && a.kept <= b.kept && a.folded <= b.folded && b.kept !! b.folded
    && b.kept + b.folded == a.kept + a.folded + news
    && b.admitted == a.admitted + |news|
    && |b.kept - a.kept| == (if a.admitted >= after then 0 else Least(|news|, after - a.admitted))
  }

  /** The first new ids, as many as the window may still admit, are kept and the others folded. */
  ghost predicate FirstKept(after: int, os: seq<Occurrence>, identity: string, a: Knowledge, b: Knowledge) {
    && Admits(after, NewIds(os, identity, a.kept + a.folded), a, b)
    && FoldedFromThere(os, identity, a.kept + a.folded, b.folded - a.folded, b.folded)
  }

  // ---------- one occurrence ----------

  lemma SameIdentity(st: State, m: nat, tenant: Tenant, route: string, o: Occurrence)
    requires ValidRefs(st) && m < |st.minutes|
    ensures Lookup(st, m, tenant, route, Of(o.identity)) == Lookup(st, m, tenant, route, o)
  {}

  /** What one decision does to the knowledge of a window. */
  ghost predicate DecidedOnce(after: int, o: Occurrence, identity: string, a: Knowledge, b: Knowledge) {
    if o.identity != identity || o.id in a.kept + a.folded then b == a
    else if a.admitted < after then b == Knowledge(a.kept + {o.id}, a.folded, a.admitted + 1)
    else b == Knowledge(a.kept, a.folded + {o.id}, a.admitted + 1)
  }

  lemma DecideOnWindow(c: Config, st: State, d: Plan, m: nat, w: nat, tenant: Tenant, route: string, o: Occurrence,
                       st': State, d': Plan)
    requires ValidRefs(st) && m < |st.minutes| && Lookup(st, m, tenant, route, o) == Some(w) && w < |st.windows|
    requires (st', d') == PlanOnWindow(c, st, d, w, st.minutes[m].minute, o) && ValidRefs(st') && m < |st'.minutes|
    requires st'.overflow == st.overflow && st'.windows[w].foldedIds.Some?
    ensures st.windows[w].foldedIds.Some?
    ensures Lookup(st', m, tenant, route, o) == Some(w)
    ensures DecidedOnce(c.after, o, o.identity, KnowledgeOf(st.windows[w]), KnowledgeOf(st'.windows[w]))
  {
    FindStays(st.windows, st'.windows, st.minutes[m].refs, st'.minutes[m].refs, Key(tenant, route, o.identity));
  }

  /** The window of another identity is another window. */
  lemma OtherWindow(st: State, m: nat, tenant: Tenant, route: string, o: Occurrence, identity: string)
    requires ValidRefs(st) && m < |st.minutes| && o.identity != identity
    requires Lookup(st, m, tenant, route, o).Some? && Lookup(st, m, tenant, route, Of(identity)).Some?
    ensures Lookup(st, m, tenant, route, o) != Lookup(st, m, tenant, route, Of(identity))
  {}

  lemma DecideExisting(c: Config, st: State, d: Plan, m: nat, tenant: Tenant, route: string, o: Occurrence, identity: string,
                       st': State, d': Plan)
    requires ValidRefs(st) && m < |st.minutes| && Lookup(st, m, tenant, route, o).Some?
    requires (st', d') == PlanOne(c, st, d, m, tenant, route, o) && ValidRefs(st') && m < |st'.minutes|
    requires st'.overflow == st.overflow && Tracking(st', m, tenant, route, identity)
    ensures Tracking(st, m, tenant, route, identity)
    ensures DecidedOnce(c.after, o, identity, KnownAt(st, m, tenant, route, identity), KnownAt(st', m, tenant, route, identity))
  {
    var w := Lookup(st, m, tenant, route, o).value;
    SameIdentity(st, m, tenant, route, o);
    SameIdentity(st', m, tenant, route, o);
    FindStays(st.windows, st'.windows, st.minutes[m].refs, st'.minutes[m].refs, Key(tenant, route, identity));
    if o.identity == identity {
      FindStays(st.windows, st'.windows, st.minutes[m].refs, st'.minutes[m].refs, Key(tenant, route, o.identity));
      DecideOnWindow(c, st, d, m, w, tenant, route, o, st', d');
    } else if Lookup(st, m, tenant, route, Of(identity)).Some? {
      OtherWindow(st, m, tenant, route, o, identity);
    }
  }

  lemma {:induction false} FindOther(ws: seq<Window>, refs: seq<nat>, win: Window, key: Key)
    requires forall i | 0 <= i < |refs| :: refs[i] < |ws|
    requires win.key != key
    ensures FindWindow(ws + [win], refs + [|ws|], key) == FindWindow(ws, refs, key)
  {
    if refs != [] {
      FindOther(ws, refs[1..], win, key);
      assert (refs + [|ws|])[1..] == refs[1..] + [|ws|];
    } else {
      assert ([] + [|ws|])[1..] == [];
    }
  }

  lemma AddedWindow(st: State, m: nat, tenant: Tenant, route: string, o: Occurrence, identity: string, st1: State)
    requires ValidRefs(st) && m < |st.minutes| && Lookup(st, m, tenant, route, o).None?
    requires st1 == AddWindow(st, m, Key(tenant, route, o.identity)) && ValidRefs(st1)
    ensures Lookup(st1, m, tenant, route, o) == Some(|st.windows|)
    ensures KnownAt(st1, m, tenant, route, identity) == KnownAt(st, m, tenant, route, identity)
    ensures Tracking(st1, m, tenant, route, identity) == Tracking(st, m, tenant, route, identity)
  {
    var win := NewWindow(Key(tenant, route, o.identity), st.minutes[m].minute);
    FindNew(st.windows, win, st.minutes[m].refs, Key(tenant, route, o.identity));
    if o.identity != identity { FindOther(st.windows, st.minutes[m].refs, win, Key(tenant, route, identity)); }
  }

  lemma DecideOne(c: Config, st: State, d: Plan, m: nat, tenant: Tenant, route: string, o: Occurrence, identity: string,
                  st': State, d': Plan)
    requires ValidRefs(st) && ValidPlan(st, d) && m < |st.minutes|
    requires (st', d') == PlanOne(c, st, d, m, tenant, route, o) && ValidRefs(st') && m < |st'.minutes|
    requires st'.overflow == st.overflow && Tracking(st', m, tenant, route, identity)
    ensures Tracking(st, m, tenant, route, identity)
    ensures DecidedOnce(c.after, o, identity, KnownAt(st, m, tenant, route, identity), KnownAt(st', m, tenant, route, identity))
  {
    if Lookup(st, m, tenant, route, o).Some? {
      DecideExisting(c, st, d, m, tenant, route, o, identity, st', d');
    } else {
      var st1 := AddWindow(st, m, Key(tenant, route, o.identity));
      NewWindowRefs(st, d, m, Key(tenant, route, o.identity));
      AddedWindow(st, m, tenant, route, o, identity, st1);
      assert (st', d') == PlanOne(c, st1, d, m, tenant, route, o);
      DecideExisting(c, st1, d, m, tenant, route, o, identity, st', d');
    }
  }

  // ---------- the whole batch ----------

  lemma NewIdsAfter(os: seq<Occurrence>, identity: string, known: set<string>)
    requires os != []
    ensures var o := os[0];
            var rest := NewIds(os[1..], identity, known + {o.id});
            if o.identity == identity && o.id !in known then o.id !in rest && NewIds(os, identity, known) == rest + {o.id}
            else NewIds(os, identity, known) == NewIds(os[1..], identity, known)
  {
    forall i | 0 <= i < |os[1..]| ensures os[1..][i] == os[i + 1] {}
    forall i | 1 <= i < |os| ensures os[i] == os[1..][i - 1] {}
  }

  lemma NothingNew(identity: string, known: set<string>)
    ensures NewIds([], identity, known) == {}
  {}

  lemma FirstKeptNone(after: int, identity: string, a: Knowledge)
    requires a.kept !! a.folded
    ensures FirstKept(after, [], identity, a, a)
  {
    assert a.kept - a.kept == {};
  }

  lemma LaterPair(os: seq<Occurrence>, identity: string, known: set<string>, known': set<string>, i: nat, j: nat)
    requires 1 <= i < j < |os| && NewAfter(os, identity, known, i, j)
    requires known' == known || (os[0].identity == identity && known' == known + {os[0].id})
    ensures os[1..][i - 1] == os[i] && os[1..][j - 1] == os[j] && NewAfter(os[1..], identity, known', i - 1, j - 1)
  {
    forall l | 0 <= l <= i - 1 ensures os[1..][l] == os[l + 1] {}
  }

  /** What holds of the later occurrences holds of all when the first is not folded. */
  lemma FoldedLater(os: seq<Occurrence>, identity: string, known: set<string>, known': set<string>, folded: set<string>,
                    all: set<string>)
    requires os != [] && FoldedFromThere(os[1..], identity, known', folded, all)
    requires known' == known || (os[0].identity == identity && known' == known + {os[0].id})
    requires os[0].identity == identity ==> os[0].id !in folded
    ensures FoldedFromThere(os, identity, known, folded, all)
  {
    forall i, j | 0 <= i < j < |os| && os[i].identity == identity && os[i].id in folded && NewAfter(os, identity, known, i, j)
      ensures os[j].id in all
    {
      LaterPair(os, identity, known, known', i, j);
    }
  }

  /** A decision about something else, or an id already known. */
  lemma FirstKeptSame(after: int, os: seq<Occurrence>, identity: string, a: Knowledge, b: Knowledge)
    requires os != [] && (os[0].identity != identity || os[0].id in a.kept + a.folded)
    requires FirstKept(after, os[1..], identity, a, b)
    ensures FirstKept(after, os, identity, a, b)
  {
    hide FoldedFromThere;
    NewIdsAfter(os, identity, a.kept + a.folded);
    FoldedLater(os, identity, a.kept + a.folded, a.kept + a.folded, b.folded - a.folded, b.folded);
  }

  lemma AdmitsKept(after: int, news: set<string>, id: string, a: Knowledge, mid: Knowledge, b: Knowledge)
    requires id !in a.kept + a.folded + news && a.admitted < after
    requires mid == Knowledge(a.kept + {id}, a.folded, a.admitted + 1) && Admits(after, news, mid, b)
    ensures Admits(after, news + {id}, a, b)
  {
    assert b.kept - a.kept == (b.kept - mid.kept) + {id};
  }

  lemma AdmitsFolded(after: int, news: set<string>, id: string, a: Knowledge, mid: Knowledge, b: Knowledge)
    requires id !in a.kept + a.folded + news && a.admitted >= after
    requires mid == Knowledge(a.kept, a.folded + {id}, a.admitted + 1) && Admits(after, news, mid, b)
    ensures Admits(after, news + {id}, a, b) && b.kept == a.kept
  {
    assert b.kept - mid.kept == {};
  }

  /** The first of the batch is new and kept. */
  lemma FirstKeptNow(after: int, os: seq<Occurrence>, identity: string, a: Knowledge, mid: Knowledge, b: Knowledge)
    requires os != [] && os[0].identity == identity && os[0].id !in a.kept + a.folded && a.admitted < after
    requires mid == Knowledge(a.kept + {os[0].id}, a.folded, a.admitted + 1) && FirstKept(after, os[1..], identity, mid, b)
    ensures FirstKept(after, os, identity, a, b)
  {
    var id, known := os[0].id, a.kept + a.folded;
    assert mid.kept + mid.folded == known + {id};
    assert id !in b.folded;
    hide FoldedFromThere;
    NewIdsAfter(os, identity, known);
    FoldedLater(os, identity, known, known + {id}, b.folded - a.folded, b.folded);
    AdmitsKept(after, NewIds(os[1..], identity, known + {id}), id, a, mid, b);
  }

  /** The first of the batch is new and folded; nothing is kept from then on. */
  lemma FirstFolded(after: int, os: seq<Occurrence>, identity: string, a: Knowledge, mid: Knowledge, b: Knowledge)
    requires os != [] && os[0].identity == identity && os[0].id !in a.kept + a.folded && a.admitted >= after
    requires mid == Knowledge(a.kept, a.folded + {os[0].id}, a.admitted + 1) && FirstKept(after, os[1..], identity, mid, b)
    ensures FirstKept(after, os, identity, a, b)
  {
    var id, known := os[0].id, a.kept + a.folded;
    assert mid.kept + mid.folded == known + {id};
    NewIdsAfter(os, identity, known);
    AdmitsFolded(after, NewIds(os[1..], identity, known + {id}), id, a, mid, b);
    AllFolded(after, os, identity, a, b);
  }

  lemma AllFolded(after: int, os: seq<Occurrence>, identity: string, a: Knowledge, b: Knowledge)
    requires Admits(after, NewIds(os, identity, a.kept + a.folded), a, b) && b.kept == a.kept
    ensures FoldedFromThere(os, identity, a.kept + a.folded, b.folded - a.folded, b.folded)
  {
    forall j | 0 <= j < |os| && os[j].identity == identity && os[j].id !in a.kept + a.folded ensures os[j].id in b.folded {
      assert os[j].id in NewIds(os, identity, a.kept + a.folded);
    }
  }

  lemma {:induction false} BatchFirstKept(c: Config, st: State, d: Plan, m: nat, tenant: Tenant, route: string,
                                          os: seq<Occurrence>, identity: string, st': State)
    requires ValidRefs(st) && m < |st.minutes| && ValidPlan(st, d)
    requires st' == PlanAll(c, st, d, m, tenant, route, os).0 && ValidRefs(st') && m < |st'.minutes|
    requires st'.overflow == st.overflow && Tracking(st', m, tenant, route, identity)
    requires KnownAt(st, m, tenant, route, identity).kept !! KnownAt(st, m, tenant, route, identity).folded
    ensures Tracking(st, m, tenant, route, identity)
    ensures FirstKept(c.after, os, identity, KnownAt(st, m, tenant, route, identity), KnownAt(st', m, tenant, route, identity))
    decreases |os|
  {
    var a, b := KnownAt(st, m, tenant, route, identity), KnownAt(st', m, tenant, route, identity);
    if os == [] {
      FirstKeptNone(c.after, identity, a);
    } else {
      PlanOneRefs(c, st, d, m, tenant, route, os[0]);
      PlanOneRemembers(c, st, d, m, tenant, route, os[0]);
      var (st1, d1) := PlanOne(c, st, d, m, tenant, route, os[0]);
      PlanAllRows(c, st1, d1, m, tenant, route, os[1..]);
      TrackedBack(c, st1, d1, m, tenant, route, os[1..], identity, st');
      DecideOne(c, st, d, m, tenant, route, os[0], identity, st1, d1);
      hide PlanOne, ValidRefs, ValidPlan, FirstKept, Tracking;
      var mid := KnownAt(st1, m, tenant, route, identity);
      BatchFirstKept(c, st1, d1, m, tenant, route, os[1..], identity, st');
      if os[0].identity != identity || os[0].id in a.kept + a.folded {
        FirstKeptSame(c.after, os, identity, a, b);
      } else if a.admitted < c.after {
        FirstKeptNow(c.after, os, identity, a, mid, b);
      } else {
        FirstFolded(c.after, os, identity, a, mid, b);
      }
    }
  }

  lemma TrackedBack(c: Config, st: State, d: Plan, m: nat, tenant: Tenant, route: string, os: seq<Occurrence>,
                    identity: string, st': State)
    requires ValidRefs(st) && m < |st.minutes| && ValidPlan(st, d)
    requires st' == PlanAll(c, st, d, m, tenant, route, os).0 && ValidRefs(st') && m < |st'.minutes|
    requires Tracking(st', m, tenant, route, identity)
    ensures Tracking(st, m, tenant, route, identity)
  {
    PlanAllRemembers(c, st, d, m, tenant, route, os);
    FindStays(st.windows, st'.windows, st.minutes[m].refs, st'.minutes[m].refs, Key(tenant, route, identity));
  }
}
