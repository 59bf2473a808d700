/** What settling a request and settling a write change, exactly. */
module LoopCollapseSettle {
  import opened Wrappers
  import opened LoopCollapseModel
  import opened LoopCollapseSums
  import opened LoopCollapseProofs
  import opened LoopCollapseFlushProofs
  import opened LoopCollapseTheorems

  // ---------- a commit ----------

  /** The occurrences a request folds on window `w`, in its order. */
  function FoldsOn(folds: seq<Fold>, w: nat): seq<Occurrence> {
    if folds == [] then []
    else (if folds[0].window == w then [folds[0].occurrence] else []) + FoldsOn(folds[1..], w)
  }

  /** The last of the newest: none is newer, and those after it are older. */
  predicate LastNewestAt(all: seq<Occurrence>, i: nat)
    requires i < |all|
  {
    forall j | 0 <= j < |all| ::
      (if j <= i then all[j].occurredAt <= all[i].occurredAt else all[j].occurredAt < all[i].occurredAt)
  }

  predicate LastNewest(s: Occurrence, all: seq<Occurrence>) {
    exists i | 0 <= i < |all| :: all[i] == s && LastNewestAt(all, i)
  }

  lemma LastNewestOne(o: Occurrence)
    ensures LastNewest(o, [o])
  {
    assert LastNewestAt([o], 0);
  }

  lemma LastNewestTwo(s: Occurrence, o: Occurrence)
    ensures LastNewest(if o.occurredAt >= s.occurredAt then o else s, [s, o])
  {
    assert LastNewestAt([s, o], if o.occurredAt >= s.occurredAt then 1 else 0);
  }

  /** The last newest of some, and then of it and the others, is the last newest of all. */
  lemma LastNewestJoins(a: seq<Occurrence>, b: seq<Occurrence>, mid: Occurrence, s: Occurrence)
    requires LastNewest(mid, a) && LastNewest(s, [mid] + b)
    ensures LastNewest(s, a + b)
  {
    var i :| 0 <= i < |a| && a[i] == mid && LastNewestAt(a, i);
    var k :| 0 <= k < |[mid] + b| && ([mid] + b)[k] == s && LastNewestAt([mid] + b, k);
    var at := if k == 0 then i else |a| + k - 1;
    forall j | 0 <= j < |a + b|
      ensures if j <= at then (a + b)[j].occurredAt <= s.occurredAt else (a + b)[j].occurredAt < s.occurredAt
    {
      assert ([mid] + b)[0] == mid;
      if j >= |a| { assert ([mid] + b)[j - |a| + 1] == (a + b)[j]; }
    }
    assert LastNewestAt(a + b, at);
  }

  /** The window a request folds on, before and after its commit; `os` are its folds there. */
  ghost predicate Counted(a: Window, b: Window, os: seq<Occurrence>) {
    && b == a.(reserved := a.reserved - |os|, committed := a.committed + |os|, count := a.count + |os|,
               folds := a.folds + multiset(os), sample := b.sample)
    && b.sample.Some?
    && LastNewest(b.sample.value, (if a.sample.Some? then [a.sample.value] else []) + os)
  }

  ghost predicate Carries(due: Due, due': Due, os: seq<Occurrence>) {
    && due' == due.(count := due.count + |os|, folds := due.folds + multiset(os), sample := due'.sample)
    && LastNewest(due'.sample, [due.sample] + os)
  }

  /** A carried sample begun for a window that was flushed before the commit. */
  ghost predicate Begins(win: Window, w: nat, due: Due, os: seq<Occurrence>) {
    && due == Due(win.key.tenant, win.key.route, due.sample, |os|, None, Some(w), multiset(os))
    && LastNewest(due.sample, os)
  }

  /** A flushed window counts nothing more: its folds go to its carried sample. */
  ghost predicate CarriedOn(st: State, st': State, w: nat, os: seq<Occurrence>)
    requires w < |st.windows| && w < |st'.windows|
  {
    var a, b := st.windows[w], st'.windows[w];
    && b == a.(reserved := a.reserved - |os|, committed := a.committed + |os|, late := b.late)
    && b.late.Some? && b.late.value < |st'.dues| && b.late.value in st'.carry
    && if a.late.Some? then
         b.late == a.late && a.late.value < |st.dues| && Carries(st.dues[a.late.value], st'.dues[a.late.value], os)
       else
         b.late.value >= |st.dues| && Begins(a, w, st'.dues[b.late.value], os)
  }

  ghost predicate Kept(st: State, st': State, w: nat)
    requires w < |st.windows| && w < |st'.windows|
  {
    && st'.windows[w] == st.windows[w]
    && (st.windows[w].late.Some? ==>
          var l := st.windows[w].late.value;
          l < |st.dues| && l < |st'.dues| && st'.dues[l] == st.dues[l] && (l in st.carry ==> l in st'.carry))
  }

  /** What committing a request's folds does to one window. */
  ghost predicate Settles(st: State, st': State, w: nat, os: seq<Occurrence>)
    requires w < |st.windows| && w < |st'.windows|
  {
    if os == [] then Kept(st, st', w)
    else if st.windows[w].flushed then CarriedOn(st, st', w, os)
    else Counted(st.windows[w], st'.windows[w], os)
  }

  lemma CountedOne(st: State, f: Fold)
    requires ValidRefs(st) && f.window < |st.windows| && !st.windows[f.window].flushed
    ensures Counted(st.windows[f.window], CommitOne(st, f).windows[f.window], [f.occurrence])
  {
    var o, win := f.occurrence, st.windows[f.window];
    LastNewestOne(o);
    assert [] + [o] == [o];
    if win.sample.Some? {
      LastNewestTwo(win.sample.value, o);
      assert [win.sample.value] + [o] == [win.sample.value, o];
    }
  }

  lemma CarriedOne(st: State, f: Fold)
    requires ValidRefs(st) && f.window < |st.windows| && st.windows[f.window].flushed && LateOk(st, f.window)
    ensures CarriedOn(st, CommitOne(st, f), f.window, [f.occurrence])
  {
    var o, win := f.occurrence, st.windows[f.window];
    LastNewestOne(o);
    if win.late.Some? {
      LastNewestTwo(st.dues[win.late.value].sample, o);
      assert [st.dues[win.late.value].sample] + [o] == [st.dues[win.late.value].sample, o];
    }
  }

  /** A fold on one window leaves the others and their carried samples alone. */
  lemma KeptOne(st: State, f: Fold, w: nat)
    requires ValidRefs(st) && f.window < |st.windows| && w < |st.windows| && w != f.window
    requires LateOk(st, w) && LateOk(st, f.window)
    ensures Kept(st, CommitOne(st, f), w)
  {}

  lemma SettlesOne(st: State, f: Fold, w: nat)
    requires ValidRefs(st) && DuesOk(st) && f.window < |st.windows| && w < |st.windows|
    ensures var st' := CommitOne(st, f);
            |st'.windows| == |st.windows| && Settles(st, st', w, if f.window == w then [f.occurrence] else [])
  {
    assert LateOk(st, w) && LateOk(st, f.window);
    hide DuesOk;
    CommitHeads(st, f);
    if f.window != w {
      KeptOne(st, f, w);
    } else if st.windows[w].flushed {
      hide CommitOne;
      CarriedOne(st, f);
    } else {
      hide CommitOne;
      CountedOne(st, f);
    }
  }

  lemma CommitHeads(st: State, f: Fold)
    requires ValidRefs(st) && f.window < |st.windows|
    ensures var st' := CommitOne(st, f);
            |st'.windows| == |st.windows| && |st.dues| <= |st'.dues| && st'.log == st.log + multiset{f.occurrence}
  {}

  lemma CountedTwice(a: Window, mid: Window, b: Window, o: Occurrence, os: seq<Occurrence>)
    requires Counted(a, mid, [o]) && Counted(mid, b, os)
    ensures Counted(a, b, [o] + os)
  {
    var s := if a.sample.Some? then [a.sample.value] else [];
    LastNewestJoins(s + [o], os, mid.sample.value, b.sample.value);
    assert (s + [o]) + os == s + ([o] + os);
  }

  lemma CarriesTwice(a: Due, mid: Due, b: Due, o: Occurrence, os: seq<Occurrence>)
    requires Carries(a, mid, [o]) && Carries(mid, b, os)
    ensures Carries(a, b, [o] + os)
  {
    LastNewestJoins([a.sample] + [o], os, mid.sample, b.sample);
    assert ([a.sample] + [o]) + os == [a.sample] + ([o] + os);
  }

  lemma BeginsThenCarries(win: Window, w: nat, mid: Due, b: Due, o: Occurrence, os: seq<Occurrence>)
    requires Begins(win, w, mid, [o]) && Carries(mid, b, os)
    ensures Begins(win, w, b, [o] + os)
  {
    LastNewestJoins([o], os, mid.sample, b.sample);
  }

  lemma SettlesTwice(st: State, mid: State, st': State, w: nat, o: Occurrence, os: seq<Occurrence>)
    requires w < |st.windows| && w < |mid.windows| && w < |st'.windows| && |st.dues| <= |mid.dues|
    requires Settles(st, mid, w, [o]) && Settles(mid, st', w, os)
    ensures Settles(st, st', w, [o] + os)
  {
    hide Counted, Carries, Begins;
    assert [o] + [] == [o];
    if os != [] && !st.windows[w].flushed {
      assert !mid.windows[w].flushed by { FlagKept(st.windows[w], mid.windows[w], [o]); }
      CountedTwice(st.windows[w], mid.windows[w], st'.windows[w], o, os);
    } else if os != [] {
      var l := mid.windows[w].late.value;
      if st.windows[w].late.Some? {
        CarriesTwice(st.dues[l], mid.dues[l], st'.dues[l], o, os);
      } else {
        BeginsThenCarries(st.windows[w], w, mid.dues[l], st'.dues[l], o, os);
      }
    }
  }

  lemma FlagKept(a: Window, b: Window, os: seq<Occurrence>)
    requires Counted(a, b, os)
    ensures b.flushed == a.flushed
  {}

  /** The occurrences a request folds. */
  function Occurrences(folds: seq<Fold>): seq<Occurrence> {
    if folds == [] then [] else [folds[0].occurrence] + Occurrences(folds[1..])
  }

  lemma SettlesNothing(c: Config, st: State, d: Plan, w: nat)
    requires Inv(c, st, d) && w < |st.windows|
    ensures ValidRefs(st) && ValidPlan(st, d) && Settles(st, st, w, [])
  {
    assert LateOk(st, w);
  }

  lemma SettlesFirst(c: Config, st: State, d: Plan, w: nat)
    requires Inv(c, st, d) && w < |st.windows| && d.folds != []
    ensures ValidRefs(st) && ValidPlan(st, d)
    ensures var st' := CommitOne(st, d.folds[0]);
            && |st'.windows| == |st.windows| && |st.dues| <= |st'.dues|
            && Settles(st, st', w, if d.folds[0].window == w then [d.folds[0].occurrence] else [])
            && st'.log == st.log + multiset{d.folds[0].occurrence}
  {
    assert DuesOk(st);
    hide DuesOk, Settles, CommitOne;
    SettlesOne(st, d.folds[0], w);
    CommitHeads(st, d.folds[0]);
  }

  lemma {:induction false} SettlesFolds(c: Config, st: State, d: Plan, w: nat)
    requires Inv(c, st, d) && w < |st.windows|
    ensures var st' := CommitFolds(st, d.folds);
            && |st'.windows| == |st.windows| && |st.dues| <= |st'.dues|
            && Settles(st, st', w, FoldsOn(d.folds, w))
            && st'.log == st.log + multiset(Occurrences(d.folds))
    decreases |d.folds|
  {
    hide Inv, Settles, CommitOne;
    if d.folds == [] {
      SettlesNothing(c, st, d, w);
    } else {
      var f, d1 := d.folds[0], d.(folds := d.folds[1..]);
      SettlesFirst(c, st, d, w);
      CommitOneInv(c, st, d);
      CommitHead(st, d.folds);
      hide ValidRefs, ValidPlan, ValidFolds;
      var st1 := CommitOne(st, f);
      SettlesFolds(c, st1, d1, w);
      var st' := CommitFolds(st1, d1.folds);
      if f.window == w {
        SettlesTwice(st, st1, st', w, f.occurrence, FoldsOn(d1.folds, w));
      } else {
        KeptThenSettles(st, st1, st', w, FoldsOn(d1.folds, w));
        assert [] + FoldsOn(d1.folds, w) == FoldsOn(d1.folds, w);
      }
    }
  }

  lemma KeptThenSettles(st: State, mid: State, st': State, w: nat, os: seq<Occurrence>)
    requires w < |st.windows| && w < |mid.windows| && w < |st'.windows| && |st.dues| <= |mid.dues|
    requires Settles(st, mid, w, []) && Settles(mid, st', w, os)
    ensures Settles(st, st', w, os)
  {}

  // ---------- main results ----------

  /** Committing a request counts each of its folds once, where it belongs, and lets go of its windows. */
  lemma CommitCounts(c: Config, st: State, p: nat, w: nat, st': State)
    requires Good(c, st) && p < |st.plans| && !st.plans[p].settled && st' == Commit(st, p) && w < |st.windows|
    ensures |st'.windows| == |st.windows|
    ensures st'.log == st.log + multiset(Occurrences(st.plans[p].folds))
    ensures st'.windows[w].pending == st.windows[w].pending - (if w in st.plans[p].touched then 1 else 0)
    ensures var same := st'.(windows := st'.windows[w := st'.windows[w].(pending := st.windows[w].pending)]);
            Settles(st, same, w, FoldsOn(st.plans[p].folds, w))
  {
    var plan := st.plans[p];
    var d := EMPTY_PLAN.(folds := plan.folds, touched := plan.touched);
    var st0 := st.(plans := st.plans[p := plan.(settled := true)]);
    SettleInv(c, st, p, d);
    InvRefs(c, st0, d);
    hide Good, Inv, Settles, ValidRefs;
    SettlesFolds(c, st0, d, w);
    var st1 := CommitFolds(st0, plan.folds);
    assert st' == Release(st1.(folded := st1.folded + |plan.folds|), plan.touched);
    SettlesPlans(st, st0, st1, w, FoldsOn(plan.folds, w));
    SettlesPending(st, st1, st', w, FoldsOn(plan.folds, w));
  }

  lemma SettlesPlans(st: State, st0: State, st1: State, w: nat, os: seq<Occurrence>)
    requires w < |st.windows| && w < |st1.windows| && st0 == st.(plans := st0.plans) && Settles(st0, st1, w, os)
    ensures Settles(st, st1, w, os) && st1.windows[w].pending == st.windows[w].pending
  {}

  lemma SettlesPending(st: State, st1: State, st': State, w: nat, os: seq<Occurrence>)
    requires w < |st.windows| && w < |st1.windows| == |st'.windows|
    requires st'.windows[w] == st1.windows[w].(pending := st'.windows[w].pending)
    requires st'.dues == st1.dues && st'.carry == st1.carry && st1.windows[w].pending == st.windows[w].pending
    requires Settles(st, st1, w, os)
    ensures Settles(st, st'.(windows := st'.windows[w := st'.windows[w].(pending := st.windows[w].pending)]), w, os)
  {
    var same := st'.(windows := st'.windows[w := st'.windows[w].(pending := st.windows[w].pending)]);
    assert same.windows[w] == st1.windows[w];
  }

  // ---------- a write ----------

  /** The store's row of a due sample. */
  ghost predicate Writes(s: Stored, due: Due) {
    && s.tenant == due.tenant && s.route == due.route && s.sample == due.sample
    && s.collapsedCount == due.count - 1 && s.folded == due.count && s.folds == due.folds
  }

  /** One of the due samples is of window `w`. */
  predicate SampleOf(dues: seq<Due>, refs: seq<nat>, w: nat)
    requires forall i | 0 <= i < |refs| :: refs[i] < |dues|
  {
    refs != [] && (dues[refs[0]].window == Some(w) || SampleOf(dues, refs[1..], w))
  }

  /** Slots of the windows whose samples are among `refs` are free; nothing else of any window changed. */
  ghost predicate Frees(st: State, st': State, refs: seq<nat>)
    requires ValidDues(st, refs)
  {
    && |st'.windows| == |st.windows|
    && forall w | 0 <= w < |st.windows| ::
         st'.windows[w] == (if SampleOf(st.dues, refs, w) then st.windows[w].(holdsSlot := false) else st.windows[w])
  }

  /** The samples are in the store as they were. */
  ghost predicate Stores(st: State, st': State, refs: seq<nat>)
    requires ValidDues(st, refs)
  {
    && |st'.stored| == |st.stored| + |refs| && st'.stored[..|st.stored|] == st.stored
    && forall i | 0 <= i < |refs| :: Writes(st'.stored[|st.stored| + i], st.dues[refs[i]])
  }

  lemma FreesNext(st: State, st1: State, st': State, refs: seq<nat>)
    requires ValidRefs(st) && st.writing != [] && st1 == StoreNext(st) && ValidDues(st, refs) && ValidDues(st1, refs)
    requires Frees(st1, st', refs)
    ensures Frees(st, st', [st.writing[0]] + refs)
  {
    hide StoredOf;
    assert ([st.writing[0]] + refs)[1..] == refs;
  }

  lemma StoresNext(st: State, st1: State, st': State, refs: seq<nat>)
    requires st.writing != [] && ValidDues(st, st.writing) && ValidDues(st, refs) && ValidDues(st1, refs)
    requires st1.dues == st.dues && st1.stored == st.stored + [StoredOf(st.dues[st.writing[0]])]
    requires Stores(st1, st', refs)
    ensures Stores(st, st', [st.writing[0]] + refs)
  {
    var all := [st.writing[0]] + refs;
    assert st'.stored[..|st.stored|] == st'.stored[..|st1.stored|][..|st.stored|];
    forall i | 0 <= i < |all| ensures Writes(st'.stored[|st.stored| + i], st.dues[all[i]]) {
      if i > 0 { assert Writes(st'.stored[|st1.stored| + i - 1], st1.dues[refs[i - 1]]); }
      else { assert st'.stored[|st.stored|] == st'.stored[..|st1.stored|][|st.stored|]; }
    }
  }

  lemma {:induction false} StoreManyExactly(st: State, n: nat)
    requires ValidRefs(st) && n <= |st.writing|
    ensures var st' := StoreMany(st, n);
            && Stores(st, st', st.writing[..n]) && Frees(st, st', st.writing[..n]) && st'.dues == st.dues
            && st'.samplesFlushed == st.samplesFlushed && st'.failedFlushes == st.failedFlushes
    decreases n
  {
    if n > 0 {
      var st1 := StoreNext(st);
      assert ValidRefs(st1) && st1.dues == st.dues && st1.writing == st.writing[1..];
      assert st1.stored == st.stored + [StoredOf(st.dues[st.writing[0]])];
      assert [st.writing[0]] + st1.writing[..n - 1] == st.writing[..n];
      hide StoreNext, ValidRefs, Frees, Stores;
      StoreManyExactly(st1, n - 1);
      var st' := StoreMany(st1, n - 1);
      FreesNext(st, st1, st', st1.writing[..n - 1]);
      StoresNext(st, st1, st', st1.writing[..n - 1]);
    }
  }

  /** The first tenant's due samples, each once. */
  ghost predicate FirstTenants(st: State, items: seq<nat>)
    requires ValidDues(st, st.writing) && st.writing != []
  {
    && Distinct(items) && forall r :: r in items <==> r in st.writing && st.dues[r].tenant == st.dues[st.writing[0]].tenant
  }

  ghost predicate Others(st: State, others: seq<nat>)
    requires ValidDues(st, st.writing) && st.writing != []
  {
    && Distinct(others) && forall r :: r in others <==> r in st.writing && st.dues[r].tenant != st.dues[st.writing[0]].tenant
  }

  lemma Parts(st: State)
    requires ValidRefs(st) && DuesOk(st) && st.writing != []
    ensures FirstTenants(st, OfTenant(st.dues, st.writing, st.dues[st.writing[0]].tenant, true))
    ensures Others(st, OfTenant(st.dues, st.writing, st.dues[st.writing[0]].tenant, false))
  {
    DistinctParts(st.carry, st.writing);
    OfTenantSplits(st.dues, st.writing, st.dues[st.writing[0]].tenant, true);
    OfTenantSplits(st.dues, st.writing, st.dues[st.writing[0]].tenant, false);
  }

  /** A write that succeeds stores the first tenant's samples, each once and as it is, and frees their slots. */
  lemma WriteStores(c: Config, st: State, st': State)
    requires Good(c, st) && st.writing != [] && st' == Store(st, true)
    ensures ValidDues(st, st.writing) && Others(st, st'.writing) && st'.carry == st.carry && st'.dues == st.dues
    ensures exists items: seq<nat> ::
              && FirstTenants(st, items) && ValidDues(st, items) && Stores(st, st', items) && Frees(st, st', items)
              && st'.samplesFlushed == st.samplesFlushed + |items| && st'.failedFlushes == st.failedFlushes
  {
    hide StoreMany, LiveOk, WindowsOk, SlotsOk, Conserved, StoredOk;
    Parts(st);
    StoreOkEffect(st);
    var items := OfTenant(st.dues, st.writing, st.dues[st.writing[0]].tenant, true);
    var others := OfTenant(st.dues, st.writing, st.dues[st.writing[0]].tenant, false);
    var st1 := st.(writing := items + others, samplesFlushed := st.samplesFlushed + |items|);
    hide Good, Frees, Stores;
    StoreManyExactly(st1, |items|);
    assert st1.writing[..|items|] == items;
    WriteSame(st, st1, st', items);
  }

  lemma WriteSame(st: State, st1: State, st': State, refs: seq<nat>)
    requires st1 == st.(writing := st1.writing, samplesFlushed := st1.samplesFlushed) && ValidDues(st, refs)
    requires Stores(st1, st', refs) && Frees(st1, st', refs)
    ensures Stores(st, st', refs) && Frees(st, st', refs)
  {}

  /** A write that fails keeps the first tenant's samples for the next flush. */
  lemma WriteFails(c: Config, st: State, st': State)
    requires Good(c, st) && st.writing != [] && st' == Store(st, false)
    ensures ValidDues(st, st.writing) && Others(st, st'.writing)
    ensures |st'.carry| >= |st.carry| && st'.carry[..|st.carry|] == st.carry && FirstTenants(st, st'.carry[|st.carry|..])
    ensures st'.stored == st.stored && st'.windows == st.windows && st'.dues == st.dues
    ensures st'.samplesFlushed == st.samplesFlushed && st'.failedFlushes == st.failedFlushes + 1
  {
    Parts(st);
    assert st'.carry[|st.carry|..] == OfTenant(st.dues, st.writing, st.dues[st.writing[0]].tenant, true);
  }
}
