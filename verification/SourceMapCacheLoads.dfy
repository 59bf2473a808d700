/**
 * When the source map cache fetches a map, and which contents of a new one it keeps
 * (packages/otlp-ingester/src/symbolicate.ts): exactly one load for each id asked for without a fresh answer, and
 * every file that there is room for.
 */
module SourceMapCacheLoads {
  import opened Wrappers
  import opened SourceMapCacheModel
  import opened SourceMapCacheProofs
  import opened SourceMapCacheTheorems

  // ---------- fetches ----------

  predicate HasFresh(s: Cache, id: string, now: int) {
    exists x <- s.entries.slots :: x.key == id && x.expiresAt > now
  }

  lemma FoundFresh(c: Config, s: Cache, id: string, now: int)
    requires Inv(c, s)
    ensures var i := Find(s.entries.slots, id);
            HasFresh(s, id, now) <==> i < |s.entries.slots| && s.entries.slots[i].expiresAt > now
  {
    var slots, i := s.entries.slots, Find(s.entries.slots, id);
    forall x <- slots | x.key == id ensures i < |slots| && slots[i] == x {
      var j :| 0 <= j < |slots| && slots[j] == x;
    }
    if i < |slots| { assert slots[i] in slots; }
  }

  /**
   * In every reached state: a fresh answer is given without a fetch; without one, a fetch for this id starts exactly
   * when none is under way, whatever else is being fetched, and the old answer is gone.
   */
  lemma FetchesExactly(c: Config, s: Cache, id: string, now: int)
    requires Reached(c, s)
    ensures var (r, answer) := Get(s, id, now);
            if HasFresh(s, id, now) then answer.Hit? && r.loading == s.loading && r.fetches == s.fetches
            else
              && answer == Waits && r.fetches == s.fetches + (if id in s.loading then 0 else 1)
              && (forall other :: other in r.loading <==> other in s.loading || other == id)
              && (forall x <- r.entries.slots :: x.key != id)
  {
    ReachedInv(c, s);
    FoundFresh(c, s, id, now);
    if !HasFresh(s, id, now) { WithoutMembers(s.entries.slots, id); }
  }

  lemma {:induction false} DropsJustOne(ids: seq<string>, id: string)
    requires DistinctIds(ids)
    ensures forall other :: other in DropId(ids, id) <==> other in ids && other != id
  {
    if ids != [] {
      forall i, j | 0 <= i < j < |ids[1..]| ensures ids[1..][i] != ids[1..][j] { assert ids[i + 1] != ids[j + 1]; }
      forall i | 0 <= i < |ids[1..]| ensures ids[1..][i] != ids[0] { assert ids[0] != ids[i + 1]; }
      DropsJustOne(ids[1..], id);
    }
  }

  /** The end of a load ends that load, and no other. */
  lemma EndsOneLoad(c: Config, s: Cache, id: string)
    requires Reached(c, s)
    ensures var r := Next(c, s, DoFinished(id));
            && (forall other :: other in r.loading <==> other in s.loading && other != id)
            && r.entries == s.entries && r.contents == s.contents && r.parsed == s.parsed && r.fetches == s.fetches
  {
    ReachedInv(c, s);
    DropsJustOne(s.loading, id);
  }

  // ---------- contents ----------

  /** The bytes the first `n` contents take: each file that is not empty, two for each character and 64. */
  function Need(contents: seq<Option<string>>, n: nat): nat
    requires n <= |contents|
  {
    if n == 0 then 0
    else
      Need(contents, n - 1)
      + if contents[n - 1].Some? && |contents[n - 1].value| > 0 then 2 * |contents[n - 1].value| + 64 else 0
  }

  /** None of them is above half the budget. */
  predicate EachFits(c: Config, contents: seq<Option<string>>, n: nat)
    requires n <= |contents|
  {
    forall i | 0 <= i < n && contents[i].Some? :: 2 * (2 * |contents[i].value| + 64) <= c.maxContentBytes
  }

  /** What was stored stays, and the first `n` contents that are not empty are stored as they are. */
  ghost predicate AllStored(c: Config, s: Contents, r: Contents, parse: nat, contents: seq<Option<string>>, n: nat, now: int)
    requires n <= |contents|
  {
    && r.weight == s.weight + Need(contents, n) && s.slots <= r.slots
    && (forall i | |s.slots| <= i < |r.slots| :: r.slots[i].key.parse == parse && r.slots[i].key.index < n)
    && (forall i | 0 <= i < n && contents[i].Some? && |contents[i].value| > 0 ::
          Slot(ContentKey(parse, i), contents[i].value, 2 * |contents[i].value| + 64, now + c.hitTtl) in r.slots)
  }

  lemma NotThere(slots: seq<Slot<ContentKey, string>>, key: ContentKey)
    requires forall i | 0 <= i < |slots| :: slots[i].key != key
    ensures Find(slots, key) == |slots| && Without(slots, key) == slots && WeightOf(slots, key) == 0
  {
    var i := Find(slots, key);
  }

  lemma StoredLast(c: Config, t: Contents, slot: Slot<ContentKey, string>)
    requires forall i | 0 <= i < |t.slots| :: t.slots[i].key != slot.key
    requires 2 * slot.weight <= c.maxContentBytes && t.weight + slot.weight <= c.maxContentBytes
    ensures StoreContent(c, t, slot) == Store(t.slots + [slot], t.weight + slot.weight)
  {
    NotThere(t.slots, slot.key);
  }

  lemma OneMoreStored(c: Config, s: Contents, t: Contents, parse: nat, contents: seq<Option<string>>, n: nat, now: int)
    requires n < |contents| && (forall x <- s.slots :: x.key.parse != parse) && EachFits(c, contents, n + 1)
    requires AllStored(c, s, t, parse, contents, n, now) && s.weight + Need(contents, n + 1) <= c.maxContentBytes
    requires contents[n].Some? && |contents[n].value| > 0
    ensures var slot := ContentSlot(c, ContentKey(parse, n), contents[n].value, now);
            AllStored(c, s, StoreContent(c, t, slot), parse, contents, n + 1, now)
  {
    var slot := ContentSlot(c, ContentKey(parse, n), contents[n].value, now);
    forall i | 0 <= i < |t.slots| ensures t.slots[i].key != slot.key {
      if i < |s.slots| { assert t.slots[i] == s.slots[i] && s.slots[i] in s.slots; }
    }
    StoredLast(c, t, slot);
    hide StoreContent, EachFits;
    LongerStored(c, s, t, parse, contents, n, now, slot);
  }

  lemma LongerStored(c: Config, s: Contents, t: Contents, parse: nat, contents: seq<Option<string>>, n: nat, now: int,
                     slot: Slot<ContentKey, string>)
    requires n < |contents| && AllStored(c, s, t, parse, contents, n, now)
    requires contents[n].Some? && |contents[n].value| > 0
    requires slot == Slot(ContentKey(parse, n), contents[n].value, 2 * |contents[n].value| + 64, now + c.hitTtl)
    ensures AllStored(c, s, Store(t.slots + [slot], t.weight + slot.weight), parse, contents, n + 1, now)
  {
    var r := t.slots + [slot];
    forall i | |s.slots| <= i < |r| ensures r[i].key.parse == parse && r[i].key.index < n + 1 {
      if i < |t.slots| { assert r[i] == t.slots[i]; }
    }
  }

  lemma {:induction false} AllAreStored(c: Config, s: Contents, parse: nat, contents: seq<Option<string>>, n: nat, now: int)
    requires n <= |contents| && forall x <- s.slots :: x.key.parse != parse
    requires s.weight + Need(contents, n) <= c.maxContentBytes && EachFits(c, contents, n)
    ensures AllStored(c, s, StoreContents(c, s, parse, contents, n, now), parse, contents, n, now)
  {
    if n > 0 {
      AllAreStored(c, s, parse, contents, n - 1, now);
      var t := StoreContents(c, s, parse, contents, n - 1, now);
      if contents[n - 1].Some? && |contents[n - 1].value| > 0 { OneMoreStored(c, s, t, parse, contents, n - 1, now); }
    }
  }

  /** Where there is room for all files of a new map, none of them at more than half the budget, all are stored. */
  lemma FilesWithRoomAreKept(c: Config, s: Cache, contents: seq<Option<string>>, now: int)
    requires Reached(c, s)
    requires s.contents.weight + Need(contents, |contents|) <= c.maxContentBytes && EachFits(c, contents, |contents|)
    ensures var r := WithParsed(c, s, contents, now);
            && s.contents.slots <= r.contents.slots
            && forall i | 0 <= i < |contents| && contents[i].Some? && contents[i].value != "" ::
                 Slot(ContentKey(|s.parsed|, i), contents[i].value, 2 * |contents[i].value| + 64, now + c.hitTtl) in r.contents.slots
  {
    ReachedInv(c, s);
    forall x <- s.contents.slots ensures x.key.parse != |s.parsed| { assert IsGenuine(s.parsed, x); }
    AllAreStored(c, s.contents, |s.parsed|, contents, |contents|, now);
  }

  lemma {:induction false} KeysExactly(parse: nat, contents: seq<Option<string>>, n: nat, i: nat)
    requires n <= |contents|
    ensures ContentKey(parse, i) in KeysOf(parse, contents, n) <==> i < n && contents[i].Some? && contents[i].value != ""
  {
    if n > 0 { KeysExactly(parse, contents, n - 1, i); }
  }
}
