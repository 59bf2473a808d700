/** What holds over every run of the source map cache. */
module SourceMapCacheTheorems {
  import opened Wrappers
  import opened SourceMapCacheModel
  import opened SourceMapCacheProofs

  lemma MissKeeps(c: Config, s: Cache, id: string, expiresAt: int)
    requires Inv(c, s)
    ensures Inv(c, StoreMiss(c, s, id, expiresAt))
  {
    if 0 <= c.maxBytes { StoreSound(c, s, Slot(id, Cached(None, []), 0, expiresAt)); }
  }

  /** Contents of the new parse join those of the entries. */
  lemma ParsedContents(c: Config, s: Cache, contents: seq<Option<string>>, now: int)
    requires Inv(c, s)
    ensures Sound(c, WithParsed(c, s, contents, now), KeysOf(|s.parsed|, contents, |contents|))
  {
    var parse := |s.parsed|;
    var r := StoreContents(c, s.contents, parse, contents, |contents|, now);
    StoreContentsOk(c, s.contents, parse, contents, |contents|, now);
    var parsed := s.parsed + [contents];
    assert parsed[parse] == contents;
    forall x <- r.slots
      ensures IsGenuine(parsed, x) && (OwnedBy(s.entries.slots, x.key) || x.key in KeysOf(parse, contents, |contents|))
    {
      if x in s.contents.slots {
        assert IsGenuine(s.parsed, x);
        assert parsed[x.key.parse] == s.parsed[x.key.parse];
      }
    }
  }

  /** What the end of a load leaves, whatever it stored. */
  lemma SoundIsInv(c: Config, s: Cache)
    requires Sound(c, s, []) && DistinctIds(s.loading)
    requires s.entries.weight <= Max(0, c.maxBytes) && |s.entries.slots| <= Max(1, c.maxEntries)
    ensures Inv(c, s)
  {}

  lemma ParsedKeeps(c: Config, s: Cache, id: string, bytes: nat, contents: seq<Option<string>>, now: int)
    requires Inv(c, s) && 2 * bytes <= c.maxBytes
    ensures Inv(c, StoreParsed(c, s, id, bytes, contents, now))
  {
    ParsedContents(c, s, contents, now);
    var t, slot := WithParsed(c, s, contents, now), ParsedSlot(c, |s.parsed|, id, bytes, contents, now);
    StoreSound(c, t, slot);
    SoundIsInv(c, StoreEntry(c, t, slot));
  }

  lemma LoadedKeeps(c: Config, s: Cache, id: string, fetched: Fetched, now: int)
    requires Inv(c, s)
    ensures Inv(c, Loaded(c, s, id, fetched, now))
  {
    hide StoreMiss, StoreParsed, Inv;
    match fetched
    case Failed => MissKeeps(c, s, id, now + c.errorTtl);
    case Missing => MissKeeps(c, s, id, now + c.missTtl);
    case Malformed => MissKeeps(c, s, id, now + c.missTtl);
    case Parsed(bytes, contents) =>
      if 2 * bytes <= c.maxBytes { ParsedKeeps(c, s, id, bytes, contents, now); } else { BypassKeeps(c, s); }
  }

  /** The statistics are no part of the invariant. */
  lemma BypassKeeps(c: Config, s: Cache)
    requires Inv(c, s)
    ensures Inv(c, s.(bypassed := s.bypassed + 1))
  {}

  lemma {:induction false} OwnedByMore(a: seq<Slot<string, Cached>>, b: seq<Slot<string, Cached>>, contents: seq<Slot<ContentKey, string>>)
    requires Owned(a, contents, []) && forall e <- a :: e in b
    ensures Owned(b, contents, [])
  {}

  lemma GetKeeps(c: Config, s: Cache, id: string, now: int)
    requires Inv(c, s)
    ensures Inv(c, Get(s, id, now).0)
  {
    var i := Find(s.entries.slots, id);
    if i < |s.entries.slots| && s.entries.slots[i].expiresAt > now {
      TouchOk(s.entries, i, c.maxBytes);
      OwnedByMore(s.entries.slots, Touch(s.entries, i).slots, s.contents.slots);
    } else {
      RemoveSound(c, s, id, []);
      assert |Remove(s, id).entries.slots| <= |s.entries.slots|;
    }
  }

  lemma ReadKeeps(c: Config, s: Cache, key: ContentKey, now: int)
    requires Inv(c, s)
    ensures Inv(c, ReadContent(s, key, now).0)
  {
    var i := Find(s.contents.slots, key);
    if i < |s.contents.slots| {
      if s.contents.slots[i].expiresAt <= now {
        RemoveKeyOk(s.contents, key, c.maxContentBytes);
      } else {
        TouchOk(s.contents, i, c.maxContentBytes);
      }
    }
  }

  lemma {:induction false} DropIdKeeps(ids: seq<string>, id: string)
    requires DistinctIds(ids)
    ensures DistinctIds(DropId(ids, id)) && forall x <- DropId(ids, id) :: x in ids && x != id
  {
    if ids != [] && ids[0] != id {
      DropIdKeeps(ids[1..], id);
      var rest := DropId(ids[1..], id);
      forall j | 0 <= j < |rest| ensures rest[j] != ids[0] { assert rest[j] in rest && rest[j] in ids[1..]; }
    }
  }

  /** Any step keeps the whole invariant. */
  lemma StepKeeps(c: Config, s: Cache, e: Step)
    requires Inv(c, s)
    ensures Inv(c, Next(c, s, e))
  {
    match e
    case DoGet(id, now) => GetKeeps(c, s, id, now);
    case DoLoaded(id, fetched, now) => LoadedKeeps(c, s, id, fetched, now);
    case DoFinished(id) => DropIdKeeps(s.loading, id);
    case DoRead(key, now) => ReadKeeps(c, s, key, now);
  }

  predicate IsInit(s: Cache) {
    s.entries == Store([], 0) && s.contents == Store([], 0) && s.parsed == [] && s.loading == []
    && s.fetches == s.bypassed == 0
  }

  ghost predicate Reached(c: Config, s: Cache) {
    exists init, steps :: IsInit(init) && s == Run(c, init, steps)
  }

  lemma {:induction false} RunKeeps(c: Config, s: Cache, steps: seq<Step>)
    requires Inv(c, s)
    ensures Inv(c, Run(c, s, steps))
    decreases |steps|
  {
    if steps != [] {
      StepKeeps(c, s, steps[0]);
      RunKeeps(c, Next(c, s, steps[0]), steps[1..]);
    }
  }

  lemma ReachedInv(c: Config, s: Cache)
    requires Reached(c, s)
    ensures Inv(c, s)
  {
    var init, steps :| IsInit(init) && s == Run(c, init, steps);
    RunKeeps(c, init, steps);
  }

  // ---------- main results ----------

  /** Both counters are exact sums within their budgets, over every run; at least one map is always allowed. */
  lemma WeightsBounded(c: Config, s: Cache)
    requires Reached(c, s)
    ensures s.entries.weight == Total(s.entries.slots) <= Max(0, c.maxBytes)
    ensures s.contents.weight == Total(s.contents.slots) <= Max(0, c.maxContentBytes)
    ensures |s.entries.slots| <= Max(1, c.maxEntries)
    ensures Distinct(s.entries.slots) && Distinct(s.contents.slots)
  {
    ReachedInv(c, s);
  }

  /** After every step of every run, each stored content belongs to a map that is still cached. */
  lemma ContentsAreOwned(c: Config, s: Cache)
    requires Reached(c, s)
    ensures forall x <- s.contents.slots :: exists e <- s.entries.slots :: x.key in e.value.keys
  {
    ReachedInv(c, s);
    forall x <- s.contents.slots ensures OwnedBy(s.entries.slots, x.key) {}
  }

  /** A map reads only contents of its own parse: what it gets is what that parse found at that index. */
  lemma ReadsItsOwn(c: Config, s: Cache, key: ContentKey, now: int)
    requires Reached(c, s)
    ensures var content := ReadContent(s, key, now).1;
            content.Some? ==> key.parse < |s.parsed| && key.index < |s.parsed[key.parse]|
                              && s.parsed[key.parse][key.index] == content
  {
    ReachedInv(c, s);
    var i := Find(s.contents.slots, key);
    if i < |s.contents.slots| { assert s.contents.slots[i] in s.contents.slots; }
  }

  /**
   * A kept map goes last in the order of use, and only the least recently used maps before it may go, no
   * more of them than needed; a map of more than half the budget changes nothing.
   */
  lemma LoadKeepsNewest(c: Config, s: Cache, id: string, bytes: nat, contents: seq<Option<string>>, now: int)
    requires Reached(c, s)
    ensures var r := Loaded(c, s, id, Parsed(bytes, contents), now);
            if 2 * bytes > c.maxBytes then r == s.(bypassed := s.bypassed + 1)
            else NewestLast(Without(s.entries.slots, id), ParsedSlot(c, |s.parsed|, id, bytes, contents, now),
                            r.entries.slots, c.maxBytes, c.maxEntries)
  {
    ReachedInv(c, s);
    if 2 * bytes <= c.maxBytes {
      ParsedContents(c, s, contents, now);
      var t, slot := WithParsed(c, s, contents, now), ParsedSlot(c, |s.parsed|, id, bytes, contents, now);
      StoreSound(c, t, slot);
      NewestStays(Without(t.entries.slots, id), slot, StoreEntry(c, t, slot).entries.slots, c.maxBytes, c.maxEntries);
    }
  }

  /** `r` is the old slots and then the new one, without as many of the oldest as had to go. */
  ghost predicate NewestLast<K, V>(slots: seq<Slot<K, V>>, slot: Slot<K, V>, r: seq<Slot<K, V>>, maxWeight: int, maxEntries: int) {
    TrimmedTo(slots + [slot], r, maxWeight, maxEntries) && r != [] && r[|r| - 1] == slot
  }

  lemma NewestStays<K, V>(slots: seq<Slot<K, V>>, slot: Slot<K, V>, r: seq<Slot<K, V>>, maxWeight: int, maxEntries: int)
    requires TrimmedTo(slots + [slot], r, maxWeight, maxEntries)
    ensures r != [] && r[|r| - 1] == slot
  {}

  /** A stored content goes last too, and is never what its own storing evicts. */
  lemma ContentKeepsNewest(c: Config, s: Cache, slot: Slot<ContentKey, string>)
    requires Reached(c, s) && 2 * slot.weight <= c.maxContentBytes
    ensures var r := StoreContent(c, s.contents, slot);
            && TrimmedTo(Without(s.contents.slots, slot.key) + [slot], r.slots, c.maxContentBytes, |s.contents.slots| + 1)
            && r.slots != [] && r.slots[|r.slots| - 1] == slot
  {
    ReachedInv(c, s);
    var u := Put(RemoveKey(s.contents, slot.key), slot);
    RemoveKeyOk(s.contents, slot.key, c.maxContentBytes);
    assert StoreOk(u, c.maxContentBytes) by { PutOk(RemoveKey(s.contents, slot.key), slot, c.maxContentBytes); }
    EvictContentsTrims(c, u, |s.contents.slots| + 1);
    NewestStays(Without(s.contents.slots, slot.key), slot, EvictContents(c, u).slots, c.maxContentBytes, |s.contents.slots| + 1);
  }

  /** A load starts only when none is under way for the same map. */
  lemma OneLoadAtATime(c: Config, s: Cache, id: string, now: int)
    requires Reached(c, s)
    ensures DistinctIds(s.loading)
    ensures Get(s, id, now).0.fetches > s.fetches ==> id !in s.loading && id in Get(s, id, now).0.loading
  {
    ReachedInv(c, s);
  }
}
