/**
 * The order of the two stores of the source map cache is the order of last use over the whole run, so what eviction
 * takes from the front is what was least recently used. A map is used when it is stored and when `get` answers with
 * it; a content when it is stored and when it is read.
 */
module SourceMapCacheUse {
  import opened Wrappers
  import opened SourceMapCacheModel
  import opened SourceMapCacheProofs
  import opened SourceMapCacheTheorems

  // ---------- histories of use ----------

  /** The last time `key` was used, or -1. */
  function LastUse<K(==)>(uses: seq<K>, key: K): (at: int)
    ensures -1 <= at < |uses|
    ensures at >= 0 ==> uses[at] == key
    ensures forall i | at < i < |uses| :: uses[i] != key
  {
    if uses == [] then -1
    else if uses[|uses| - 1] == key then |uses| - 1
    else LastUse(uses[..|uses| - 1], key)
  }

  /** Every slot was used, and the slots are in the order of their last uses. */
  ghost predicate InOrderOfUse<K(!new), V>(uses: seq<K>, slots: seq<Slot<K, V>>) {
    && (forall i | 0 <= i < |slots| :: LastUse(uses, slots[i].key) >= 0)
    && (forall i, j | 0 <= i < j < |slots| :: LastUse(uses, slots[i].key) < LastUse(uses, slots[j].key))
  }

  lemma WithoutInOrder<K(!new), V>(uses: seq<K>, slots: seq<Slot<K, V>>, key: K)
    requires InOrderOfUse(uses, slots)
    ensures InOrderOfUse(uses, Without(slots, key))
    ensures forall x <- Without(slots, key) :: x.key != key
  {
    hide Find;
    var i, r := Find(slots, key), Without(slots, key);
    forall k | 0 <= k < |r| ensures r[k] == slots[if k < i then k else k + 1] {}
  }

  /** A slot put last is the most recently used. */
  lemma PutInOrder<K(!new), V>(uses: seq<K>, slots: seq<Slot<K, V>>, slot: Slot<K, V>)
    requires InOrderOfUse(uses, slots) && forall x <- slots :: x.key != slot.key
    ensures InOrderOfUse(uses + [slot.key], slots + [slot])
  {
    var longer := uses + [slot.key];
    assert longer[..|uses|] == uses;
    forall x <- slots ensures LastUse(longer, x.key) == LastUse(uses, x.key) {}
  }

  lemma TouchInOrder<K(!new), V>(uses: seq<K>, s: Store<K, V>, i: nat)
    requires i < |s.slots| && InOrderOfUse(uses, s.slots)
    ensures InOrderOfUse(uses + [s.slots[i].key], Touch(s, i).slots)
  {
    WithoutInOrder(uses, s.slots, s.slots[i].key);
    PutInOrder(uses, Without(s.slots, s.slots[i].key), s.slots[i]);
  }

  lemma {:induction false} RemoveKeysInOrder<K(!new), V>(uses: seq<K>, s: Store<K, V>, keys: seq<K>)
    requires InOrderOfUse(uses, s.slots)
    ensures InOrderOfUse(uses, RemoveKeys(s, keys).slots)
    decreases |keys|
  {
    if keys != [] {
      WithoutInOrder(uses, s.slots, keys[0]);
      RemoveKeysInOrder(uses, RemoveKey(s, keys[0]), keys[1..]);
    }
  }

  // ---------- removing and storing ----------

  /** Both stores are in order of use. */
  ghost predicate BothInOrder(maps: seq<string>, contents: seq<ContentKey>, s: Cache) {
    InOrderOfUse(maps, s.entries.slots) && InOrderOfUse(contents, s.contents.slots)
  }

  lemma RemoveInOrder(maps: seq<string>, contents: seq<ContentKey>, s: Cache, id: string)
    requires BothInOrder(maps, contents, s)
    ensures BothInOrder(maps, contents, Remove(s, id))
    ensures forall x <- Remove(s, id).entries.slots :: x.key != id
  {
    WithoutInOrder(maps, s.entries.slots, id);
    RemoveKeysInOrder(contents, s.contents, KeysOwned(s.entries.slots, id));
  }

  lemma {:induction false} EvictEntriesInOrder(c: Config, maps: seq<string>, contents: seq<ContentKey>, s: Cache)
    requires BothInOrder(maps, contents, s)
    ensures BothInOrder(maps, contents, EvictEntries(c, s))
    decreases |s.entries.slots|
  {
    if OverFull(s.entries, c.maxBytes, c.maxEntries) {
      RemoveInOrder(maps, contents, s, s.entries.slots[0].key);
      EvictEntriesInOrder(c, maps, contents, Remove(s, s.entries.slots[0].key));
    }
  }

  /** The map `store` keeps, if it keeps it. */
  function StoreUses(c: Config, slot: Slot<string, Cached>): seq<string> {
    if slot.weight > c.maxBytes then [] else [slot.key]
  }

  lemma StoreEntryInOrder(c: Config, maps: seq<string>, contents: seq<ContentKey>, s: Cache, slot: Slot<string, Cached>)
    requires BothInOrder(maps, contents, s)
    ensures BothInOrder(maps + StoreUses(c, slot), contents, StoreEntry(c, s, slot))
  {
    if slot.weight <= c.maxBytes {
      var removed := Remove(s, slot.key);
      RemoveInOrder(maps, contents, s, slot.key);
      PutInOrder(maps, removed.entries.slots, slot);
      EvictEntriesInOrder(c, maps + [slot.key], contents, removed.(entries := Put(removed.entries, slot)));
    } else {
      assert maps + [] == maps;
    }
  }

  lemma {:induction false} EvictContentsInOrder(c: Config, uses: seq<ContentKey>, s: Contents)
    requires InOrderOfUse(uses, s.slots)
    ensures InOrderOfUse(uses, EvictContents(c, s).slots)
    decreases |s.slots|
  {
    if s.weight > c.maxContentBytes && |s.slots| > 1 {
      WithoutInOrder(uses, s.slots, s.slots[0].key);
      EvictContentsInOrder(c, uses, RemoveKey(s, s.slots[0].key));
    }
  }

  /** The content `storeContent` keeps, if it keeps it. */
  function ContentUse(c: Config, slot: Slot<ContentKey, string>): seq<ContentKey> {
    if 2 * slot.weight > c.maxContentBytes then [] else [slot.key]
  }

  lemma StoreContentInOrder(c: Config, uses: seq<ContentKey>, s: Contents, slot: Slot<ContentKey, string>)
    requires InOrderOfUse(uses, s.slots)
    ensures InOrderOfUse(uses + ContentUse(c, slot), StoreContent(c, s, slot).slots)
  {
    if 2 * slot.weight <= c.maxContentBytes {
      WithoutInOrder(uses, s.slots, slot.key);
      PutInOrder(uses, Without(s.slots, slot.key), slot);
      EvictContentsInOrder(c, uses + [slot.key], Put(RemoveKey(s, slot.key), slot));
    } else {
      assert uses + [] == uses;
    }
  }

  function ContentUses(c: Config, parse: nat, contents: seq<Option<string>>, n: nat): seq<ContentKey>
    requires n <= |contents|
  {
    if n == 0 then []
    else
      ContentUses(c, parse, contents, n - 1)
      + if Present(contents[n - 1]) then ContentUse(c, ContentSlot(c, ContentKey(parse, n - 1), contents[n - 1].value, 0)) else []
  }

  lemma {:induction false} StoreContentsInOrder(c: Config, uses: seq<ContentKey>, s: Contents, parse: nat,
                                                contents: seq<Option<string>>, n: nat, now: int)
    requires n <= |contents| && InOrderOfUse(uses, s.slots)
    ensures InOrderOfUse(uses + ContentUses(c, parse, contents, n), StoreContents(c, s, parse, contents, n, now).slots)
  {
    if n == 0 {
      assert uses + [] == uses;
    } else {
      var before := ContentUses(c, parse, contents, n - 1);
      StoreContentsInOrder(c, uses, s, parse, contents, n - 1, now);
      if Present(contents[n - 1]) {
        var slot := ContentSlot(c, ContentKey(parse, n - 1), contents[n - 1].value, now);
        StoreContentInOrder(c, uses + before, StoreContents(c, s, parse, contents, n - 1, now), slot);
        assert (uses + before) + ContentUse(c, slot) == uses + (before + ContentUse(c, slot));
      } else {
        assert before + [] == before;
      }
    }
  }

  // ---------- every step of every run ----------

  /** The maps a step uses. */
  function MapUses(c: Config, s: Cache, e: Step): seq<string> {
    match e
    case DoGet(id, now) => if Get(s, id, now).1.Hit? then [id] else []
    case DoLoaded(id, Parsed(bytes, contents), now) =>
      if 2 * bytes > c.maxBytes then [] else StoreUses(c, ParsedSlot(c, |s.parsed|, id, bytes, contents, now))
    case DoLoaded(id, _, _) => StoreUses(c, Slot(id, Cached(None, []), 0, 0))
    case _ => []
  }

  /** The contents a step uses, in order. */
  function ContentsUsed(c: Config, s: Cache, e: Step): seq<ContentKey> {
    match e
    case DoLoaded(_, Parsed(bytes, contents), _) =>
      if 2 * bytes > c.maxBytes then [] else ContentUses(c, |s.parsed|, contents, |contents|)
    case DoRead(key, now) => if ReadContent(s, key, now).1.Some? then [key] else []
    case _ => []
  }

  lemma GetInOrder(c: Config, maps: seq<string>, contents: seq<ContentKey>, s: Cache, e: Step)
    requires BothInOrder(maps, contents, s) && e.DoGet?
    ensures BothInOrder(maps + MapUses(c, s, e), contents, Next(c, s, e))
  {
    var i := Find(s.entries.slots, e.id);
    if i < |s.entries.slots| && s.entries.slots[i].expiresAt > e.now {
      TouchInOrder(maps, s.entries, i);
    } else {
      RemoveInOrder(maps, contents, s, e.id);
      assert maps + [] == maps;
    }
  }

  lemma ReadInOrder(c: Config, maps: seq<string>, contents: seq<ContentKey>, s: Cache, e: Step)
    requires BothInOrder(maps, contents, s) && e.DoRead?
    ensures BothInOrder(maps, contents + ContentsUsed(c, s, e), Next(c, s, e))
  {
    var i := Find(s.contents.slots, e.key);
    assert contents + [] == contents;
    if i < |s.contents.slots| {
      if s.contents.slots[i].expiresAt <= e.now {
        WithoutInOrder(contents, s.contents.slots, e.key);
      } else {
        TouchInOrder(contents, s.contents, i);
      }
    }
  }

  lemma ParsedInOrder(c: Config, maps: seq<string>, contents: seq<ContentKey>, s: Cache, id: string, bytes: nat,
                      found: seq<Option<string>>, now: int)
    requires BothInOrder(maps, contents, s)
    ensures var slot, used := ParsedSlot(c, |s.parsed|, id, bytes, found, now), ContentUses(c, |s.parsed|, found, |found|);
            BothInOrder(maps + StoreUses(c, slot), contents + used, StoreParsed(c, s, id, bytes, found, now))
  {
    var used := ContentUses(c, |s.parsed|, found, |found|);
    var t := WithParsed(c, s, found, now);
    assert BothInOrder(maps, contents + used, t) by {
      StoreContentsInOrder(c, contents, s.contents, |s.parsed|, found, |found|, now);
    }
    StoreEntryInOrder(c, maps, contents + used, t, ParsedSlot(c, |s.parsed|, id, bytes, found, now));
  }

  lemma MissInOrder(c: Config, maps: seq<string>, contents: seq<ContentKey>, s: Cache, id: string, expiresAt: int)
    requires BothInOrder(maps, contents, s)
    ensures BothInOrder(maps + StoreUses(c, Slot(id, Cached(None, []), 0, 0)), contents, StoreMiss(c, s, id, expiresAt))
  {
    StoreEntryInOrder(c, maps, contents, s, Slot(id, Cached(None, []), 0, expiresAt));
  }

  lemma LoadedInOrder(c: Config, maps: seq<string>, contents: seq<ContentKey>, s: Cache, e: Step)
    requires BothInOrder(maps, contents, s) && e.DoLoaded?
    ensures BothInOrder(maps + MapUses(c, s, e), contents + ContentsUsed(c, s, e), Next(c, s, e))
  {
    hide BothInOrder, StoreParsed, StoreMiss;
    if e.fetched.Parsed? {
      ParsedStepInOrder(c, maps, contents, s, e);
    } else {
      var expiresAt := e.now + if e.fetched.Failed? then c.errorTtl else c.missTtl;
      assert Next(c, s, e) == StoreMiss(c, s, e.id, expiresAt);
      MissInOrder(c, maps, contents, s, e.id, expiresAt);
      assert ContentsUsed(c, s, e) == [] && contents + [] == contents;
    }
  }

  lemma ParsedStepInOrder(c: Config, maps: seq<string>, contents: seq<ContentKey>, s: Cache, e: Step)
    requires BothInOrder(maps, contents, s) && e.DoLoaded? && e.fetched.Parsed?
    ensures BothInOrder(maps + MapUses(c, s, e), contents + ContentsUsed(c, s, e), Next(c, s, e))
  {
    if 2 * e.fetched.bytes > c.maxBytes {
      assert contents + [] == contents && maps + [] == maps;
    } else {
      ParsedInOrder(c, maps, contents, s, e.id, e.fetched.bytes, e.fetched.contents, e.now);
      assert Next(c, s, e) == StoreParsed(c, s, e.id, e.fetched.bytes, e.fetched.contents, e.now);
    }
  }

  lemma StepInOrder(c: Config, maps: seq<string>, contents: seq<ContentKey>, s: Cache, e: Step)
    requires BothInOrder(maps, contents, s)
    ensures BothInOrder(maps + MapUses(c, s, e), contents + ContentsUsed(c, s, e), Next(c, s, e))
  {
    assert contents + [] == contents && maps + [] == maps;
    match e
    case DoGet(_, _) => GetInOrder(c, maps, contents, s, e);
    case DoLoaded(_, _, _) => LoadedInOrder(c, maps, contents, s, e);
    case DoFinished(_) =>
    case DoRead(_, _) => ReadInOrder(c, maps, contents, s, e);
  }

  /** All the maps a run uses, in order. */
  function MapHistory(c: Config, s: Cache, steps: seq<Step>): seq<string>
    decreases |steps|
  {
    if steps == [] then [] else MapUses(c, s, steps[0]) + MapHistory(c, Next(c, s, steps[0]), steps[1..])
  }

  function ContentHistory(c: Config, s: Cache, steps: seq<Step>): seq<ContentKey>
    decreases |steps|
  {
    if steps == [] then [] else ContentsUsed(c, s, steps[0]) + ContentHistory(c, Next(c, s, steps[0]), steps[1..])
  }

  lemma Associate<K>(a: seq<K>, b: seq<K>, c: seq<K>)
    ensures (a + b) + c == a + (b + c)
  {}

  lemma {:induction false} RunInOrder(c: Config, maps: seq<string>, contents: seq<ContentKey>, s: Cache, steps: seq<Step>)
    requires BothInOrder(maps, contents, s)
    ensures BothInOrder(maps + MapHistory(c, s, steps), contents + ContentHistory(c, s, steps), Run(c, s, steps))
    decreases |steps|
  {
    if steps == [] {
      assert contents + [] == contents && maps + [] == maps;
    } else {
      var one := Next(c, s, steps[0]);
      var m, k := MapUses(c, s, steps[0]), ContentsUsed(c, s, steps[0]);
      assert BothInOrder(maps + m, contents + k, one) by { StepInOrder(c, maps, contents, s, steps[0]); }
      RunInOrder(c, maps + m, contents + k, one, steps[1..]);
      Associate(maps, m, MapHistory(c, one, steps[1..]));
      Associate(contents, k, ContentHistory(c, one, steps[1..]));
    }
  }

  /** After every run both stores hold their slots in the order of last use, least recently used first. */
  lemma SlotsInOrderOfUse(c: Config, init: Cache, steps: seq<Step>)
    requires IsInit(init)
    ensures InOrderOfUse(MapHistory(c, init, steps), Run(c, init, steps).entries.slots)
    ensures InOrderOfUse(ContentHistory(c, init, steps), Run(c, init, steps).contents.slots)
  {
    RunInOrder(c, [], [], init, steps);
    assert [] + MapHistory(c, init, steps) == MapHistory(c, init, steps);
    assert [] + ContentHistory(c, init, steps) == ContentHistory(c, init, steps);
  }
}
