/** Every step of the source map cache keeps its weights exact and bounded, and its contents owned. */
module SourceMapCacheProofs {
  import opened Wrappers
  import opened SourceMapCacheModel

  // ---------- stores ----------

  lemma {:induction false} TotalAppend<K, V>(a: seq<Slot<K, V>>, b: seq<Slot<K, V>>)
    ensures Total(a + b) == Total(a) + Total(b)
  {
    if a == [] {
      assert a + b == b;
    } else {
      assert (a + b)[1..] == a[1..] + b;
      TotalAppend(a[1..], b);
    }
  }

  lemma TotalOne<K, V>(slot: Slot<K, V>)
    ensures Total([slot]) == slot.weight
  {}

  lemma WithoutTotal<K, V>(slots: seq<Slot<K, V>>, key: K)
    ensures Total(slots) == Total(Without(slots, key)) + WeightOf(slots, key)
  {
    var i := Find(slots, key);
    if i < |slots| {
      assert slots == slots[..i] + ([slots[i]] + slots[i + 1..]);
      TotalAppend(slots[..i], [slots[i]] + slots[i + 1..]);
      TotalAppend(slots[..i], slots[i + 1..]);
    }
  }

  lemma WithoutDistinct<K, V>(slots: seq<Slot<K, V>>, key: K)
    requires Distinct(slots)
    ensures Distinct(Without(slots, key))
  {}

  lemma WithoutMembers<K(!new), V(!new)>(slots: seq<Slot<K, V>>, key: K)
    requires Distinct(slots)
    ensures Distinct(Without(slots, key))
    ensures forall x :: x in Without(slots, key) <==> x in slots && x.key != key
  {
    hide Total;
  }

  lemma RemoveKeyOk<K(!new), V(!new)>(s: Store<K, V>, key: K, maxWeight: int)
    requires StoreOk(s, maxWeight)
    ensures StoreOk(RemoveKey(s, key), maxWeight)
    ensures forall x :: x in RemoveKey(s, key).slots <==> x in s.slots && x.key != key
    ensures RemoveKey(s, key).weight <= s.weight
  {
    WithoutTotal(s.slots, key);
    WithoutMembers(s.slots, key);
  }

  lemma {:induction false} RemoveKeysOk<K(!new), V(!new)>(s: Store<K, V>, keys: seq<K>, maxWeight: int)
    requires StoreOk(s, maxWeight)
    ensures StoreOk(RemoveKeys(s, keys), maxWeight)
    ensures forall x :: x in RemoveKeys(s, keys).slots <==> x in s.slots && x.key !in keys
    ensures RemoveKeys(s, keys).weight <= s.weight
    decreases |keys|
  {
    if keys != [] {
      RemoveKeyOk(s, keys[0], maxWeight);
      RemoveKeysOk(RemoveKey(s, keys[0]), keys[1..], maxWeight);
    }
  }

  lemma PutOk<K, V>(s: Store<K, V>, slot: Slot<K, V>, maxWeight: int)
    requires StoreOk(s, maxWeight) && slot.weight <= maxWeight && forall x <- s.slots :: x.key != slot.key
    ensures StoreOk(Put(s, slot), maxWeight)
  {
    TotalAppend(s.slots, [slot]);
    TotalOne(slot);
    assert forall j | 0 <= j < |s.slots| :: s.slots[j] in s.slots;
  }

  lemma TouchOk<K(!new), V(!new)>(s: Store<K, V>, i: nat, maxWeight: int)
    requires StoreOk(s, maxWeight) && i < |s.slots|
    ensures StoreOk(Touch(s, i), maxWeight)
    ensures forall x :: x in Touch(s, i).slots <==> x in s.slots
    ensures |Touch(s, i).slots| == |s.slots|
  {
    var key := s.slots[i].key;
    assert Find(s.slots, key) == i;
    RemoveKeyOk(s, key, maxWeight);
    PutOk(RemoveKey(s, key), s.slots[i], maxWeight);
  }

  lemma DropFirst<K, V>(s: Store<K, V>)
    requires s.slots != []
    ensures RemoveKey(s, s.slots[0].key) == Store(s.slots[1..], s.weight - s.slots[0].weight)
  {}

  // ---------- contents ----------

  /** The `d` oldest slots went, and one fewer would have left too much. */
  ghost predicate CutAt<K, V>(slots: seq<Slot<K, V>>, r: seq<Slot<K, V>>, d: nat, maxWeight: int, maxEntries: int) {
    && d <= |slots| && r == slots[d..] && (slots != [] ==> d < |slots|)
    && (d > 0 ==> Total(slots[d - 1..]) > maxWeight || |slots| - d + 1 > maxEntries)
  }

  /** What is left after some of the oldest slots went: as few as needed, and never the newest. */
  ghost predicate TrimmedTo<K, V>(slots: seq<Slot<K, V>>, r: seq<Slot<K, V>>, maxWeight: int, maxEntries: int) {
    exists d: nat :: CutAt(slots, r, d, maxWeight, maxEntries)
  }

  lemma NotTrimmed<K, V>(slots: seq<Slot<K, V>>, maxWeight: int, maxEntries: int)
    ensures TrimmedTo(slots, slots, maxWeight, maxEntries)
  {
    assert CutAt(slots, slots, 0, maxWeight, maxEntries);
  }

  lemma CutMore<K, V>(slots: seq<Slot<K, V>>, r: seq<Slot<K, V>>, d: nat, maxWeight: int, maxEntries: int)
    requires |slots| > 1 && (Total(slots) > maxWeight || |slots| > maxEntries)
    requires CutAt(slots[1..], r, d, maxWeight, maxEntries)
    ensures CutAt(slots, r, d + 1, maxWeight, maxEntries)
  {}

  lemma TrimMore<K, V>(slots: seq<Slot<K, V>>, r: seq<Slot<K, V>>, maxWeight: int, maxEntries: int)
    requires |slots| > 1 && (Total(slots) > maxWeight || |slots| > maxEntries)
    requires TrimmedTo(slots[1..], r, maxWeight, maxEntries)
    ensures TrimmedTo(slots, r, maxWeight, maxEntries)
  {
    var d: nat :| CutAt(slots[1..], r, d, maxWeight, maxEntries);
    CutMore(slots, r, d, maxWeight, maxEntries);
  }

  lemma FitsAlone<K, V>(s: Store<K, V>, maxWeight: int)
    requires StoreOk(s, maxWeight) && |s.slots| <= 1
    ensures s.weight <= Max(0, maxWeight)
  {
    if |s.slots| == 1 {
      TotalOne(s.slots[0]);
      assert s.slots == [s.slots[0]];
    }
  }

  lemma {:induction false} EvictContentsOk(c: Config, s: Contents)
    requires StoreOk(s, c.maxContentBytes)
    ensures StoreOk(EvictContents(c, s), c.maxContentBytes)
    ensures EvictContents(c, s).weight <= Max(0, c.maxContentBytes)
    decreases |s.slots|
  {
    if s.weight > c.maxContentBytes && |s.slots| > 1 {
      DropFirst(s);
      RemoveKeyOk(s, s.slots[0].key, c.maxContentBytes);
      EvictContentsOk(c, RemoveKey(s, s.slots[0].key));
    } else if |s.slots| <= 1 {
      FitsAlone(s, c.maxContentBytes);
    }
  }

  /** Contents go oldest first, as few as needed, and never the one just stored. */
  lemma {:induction false} EvictContentsTrims(c: Config, s: Contents, maxEntries: nat)
    requires s.weight == Total(s.slots) && |s.slots| <= maxEntries
    ensures TrimmedTo(s.slots, EvictContents(c, s).slots, c.maxContentBytes, maxEntries)
    decreases |s.slots|
  {
    if s.weight > c.maxContentBytes && |s.slots| > 1 {
      DropFirst(s);
      var r := Store(s.slots[1..], s.weight - s.slots[0].weight);
      EvictContentsTrims(c, r, maxEntries);
      TrimMore(s.slots, EvictContents(c, r).slots, c.maxContentBytes, maxEntries);
    } else {
      NotTrimmed(s.slots, c.maxContentBytes, maxEntries);
    }
  }

  lemma TrimmedMembers<K, V>(slots: seq<Slot<K, V>>, r: seq<Slot<K, V>>, maxWeight: int, maxEntries: int)
    requires TrimmedTo(slots, r, maxWeight, maxEntries)
    ensures forall x <- r :: x in slots
  {}

  lemma StoreContentMembers(c: Config, s: Contents, slot: Slot<ContentKey, string>)
    requires StoreOk(s, c.maxContentBytes)
    ensures forall x <- StoreContent(c, s, slot).slots :: x in s.slots || x == slot
  {
    if 2 * slot.weight <= c.maxContentBytes {
      var u := Put(RemoveKey(s, slot.key), slot);
      RemoveKeyOk(s, slot.key, c.maxContentBytes);
      assert StoreOk(u, c.maxContentBytes) by { PutOk(RemoveKey(s, slot.key), slot, c.maxContentBytes); }
      EvictContentsTrims(c, u, |u.slots|);
      TrimmedMembers(u.slots, EvictContents(c, u).slots, c.maxContentBytes, |u.slots|);
    }
  }

  lemma StoreContentOk(c: Config, s: Contents, slot: Slot<ContentKey, string>)
    requires StoreOk(s, c.maxContentBytes) && s.weight <= Max(0, c.maxContentBytes)
    ensures StoreOk(StoreContent(c, s, slot), c.maxContentBytes)
    ensures StoreContent(c, s, slot).weight <= Max(0, c.maxContentBytes)
  {
    if 2 * slot.weight <= c.maxContentBytes {
      var t := RemoveKey(s, slot.key);
      RemoveKeyOk(s, slot.key, c.maxContentBytes);
      assert StoreOk(Put(t, slot), c.maxContentBytes) by { PutOk(t, slot, c.maxContentBytes); }
      EvictContentsOk(c, Put(t, slot));
    }
  }

  lemma {:induction false} StoreContentsOk(c: Config, s: Contents, parse: nat, contents: seq<Option<string>>, n: nat, now: int)
    requires StoreOk(s, c.maxContentBytes) && s.weight <= Max(0, c.maxContentBytes) && n <= |contents|
    ensures StoreOk(StoreContents(c, s, parse, contents, n, now), c.maxContentBytes)
    ensures StoreContents(c, s, parse, contents, n, now).weight <= Max(0, c.maxContentBytes)
    ensures forall x <- StoreContents(c, s, parse, contents, n, now).slots ::
      x in s.slots || (x.key in KeysOf(parse, contents, n) && contents[x.key.index] == Some(x.value))
    decreases n
  {
    if n > 0 {
      StoreContentsOk(c, s, parse, contents, n - 1, now);
      if Present(contents[n - 1]) {
        var t := StoreContents(c, s, parse, contents, n - 1, now);
        var slot := ContentSlot(c, ContentKey(parse, n - 1), contents[n - 1].value, now);
        StoreContentOk(c, t, slot);
        StoreContentMembers(c, t, slot);
      }
    }
  }

  // ---------- entries ----------

  lemma RemoveOwned(s: Cache, id: string, extra: seq<ContentKey>, maxWeight: int, maxContent: int)
    requires StoreOk(s.entries, maxWeight) && StoreOk(s.contents, maxContent)
    requires Owned(s.entries.slots, s.contents.slots, extra)
    ensures Owned(Remove(s, id).entries.slots, Remove(s, id).contents.slots, extra)
    ensures forall x <- Remove(s, id).contents.slots :: x in s.contents.slots
  {
    var r := Remove(s, id);
    RemoveKeyOk(s.entries, id, maxWeight);
    RemoveKeysOk(s.contents, KeysOwned(s.entries.slots, id), maxContent);
    forall x <- r.contents.slots ensures OwnedBy(r.entries.slots, x.key) || x.key in extra {
      if x.key !in extra {
        var e :| e in s.entries.slots && x.key in e.value.keys;
        KeyOfEntry(s.entries.slots, e);
        assert e in r.entries.slots;
      }
    }
  }

  lemma KeyOfEntry(slots: seq<Slot<string, Cached>>, e: Slot<string, Cached>)
    requires Distinct(slots) && e in slots
    ensures KeysOwned(slots, e.key) == e.value.keys
  {}

  /** Entries and contents are each sound, and every content is owned. */
  ghost predicate Sound(c: Config, s: Cache, extra: seq<ContentKey>) {
    && StoreOk(s.entries, c.maxBytes) && StoreOk(s.contents, c.maxContentBytes)
    && s.contents.weight <= Max(0, c.maxContentBytes)
    && Owned(s.entries.slots, s.contents.slots, extra) && Genuine(s.parsed, s.contents.slots)
  }

  /** An entry leaves with the contents it owns. */
  lemma RemoveSound(c: Config, s: Cache, id: string, extra: seq<ContentKey>)
    requires Sound(c, s, extra)
    ensures Sound(c, Remove(s, id), extra)
    ensures Remove(s, id).entries.weight <= s.entries.weight
    ensures forall e :: e in Remove(s, id).entries.slots <==> e in s.entries.slots && e.key != id
  {
    RemoveKeyOk(s.entries, id, c.maxBytes);
    RemoveKeysOk(s.contents, KeysOwned(s.entries.slots, id), c.maxContentBytes);
    RemoveOwned(s, id, extra, c.maxBytes, c.maxContentBytes);
  }

  /** Only the least recently used entries go, as few as needed, and never the newest. */
  lemma {:induction false} EvictEntriesSound(c: Config, s: Cache)
    requires Sound(c, s, [])
    ensures Sound(c, EvictEntries(c, s), [])
    ensures TrimmedTo(s.entries.slots, EvictEntries(c, s).entries.slots, c.maxBytes, c.maxEntries)
    ensures EvictEntries(c, s).entries.weight <= Max(0, c.maxBytes)
    ensures |EvictEntries(c, s).entries.slots| <= Max(1, c.maxEntries)
    ensures EvictEntries(c, s).loading == s.loading
    decreases |s.entries.slots|
  {
    if OverFull(s.entries, c.maxBytes, c.maxEntries) {
      var r := Remove(s, s.entries.slots[0].key);
      DropFirst(s.entries);
      RemoveSound(c, s, s.entries.slots[0].key, []);
      EvictEntriesSound(c, r);
      TrimMore(s.entries.slots, EvictEntries(c, r).entries.slots, c.maxBytes, c.maxEntries);
    } else {
      NotTrimmed(s.entries.slots, c.maxBytes, c.maxEntries);
      if |s.entries.slots| <= 1 { FitsAlone(s.entries, c.maxBytes); }
    }
  }

  lemma NowOwned(entries: seq<Slot<string, Cached>>, contents: seq<Slot<ContentKey, string>>, slot: Slot<string, Cached>)
    requires Owned(entries, contents, slot.value.keys)
    ensures Owned(entries + [slot], contents, [])
  {}

  lemma PutSound(c: Config, s: Cache, slot: Slot<string, Cached>)
    requires Sound(c, s, slot.value.keys) && slot.weight <= c.maxBytes && forall e <- s.entries.slots :: e.key != slot.key
    ensures Sound(c, s.(entries := Put(s.entries, slot)), [])
  {
    PutOk(s.entries, slot, c.maxBytes);
    NowOwned(s.entries.slots, s.contents.slots, slot);
  }

  /**
   * `store` keeps the order of use: the old entries but for the stored id, without the least recently used
   * ones that had to go, and then the new one; the contents being stored become its own.
   */
  lemma StoreSound(c: Config, s: Cache, slot: Slot<string, Cached>)
    requires Sound(c, s, slot.value.keys) && slot.weight <= c.maxBytes
    ensures Sound(c, StoreEntry(c, s, slot), [])
    ensures TrimmedTo(Without(s.entries.slots, slot.key) + [slot], StoreEntry(c, s, slot).entries.slots, c.maxBytes, c.maxEntries)
    ensures StoreEntry(c, s, slot).entries.weight <= Max(0, c.maxBytes)
    ensures |StoreEntry(c, s, slot).entries.slots| <= Max(1, c.maxEntries)
    ensures StoreEntry(c, s, slot).loading == s.loading
  {
    var t := Remove(s, slot.key);
    RemoveSound(c, s, slot.key, slot.value.keys);
    PutSound(c, t, slot);
    EvictEntriesSound(c, t.(entries := Put(t.entries, slot)));
  }
}
