/** The cache itself (packages/otlp-ingester/src/symbolicate.ts): its methods do what the state machine says. */
module SourceMapCacheClass {
  import opened Wrappers
  import opened SourceMapCacheModel

  class SourceMapCache {
    const c: Config
    var entries: seq<Slot<string, Cached>>
    var weight: int
    var contents: seq<Slot<ContentKey, string>>
    var contentWeight: int
    var parses: nat
    var inFlight: seq<string>
    var fetches: nat
    var bypassed: nat
    ghost var parsed: seq<seq<Option<string>>>

    ghost function St(): Cache
      reads this
    {
      Cache(Store(entries, weight), Store(contents, contentWeight), parsed, inFlight, fetches, bypassed)
    }

    ghost predicate Valid()
      reads this
    {
      parses == |parsed|
    }

    constructor (c: Config)
      ensures Valid() && this.c == c
      ensures St() == Cache(Store([], 0), Store([], 0), [], [], 0, 0)
    {
      this.c := c;
      entries, weight, contents, contentWeight := [], 0, [], 0;
      parses, inFlight, fetches, bypassed, parsed := 0, [], 0, 0, [];
    }

    method DropContent(key: ContentKey)
      modifies this`contents, this`contentWeight
      ensures Store(contents, contentWeight) == RemoveKey(old(Store(contents, contentWeight)), key)
    {
      var i := Find(contents, key);
      if i == |contents| { return; }
      contentWeight := contentWeight - contents[i].weight;
      contents := Without(contents, key);
    }

    method RemoveEntry(id: string)
      modifies this`entries, this`weight, this`contents, this`contentWeight
      ensures St() == Remove(old(St()), id)
    {
      var i := Find(entries, id);
      if i == |entries| { return; }
      var entry := entries[i];
      entries := Without(entries, id);
      weight := weight - entry.weight;
      DropContents(entry.value.keys);
    }

    method DropContents(keys: seq<ContentKey>)
      modifies this`contents, this`contentWeight
      ensures Store(contents, contentWeight) == RemoveKeys(old(Store(contents, contentWeight)), keys)
    {
      var rest := keys;
      while rest != []
        invariant RemoveKeys(Store(contents, contentWeight), rest) == RemoveKeys(old(Store(contents, contentWeight)), keys)
        decreases |rest|
      {
        DropContent(rest[0]);
        rest := rest[1..];
      }
    }

    method StoreSlot(slot: Slot<string, Cached>)
      modifies this`entries, this`weight, this`contents, this`contentWeight
      ensures St() == StoreEntry(c, old(St()), slot)
    {
      if slot.weight > c.maxBytes { return; }
      RemoveEntry(slot.key);
      entries := entries + [slot];
      weight := weight + slot.weight;
      ghost var s := St();
      while (weight > c.maxBytes || |entries| > c.maxEntries) && |entries| > 1
        invariant St() == s && EvictEntries(c, s) == StoreEntry(c, old(St()), slot)
        decreases |entries|
      {
        RemoveEntry(entries[0].key);
        s := Remove(s, s.entries.slots[0].key);
      }
    }

    method KeepContent(key: ContentKey, content: string, now: int)
      modifies this`contents, this`contentWeight
      ensures Store(contents, contentWeight)
           == StoreContent(c, old(Store(contents, contentWeight)), ContentSlot(c, key, content, now))
    {
      var slot := ContentSlot(c, key, content, now);
      if 2 * slot.weight > c.maxContentBytes { return; }
      DropContent(key);
      contents := contents + [slot];
      contentWeight := contentWeight + slot.weight;
      while contentWeight > c.maxContentBytes && |contents| > 1
        invariant EvictContents(c, Store(contents, contentWeight))
               == StoreContent(c, old(Store(contents, contentWeight)), slot)
        decreases |contents|
      {
        DropContent(contents[0].key);
      }
    }

    /** `get`, up to the fetch. */
    method Lookup(id: string, now: int) returns (answer: Answer)
      modifies this`entries, this`weight, this`contents, this`contentWeight, this`inFlight, this`fetches
      ensures (St(), answer) == Get(old(St()), id, now)
    {
      var i := Find(entries, id);
      if i < |entries| {
        var hit := entries[i];
        if hit.expiresAt > now {
          entries := Without(entries, id) + [hit];
          return Hit(hit.value.parse);
        }
      }
      RemoveEntry(id);
      if id in inFlight { return Waits; }
      inFlight := inFlight + [id];
      fetches := fetches + 1;
      answer := Waits;
    }

    /** The contents of a new parse, one entry a file. */
    method KeepContents(parse: nat, list: seq<Option<string>>, now: int) returns (keys: seq<ContentKey>)
      modifies this`contents, this`contentWeight
      ensures Store(contents, contentWeight)
           == StoreContents(c, old(Store(contents, contentWeight)), parse, list, |list|, now)
      ensures keys == KeysOf(parse, list, |list|)
    {
      keys := [];
      for n := 0 to |list|
        invariant keys == KeysOf(parse, list, n)
        invariant Store(contents, contentWeight) == StoreContents(c, old(Store(contents, contentWeight)), parse, list, n, now)
      {
        if !Present(list[n]) { continue; }
        keys := keys + [ContentKey(parse, n)];
        KeepContent(ContentKey(parse, n), list[n].value, now);
      }
    }

    method KeepParsed(id: string, bytes: nat, list: seq<Option<string>>, now: int)
      requires Valid()
      modifies this
      ensures Valid() && St() == StoreParsed(c, old(St()), id, bytes, list, now)
    {
      var parse := parses;
      parses := parses + 1;
      var keys := KeepContents(parse, list, now);
      parsed := parsed + [list];
      assert St() == WithParsed(c, old(St()), list, now);
      StoreSlot(Slot(id, Cached(Some(parse), keys), bytes, now + c.hitTtl));
    }

    method KeepMiss(id: string, expiresAt: int)
      modifies this`entries, this`weight, this`contents, this`contentWeight
      ensures St() == StoreMiss(c, old(St()), id, expiresAt)
    {
      StoreSlot(Slot(id, Cached(None, []), 0, expiresAt));
    }

    /** The rest of `load`, once the fetch has ended. */
    method Load(id: string, fetched: Fetched, now: int)
      requires Valid()
      modifies this
      ensures Valid() && St() == Loaded(c, old(St()), id, fetched, now)
    {
      match fetched
      case Failed => KeepMiss(id, now + c.errorTtl);
      case Missing => KeepMiss(id, now + c.missTtl);
      case Malformed => KeepMiss(id, now + c.missTtl);
      case Parsed(bytes, list) =>
        if 2 * bytes > c.maxBytes {
          bypassed := bypassed + 1;
        } else {
          KeepParsed(id, bytes, list, now);
        }
    }

    method LoadEnded(id: string)
      modifies this`inFlight
      ensures St() == Finished(old(St()), id)
    {
      inFlight := DropId(inFlight, id);
    }

    /** `contentOf`. */
    method ContentOf(key: ContentKey, now: int) returns (content: Option<string>)
      modifies this`contents, this`contentWeight
      ensures (St(), content) == ReadContent(old(St()), key, now)
    {
      var i := Find(contents, key);
      if i == |contents| { return None; }
      var entry := contents[i];
      if entry.expiresAt <= now {
        DropContent(key);
        return None;
      }
      contents := Without(contents, key) + [entry];
      content := Some(entry.value);
    }
  }
}
