/**
 * What the source map cache answers, in terms of the history of a run (packages/otlp-ingester/src/symbolicate.ts): a
 * hit is what the latest load stored under that id, for as long as it is fresh; a content is what its parse found.
 */
module SourceMapCacheHits {
  import opened Wrappers
  import opened SourceMapCacheModel
  import opened SourceMapCacheProofs
  import opened SourceMapCacheTheorems

  // ---------- the history of stores ----------

  /** The step stores an answer for `id`: a load that failed, or one whose map takes at most half the budget. */
  predicate StoresUnder(c: Config, e: Step, id: string) {
    e.DoLoaded? && e.id == id && (if e.fetched.Parsed? then 2 * e.fetched.bytes <= c.maxBytes else 0 <= c.maxBytes)
  }

  /** Step `k` is the latest that stored an answer for `id`. */
  predicate LatestStore(c: Config, steps: seq<Step>, id: string, k: nat) {
    k < |steps| && StoresUnder(c, steps[k], id) && forall j | k < j < |steps| :: !StoresUnder(c, steps[j], id)
  }

  /** How long the answer that a load stores is good for. */
  function FreshUntil(c: Config, e: Step): int
    requires e.DoLoaded?
  {
    e.now + (if e.fetched.Parsed? then c.hitTtl else if e.fetched.Failed? then c.errorTtl else c.missTtl)
  }

  /** The slot holds what step `k` stored: the map of its parse, or that there is none. */
  predicate HoldsStore(c: Config, init: Cache, steps: seq<Step>, k: nat, x: Slot<string, Cached>)
    requires k < |steps| && steps[k].DoLoaded?
  {
    && x.expiresAt == FreshUntil(c, steps[k])
    && x.value.parse == (if steps[k].fetched.Parsed? then Some(|Run(c, init, steps[..k]).parsed|) else None)
  }

  ghost predicate FromHistory(c: Config, init: Cache, steps: seq<Step>, x: Slot<string, Cached>) {
    exists k: nat :: LatestStore(c, steps, x.key, k) && HoldsStore(c, init, steps, k, x)
  }

  // ---------- one step ----------

  lemma {:induction false} EvictOnlyRemoves(c: Config, s: Cache)
    requires Distinct(s.entries.slots)
    ensures forall x <- EvictEntries(c, s).entries.slots :: x in s.entries.slots
    decreases |s.entries.slots|
  {
    if OverFull(s.entries, c.maxBytes, c.maxEntries) {
      var one := Remove(s, s.entries.slots[0].key);
      WithoutMembers(s.entries.slots, s.entries.slots[0].key);
      WithoutDistinct(s.entries.slots, s.entries.slots[0].key);
      EvictOnlyRemoves(c, one);
    }
  }

  lemma StoreHolds(c: Config, s: Cache, slot: Slot<string, Cached>)
    requires Distinct(s.entries.slots) && slot.weight <= c.maxBytes
    ensures forall x <- StoreEntry(c, s, slot).entries.slots :: x == slot || (x in s.entries.slots && x.key != slot.key)
  {
    var removed := Remove(s, slot.key);
    WithoutMembers(s.entries.slots, slot.key);
    WithoutDistinct(s.entries.slots, slot.key);
    var put := removed.(entries := Put(removed.entries, slot));
    assert Distinct(put.entries.slots);
    EvictOnlyRemoves(c, put);
  }

  /** What a step leaves in the store of maps: what it stores itself, and old slots of other ids. */
  lemma StepSlots(c: Config, s: Cache, e: Step, x: Slot<string, Cached>)
    requires Inv(c, s) && x in Next(c, s, e).entries.slots
    ensures if StoresUnder(c, e, x.key)
            then x.expiresAt == FreshUntil(c, e) && x.value.parse == (if e.fetched.Parsed? then Some(|s.parsed|) else None)
            else x in s.entries.slots
  {
    match e
    case DoGet(id, now) =>
      WithoutMembers(s.entries.slots, id);
    case DoLoaded(id, fetched, now) =>
      LoadedSlots(c, s, e, x);
    case DoFinished(id) =>
    case DoRead(key, now) =>
  }

  lemma KeptSlots(c: Config, s: Cache, slot: Slot<string, Cached>, x: Slot<string, Cached>)
    requires Distinct(s.entries.slots) && x in StoreEntry(c, s, slot).entries.slots
    ensures if slot.weight <= c.maxBytes && x.key == slot.key then x == slot else x in s.entries.slots
  {
    if slot.weight <= c.maxBytes { StoreHolds(c, s, slot); }
  }

  lemma LoadedSlots(c: Config, s: Cache, e: Step, x: Slot<string, Cached>)
    requires Inv(c, s) && e.DoLoaded? && x in Loaded(c, s, e.id, e.fetched, e.now).entries.slots
    ensures if StoresUnder(c, e, x.key)
            then x.expiresAt == FreshUntil(c, e) && x.value.parse == (if e.fetched.Parsed? then Some(|s.parsed|) else None)
            else x in s.entries.slots
  {
    hide StoreEntry;
    if !e.fetched.Parsed? {
      KeptSlots(c, s, Slot(e.id, Cached(None, []), 0, FreshUntil(c, e)), x);
    } else if 2 * e.fetched.bytes <= c.maxBytes {
      KeptSlots(c, WithParsed(c, s, e.fetched.contents, e.now),
                ParsedSlot(c, |s.parsed|, e.id, e.fetched.bytes, e.fetched.contents, e.now), x);
    }
  }

  // ---------- the whole run ----------

  lemma {:induction false} RunLast(c: Config, s: Cache, steps: seq<Step>)
    requires steps != []
    ensures Run(c, s, steps) == Next(c, Run(c, s, steps[..|steps| - 1]), steps[|steps| - 1])
    decreases |steps|
  {
    if |steps| > 1 {
      RunLast(c, Next(c, s, steps[0]), steps[1..]);
      assert steps[1..][..|steps| - 2] == steps[..|steps| - 1][1..];
    }
  }

  lemma SameHistory(c: Config, init: Cache, steps: seq<Step>, x: Slot<string, Cached>)
    requires steps != [] && FromHistory(c, init, steps[..|steps| - 1], x) && !StoresUnder(c, steps[|steps| - 1], x.key)
    ensures FromHistory(c, init, steps, x)
  {
    var before := steps[..|steps| - 1];
    var k: nat :| LatestStore(c, before, x.key, k) && HoldsStore(c, init, before, k, x);
    assert before[..k] == steps[..k];
    assert LatestStore(c, steps, x.key, k) && HoldsStore(c, init, steps, k, x);
  }

  lemma {:induction false} SlotsFromHistory(c: Config, init: Cache, steps: seq<Step>)
    requires IsInit(init)
    ensures forall x <- Run(c, init, steps).entries.slots :: FromHistory(c, init, steps, x)
    decreases |steps|
  {
    if steps != [] {
      var n := |steps| - 1;
      var s := Run(c, init, steps[..n]);
      SlotsFromHistory(c, init, steps[..n]);
      RunLast(c, init, steps);
      RunKeeps(c, init, steps[..n]);
      forall x <- Run(c, init, steps).entries.slots ensures FromHistory(c, init, steps, x) {
        StepSlots(c, s, steps[n], x);
        if StoresUnder(c, steps[n], x.key) {
          assert LatestStore(c, steps, x.key, n) && HoldsStore(c, init, steps, n, x);
        } else {
          SameHistory(c, init, steps, x);
        }
      }
    }
  }

  /** Parses are only added. */
  lemma ParsedOnlyGrows(c: Config, s: Cache, e: Step)
    ensures s.parsed <= Next(c, s, e).parsed
    ensures e.DoLoaded? && e.fetched.Parsed? && 2 * e.fetched.bytes <= c.maxBytes ==>
              Next(c, s, e).parsed == s.parsed + [e.fetched.contents]
  {
    hide StoreEntry;
    if e.DoLoaded? {
      if e.fetched.Parsed? && 2 * e.fetched.bytes <= c.maxBytes {
        StoreParsedLog(c, WithParsed(c, s, e.fetched.contents, e.now),
                       ParsedSlot(c, |s.parsed|, e.id, e.fetched.bytes, e.fetched.contents, e.now));
      } else if !e.fetched.Parsed? {
        StoreParsedLog(c, s, Slot(e.id, Cached(None, []), 0, FreshUntil(c, e)));
      }
    }
  }

  lemma StoreParsedLog(c: Config, s: Cache, slot: Slot<string, Cached>)
    ensures StoreEntry(c, s, slot).parsed == s.parsed
  {
    if slot.weight <= c.maxBytes {
      var removed := Remove(s, slot.key);
      EvictParsedLog(c, removed.(entries := Put(removed.entries, slot)));
    }
  }

  lemma {:induction false} EvictParsedLog(c: Config, s: Cache)
    ensures EvictEntries(c, s).parsed == s.parsed
    decreases |s.entries.slots|
  {
    if OverFull(s.entries, c.maxBytes, c.maxEntries) { EvictParsedLog(c, Remove(s, s.entries.slots[0].key)); }
  }

  lemma {:induction false} ParsedAt(c: Config, init: Cache, steps: seq<Step>, k: nat)
    requires k < |steps| && steps[k].DoLoaded? && steps[k].fetched.Parsed? && 2 * steps[k].fetched.bytes <= c.maxBytes
    ensures var p, parsed := |Run(c, init, steps[..k]).parsed|, Run(c, init, steps).parsed;
            p < |parsed| && parsed[p] == steps[k].fetched.contents
    decreases |steps|
  {
    var n := |steps| - 1;
    RunLast(c, init, steps);
    ParsedOnlyGrows(c, Run(c, init, steps[..n]), steps[n]);
    if k < n {
      ParsedAt(c, init, steps[..n], k);
      assert steps[..n][..k] == steps[..k];
    }
  }

  // ---------- main results ----------

  /**
   * A hit, after any run: the answer is what the latest load stored for that very id, and it is fresh. A map is the
   * one that load parsed; without one, the load had failed, or found none.
   */
  lemma HitIsLatestLoad(c: Config, init: Cache, steps: seq<Step>, id: string, now: int) returns (k: nat)
    requires IsInit(init) && Get(Run(c, init, steps), id, now).1.Hit?
    ensures LatestStore(c, steps, id, k) && now < FreshUntil(c, steps[k])
    ensures var s, parse := Run(c, init, steps), Get(Run(c, init, steps), id, now).1.parse;
            if parse.Some? then
              && steps[k].fetched.Parsed? && parse.value == |Run(c, init, steps[..k]).parsed| < |s.parsed|
              && s.parsed[parse.value] == steps[k].fetched.contents && now < steps[k].now + c.hitTtl
            else
              || (steps[k].fetched == Failed && now < steps[k].now + c.errorTtl)
              || ((steps[k].fetched == Missing || steps[k].fetched == Malformed) && now < steps[k].now + c.missTtl)
  {
    var s := Run(c, init, steps);
    SlotsFromHistory(c, init, steps);
    var x := s.entries.slots[Find(s.entries.slots, id)];
    assert x in s.entries.slots;
    k :| LatestStore(c, steps, id, k) && HoldsStore(c, init, steps, k, x);
    if steps[k].fetched.Parsed? { ParsedAt(c, init, steps, k); }
  }

  /** Conversely, while an answer for the id is in the store and the latest load's is fresh, it is a hit. */
  lemma FreshIsHit(c: Config, init: Cache, steps: seq<Step>, id: string, now: int, k: nat)
    requires IsInit(init) && LatestStore(c, steps, id, k) && now < FreshUntil(c, steps[k])
    requires exists x <- Run(c, init, steps).entries.slots :: x.key == id
    ensures var parse := if steps[k].fetched.Parsed? then Some(|Run(c, init, steps[..k]).parsed|) else None;
            Get(Run(c, init, steps), id, now).1 == Hit(parse)
  {
    var s := Run(c, init, steps);
    SlotsFromHistory(c, init, steps);
    var i := Find(s.entries.slots, id);
    assert i < |s.entries.slots| by {
      var x :| x in s.entries.slots && x.key == id;
      var j :| 0 <= j < |s.entries.slots| && s.entries.slots[j] == x;
    }
    var x := s.entries.slots[i];
    assert x in s.entries.slots;
    var l: nat :| LatestStore(c, steps, id, l) && HoldsStore(c, init, steps, l, x);
    assert l == k;
  }

  // ---------- contents ----------

  /** The content is one that step `k` parsed, kept since then. */
  predicate ContentOfLoad(c: Config, init: Cache, steps: seq<Step>, k: nat, x: Slot<ContentKey, string>) {
    && k < |steps| && steps[k].DoLoaded? && steps[k].fetched.Parsed? && 2 * steps[k].fetched.bytes <= c.maxBytes
    && x.key.parse == |Run(c, init, steps[..k]).parsed| && x.key.index < |steps[k].fetched.contents|
    && steps[k].fetched.contents[x.key.index] == Some(x.value) && x.expiresAt == steps[k].now + c.hitTtl
  }

  lemma WithoutSubset<K, V>(slots: seq<Slot<K, V>>, key: K)
    ensures forall x <- Without(slots, key) :: x in slots
  {}

  lemma {:induction false} RemoveKeysSubset<K, V>(s: Store<K, V>, keys: seq<K>)
    ensures forall x <- RemoveKeys(s, keys).slots :: x in s.slots
    decreases |keys|
  {
    if keys != [] {
      WithoutSubset(s.slots, keys[0]);
      RemoveKeysSubset(RemoveKey(s, keys[0]), keys[1..]);
    }
  }

  lemma {:induction false} EvictEntriesSubset(c: Config, s: Cache)
    ensures forall x <- EvictEntries(c, s).contents.slots :: x in s.contents.slots
    decreases |s.entries.slots|
  {
    if OverFull(s.entries, c.maxBytes, c.maxEntries) {
      var id := s.entries.slots[0].key;
      RemoveKeysSubset(s.contents, KeysOwned(s.entries.slots, id));
      EvictEntriesSubset(c, Remove(s, id));
    }
  }

  lemma StoreEntrySubset(c: Config, s: Cache, slot: Slot<string, Cached>)
    ensures forall x <- StoreEntry(c, s, slot).contents.slots :: x in s.contents.slots
  {
    if slot.weight <= c.maxBytes {
      var removed := Remove(s, slot.key);
      RemoveKeysSubset(s.contents, KeysOwned(s.entries.slots, slot.key));
      EvictEntriesSubset(c, removed.(entries := Put(removed.entries, slot)));
    }
  }

  lemma {:induction false} EvictContentsSubset(c: Config, s: Contents)
    ensures forall x <- EvictContents(c, s).slots :: x in s.slots
    decreases |s.slots|
  {
    if s.weight > c.maxContentBytes && |s.slots| > 1 {
      WithoutSubset(s.slots, s.slots[0].key);
      EvictContentsSubset(c, RemoveKey(s, s.slots[0].key));
    }
  }

  lemma {:induction false} StoreContentsAdd(c: Config, s: Contents, parse: nat, contents: seq<Option<string>>, n: nat, now: int,
                                            x: Slot<ContentKey, string>)
    requires n <= |contents| && x in StoreContents(c, s, parse, contents, n, now).slots && x !in s.slots
    ensures x.key.parse == parse && x.key.index < n && contents[x.key.index] == Some(x.value) && x.expiresAt == now + c.hitTtl
  {
    if n > 0 {
      var t := StoreContents(c, s, parse, contents, n - 1, now);
      if Present(contents[n - 1]) {
        var slot := ContentSlot(c, ContentKey(parse, n - 1), contents[n - 1].value, now);
        WithoutSubset(t.slots, slot.key);
        EvictContentsSubset(c, Put(RemoveKey(t, slot.key), slot));
      }
      if x in t.slots { StoreContentsAdd(c, s, parse, contents, n - 1, now, x); }
    }
  }

  /** What a step adds to the store of contents is of the map it parsed. */
  lemma StepContents(c: Config, s: Cache, e: Step, x: Slot<ContentKey, string>)
    requires x in Next(c, s, e).contents.slots && x !in s.contents.slots
    ensures e.DoLoaded? && e.fetched.Parsed? && 2 * e.fetched.bytes <= c.maxBytes && x.key.parse == |s.parsed|
    ensures x.key.index < |e.fetched.contents| && e.fetched.contents[x.key.index] == Some(x.value)
    ensures x.expiresAt == e.now + c.hitTtl
  {
    hide StoreEntry, StoreContents, ParsedSlot;
    match e
    case DoGet(id, now) => RemoveKeysSubset(s.contents, KeysOwned(s.entries.slots, id));
    case DoLoaded(id, fetched, now) =>
      if fetched.Parsed? {
        var t := WithParsed(c, s, fetched.contents, now);
        StoreEntrySubset(c, t, ParsedSlot(c, |s.parsed|, id, fetched.bytes, fetched.contents, now));
        StoreContentsAdd(c, s.contents, |s.parsed|, fetched.contents, |fetched.contents|, now, x);
      } else {
        StoreEntrySubset(c, s, Slot(id, Cached(None, []), 0, FreshUntil(c, e)));
      }
    case DoFinished(id) =>
    case DoRead(key, now) => WithoutSubset(s.contents.slots, key);
  }

  lemma {:induction false} ContentsFromHistory(c: Config, init: Cache, steps: seq<Step>, x: Slot<ContentKey, string>) returns (k: nat)
    requires IsInit(init) && x in Run(c, init, steps).contents.slots
    ensures ContentOfLoad(c, init, steps, k, x)
    decreases |steps|
  {
    k := 0;
    if steps != [] {
      var n := |steps| - 1;
      var s := Run(c, init, steps[..n]);
      RunLast(c, init, steps);
      if x in s.contents.slots {
        k := ContentsFromHistory(c, init, steps[..n], x);
        assert steps[..n][..k] == steps[..k];
      } else {
        StepContents(c, s, steps[n], x);
        k := n;
      }
    }
  }

  /** A content that is read, after any run, was parsed at its index by the load of its parse, and is fresh. */
  lemma ContentIsParsed(c: Config, init: Cache, steps: seq<Step>, key: ContentKey, now: int) returns (k: nat)
    requires IsInit(init) && ReadContent(Run(c, init, steps), key, now).1.Some?
    ensures k < |steps| && steps[k].DoLoaded? && steps[k].fetched.Parsed? && key.parse == |Run(c, init, steps[..k]).parsed|
    ensures key.index < |steps[k].fetched.contents| && now < steps[k].now + c.hitTtl
    ensures ReadContent(Run(c, init, steps), key, now).1 == steps[k].fetched.contents[key.index]
  {
    var s := Run(c, init, steps);
    var x := s.contents.slots[Find(s.contents.slots, key)];
    assert x in s.contents.slots;
    k := ContentsFromHistory(c, init, steps, x);
  }

  /** Conversely, a content that is still stored and fresh is read. */
  lemma FreshContentIsRead(c: Config, init: Cache, steps: seq<Step>, key: ContentKey, now: int, k: nat)
    requires IsInit(init) && exists x <- Run(c, init, steps).contents.slots :: x.key == key
    requires k < |steps| && steps[k].DoLoaded? && steps[k].fetched.Parsed? && 2 * steps[k].fetched.bytes <= c.maxBytes
    requires key.parse == |Run(c, init, steps[..k]).parsed| && now < steps[k].now + c.hitTtl
    ensures key.index < |steps[k].fetched.contents|
    ensures ReadContent(Run(c, init, steps), key, now).1 == steps[k].fetched.contents[key.index] != None
  {
    var s := Run(c, init, steps);
    var i := Find(s.contents.slots, key);
    assert i < |s.contents.slots| by {
      var x :| x in s.contents.slots && x.key == key;
      var j :| 0 <= j < |s.contents.slots| && s.contents.slots[j] == x;
    }
    var x := s.contents.slots[i];
    assert x in s.contents.slots;
    var l := ContentsFromHistory(c, init, steps, x);
    OneParse(c, init, steps, k, l);
  }

  /** Each kept parse has its own number. */
  lemma OneParse(c: Config, init: Cache, steps: seq<Step>, k: nat, l: nat)
    requires k < |steps| && steps[k].DoLoaded? && steps[k].fetched.Parsed? && 2 * steps[k].fetched.bytes <= c.maxBytes
    requires l < |steps| && steps[l].DoLoaded? && steps[l].fetched.Parsed? && 2 * steps[l].fetched.bytes <= c.maxBytes
    requires |Run(c, init, steps[..k]).parsed| == |Run(c, init, steps[..l]).parsed|
    ensures k == l
  {
    if k < l {
      assert steps[..l][..k] == steps[..k];
      ParsedAt(c, init, steps[..l], k);
    } else if l < k {
      assert steps[..k][..l] == steps[..l];
      ParsedAt(c, init, steps[..k], l);
    }
  }
}
