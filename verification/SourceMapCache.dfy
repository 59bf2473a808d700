/**
 * The source map cache (packages/otlp-ingester/src/symbolicate.ts) as a state machine: parsed maps and their
 * source contents are kept in two stores, each in order of use and bounded by weight.
 */
module SourceMapCacheModel {
  import opened Wrappers

  // ---------- a store in order of use ----------

  datatype Slot<K, V> = Slot(key: K, value: V, weight: nat, expiresAt: int)

  /** A `Map` in insertion order, least recently used first, and the counter beside it. */
  datatype Store<K, V> = Store(slots: seq<Slot<K, V>>, weight: int)

  function Find<K(==), V>(slots: seq<Slot<K, V>>, key: K): (i: nat)
    ensures i <= |slots| && (forall j | 0 <= j < i :: slots[j].key != key) && (i < |slots| ==> slots[i].key == key)
  {
    if slots == [] || slots[0].key == key then 0 else 1 + Find(slots[1..], key)
  }

  function Without<K(==), V>(slots: seq<Slot<K, V>>, key: K): (r: seq<Slot<K, V>>)
    ensures |r| == |slots| - if Find(slots, key) < |slots| then 1 else 0
  {
    var i := Find(slots, key);
    if i == |slots| then slots else slots[..i] + slots[i + 1..]
  }

  function WeightOf<K(==), V>(slots: seq<Slot<K, V>>, key: K): nat {
    var i := Find(slots, key);
    if i == |slots| then 0 else slots[i].weight
  }

  function Total<K, V>(slots: seq<Slot<K, V>>): nat {
    if slots == [] then 0 else slots[0].weight + Total(slots[1..])
  }

  function RemoveKey<K(==), V>(s: Store<K, V>, key: K): Store<K, V> {
    Store(Without(s.slots, key), s.weight - WeightOf(s.slots, key))
  }

  function RemoveKeys<K(==), V>(s: Store<K, V>, keys: seq<K>): Store<K, V>
    decreases |keys|
  {
    if keys == [] then s else RemoveKeys(RemoveKey(s, keys[0]), keys[1..])
  }

  /** Put last: it becomes the most recently used. */
  function Put<K, V>(s: Store<K, V>, slot: Slot<K, V>): Store<K, V> {
    Store(s.slots + [slot], s.weight + slot.weight)
  }

  /** Move a slot last, as it is. */
  function Touch<K(==), V>(s: Store<K, V>, i: nat): Store<K, V>
    requires i < |s.slots|
  {
    Store(Without(s.slots, s.slots[i].key) + [s.slots[i]], s.weight)
  }

  predicate OverFull<K, V>(s: Store<K, V>, maxWeight: int, maxEntries: int) {
    (s.weight > maxWeight || |s.slots| > maxEntries) && |s.slots| > 1
  }

  // ---------- the cache ----------

  datatype Config = Config(maxBytes: int, maxContentBytes: int, maxEntries: int, hitTtl: int, missTtl: int, errorTtl: int)

  /** A content is named by its map's parse and the index of the source. */
  datatype ContentKey = ContentKey(parse: nat, index: nat)

  /** `parse` is the parsed map, `None` when there is none; `keys` its contents. */
  datatype Cached = Cached(parse: Option<nat>, keys: seq<ContentKey>)

  type Entries = Store<string, Cached>
  type Contents = Store<ContentKey, string>

  /** `parsed[p]`: the source contents that parse number `p` found (history). */
  datatype Cache = Cache(entries: Entries, contents: Contents, parsed: seq<seq<Option<string>>>,
                         loading: seq<string>, fetches: nat, bypassed: nat)

  function KeysOwned(slots: seq<Slot<string, Cached>>, id: string): seq<ContentKey> {
    var i := Find(slots, id);
    if i == |slots| then [] else slots[i].value.keys
  }

  /** `remove`: an entry goes with its contents. */
  function Remove(s: Cache, id: string): Cache {
    s.(entries := RemoveKey(s.entries, id), contents := RemoveKeys(s.contents, KeysOwned(s.entries.slots, id)))
  }

  function EvictEntries(c: Config, s: Cache): Cache
    decreases |s.entries.slots|
  {
    if OverFull(s.entries, c.maxBytes, c.maxEntries) then EvictEntries(c, Remove(s, s.entries.slots[0].key)) else s
  }

  /** `store`. */
  function StoreEntry(c: Config, s: Cache, slot: Slot<string, Cached>): Cache {
    if slot.weight > c.maxBytes then s
    else
      var s := Remove(s, slot.key);
      EvictEntries(c, s.(entries := Put(s.entries, slot)))
  }

  function EvictContents(c: Config, s: Contents): Contents
    decreases |s.slots|
  {
    if s.weight > c.maxContentBytes && |s.slots| > 1 then EvictContents(c, RemoveKey(s, s.slots[0].key)) else s
  }

  function ContentSlot(c: Config, key: ContentKey, content: string, now: int): Slot<ContentKey, string> {
    Slot(key, content, 2 * |content| + 64, now + c.hitTtl)
  }

  /** `storeContent`: a file over half the budget is not kept. */
  function StoreContent(c: Config, s: Contents, slot: Slot<ContentKey, string>): Contents {
    if 2 * slot.weight > c.maxContentBytes then s
    else EvictContents(c, Put(RemoveKey(s, slot.key), slot))
  }

  predicate Present(content: Option<string>) {
    content.Some? && content.value != ""
  }

  /** The keys of the first `n` contents of parse `parse`. */
  function KeysOf(parse: nat, contents: seq<Option<string>>, n: nat): (r: seq<ContentKey>)
    requires n <= |contents|
    ensures forall k <- r :: k.parse == parse && k.index < n && Present(contents[k.index])
  {
    if n == 0 then []
    else KeysOf(parse, contents, n - 1) + if Present(contents[n - 1]) then [ContentKey(parse, n - 1)] else []
  }

  function StoreContents(c: Config, s: Contents, parse: nat, contents: seq<Option<string>>, n: nat, now: int): Contents
    requires n <= |contents|
  {
    if n == 0 then s
    else
      var s := StoreContents(c, s, parse, contents, n - 1, now);
      if Present(contents[n - 1])
      then StoreContent(c, s, ContentSlot(c, ContentKey(parse, n - 1), contents[n - 1].value, now)) else s
  }

  /** How a fetch ended; `bytes` is the estimated size of the parsed map. */
  datatype Fetched = Failed | Missing | Malformed | Parsed(bytes: nat, contents: seq<Option<string>>)

  function StoreMiss(c: Config, s: Cache, id: string, expiresAt: int): Cache {
    StoreEntry(c, s, Slot(id, Cached(None, []), 0, expiresAt))
  }

  /** The contents of a new parse are stored, before its map is. */
  function WithParsed(c: Config, s: Cache, contents: seq<Option<string>>, now: int): Cache {
    s.(parsed := s.parsed + [contents],
       contents := StoreContents(c, s.contents, |s.parsed|, contents, |contents|, now))
  }

  function ParsedSlot(c: Config, parse: nat, id: string, bytes: nat, contents: seq<Option<string>>, now: int): Slot<string, Cached> {
    Slot(id, Cached(Some(parse), KeysOf(parse, contents, |contents|)), bytes, now + c.hitTtl)
  }

  /** A map of at most half the budget is kept, its contents apart from it. */
  function StoreParsed(c: Config, s: Cache, id: string, bytes: nat, contents: seq<Option<string>>, now: int): Cache {
    StoreEntry(c, WithParsed(c, s, contents, now), ParsedSlot(c, |s.parsed|, id, bytes, contents, now))
  }

  /** The rest of `load`, once the fetch has ended. */
  function Loaded(c: Config, s: Cache, id: string, fetched: Fetched, now: int): Cache {
    match fetched
    case Failed => StoreMiss(c, s, id, now + c.errorTtl)
    case Missing => StoreMiss(c, s, id, now + c.missTtl)
    case Malformed => StoreMiss(c, s, id, now + c.missTtl)
    case Parsed(bytes, contents) =>
      if 2 * bytes > c.maxBytes then s.(bypassed := s.bypassed + 1) else StoreParsed(c, s, id, bytes, contents, now)
  }

  /** What `get` answers at once: a cached answer, or that a load is under way (started now or before). */
  datatype Answer = Hit(parse: Option<nat>) | Waits

  /** `get`, up to the fetch. */
  function Get(s: Cache, id: string, now: int): (Cache, Answer) {
    var i := Find(s.entries.slots, id);
    if i < |s.entries.slots| && s.entries.slots[i].expiresAt > now then
      (s.(entries := Touch(s.entries, i)), Hit(s.entries.slots[i].value.parse))
    else
      var s := Remove(s, id);
      if id in s.loading then (s, Waits)
      else (s.(loading := s.loading + [id], fetches := s.fetches + 1), Waits)
  }

  function DropId(ids: seq<string>, id: string): seq<string> {
    if ids == [] then [] else if ids[0] == id then ids[1..] else [ids[0]] + DropId(ids[1..], id)
  }

  /** The load's `finally`. */
  function Finished(s: Cache, id: string): Cache {
    s.(loading := DropId(s.loading, id))
  }

  /** `contentOf` of the map from parse `key.parse`. */
  function ReadContent(s: Cache, key: ContentKey, now: int): (Cache, Option<string>) {
    var i := Find(s.contents.slots, key);
    if i == |s.contents.slots| then (s, None)
    else if s.contents.slots[i].expiresAt <= now then (s.(contents := RemoveKey(s.contents, key)), None)
    else (s.(contents := Touch(s.contents, i)), Some(s.contents.slots[i].value))
  }

  datatype Step =
    | DoGet(id: string, now: int)
    | DoLoaded(id: string, fetched: Fetched, now: int)
    | DoFinished(id: string)
    | DoRead(key: ContentKey, now: int)

  function Next(c: Config, s: Cache, e: Step): Cache {
    match e
    case DoGet(id, now) => Get(s, id, now).0
    case DoLoaded(id, fetched, now) => Loaded(c, s, id, fetched, now)
    case DoFinished(id) => Finished(s, id)
    case DoRead(key, now) => ReadContent(s, key, now).0
  }

  function Run(c: Config, s: Cache, steps: seq<Step>): Cache
    decreases |steps|
  {
    if steps == [] then s else Run(c, Next(c, s, steps[0]), steps[1..])
  }

  // ---------- what holds ----------

  predicate Distinct<K(==), V>(slots: seq<Slot<K, V>>) {
    forall i, j | 0 <= i < j < |slots| :: slots[i].key != slots[j].key
  }

  function Max(a: int, b: int): int {
    if a >= b then a else b
  }

  /** No key twice, an exact counter, and no slot above the budget on its own. */
  ghost predicate StoreOk<K, V>(s: Store<K, V>, maxWeight: int) {
    Distinct(s.slots) && s.weight == Total(s.slots) && forall x <- s.slots :: x.weight <= maxWeight
  }

  predicate OwnedBy(entries: seq<Slot<string, Cached>>, key: ContentKey) {
    exists e <- entries :: key in e.value.keys
  }

  /** Every content is of an entry's map, or of one being loaded (`extra`). */
  ghost predicate Owned(entries: seq<Slot<string, Cached>>, contents: seq<Slot<ContentKey, string>>, extra: seq<ContentKey>) {
    forall x <- contents :: OwnedBy(entries, x.key) || x.key in extra
  }

  /** A stored content is what its own parse found. */
  predicate IsGenuine(parsed: seq<seq<Option<string>>>, x: Slot<ContentKey, string>) {
    && x.key.parse < |parsed| && x.key.index < |parsed[x.key.parse]|
    && parsed[x.key.parse][x.key.index] == Some(x.value)
  }

  ghost predicate Genuine(parsed: seq<seq<Option<string>>>, contents: seq<Slot<ContentKey, string>>) {
    forall x <- contents :: IsGenuine(parsed, x)
  }

  predicate DistinctIds(ids: seq<string>) {
    forall i, j | 0 <= i < j < |ids| :: ids[i] != ids[j]
  }

  ghost predicate Inv(c: Config, s: Cache) {
    && StoreOk(s.entries, c.maxBytes) && StoreOk(s.contents, c.maxContentBytes)
    && s.entries.weight <= Max(0, c.maxBytes) && |s.entries.slots| <= Max(1, c.maxEntries)
    && s.contents.weight <= Max(0, c.maxContentBytes)
    && Owned(s.entries.slots, s.contents.slots, []) && Genuine(s.parsed, s.contents.slots) && DistinctIds(s.loading)
  }
}
