/**
 * Which bytes are a message, field by field ("Encoding" in the Protocol Buffers documentation), stated without the
 * scan; and that the count of packages/otlp-ingester/src/ingest-drops.ts is right on those and absent on all others.
 */
module ProtoMeaning {
  import opened Wrappers
  import opened ProtoCount

  // ---------- varints ----------

  /** The number whose base-128 digits, least significant first, are the low seven bits of the bytes. */
  function Number(t: Bytes): nat {
    if t == [] then 0 else t[0] % 128 + 128 * Number(t[1..])
  }

  /** All bytes but the last have the top bit set; there are at most ten. */
  predicate IsVarint(t: Bytes) {
    1 <= |t| <= 10 && t[|t| - 1] < 128 && forall i | 0 <= i < |t| - 1 :: t[i] >= 128
  }

  predicate VarintWithin(t: Bytes, n: nat, left: nat) {
    1 <= n <= |t| && n <= left && t[n - 1] < 128 && forall i | 0 <= i < n - 1 :: t[i] >= 128
  }

  lemma {:induction false} VarintRead(t: Bytes, n: nat, left: nat)
    requires VarintWithin(t, n, left)
    ensures ReadVarint(t, left) == Some(Varint(Number(t[..n]), n))
    decreases n
  {
    assert t[..n][1..] == t[1..][..n - 1];
    if n == 1 {
      assert Number(t[..n][1..]) == 0;
    } else {
      VarintRead(t[1..], n - 1, left - 1);
    }
  }

  lemma {:induction false} ReadIsVarint(t: Bytes, left: nat)
    requires ReadVarint(t, left).Some?
    ensures VarintWithin(t, ReadVarint(t, left).value.size, left)
    decreases |t|
  {
    if t[0] >= 128 {
      ReadIsVarint(t[1..], left - 1);
      var n := ReadVarint(t, left).value.size;
      forall i | 0 <= i < n - 1 ensures t[i] >= 128 { if i > 0 { assert t[i] == t[1..][i - 1]; } }
      assert t[n - 1] == t[1..][n - 2];
    }
  }

  /** A varint is read exactly when the bytes start with one, and it is its number. */
  lemma VarintExactly(t: Bytes, n: nat)
    ensures n <= |t| && IsVarint(t[..n]) ==> ReadVarint(t, 10) == Some(Varint(Number(t[..n]), n))
    ensures ReadVarint(t, 10).Some? ==>
              var v := ReadVarint(t, 10).value; IsVarint(t[..v.size]) && v.value == Number(t[..v.size])
  {
    if n <= |t| && IsVarint(t[..n]) {
      forall i | 0 <= i < n ensures t[i] == t[..n][i] {}
      VarintRead(t, n, 10);
    }
    if ReadVarint(t, 10).Some? {
      ReadIsVarint(t, 10);
      VarintRead(t, ReadVarint(t, 10).value.size, 10);
    }
  }

  // ---------- fields ----------

  /** What follows a tag of this wire type, all of it; only a length-delimited field has a payload. */
  ghost predicate IsBody(t: Bytes, wire: nat, payload: Option<Bytes>) {
    if wire == 0 then IsVarint(t) && payload.None?
    else if wire == 1 then |t| == 8 && payload.None?
    else if wire == 5 then |t| == 4 && payload.None?
    else wire == 2 && payload.Some? && exists k | 0 <= k <= |t| ::
           IsVarint(t[..k]) && Number(t[..k]) == |t| - k && payload.value == t[k..]
  }

  /** One whole field: a tag, which is the number times eight and the wire type, and its body. */
  ghost predicate IsField(t: Bytes, number: nat, payload: Option<Bytes>) {
    exists k | 0 <= k <= |t| ::
      IsVarint(t[..k]) && Number(t[..k]) / 8 == number && IsBody(t[k..], Number(t[..k]) % 8, payload)
  }

  lemma BodyRead(t: Bytes, wire: nat, payload: Option<Bytes>, n: nat)
    requires n <= |t| && IsBody(t[..n], wire, payload)
    ensures BodyAt(t, wire) == Some(View(0, payload, n))
  {
    if wire == 0 {
      VarintExactly(t, n);
    } else if wire == 2 {
      var k :| 0 <= k <= n && IsVarint(t[..n][..k]) && Number(t[..n][..k]) == n - k && payload.value == t[..n][k..];
      assert t[..n][..k] == t[..k] && t[..n][k..] == t[k..n];
      VarintExactly(t, k);
    }
  }

  lemma BodyIs(t: Bytes, wire: nat)
    requires BodyAt(t, wire).Some?
    ensures var view := BodyAt(t, wire).value; IsBody(t[..view.size], wire, view.payload)
  {
    var view := BodyAt(t, wire).value;
    VarintExactly(t, 0);
    if wire == 2 {
      var k := ReadVarint(t, 10).value.size;
      var body := t[..view.size];
      assert body[..k] == t[..k] && body[k..] == t[k..view.size];
    }
  }

  /** A field is read exactly when the bytes start with one. */
  lemma FieldExactly(t: Bytes, n: nat, number: nat, payload: Option<Bytes>)
    ensures n <= |t| && IsField(t[..n], number, payload) ==> FieldAt(t) == Some(View(number, payload, n))
    ensures FieldAt(t).Some? ==> var v := FieldAt(t).value; IsField(t[..v.size], v.number, v.payload)
  {
    hide IsVarint, BodyAt, IsBody;
    if n <= |t| && IsField(t[..n], number, payload) {
      var k :| 0 <= k <= n && IsVarint(t[..n][..k]) && Number(t[..n][..k]) / 8 == number
               && IsBody(t[..n][k..], Number(t[..n][..k]) % 8, payload);
      assert t[..n][..k] == t[..k] && t[..n][k..] == t[k..][..n - k];
      VarintExactly(t, k);
      BodyRead(t[k..], Number(t[..k]) % 8, payload, n - k);
    }
    if FieldAt(t).Some? {
      VarintExactly(t, 0);
      var k := ReadVarint(t, 10).value.size;
      BodyIs(t[k..], Number(t[..k]) % 8);
      var n := FieldAt(t).value.size;
      assert t[..n][..k] == t[..k] && t[..n][k..] == t[k..][..n - k];
    }
  }

  // ---------- messages ----------

  /** The bytes are fields one after the other, with `count` of them at the end of the path. */
  ghost predicate HasCount(t: Bytes, path: Path, depth: nat, count: nat)
    requires depth < |path|
    decreases |path| - depth, |t|, 1
  {
    if t == [] then count == 0
    else exists n: nat, first: nat, number: nat, payload | 0 < n <= |t| && first <= count ::
           && IsField(t[..n], number, payload) && (payload.Some? ==> |payload.value| < |t|)
           && FieldCount(payload, path, depth, number, first) && HasCount(t[n..], path, depth, count - first)
  }

  /** A field on the path counts at its end, and above it counts what its payload does. */
  ghost predicate FieldCount(payload: Option<Bytes>, path: Path, depth: nat, number: nat, count: nat)
    requires depth < |path|
    decreases |path| - depth, if payload.Some? then |payload.value| else 0, 0
  {
    if payload.None? || number !in path[depth] then count == 0
    else if depth == |path| - 1 then count == 1
    else HasCount(payload.value, path, depth + 1, count)
  }

  lemma {:induction false} FoundIs(payload: Option<Bytes>, path: Path, depth: nat, number: nat, count: nat)
    requires depth < |path|
    ensures FieldCount(payload, path, depth, number, count) <==> Found(payload, path, depth, number) == Some(count)
    decreases |path| - depth, if payload.Some? then |payload.value| else 0, 0
  {
    if payload.Some? && number in path[depth] && depth < |path| - 1 { ScanIs(payload.value, path, depth + 1, count); }
  }

  lemma {:induction false} ScanIs(t: Bytes, path: Path, depth: nat, count: nat)
    requires depth < |path|
    ensures HasCount(t, path, depth, count) <==> Scan(t, path, depth) == Some(count)
    decreases |path| - depth, |t|, 1
  {
    hide IsField, FieldAt, Found, FieldCount;
    if t != [] {
      FieldExactly(t, 0, 0, None);
      if Scan(t, path, depth) == Some(count) { ScannedCounts(t, path, depth, count); }
      if HasCount(t, path, depth, count) { CountIsScanned(t, path, depth, count); }
    }
  }

  lemma {:induction false} ScannedCounts(t: Bytes, path: Path, depth: nat, count: nat)
    requires depth < |path| && t != [] && Scan(t, path, depth) == Some(count)
    ensures HasCount(t, path, depth, count)
    decreases |path| - depth, |t|, 0
  {
    hide IsField, FieldAt, Found, FieldCount;
    var view := FieldAt(t).value;
    var first := Found(view.payload, path, depth, view.number).value;
    FieldExactly(t, 0, 0, None);
    FoundIs(view.payload, path, depth, view.number, first);
    ScanIs(t[view.size..], path, depth, count - first);
    assert IsField(t[..view.size], view.number, view.payload) && FieldCount(view.payload, path, depth, view.number, first);
  }

  lemma {:induction false} CountIsScanned(t: Bytes, path: Path, depth: nat, count: nat)
    requires depth < |path| && t != [] && HasCount(t, path, depth, count)
    ensures Scan(t, path, depth) == Some(count)
    decreases |path| - depth, |t|, 0
  {
    hide IsField, FieldAt, Found, FieldCount;
    var n: nat, first: nat, number: nat, payload :| 0 < n <= |t| && first <= count
      && IsField(t[..n], number, payload) && (payload.Some? ==> |payload.value| < |t|)
      && FieldCount(payload, path, depth, number, first) && HasCount(t[n..], path, depth, count - first);
    FieldExactly(t, n, number, payload);
    FoundIs(payload, path, depth, number, first);
    ScanIs(t[n..], path, depth, count - first);
  }

  /**
   * The count is given exactly for the bytes that are fields one after the other, down the path, and is then the number
   * of length-delimited fields at its end; for any other bytes there is none.
   */
  lemma CountsExactly(t: Bytes, path: Path, count: nat)
    ensures Scan(t, path, 0) == Some(count) <==> HasCount(t, path, 0, count)
    ensures Scan(t, path, 0).None? <==> forall n: nat :: !HasCount(t, path, 0, n)
  {
    ScanIs(t, path, 0, count);
    if Scan(t, path, 0).Some? { ScanIs(t, path, 0, Scan(t, path, 0).value); }
    forall n: nat ensures HasCount(t, path, 0, n) <==> Scan(t, path, 0) == Some(n) { ScanIs(t, path, 0, n); }
  }
}
