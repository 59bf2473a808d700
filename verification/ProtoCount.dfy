/**
 * Counting records in a protobuf body without decoding it (packages/otlp-ingester/src/ingest-drops.ts), over
 * any bytes, and what the count means for the encoding of a message.
 */
module ProtoCount {
  import opened Wrappers

  type Byte = b: nat | b < 256 witness 0

  type Bytes = seq<Byte>

  /** The field numbers to follow, one set a level. */
  type Path = p: seq<set<nat>> | p != [] witness [{}]

  const VARINT_BYTES := 10

  // ---------- varints ----------

  datatype Varint = Varint(value: nat, size: nat)

  /** The varint at the start of `t`, of at most `left` bytes. */
  function ReadVarint(t: Bytes, left: nat): (r: Option<Varint>)
    ensures r.Some? ==> 1 <= r.value.size <= |t| && r.value.size <= left
  {
    if t == [] || left == 0 then None
    else if t[0] < 128 then Some(Varint(t[0], 1))
    else
      var rest := ReadVarint(t[1..], left - 1);
      if rest.None? then None else Some(Varint(t[0] - 128 + 128 * rest.value.value, rest.value.size + 1))
  }

  function WriteVarint(n: nat): (r: Bytes)
    ensures r != []
  {
    if n < 128 then [n] else [n % 128 + 128] + WriteVarint(n / 128)
  }

  function Power(k: nat): (r: nat)
    ensures r >= 1
  {
    if k == 0 then 1 else 128 * Power(k - 1)
  }

  /** Reading a written varint gives the number back and stops at its end, when it has at most `left` bytes. */
  lemma {:induction false} ReadWritten(n: nat, left: nat, rest: Bytes)
    requires n < Power(left) && left > 0
    ensures ReadVarint(WriteVarint(n) + rest, left) == Some(Varint(n, |WriteVarint(n)|))
  {
    var t := WriteVarint(n) + rest;
    if n >= 128 {
      assert left > 1 by { assert Power(1) == 128 * Power(0); }
      assert t[1..] == WriteVarint(n / 128) + rest;
      ReadWritten(n / 128, left - 1, rest);
    }
  }

  /** A number read so far: its low bits, the weight of the next byte, and the bytes read. */
  datatype Partial = Partial(value: nat, scale: nat, size: nat)

  function Carry(p: Partial, byte: Byte): Partial
    requires byte >= 128
  {
    Partial(p.value + (byte - 128) * p.scale, p.scale * 128, p.size + 1)
  }

  function Last(p: Partial, byte: Byte): Varint {
    Varint(p.value + byte * p.scale, p.size + 1)
  }

  /** The number when the rest of it is read. */
  function Joined(p: Partial, rest: Option<Varint>): Option<Varint> {
    if rest.None? then None else Some(Varint(p.value + p.scale * rest.value.value, p.size + rest.value.size))
  }

  lemma JoinMore(t: Bytes, left: nat, p: Partial)
    requires t != [] && left > 0 && t[0] >= 128
    ensures Joined(p, ReadVarint(t, left)) == Joined(Carry(p, t[0]), ReadVarint(t[1..], left - 1))
  {}

  lemma JoinLast(t: Bytes, left: nat, p: Partial)
    requires t != [] && left > 0 && t[0] < 128
    ensures Joined(p, ReadVarint(t, left)) == Some(Last(p, t[0]))
  {}

  lemma ReadOne(buf: Bytes, pos: nat, end: nat, left: nat, p: Partial)
    requires pos < end <= |buf| && left > 0
    ensures Joined(p, ReadVarint(buf[pos..end], left))
         == if buf[pos] < 128 then Some(Last(p, buf[pos]))
            else Joined(Carry(p, buf[pos]), ReadVarint(buf[pos + 1..end], left - 1))
  {
    var t := buf[pos..end];
    assert t[1..] == buf[pos + 1..end];
    if t[0] < 128 { JoinLast(t, left, p); } else { JoinMore(t, left, p); }
  }

  lemma NothingJoined(p: Partial, t: Bytes, left: nat)
    requires t == [] || left == 0
    ensures Joined(p, ReadVarint(t, left)) == None
  {}

  /** `readVarint`: reads within `[start, end)` only. */
  method ReadVarintAt(buf: Bytes, start: nat, end: nat) returns (r: Option<Varint>)
    requires start <= end <= |buf|
    ensures r == ReadVarint(buf[start..end], VARINT_BYTES)
  {
    var p := Partial(0, 1, 0);
    var pos: nat, left: nat := start, VARINT_BYTES;
    while pos < end && left > 0
      invariant pos <= end && ReadVarint(buf[start..end], VARINT_BYTES) == Joined(p, ReadVarint(buf[pos..end], left))
      decreases left
    {
      ReadOne(buf, pos, end, left, p);
      if buf[pos] < 128 { return Some(Last(p, buf[pos])); }
      p := Carry(p, buf[pos]);
      pos, left := pos + 1, left - 1;
    }
    NothingJoined(p, buf[pos..end], left);
    return None;
  }

  // ---------- one field ----------

  /** A field as the scan sees it: its payload when it is length-delimited, and all its bytes. */
  datatype View = View(number: nat, payload: Option<Bytes>, size: nat)

  /** What follows a tag. */
  function BodyAt(rest: Bytes, wire: nat): (r: Option<View>)
    ensures r.Some? ==> r.value.size <= |rest| && (r.value.payload.Some? ==> |r.value.payload.value| <= r.value.size)
  {
    if wire == 0 then
      var skipped := ReadVarint(rest, VARINT_BYTES);
      if skipped.None? then None else Some(View(0, None, skipped.value.size))
    else if wire == 1 then if |rest| < 8 then None else Some(View(0, None, 8))
    else if wire == 5 then if |rest| < 4 then None else Some(View(0, None, 4))
    else if wire == 2 then
      var length := ReadVarint(rest, VARINT_BYTES);
      if length.None? then None
      else
        var from, n := length.value.size, length.value.value;
        if from + n > |rest| then None else Some(View(0, Some(rest[from..from + n]), from + n))
    else None
  }

  /** The field at the start of a non-empty message. */
  function FieldAt(t: Bytes): (r: Option<View>)
    ensures r.Some? ==> 1 <= r.value.size <= |t| && (r.value.payload.Some? ==> |r.value.payload.value| < |t|)
  {
    var tag := ReadVarint(t, VARINT_BYTES);
    if tag.None? then None
    else
      var body := BodyAt(t[tag.value.size..], tag.value.value % 8);
      if body.None? then None
      else Some(View(tag.value.value / 8, body.value.payload, tag.value.size + body.value.size))
  }

  /** A field's payload by position. */
  datatype Place = Place(number: nat, from: int, stop: nat, next: nat)

  /** `p` is where `view` lies in the buffer, read from `pos`; `from` is -1 when it has no payload. */
  predicate Lies(buf: Bytes, pos: nat, end: nat, p: Place, view: View) {
    && pos <= p.next <= end <= |buf| && p.next == pos + view.size && p.number == view.number
    && (view.payload.Some? <==> p.from >= 0)
    && (p.from >= 0 ==> pos <= p.from <= p.stop == p.next && view.payload == Some(buf[p.from..p.stop]))
  }

  lemma SliceTwice(buf: Bytes, at: nat, end: nat, i: nat, j: nat)
    requires at <= end <= |buf| && i <= j <= end - at
    ensures buf[at..end][i..j] == buf[at + i..at + j]
  {
    var a, b := buf[at..end][i..j], buf[at + i..at + j];
    forall k | 0 <= k < |a| ensures a[k] == b[k] {
      assert a[k] == buf[at..end][i + k] == buf[at + i + k];
    }
  }

  method BodyPlace(buf: Bytes, at: nat, end: nat, wire: nat) returns (p: Option<Place>)
    requires at <= end <= |buf|
    ensures var view := BodyAt(buf[at..end], wire);
            p.Some? == view.Some? && (p.Some? ==> Lies(buf, at, end, p.value, view.value))
  {
    if wire == 0 {
      var skipped := ReadVarintAt(buf, at, end);
      if skipped.None? { return None; }
      return Some(Place(0, -1, 0, at + skipped.value.size));
    } else if wire == 1 {
      return if at + 8 > end then None else Some(Place(0, -1, 0, at + 8));
    } else if wire == 5 {
      return if at + 4 > end then None else Some(Place(0, -1, 0, at + 4));
    } else if wire == 2 {
      var length := ReadVarintAt(buf, at, end);
      if length.None? { return None; }
      var from := at + length.value.size;
      var stop := from + length.value.value;
      if stop > end { return None; }
      SliceTwice(buf, at, end, length.value.size, length.value.size + length.value.value);
      return Some(Place(0, from, stop, stop));
    } else {
      return None;
    }
  }

  /** The field at `pos`, read within `[pos, end)` only. */
  method FieldPlace(buf: Bytes, pos: nat, end: nat) returns (p: Option<Place>)
    requires pos < end <= |buf|
    ensures var view := FieldAt(buf[pos..end]);
            p.Some? == view.Some? && (p.Some? ==> Lies(buf, pos, end, p.value, view.value))
  {
    var tag := ReadVarintAt(buf, pos, end);
    if tag.None? { return None; }
    var at := pos + tag.value.size;
    assert buf[pos..end][tag.value.size..] == buf[at..end];
    p := BodyPlace(buf, at, end, tag.value.value % 8);
    if p.Some? { p := Some(p.value.(number := tag.value.value / 8)); }
  }

  // ---------- scanning ----------

  function Plus(a: Option<nat>, b: Option<nat>): Option<nat> {
    if a.None? || b.None? then None else Some(a.value + b.value)
  }

  /** The fields at the end of `path` in the bytes of a message, or nothing when they are malformed. */
  function Scan(t: Bytes, path: Path, depth: nat): Option<nat>
    requires depth < |path|
    decreases |path| - depth, |t|
  {
    if t == [] then Some(0)
    else
      var view := FieldAt(t);
      if view.None? then None
      else Plus(Found(view.value.payload, path, depth, view.value.number), Scan(t[view.value.size..], path, depth))
  }

  /** What one field adds. */
  function Found(payload: Option<Bytes>, path: Path, depth: nat, number: nat): Option<nat>
    requires depth < |path|
    decreases |path| - depth, if payload.Some? then |payload.value| else 0
  {
    if payload.None? || number !in path[depth] then Some(0)
    else if depth == |path| - 1 then Some(1)
    else Scan(payload.value, path, depth + 1)
  }

  lemma PlusMore(a: nat, b: Option<nat>, c: Option<nat>)
    ensures Plus(Some(a), Plus(b, c)) == if b.None? then None else Plus(Some(a + b.value), c)
  {}

  /** The scan goes on after a field. */
  lemma ScanPlace(buf: Bytes, path: Path, depth: nat, pos: nat, end: nat, p: Place, found: Option<nat>, total: nat)
    requires depth < |path| && pos < end <= |buf| && FieldAt(buf[pos..end]).Some?
    requires Lies(buf, pos, end, p, FieldAt(buf[pos..end]).value)
    requires found == Found(if p.from >= 0 then Some(buf[p.from..p.stop]) else None, path, depth, p.number)
    ensures Plus(Some(total), Scan(buf[pos..end], path, depth))
         == if found.None? then None else Plus(Some(total + found.value), Scan(buf[p.next..end], path, depth))
  {
    var t, view := buf[pos..end], FieldAt(buf[pos..end]).value;
    assert found == Found(view.payload, path, depth, view.number);
    assert t[view.size..] == buf[p.next..end];
    PlusMore(total, found, Scan(buf[p.next..end], path, depth));
  }

  /** `scan`: it reads within `[start, end)` only, and ends. */
  method ScanAt(buf: Bytes, path: Path, depth: nat, start: nat, end: nat) returns (count: Option<nat>)
    requires depth < |path| && start <= end <= |buf|
    ensures count == Scan(buf[start..end], path, depth)
    decreases |path| - depth
  {
    var pos: nat, total: nat := start, 0;
    while pos < end
      invariant start <= pos <= end
      invariant Scan(buf[start..end], path, depth) == Plus(Some(total), Scan(buf[pos..end], path, depth))
      decreases end - pos
    {
      var p := FieldPlace(buf, pos, end);
      if p.None? { return None; }
      var found := FoundAt(buf, path, depth, p.value);
      ScanPlace(buf, path, depth, pos, end, p.value, found, total);
      if found.None? { return None; }
      total := total + found.value;
      pos := p.value.next;
    }
    return Some(total);
  }

  method FoundAt(buf: Bytes, path: Path, depth: nat, p: Place) returns (found: Option<nat>)
    requires depth < |path| && (p.from >= 0 ==> p.from <= p.stop <= |buf|)
    ensures found == Found(if p.from >= 0 then Some(buf[p.from..p.stop]) else None, path, depth, p.number)
    decreases |path| - depth, 0
  {
    if p.from < 0 || p.number !in path[depth] { return Some(0); }
    if depth == |path| - 1 { return Some(1); }
    found := ScanAt(buf, path, depth + 1, p.from, p.stop);
  }

  /** `countProtoPath`. */
  method CountProtoPath(buf: Bytes, path: Path) returns (count: Option<nat>)
    ensures count == Scan(buf, path, 0)
  {
    count := ScanAt(buf, path, 0, 0, |buf|);
    assert buf[0..|buf|] == buf;
  }

  // ---------- messages ----------

  /** A field of a message: `Raw` is a string, bytes or packed values. */
  datatype Field =
    | Number(number: nat, value: nat)
    | Fixed64(number: nat, bytes: Bytes)
    | Fixed32(number: nat, bytes: Bytes)
    | Raw(number: nat, bytes: Bytes)
    | Message(number: nat, fields: Fields)

  datatype Fields = End | More(field: Field, rest: Fields)

  function Tag(number: nat, wire: nat): Bytes {
    WriteVarint(8 * number + wire)
  }

  function WriteField(f: Field): Bytes {
    match f
    case Number(number, value) => Tag(number, 0) + WriteVarint(value)
    case Fixed64(number, bytes) => Tag(number, 1) + bytes
    case Fixed32(number, bytes) => Tag(number, 5) + bytes
    case Raw(number, bytes) => Tag(number, 2) + WriteVarint(|bytes|) + bytes
    case Message(number, fields) => Tag(number, 2) + WriteVarint(|Write(fields)|) + Write(fields)
  }

  function Write(fields: Fields): Bytes {
    match fields
    case End => []
    case More(field, rest) => WriteField(field) + Write(rest)
  }

  predicate Fits(n: nat) {
    n < Power(VARINT_BYTES)
  }

  /** Numbers and lengths fit a varint, fixed fields have their width, and the fields followed are messages. */
  predicate Conforms(fields: Fields, path: Path, depth: nat)
    requires depth < |path|
    decreases fields
  {
    match fields
    case End => true
    case More(field, rest) => FieldConforms(field, path, depth) && Conforms(rest, path, depth)
  }

  predicate FieldConforms(f: Field, path: Path, depth: nat)
    requires depth < |path|
    decreases f
  {
    Fits(8 * f.number + 7)
    && match f
       case Number(_, value) => Fits(value)
       case Fixed64(_, bytes) => |bytes| == 8
       case Fixed32(_, bytes) => |bytes| == 4
       case Raw(number, bytes) => Fits(|bytes|) && (number in path[depth] ==> depth == |path| - 1)
       case Message(number, fields) =>
         Fits(|Write(fields)|) && (number in path[depth] && depth < |path| - 1 ==> Conforms(fields, path, depth + 1))
  }

  /** The fields at the end of the path. */
  function CountFields(fields: Fields, path: Path, depth: nat): nat
    requires depth < |path|
    decreases fields
  {
    match fields
    case End => 0
    case More(field, rest) => CountField(field, path, depth) + CountFields(rest, path, depth)
  }

  function CountField(f: Field, path: Path, depth: nat): nat
    requires depth < |path|
    decreases f
  {
    if !(f.Raw? || f.Message?) || f.number !in path[depth] then 0
    else if depth == |path| - 1 then 1
    else if f.Message? then CountFields(f.fields, path, depth + 1) else 0
  }

  lemma TagReads(number: nat, wire: nat, rest: Bytes)
    requires wire < 8 && Fits(8 * number + 7)
    ensures ReadVarint(Tag(number, wire) + rest, VARINT_BYTES) == Some(Varint(8 * number + wire, |Tag(number, wire)|))
    ensures (Tag(number, wire) + rest)[|Tag(number, wire)|..] == rest
  {
    ReadWritten(8 * number + wire, VARINT_BYTES, rest);
  }

  /** A written field, with bytes after it, is read as it was written. */
  lemma TaggedReads(number: nat, wire: nat, body: Bytes, rest: Bytes, payload: Option<Bytes>)
    requires wire < 8 && Fits(8 * number + 7) && BodyAt(body + rest, wire) == Some(View(0, payload, |body|))
    ensures FieldAt(Tag(number, wire) + body + rest) == Some(View(number, payload, |Tag(number, wire) + body|))
  {
    TagReads(number, wire, body + rest);
    assert Tag(number, wire) + body + rest == Tag(number, wire) + (body + rest);
    assert (8 * number + wire) % 8 == wire && (8 * number + wire) / 8 == number;
  }

  lemma DelimitedReads(payload: Bytes, rest: Bytes)
    requires Fits(|payload|)
    ensures var body := WriteVarint(|payload|) + payload;
            BodyAt(body + rest, 2) == Some(View(0, Some(payload), |body|))
  {
    var head := WriteVarint(|payload|);
    var t := head + payload + rest;
    assert t == head + (payload + rest);
    ReadWritten(|payload|, VARINT_BYTES, payload + rest);
    assert t[|head|..|head| + |payload|] == payload;
  }

  /** What a field is read back as. */
  function ViewOf(f: Field): View {
    View(f.number, if f.Raw? then Some(f.bytes) else if f.Message? then Some(Write(f.fields)) else None, |WriteField(f)|)
  }

  lemma NumberReads(number: nat, value: nat, rest: Bytes)
    requires Fits(8 * number + 7) && Fits(value)
    ensures var bytes := Tag(number, 0) + WriteVarint(value); FieldAt(bytes + rest) == Some(View(number, None, |bytes|))
  {
    ReadWritten(value, VARINT_BYTES, rest);
    TaggedReads(number, 0, WriteVarint(value), rest, None);
  }

  lemma FixedReads(number: nat, wire: nat, bytes: Bytes, rest: Bytes)
    requires Fits(8 * number + 7) && ((wire == 1 && |bytes| == 8) || (wire == 5 && |bytes| == 4))
    ensures FieldAt(Tag(number, wire) + bytes + rest) == Some(View(number, None, |Tag(number, wire) + bytes|))
  {
    TaggedReads(number, wire, bytes, rest, None);
  }

  lemma PayloadReads(number: nat, payload: Bytes, rest: Bytes)
    requires Fits(8 * number + 7) && Fits(|payload|)
    ensures var bytes := Tag(number, 2) + WriteVarint(|payload|) + payload;
            FieldAt(bytes + rest) == Some(View(number, Some(payload), |bytes|))
  {
    var body := WriteVarint(|payload|) + payload;
    DelimitedReads(payload, rest);
    TaggedReads(number, 2, body, rest, Some(payload));
    assert Tag(number, 2) + WriteVarint(|payload|) + payload == Tag(number, 2) + body;
  }

  lemma FieldReads(f: Field, rest: Bytes, path: Path, depth: nat)
    requires depth < |path| && FieldConforms(f, path, depth)
    ensures FieldAt(WriteField(f) + rest) == Some(ViewOf(f))
  {
    match f
    case Number(number, value) => NumberReads(number, value, rest);
    case Fixed64(number, bytes) => FixedReads(number, 1, bytes, rest);
    case Fixed32(number, bytes) => FixedReads(number, 5, bytes, rest);
    case Raw(number, bytes) => PayloadReads(number, bytes, rest);
    case Message(number, fields) => PayloadReads(number, Write(fields), rest);
  }

  lemma {:induction false} FieldFound(f: Field, path: Path, depth: nat)
    requires depth < |path| && FieldConforms(f, path, depth)
    ensures Found(ViewOf(f).payload, path, depth, f.number) == Some(CountField(f, path, depth))
    decreases f
  {
    if f.Message? && f.number in path[depth] && depth < |path| - 1 { MessageScans(f.fields, path, depth + 1); }
  }

  lemma ScanFirst(bytes: Bytes, rest: Bytes, path: Path, depth: nat, view: View)
    requires depth < |path| && bytes != [] && FieldAt(bytes + rest) == Some(view) && view.size == |bytes|
    ensures Scan(bytes + rest, path, depth) == Plus(Found(view.payload, path, depth, view.number), Scan(rest, path, depth))
  {}

  lemma FirstFieldScans(f: Field, rest: Bytes, path: Path, depth: nat)
    requires depth < |path| && FieldConforms(f, path, depth)
    requires Found(ViewOf(f).payload, path, depth, f.number) == Some(CountField(f, path, depth))
    ensures Scan(WriteField(f) + rest, path, depth) == Plus(Some(CountField(f, path, depth)), Scan(rest, path, depth))
  {
    assert FieldAt(WriteField(f) + rest) == Some(ViewOf(f)) by { FieldReads(f, rest, path, depth); }
    ScanFirst(WriteField(f), rest, path, depth, ViewOf(f));
  }

  lemma CountsAdd(t: Bytes, f: Field, rest: Fields, path: Path, depth: nat)
    requires depth < |path| && t == Write(More(f, rest))
    requires Scan(WriteField(f) + Write(rest), path, depth)
          == Plus(Some(CountField(f, path, depth)), Some(CountFields(rest, path, depth)))
    ensures Scan(t, path, depth) == Some(CountFields(More(f, rest), path, depth))
  {
    hide WriteField;
  }

  lemma {:induction false} MessageScans(fields: Fields, path: Path, depth: nat)
    requires depth < |path| && Conforms(fields, path, depth)
    ensures Scan(Write(fields), path, depth) == Some(CountFields(fields, path, depth))
    decreases fields
  {
    match fields
    case End =>
    case More(f, rest) =>
      FieldFound(f, path, depth);
      MessageScans(rest, path, depth);
      FirstFieldScans(f, Write(rest), path, depth);
      CountsAdd(Write(fields), f, rest, path, depth);
  }

  /** Counting the encoding of a message gives the number of its fields at the end of the path. */
  lemma CountsMessage(fields: Fields, path: Path)
    requires Conforms(fields, path, 0)
    ensures Scan(Write(fields), path, 0) == Some(CountFields(fields, path, 0))
  {
    MessageScans(fields, path, 0);
  }
}
