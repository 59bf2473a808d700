/**
 * Base64 VLQ as the ingester decodes it (packages/otlp-ingester/src/source-map-mappings.ts) and the CLI
 * encodes it (packages/runtime-cli/src/scopes.ts); "Base64 VLQ" in ECMA-426. Text is a sequence of
 * UTF-16 code units; the 32-bit integers of the bitwise operators are written out as arithmetic.
 */
module Vlq {
  import opened Wrappers

  type CodeUnit = c: int | 0 <= c < 0x10000

  type Text = seq<CodeUnit>

  const COMMA: CodeUnit := 44
  const SEMICOLON: CodeUnit := 59
  const TWO_31 := 0x8000_0000
  const TWO_32 := 0x1_0000_0000

  type Digit = d: int | 0 <= d < 64

  /** The value of a base64 character, or -1. */
  function DigitOf(c: CodeUnit): (d: int)
    ensures -1 <= d < 64
    ensures d >= 0 ==> c != COMMA && c != SEMICOLON
  {
    if 65 <= c <= 90 then c - 65
    else if 97 <= c <= 122 then c - 71
    else if 48 <= c <= 57 then c + 4
    else if c == 43 then 62
    else if c == 47 then 63
    else -1
  }

  function CharOf(d: Digit): (c: CodeUnit)
    ensures DigitOf(c) == d
  {
    if d < 26 then d + 65
    else if d < 52 then d + 71
    else if d < 62 then d - 4
    else if d == 62 then 43 else 47
  }

  /** `n << bits`, before it is cut to 32 bits. */
  function Shl(n: nat, bits: nat): nat {
    if bits == 0 then n else 2 * Shl(n, bits - 1)
  }

  predicate IsSeparator(c: CodeUnit) {
    c == COMMA || c == SEMICOLON
  }

  // ---------- decoding ----------

  /** The payload of a digit at a bit position of an unsigned 32-bit number; higher bits are lost. */
  function Placed(d: Digit, shift: nat): nat {
    Shl(d % 32, shift) % TWO_32
  }

  /** The digits of one value from the start of `t`: its raw unsigned value and the text after it. */
  function ReadDigits(t: Text, value: nat, shift: nat): (r: Option<(nat, Text)>)
    ensures r.Some? ==> |r.value.1| < |t|
  {
    if t == [] then None
    else
      var d := DigitOf(t[0]);
      if d < 0 || shift > 30 then None
      else if d >= 32 then ReadDigits(t[1..], value + Placed(d, shift), shift + 5)
      else Some((value + Placed(d, shift), t[1..]))
  }

  /** The lowest bit is the sign. A raw 1 is the program's -0, which is 0 wherever it is used. */
  function Signed(raw: nat): int {
    if raw % 2 == 1 then -(raw / 2) else raw / 2
  }

  function ReadVlq(t: Text): (r: Option<(int, Text)>)
    ensures r.Some? ==> |r.value.1| < |t|
  {
    var r := ReadDigits(t, 0, 0);
    if r.None? then None else Some((Signed(r.value.0), r.value.1))
  }

  /** The values up to the next separator or the end. */
  function ReadGroup(t: Text): (r: Option<(seq<int>, Text)>)
    ensures r.Some? ==> |r.value.1| <= |t|
    ensures r.Some? && t != [] && !IsSeparator(t[0]) ==> |r.value.1| < |t| && r.value.0 != []
    decreases |t|
  {
    if t == [] || IsSeparator(t[0]) then Some(([], t))
    else
      var v := ReadVlq(t);
      if v.None? then None
      else
        var rest := ReadGroup(v.value.1);
        if rest.None? then None else Some(([v.value.0] + rest.value.0, rest.value.1))
  }

  /** A visit: the generated line, the first six values and the number of values. */
  datatype Group = Group(line: nat, values: seq<int>, count: nat)

  function GroupOf(line: nat, values: seq<int>): Group {
    Group(line, if |values| <= 6 then values else values[..6], |values|)
  }

  /** One of a visit's values; only the first `count` of them are ever read. */
  function ValueAt(g: Group, i: nat): int {
    if i < |g.values| then g.values[i] else 0
  }

  function Prepend<T>(head: seq<T>, tail: Result<seq<T>>): Result<seq<T>> {
    if tail.Failure? then Failure else Success(head + tail.value)
  }

  /** Every group of a mappings-style text, or failure on malformed VLQ. */
  function Groups(t: Text, line: nat): Result<seq<Group>>
    decreases |t|
  {
    if t == [] then Success([])
    else if t[0] == SEMICOLON then Groups(t[1..], line + 1)
    else if t[0] == COMMA then Groups(t[1..], line)
    else
      var g := ReadGroup(t);
      if g.None? then Failure else Prepend([GroupOf(line, g.value.0)], Groups(g.value.1, line))
  }

  lemma PrependNone<T>(tail: Result<seq<T>>)
    ensures Prepend([], tail) == tail
  {
    if tail.Success? { assert [] + tail.value == tail.value; }
  }

  lemma {:induction false} PrependAll<T>(a: seq<T>, b: seq<T>, tail: Result<seq<T>>)
    ensures Prepend(a, Prepend(b, tail)) == Prepend(a + b, tail)
  {
    if tail.Success? { assert a + (b + tail.value) == (a + b) + tail.value; }
  }

  /** One value of the text from `start`: its raw value and the index after it. */
  method ReadValue(text: Text, start: nat) returns (r: Option<(nat, nat)>)
    requires start < |text|
    ensures r.None? <==> ReadDigits(text[start..], 0, 0).None?
    ensures r.Some? ==> start < r.value.1 <= |text|
                        && ReadDigits(text[start..], 0, 0) == Some((r.value.0, text[r.value.1..]))
  {
    var value: nat, shift: nat, i := 0, 0, start;
    while true
      invariant start <= i <= |text|
      invariant ReadDigits(text[i..], value, shift) == ReadDigits(text[start..], 0, 0)
      decreases |text| - i
    {
      if i == |text| { return None; }
      var digit := DigitOf(text[i]);
      assert text[i..][1..] == text[i + 1..];
      i := i + 1;
      if digit < 0 || shift > 30 { return None; }
      value := value + Placed(digit, shift);
      shift := shift + 5;
      if digit < 32 { return Some((value, i)); }
    }
  }

  /** The values up to the next separator or the end, and the index they end at. */
  method ReadValues(text: Text, start: nat) returns (r: Option<(seq<int>, nat)>)
    requires start < |text|
    ensures r.None? <==> ReadGroup(text[start..]).None?
    ensures r.Some? ==> start <= r.value.1 <= |text|
                        && ReadGroup(text[start..]) == Some((r.value.0, text[r.value.1..]))
  {
    var values: seq<int>, i := [], start;
    while i < |text| && !IsSeparator(text[i])
      invariant start <= i <= |text|
      invariant ReadOn(values, ReadGroup(text[i..])) == ReadGroup(text[start..])
      decreases |text| - i
    {
      var v := ReadValue(text, i);
      if v.None? { return None; }
      var value := Signed(v.value.0);
      ReadOnStep(values, value, ReadGroup(text[v.value.1..]));
      values := values + [value];
      i := v.value.1;
    }
    assert values + [] == values;
    r := Some((values, i));
  }

  /** The values read so far, before those of the rest of the group. */
  function ReadOn(values: seq<int>, rest: Option<(seq<int>, Text)>): Option<(seq<int>, Text)> {
    if rest.None? then None
    else if values == [] then rest
    else Some((values + rest.value.0, rest.value.1))
  }

  lemma ReadOnStep(values: seq<int>, v: int, rest: Option<(seq<int>, Text)>)
    ensures ReadOn(values + [v], rest) ==
            ReadOn(values, if rest.None? then None else Some(([v] + rest.value.0, rest.value.1)))
  {
    if rest.Some? { assert (values + [v]) + rest.value.0 == values + ([v] + rest.value.0); }
    if values == [] { assert values + [v] == [v]; }
  }

  /** `forEachVlqGroup`: the visits it makes, in order, or the error it throws. */
  method ForEachVlqGroup(text: Text) returns (r: Result<seq<Group>>)
    ensures r == Groups(text, 0)
  {
    var visited: seq<Group>, line: nat, i := [], 0, 0;
    PrependNone(Groups(text, 0));
    assert text[0..] == text;
    while i < |text|
      invariant 0 <= i <= |text|
      invariant Prepend(visited, Groups(text[i..], line)) == Groups(text, 0)
    {
      assert text[i..][1..] == text[i + 1..];
      if text[i] == SEMICOLON {
        line, i := line + 1, i + 1;
      } else if text[i] == COMMA {
        i := i + 1;
      } else {
        var g := ReadValues(text, i);
        if g.None? { return Failure; }
        PrependAll(visited, [GroupOf(line, g.value.0)], Groups(text[g.value.1..], line));
        visited := visited + [GroupOf(line, g.value.0)];
        i := g.value.1;
      }
    }
    assert visited + [] == visited;
    r := Success(visited);
  }

  // ---------- encoding ----------

  /** The 32 bits the encoder shifts out: the magnitude doubled, with the sign in the lowest bit. */
  function Raw(value: int): (raw: nat)
    ensures raw < TWO_32
  {
    if value < 0 then (2 * -value) % TWO_32 + 1 else (2 * value) % TWO_32
  }

  function Digits(rest: nat): (t: Text)
    ensures t != [] && forall i | 0 <= i < |t| :: DigitOf(t[i]) >= 0
  {
    if rest < 32 then [CharOf(rest)] else [CharOf(rest % 32 + 32)] + Digits(rest / 32)
  }

  function Encode(value: int): (t: Text)
    ensures t != [] && forall i | 0 <= i < |t| :: DigitOf(t[i]) >= 0
  {
    Digits(Raw(value))
  }

  lemma DigitsStep(high: nat, low: nat)
    requires low < 32
    ensures (high * 32 + low) % 32 == low && (high * 32 + low) / 32 == high
    ensures high > 0 ==> Digits(high * 32 + low) == [CharOf(low + 32)] + Digits(high)
  {
  }

  /** `vlq`: the digits, least significant first. */
  method EncodeVlq(value: int) returns (out: Text)
    ensures out == Encode(value)
  {
    var rest := Raw(value);
    out := [];
    var digit := rest % 32;
    rest := rest / 32;
    while rest > 0
      invariant rest >= 0 && 0 <= digit < 32
      invariant out + Digits(rest * 32 + digit) == Encode(value)
      decreases rest
    {
      DigitsStep(rest, digit);
      DigitsStep(rest / 32, rest % 32);
      assert (out + [CharOf(digit + 32)]) + Digits(rest) == out + ([CharOf(digit + 32)] + Digits(rest));
      out := out + [CharOf(digit + 32)];
      digit := rest % 32;
      rest := rest / 32;
    }
    out := out + [CharOf(digit)];
  }

  // ---------- round trip ----------

  lemma {:induction false} ShlAdd(a: nat, b: nat, bits: nat)
    ensures Shl(a + b, bits) == Shl(a, bits) + Shl(b, bits)
  {
    if bits > 0 { ShlAdd(a, b, bits - 1); }
  }

  /** Five more bits are a factor of 32. */
  lemma {:induction false} ShlDigit(n: nat, bits: nat)
    ensures Shl(32 * n, bits) == Shl(n, bits + 5)
  {
    if bits > 0 {
      ShlDigit(n, bits - 1);
    } else {
      assert Shl(n, 0) == n;
      assert Shl(n, 1) == 2 * Shl(n, 0);
      assert Shl(n, 2) == 2 * Shl(n, 1);
      assert Shl(n, 3) == 2 * Shl(n, 2);
      assert Shl(n, 4) == 2 * Shl(n, 3);
      assert Shl(n, 5) == 2 * Shl(n, 4);
    }
  }

  lemma Shl30(n: nat)
    ensures Shl(n, 30) == 0x4000_0000 * n
  {
    ShlDigit(n, 25);
    ShlDigit(32 * n, 20);
    ShlDigit(32 * (32 * n), 15);
    ShlDigit(32 * (32 * (32 * n)), 10);
    ShlDigit(32 * (32 * (32 * (32 * n))), 5);
    ShlDigit(32 * (32 * (32 * (32 * (32 * n)))), 0);
  }

  lemma ReadStep(d: Digit, rest: Text, value: nat, shift: nat)
    requires shift <= 30
    ensures var t := [CharOf(d)] + rest;
            ReadDigits(t, value, shift) ==
            if d >= 32 then ReadDigits(rest, value + Placed(d, shift), shift + 5)
            else Some((value + Placed(d, shift), rest))
  {
    assert ([CharOf(d)] + rest)[1..] == rest;
  }

  /** The first digit and the others share out the number, and a further digit leaves room for itself. */
  lemma Shares(rest: nat, shift: nat)
    requires rest >= 32 && Shl(rest, shift) < TWO_32 && shift <= 30
    ensures Placed(rest % 32 + 32, shift) + Shl(rest / 32, shift + 5) == Shl(rest, shift)
    ensures shift < 30
  {
    var low, high := rest % 32, rest / 32;
    assert rest == low + 32 * high;
    ShlAdd(low, 32 * high, shift);
    ShlDigit(high, shift);
    assert (low + 32) % 32 == low;
    Shl30(rest);
  }

  /** Reading the digits of `rest` from digit position `k` on adds `rest` there, as long as 32 bits hold it. */
  lemma {:induction false} ReadEncoded(rest: nat, value: nat, k: nat, tail: Text)
    requires Shl(rest, 5 * k) < TWO_32 && k <= 6
    ensures ReadDigits(Digits(rest) + tail, value, 5 * k) == Some((value + Shl(rest, 5 * k), tail))
    decreases rest
  {
    if rest < 32 {
      ReadLast(rest, value, 5 * k, tail);
    } else {
      var low, high := rest % 32 + 32, rest / 32;
      Shares(rest, 5 * k);
      ReadFirst(rest, low, high, value, 5 * k, tail);
      ReadEncoded(high, value + Placed(low, 5 * k), k + 1, tail);
    }
  }

  lemma ReadLast(rest: nat, value: nat, shift: nat, tail: Text)
    requires rest < 32 && shift <= 30 && Shl(rest, shift) < TWO_32
    ensures ReadDigits(Digits(rest) + tail, value, shift) == Some((value + Shl(rest, shift), tail))
  {
    ReadStep(rest, tail, value, shift);
  }

  lemma ReadFirst(rest: nat, low: Digit, high: nat, value: nat, shift: nat, tail: Text)
    requires rest >= 32 && shift <= 30 && low == rest % 32 + 32 && high == rest / 32
    ensures ReadDigits(Digits(rest) + tail, value, shift) ==
            ReadDigits(Digits(high) + tail, value + Placed(low, shift), shift + 5)
  {
    ReadStep(low, Digits(high) + tail, value, shift);
    assert Digits(rest) + tail == [CharOf(low)] + (Digits(high) + tail);
  }

  /** Decoding an encoded value, with any text after it, gives back its low 31 bits and its sign. */
  lemma DecodeEncode(v: int, tail: Text)
    ensures ReadVlq(Encode(v) + tail) == Some((Signed(Raw(v)), tail))
  {
    ReadEncoded(Raw(v), 0, 0, tail);
  }

  /** The round trip returns the value exactly when its magnitude is below 2^31. */
  lemma VlqRoundTrip(v: int, tail: Text)
    ensures ReadVlq(Encode(v) + tail) == Some((v, tail)) <==> -TWO_31 < v < TWO_31
  {
    DecodeEncode(v, tail);
    SignedRaw(v);
  }

  lemma SignedRaw(v: int)
    ensures Signed(Raw(v)) == v <==> -TWO_31 < v < TWO_31
  {
    DoubleMod(if v < 0 then -v else v);
  }

  lemma DoubleMod(n: nat)
    ensures (2 * n) % TWO_32 == 2 * (n % TWO_31)
  {
    var q, r := n / TWO_31, n % TWO_31;
    assert 2 * n == TWO_32 * q + 2 * r && 0 <= 2 * r < TWO_32;
  }

  /** Encoded values up to a separator or the end are read back as one group. */
  lemma {:induction false} ReadEncodedGroup(values: seq<int>, tail: Text)
    requires forall i | 0 <= i < |values| :: -TWO_31 < values[i] < TWO_31
    requires tail == [] || IsSeparator(tail[0])
    ensures ReadGroup(EncodeAll(values) + tail) == Some((values, tail))
  {
    if values == [] {
      assert EncodeAll(values) + tail == tail;
    } else {
      var rest := EncodeAll(values[1..]) + tail;
      ReadEncodedGroup(values[1..], tail);
      ReadOneMore(values[0], rest);
      assert EncodeAll(values) + tail == Encode(values[0]) + rest;
      assert [values[0]] + values[1..] == values;
    }
  }

  lemma ReadOneMore(v: int, rest: Text)
    requires -TWO_31 < v < TWO_31
    ensures var g := ReadGroup(rest);
            ReadGroup(Encode(v) + rest) == if g.None? then None else Some(([v] + g.value.0, g.value.1))
  {
    VlqRoundTrip(v, rest);
    var t := Encode(v) + rest;
    assert t[0] == Encode(v)[0];
  }

  function EncodeAll(values: seq<int>): Text {
    if values == [] then [] else Encode(values[0]) + EncodeAll(values[1..])
  }

  lemma StartsWithDigit(values: seq<int>, tail: Text)
    requires values != []
    ensures var t := EncodeAll(values) + tail; t != [] && !IsSeparator(t[0])
  {
    assert (EncodeAll(values) + tail)[0] == Encode(values[0])[0];
  }

  /** An encoded group in front of a separator or the end is the next visit. */
  lemma GroupThenRest(values: seq<int>, tail: Text, line: nat)
    requires values != [] && (tail == [] || IsSeparator(tail[0]))
    requires forall i | 0 <= i < |values| :: -TWO_31 < values[i] < TWO_31
    ensures Groups(EncodeAll(values) + tail, line) == Prepend([GroupOf(line, values)], Groups(tail, line))
  {
    ReadEncodedGroup(values, tail);
    StartsWithDigit(values, tail);
  }
}
