/**
 * What a mappings-style text means, stated without the decoder: its alphabet, the value of a run of digits, and how
 * separators divide the text ("Base64 VLQ" in ECMA-426; packages/otlp-ingester/src/source-map-mappings.ts).
 */
module VlqMeaning {
  import opened Wrappers
  import opened Vlq

  /** The digits are the 64 characters of base64, in their order, and no other character is one. */
  lemma DigitsAreBase64(k: nat, c: CodeUnit)
    ensures k < 26 ==> DigitOf('A' as int + k) == k && DigitOf('a' as int + k) == 26 + k
    ensures k < 10 ==> DigitOf('0' as int + k) == 52 + k
    ensures DigitOf('+' as int) == 62 && DigitOf('/' as int) == 63
    ensures c < '0' as int && c != '+' as int && c != '/' as int ==> DigitOf(c) == -1
    ensures '9' as int < c < 'A' as int || 'Z' as int < c < 'a' as int || 'z' as int < c ==> DigitOf(c) == -1
  {}

  // ---------- one value ----------

  function Power32(n: nat): (p: nat)
    ensures p >= 1
  {
    if n == 0 then 1 else 32 * Power32(n - 1)
  }

  /** The number whose base-32 digits, least significant first, are the payloads of the first `n` characters. */
  function Number(t: Text, n: nat): int
    requires n <= |t|
  {
    if n == 0 then 0 else Number(t, n - 1) + DigitOf(t[n - 1]) % 32 * Power32(n - 1)
  }

  /** A value takes `n` characters: all but the last continue, and there are at most seven. */
  predicate ValueEndsAt(t: Text, n: nat) {
    && 1 <= n <= 7 && n <= |t|
    && (forall i | 0 <= i < n - 1 :: DigitOf(t[i]) >= 32) && 0 <= DigitOf(t[n - 1]) < 32
  }

  lemma {:induction false} ShlIsPower(d: nat, k: nat)
    ensures Shl(d, 5 * k) == d * Power32(k)
    decreases k
  {
    if k > 0 {
      ShlDigit(d, 5 * (k - 1));
      ShlIsPower(32 * d, k - 1);
      assert (32 * d) * Power32(k - 1) == d * (32 * Power32(k - 1));
    }
  }

  lemma SmallPowers()
    ensures Power32(0) == 1 && Power32(1) == 32 && Power32(2) == 1024 && Power32(3) == 32768
    ensures Power32(4) == 1048576 && Power32(5) == 33554432 && Power32(6) == 1073741824
  {
    assert Power32(1) == 32 * Power32(0);
    assert Power32(2) == 32 * Power32(1);
    assert Power32(3) == 32 * Power32(2);
    assert Power32(4) == 32 * Power32(3);
    assert Power32(5) == 32 * Power32(4);
  }

  lemma BelowNextPower(low: nat, d: nat, p: nat)
    requires low < p && d < 32
    ensures 0 <= d * p && low + d * p < 32 * p
  {
    assert (d + 1) * p == d * p + p;
    assert (31 - d) * p >= 0;
    assert 32 * p == (d + 1) * p + (31 - d) * p;
  }

  /** The first payloads stay below the next power. */
  lemma {:induction false} NumberBound(t: Text, n: nat)
    requires n <= |t|
    ensures 0 <= Number(t, n) < Power32(n)
  {
    if n > 0 {
      NumberBound(t, n - 1);
      BelowNextPower(Number(t, n - 1), DigitOf(t[n - 1]) % 32, Power32(n - 1));
    }
  }

  lemma {:induction false} DigitsFrom(t: Text, k: nat, n: nat)
    requires ValueEndsAt(t, n) && k < n && Number(t, k) >= 0
    ensures ReadDigits(t[k..], Number(t, k), 5 * k) == Some((Number(t, n) % TWO_32, t[n..]))
    decreases n - k
  {
    var d := DigitOf(t[k]);
    assert t[k..][0] == t[k] && t[k..][1..] == t[k + 1..];
    ShlIsPower(d % 32, k);
    SmallPowers();
    NumberBound(t, k);
    PlacedAdds(t, k, n);
    NumberBound(t, k + 1);
    if k < n - 1 { DigitsFrom(t, k + 1, n); }
  }

  /** Adding a payload below position 6 changes no bit above 32; there, the bits above are lost. */
  lemma PlacedAdds(t: Text, k: nat, n: nat)
    requires ValueEndsAt(t, n) && k < n
    ensures var d := DigitOf(t[k]);
            Number(t, k) + Placed(d, 5 * k) == if k < n - 1 then Number(t, k + 1) else Number(t, n) % TWO_32
  {
    var d := DigitOf(t[k]);
    SmallPowers();
    ShlIsPower(d % 32, k);
    NumberBound(t, k);
    assert Number(t, k + 1) == Number(t, k) + d % 32 * Power32(k);
    if k < 6 {
      NumberBound(t, k + 1);
    } else {
      TopDigit(Number(t, 6), d % 32);
    }
  }

  lemma TopDigit(low: nat, d: nat)
    requires low < 0x4000_0000 && d < 32
    ensures low + (d * 0x4000_0000) % TWO_32 == (low + d * 0x4000_0000) % TWO_32
  {
    assert d == 4 * (d / 4) + d % 4;
    assert d * 0x4000_0000 == (d / 4) * TWO_32 + (d % 4) * 0x4000_0000;
  }

  predicate EndsFrom(t: Text, k: nat, n: nat) {
    && 1 <= n <= 7 - k && n <= |t|
    && (forall i | 0 <= i < n - 1 :: DigitOf(t[i]) >= 32) && 0 <= DigitOf(t[n - 1]) < 32
  }

  lemma {:induction false} ReadEnds(t: Text, value: nat, k: nat) returns (n: nat)
    requires k <= 7 && ReadDigits(t, value, 5 * k).Some?
    ensures EndsFrom(t, k, n)
    decreases |t|
  {
    var d := DigitOf(t[0]);
    n := 1;
    if d >= 32 {
      var m := ReadEnds(t[1..], value + Placed(d, 5 * k), k + 1);
      n := m + 1;
      forall i | 0 <= i < m ensures DigitOf(t[i]) >= 32 { if i > 0 { assert t[i] == t[1..][i - 1]; } }
      assert t[m] == t[1..][m - 1];
    }
  }

  /**
   * A value is read exactly when the text starts with one, at most seven characters long. The number its digits form
   * is cut to 32 bits; its lowest bit is the sign and the others are the magnitude.
   */
  lemma ValueMeans(t: Text, n: nat)
    ensures ReadVlq(t).Some? <==> exists k: nat :: ValueEndsAt(t, k)
    ensures ValueEndsAt(t, n) ==>
              var raw := Number(t, n) % TWO_32;
              ReadVlq(t) == Some((if raw % 2 == 0 then raw / 2 else -(raw / 2), t[n..]))
  {
    assert t[0..] == t;
    if ReadVlq(t).Some? {
      var k := ReadEnds(t, 0, 0);
      assert ValueEndsAt(t, k);
    }
    if k: nat :| ValueEndsAt(t, k) { DigitsFrom(t, 0, k); }
    if ValueEndsAt(t, n) { DigitsFrom(t, 0, n); }
  }

  lemma ValueLength(t: Text) returns (n: nat)
    requires ReadVlq(t).Some?
    ensures ValueEndsAt(t, n) && ReadVlq(t).value.1 == t[n..]
  {
    ValueMeans(t, 0);
    n :| ValueEndsAt(t, n);
    ValueMeans(t, n);
  }

  // ---------- groups ----------

  predicate NoSeparator(t: Text) {
    forall i | 0 <= i < |t| :: t[i] != COMMA && t[i] != SEMICOLON
  }

  /** The values of a piece without separators, read one after the other. */
  function ValuesOf(t: Text): Option<seq<int>>
    decreases |t|
  {
    if t == [] then Some([])
    else
      var v := ReadVlq(t);
      if v.None? then None
      else
        var rest := ValuesOf(v.value.1);
        if rest.None? then None else Some([v.value.0] + rest.value)
  }

  lemma {:induction false} PieceValues(t: Text)
    requires NoSeparator(t)
    ensures ReadGroup(t) == if ValuesOf(t).None? then None else Some((ValuesOf(t).value, []))
    decreases |t|
  {
    if t != [] {
      var v := ReadVlq(t);
      if v.Some? {
        var n := ValueLength(t);
        PieceValues(v.value.1);
      }
    }
  }

  lemma ReadVlqThen(t: Text, c: CodeUnit, rest: Text)
    requires IsSeparator(c)
    ensures var v := ReadVlq(t);
            ReadVlq(t + [c] + rest) == if v.None? then None else Some((v.value.0, v.value.1 + [c] + rest))
  {
    var longer := t + [c] + rest;
    assert longer[|t|] == c && DigitOf(c) == -1;
    if ReadVlq(longer).Some? {
      var n := ValueLength(longer);
      ValueBefore(t, longer, n);
      assert longer[n..] == t[n..] + [c] + rest;
    } else if ReadVlq(t).Some? {
      var n := ValueLength(t);
      assert ValueEndsAt(longer, n);
      ValueMeans(longer, n);
    }
  }

  lemma ValueBefore(t: Text, longer: Text, n: nat)
    requires t <= longer && ValueEndsAt(longer, n) && |t| < |longer| && DigitOf(longer[|t|]) == -1
    ensures ValueEndsAt(t, n) && ReadVlq(t).Some? && ReadVlq(longer).Some?
    ensures ReadVlq(t).value.0 == ReadVlq(longer).value.0 && ReadVlq(t).value.1 == t[n..]
  {
    assert n <= |t|;
    forall i | 0 <= i < n ensures t[i] == longer[i] {}
    SameNumber(t, longer, n);
    ValueMeans(t, n);
    ValueMeans(longer, n);
  }

  lemma {:induction false} SameNumber(a: Text, b: Text, n: nat)
    requires n <= |a| && n <= |b| && forall i | 0 <= i < n :: a[i] == b[i]
    ensures Number(a, n) == Number(b, n)
  {
    if n > 0 { SameNumber(a, b, n - 1); }
  }

  lemma {:induction false} ReadGroupThen(t: Text, c: CodeUnit, rest: Text)
    requires IsSeparator(c)
    ensures var g := ReadGroup(t);
            ReadGroup(t + [c] + rest) == if g.None? then None else Some((g.value.0, g.value.1 + [c] + rest))
    decreases |t|
  {
    var longer := t + [c] + rest;
    if t == [] {
      assert longer[0] == c && longer == [] + [c] + rest;
    } else if !IsSeparator(t[0]) {
      assert longer[0] == t[0];
      ReadVlqThen(t, c, rest);
      if ReadVlq(t).Some? { ReadGroupThen(ReadVlq(t).value.1, c, rest); }
    }
  }

  function Semicolons(t: Text): nat {
    if t == [] then 0 else (if t[0] == SEMICOLON then 1 else 0) + Semicolons(t[1..])
  }

  lemma {:induction false} SemicolonsAppend(a: Text, b: Text)
    ensures Semicolons(a + b) == Semicolons(a) + Semicolons(b)
  {
    if a == [] {
      assert a + b == b;
    } else {
      assert (a + b)[1..] == a[1..] + b;
      SemicolonsAppend(a[1..], b);
    }
  }

  function Joined(a: Result<seq<Group>>, b: Result<seq<Group>>): Result<seq<Group>> {
    if a.Failure? || b.Failure? then Failure else Success(a.value + b.value)
  }

  lemma JoinedPrepend(head: seq<Group>, a: Result<seq<Group>>, b: Result<seq<Group>>)
    ensures Joined(Prepend(head, a), b) == Prepend(head, Joined(a, b))
  {
    if a.Success? && b.Success? { assert (head + a.value) + b.value == head + (a.value + b.value); }
  }

  /** The rest of a group is what follows its characters, none of them a separator. */
  lemma {:induction false} GroupLength(t: Text) returns (n: nat)
    requires ReadGroup(t).Some?
    ensures n <= |t| && ReadGroup(t).value.1 == t[n..] && NoSeparator(t[..n])
    decreases |t|
  {
    n := 0;
    if t != [] && !IsSeparator(t[0]) {
      var k := ValueLength(t);
      ValueIsPlain(t, k);
      hide NoSeparator, ValueEndsAt;
      var m := GroupLength(t[k..]);
      n := k + m;
      PlainThenPlain(t, k, m);
    }
  }

  lemma ValueIsPlain(t: Text, k: nat)
    requires ValueEndsAt(t, k)
    ensures NoSeparator(t[..k])
  {}

  lemma PlainThenPlain(t: Text, k: nat, m: nat)
    requires k <= |t| && m <= |t[k..]| && NoSeparator(t[..k]) && NoSeparator(t[k..][..m])
    ensures NoSeparator(t[..k + m]) && t[k..][m..] == t[k + m..]
  {
    assert t[..k + m] == t[..k] + t[k..][..m];
  }

  /** A separator divides the text: what is on either side is read on its own, and a `;` starts the next line. */
  lemma {:induction false} GroupsSplit(a: Text, c: CodeUnit, b: Text, line: nat)
    requires IsSeparator(c)
    ensures Groups(a + [c] + b, line)
         == Joined(Groups(a, line), Groups(b, line + Semicolons(a) + (if c == SEMICOLON then 1 else 0)))
    decreases |a|
  {
    var t := a + [c] + b;
    if a == [] {
      assert t[0] == c && t[1..] == b;
      var r := Groups(b, line + (if c == SEMICOLON then 1 else 0));
      assert r.Success? ==> [] + r.value == r.value;
    } else if IsSeparator(a[0]) {
      assert t[0] == a[0] && t[1..] == a[1..] + [c] + b;
      GroupsSplit(a[1..], c, b, if a[0] == SEMICOLON then line + 1 else line);
    } else {
      assert t[0] == a[0];
      ReadGroupThen(a, c, b);
      FirstGroup(a, line);
      FirstGroup(t, line);
      hide Groups, ReadGroup;
      if ReadGroup(a).Some? {
        var n := GroupLength(a);
        GroupsSplit(a[n..], c, b, line);
        SameSemicolons(a, n);
        JoinedPrepend([GroupOf(line, ReadGroup(a).value.0)], Groups(a[n..], line),
                      Groups(b, line + Semicolons(a) + (if c == SEMICOLON then 1 else 0)));
      }
    }
  }

  lemma FirstGroup(t: Text, line: nat)
    requires t != [] && !IsSeparator(t[0])
    ensures var g := ReadGroup(t);
            Groups(t, line) == if g.None? then Failure else Prepend([GroupOf(line, g.value.0)], Groups(g.value.1, line))
  {}

  lemma SameSemicolons(a: Text, n: nat)
    requires n <= |a| && NoSeparator(a[..n])
    ensures Semicolons(a) == Semicolons(a[n..])
  {
    assert a == a[..n] + a[n..];
    SemicolonsAppend(a[..n], a[n..]);
    NoSemicolons(a[..n]);
  }

  lemma {:induction false} NoSemicolons(t: Text)
    requires NoSeparator(t)
    ensures Semicolons(t) == 0
  {
    if t != [] { NoSemicolons(t[1..]); }
  }

  /** What is between two separators is no group when it is empty, and else one group of its values, six kept. */
  lemma PieceIsOneGroup(t: Text, line: nat)
    requires NoSeparator(t)
    ensures Groups(t, line) ==
            if t == [] then Success([])
            else if ValuesOf(t).None? then Failure
            else
              var values := ValuesOf(t).value;
              Success([Group(line, if |values| > 6 then values[..6] else values, |values|)])
  {
    PieceValues(t);
    if t != [] && ValuesOf(t).Some? {
      var g := GroupOf(line, ValuesOf(t).value);
      assert [g] + [] == [g];
    }
  }
}
