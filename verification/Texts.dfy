/** `split`, `join`, `startsWith` and `indexOf` of JavaScript strings, as functions on their UTF-16 code units. */
module Texts {
  import opened Vlq

  function Join(lines: seq<Text>, separator: CodeUnit): Text {
    if lines == [] then []
    else if |lines| == 1 then lines[0]
    else lines[0] + [separator] + Join(lines[1..], separator)
  }

  function Split(t: Text, separator: CodeUnit): (r: seq<Text>)
    ensures r != [] && Join(r, separator) == t
    ensures forall i | 0 <= i < |r| :: separator !in r[i]
  {
    if t == [] then [[]]
    else
      var rest := Split(t[1..], separator);
      if t[0] == separator then [[]] + rest else [[t[0]] + rest[0]] + rest[1..]
  }

  predicate StartsAt(code: Text, what: Text, i: nat) {
    i + |what| <= |code| && code[i..i + |what|] == what
  }

  /** `indexOf`: the first index at or after `from`, or -1. */
  function IndexOf(code: Text, what: Text, from: nat): (r: int)
    ensures r >= 0 ==> from <= r && StartsAt(code, what, r)
    ensures r >= 0 ==> forall i | from <= i < r :: !StartsAt(code, what, i)
    ensures r < 0 ==> r == -1 && forall i: nat | from <= i :: !StartsAt(code, what, i)
    decreases |code| - from
  {
    if from + |what| > |code| then -1 else if StartsAt(code, what, from) then from else IndexOf(code, what, from + 1)
  }

  lemma {:induction false} SplitOne(t: Text, separator: CodeUnit)
    requires separator !in t
    ensures Split(t, separator) == [t]
  {
    if t != [] {
      SplitOne(t[1..], separator);
      assert [t[0]] + t[1..] == t;
    }
  }

  /** Splitting a text at one of its separators splits both sides. */
  lemma {:induction false} SplitAppend(a: Text, b: Text, separator: CodeUnit)
    ensures Split(a + [separator] + b, separator) == Split(a, separator) + Split(b, separator)
  {
    var whole := a + [separator] + b;
    if a == [] {
      assert whole[1..] == b;
    } else {
      assert whole[1..] == a[1..] + [separator] + b;
      SplitAppend(a[1..], b, separator);
    }
  }

  lemma {:induction false} SplitJoin(lines: seq<Text>, separator: CodeUnit)
    requires lines != [] && forall i | 0 <= i < |lines| :: separator !in lines[i]
    ensures Split(Join(lines, separator), separator) == lines
  {
    SplitOne(lines[0], separator);
    if |lines| > 1 {
      SplitJoin(lines[1..], separator);
      SplitAppend(lines[0], Join(lines[1..], separator), separator);
    }
  }
}
