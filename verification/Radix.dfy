/** Positional notation as Rust prints and parses it: `{:X}`, `{}` and
    `u64::from_str_radix`. */
module Radix {
  import opened Vocabulary

  type Base = b: int | b == 10 || b == 16 witness 10

  const PLUS: u8 := 43

  function DigitChar(d: nat): (c: u8)
    requires d < 16
    ensures c != PLUS
  {
    if d < 10 then (48 + d) as u8 else (55 + d) as u8
  }

  /** `char::to_digit`: both cases of the letters are digits. */
  function DigitValue(c: u8, base: Base): Option<nat> {
    var c := c as int;
    var d := if 48 <= c <= 57 then c - 48
             else if 65 <= c <= 70 then c - 55
             else if 97 <= c <= 102 then c - 87
             else 16;
    if d < base then Some(d) else None
  }

  /** Upper-case digits without leading zeros. */
  function Print(n: nat, base: Base): (t: Text)
    ensures t != [] && t[0] != PLUS
    ensures forall i :: 0 <= i < |t| ==> DigitValue(t[i], base).Some? && (48 <= t[i] <= 57 || 65 <= t[i] <= 70)
    ensures |t| > 1 ==> t[0] != 48
    ensures n > 0 ==> t[0] != 48
  {
    if n < base then [DigitChar(n)]
    else Print(n / base, base) + [DigitChar(n % base)]
  }

  /** The checked multiply-and-add loop of the parser; any overflow or foreign
      character rejects the whole text. */
  function ParseFrom(t: Text, acc: u64, base: Base): Option<u64>
    decreases |t|
  {
    if t == [] then Some(acc)
    else
      var d := DigitValue(t[0], base);
      if d.None? || acc as int * base + d.value > U64_MAX as int then None
      else ParseFrom(t[1..], (acc as int * base + d.value) as u64, base)
  }

  /** `u64::from_str_radix`: one leading `+` is allowed, emptiness is not. */
  function Parse(t: Text, base: Base): Option<u64> {
    var digits := if t != [] && t[0] == PLUS then t[1..] else t;
    if digits == [] then None else ParseFrom(digits, 0, base)
  }

  lemma {:induction false} ParseFromPrint(n: nat, rest: Text, base: Base)
    requires n <= U64_MAX as int
    ensures ParseFrom(Print(n, base) + rest, 0, base) == ParseFrom(rest, n as u64, base)
    decreases n
  {
    var t := Print(n, base) + rest;
    if n < base {
      assert t[1..] == rest;
    } else {
      var last := [DigitChar(n % base)];
      assert t == Print(n / base, base) + (last + rest);
      ParseFromPrint(n / base, last + rest, base);
      assert (last + rest)[1..] == rest;
    }
  }

  /** Every printed 64-bit number parses back to itself. */
  lemma ParsePrint(n: u64, base: Base)
    ensures Parse(Print(n as int, base), base) == Some(n)
  {
    ParseFromPrint(n as int, [], base);
    assert Print(n as int, base) + [] == Print(n as int, base);
  }

  predicate AllDigits(t: Text, base: Base) { forall i :: 0 <= i < |t| ==> DigitValue(t[i], base).Some? }

  /** What digits after the number `acc` make of it, without any limit. */
  function NumberFrom(t: Text, acc: nat, base: Base): (n: nat)
    requires AllDigits(t, base)
    ensures n >= acc
    decreases |t|
  {
    if t == [] then acc
    else
      AtLeast(acc, base);
      NumberFrom(t[1..], acc * base + DigitValue(t[0], base).value, base)
  }

  lemma AtLeast(n: nat, base: Base)
    ensures n * base >= n
  {
  }

  function Number(t: Text, base: Base): nat
    requires AllDigits(t, base)
  {
    NumberFrom(t, 0, base)
  }

  lemma DigitsFollow(t: Text, base: Base)
    requires t != []
    ensures AllDigits(t, base) <==> DigitValue(t[0], base).Some? && AllDigits(t[1..], base)
  {
    if AllDigits(t[1..], base) && DigitValue(t[0], base).Some? {
      forall i | 0 <= i < |t|
        ensures DigitValue(t[i], base).Some?
      {
        assert i > 0 ==> t[i] == t[1..][i - 1];
      }
    }
  }

  /** The checked loop of the parser computes the unlimited number whenever that
      fits, and gives up otherwise, wherever the overflow falls. */
  lemma {:induction false} ParseFromMeans(t: Text, acc: u64, base: Base)
    ensures ParseFrom(t, acc, base) ==
      if AllDigits(t, base) && NumberFrom(t, acc as nat, base) <= U64_MAX as nat
      then Some(NumberFrom(t, acc as nat, base) as u64) else None
    decreases |t|
  {
    if t != [] {
      hide AllDigits, DigitValue;
      DigitsFollow(t, base);
      var d := DigitValue(t[0], base);
      if d.Some? && acc as nat * base + d.value <= U64_MAX as nat {
        ParseFromMeans(t[1..], (acc as nat * base + d.value) as u64, base);
      }
    }
  }

  /** Parsing accepts exactly the non-empty digit texts, with at most one plus
      before them, whose number fits 64 bits, and yields that number. */
  lemma ParseMeans(t: Text, base: Base)
    ensures var digits := if t != [] && t[0] == PLUS then t[1..] else t;
      Parse(t, base) ==
        if digits != [] && AllDigits(digits, base) && Number(digits, base) <= U64_MAX as nat
        then Some(Number(digits, base) as u64) else None
  {
    ParseFromMeans(if t != [] && t[0] == PLUS then t[1..] else t, 0, base);
  }
}
