/** The hex codec of `src/gdb/packet.rs`. */
module Hex {
  import opened Vocabulary
  import Radix

  /** One lower-case digit, as `{:02x}` prints it. */
  function Digit(n: u8): (c: u8)
    requires n < 16
    ensures Radix.DigitValue(c, 16) == Some(n as nat)
    ensures 48 <= c <= 102 && c != 58
  {
    if n < 10 then 48 + n else 87 + n
  }

  function Encode(bytes: seq<u8>): Text {
    if bytes == [] then []
    else [Digit(bytes[0] / 16), Digit(bytes[0] % 16)] + Encode(bytes[1..])
  }

  function DecodePair(hi: u8, lo: u8): Option<u8> {
    var h, l := Radix.DigitValue(hi, 16), Radix.DigitValue(lo, 16);
    if h.None? || l.None? then None else Some((h.value * 16 + l.value) as u8)
  }

  function Decode(t: Text): Option<seq<u8>> {
    if |t| % 2 == 1 then None
    else if t == [] then Some([])
    else
      var first, rest := DecodePair(t[0], t[1]), Decode(t[2..]);
      if first.None? || rest.None? then None else Some([first.value] + rest.value)
  }

  method EncodeHex(bytes: seq<u8>) returns (out: Text)
    ensures out == Encode(bytes)
  {
    out := [];
    for i := 0 to |bytes|
      invariant Encode(bytes) == out + Encode(bytes[i..])
    {
      out := out + [Digit(bytes[i] / 16), Digit(bytes[i] % 16)];
      assert bytes[i..][1..] == bytes[i + 1..];
    }
  }

  method DecodeHex(s: Text) returns (out: Option<seq<u8>>)
    ensures out == Decode(s)
  {
    if |s| % 2 == 1 {
      return None;
    }
    var bytes: seq<u8> := [];
    var i := 0;
    assert s[0..] == s;
    while i < |s|
      invariant 0 <= i <= |s| && i % 2 == 0
      invariant Decode(s).Some? <==> Decode(s[i..]).Some?
      invariant Decode(s).Some? ==> Decode(s).value == bytes + Decode(s[i..]).value
    {
      var pair := DecodePair(s[i], s[i + 1]);
      assert |s[i..]| % 2 == 0 && s[i..][2..] == s[i + 2..];
      if pair.None? {
        return None;
      }
      bytes := bytes + [pair.value];
      i := i + 2;
    }
    assert Decode(s).value == bytes;
    out := Some(bytes);
  }

  /** Decoding undoes encoding. */
  lemma {:induction false} DecodeEncode(bytes: seq<u8>)
    ensures Decode(Encode(bytes)) == Some(bytes)
    decreases |bytes|
  {
    if bytes != [] {
      DecodeEncode(bytes[1..]);
      EncodedChars(bytes);
      var t := Encode(bytes);
      assert t[2..] == Encode(bytes[1..]) && [bytes[0]] + bytes[1..] == bytes;
      assert (bytes[0] / 16) as int * 16 + (bytes[0] % 16) as int == bytes[0] as int;
    }
  }

  function Lower(t: Text): Text {
    seq(|t|, i requires 0 <= i < |t| => if 65 <= t[i] <= 70 then t[i] + 32 else t[i])
  }

  lemma LowerDigit(hi: u8, lo: u8)
    requires DecodePair(hi, lo).Some?
    ensures var b := DecodePair(hi, lo).value; [Digit(b / 16), Digit(b % 16)] == Lower([hi, lo])
  {
    var h, l := Radix.DigitValue(hi, 16).value, Radix.DigitValue(lo, 16).value;
    var b := DecodePair(hi, lo).value;
    assert b as int / 16 == h && b as int % 16 == l;
    assert (b / 16) as int == h && (b % 16) as int == l;
  }

  /** Encoding what was decoded lower-cases it and changes nothing else. */
  lemma {:induction false} EncodeDecode(t: Text)
    requires Decode(t).Some?
    ensures Encode(Decode(t).value) == Lower(t)
    decreases |t|
  {
    if t != [] {
      EncodeDecode(t[2..]);
      LowerDigit(t[0], t[1]);
      var bytes := Decode(t).value;
      assert bytes[1..] == Decode(t[2..]).value;
      assert Lower(t) == Lower([t[0], t[1]]) + Lower(t[2..]);
    }
  }

  /** Exactly the even-length strings of hex digits decode. */
  lemma {:induction false} DecodesIff(t: Text)
    ensures Decode(t).Some? <==>
      |t| % 2 == 0 && forall i :: 0 <= i < |t| ==> Radix.DigitValue(t[i], 16).Some?
    decreases |t|
  {
    if |t| >= 2 {
      var rest := t[2..];
      DecodesIff(rest);
      assert forall i :: 0 <= i < |rest| ==> rest[i] == t[i + 2];
      if Decode(t).Some? {
        forall i | 0 <= i < |t| ensures Radix.DigitValue(t[i], 16).Some? {
          assert i < 2 || t[i] == rest[i - 2];
        }
      }
    }
  }

  lemma {:induction false} EncodedChars(bytes: seq<u8>)
    ensures |Encode(bytes)| == 2 * |bytes|
    ensures forall i :: 0 <= i < |Encode(bytes)| ==> 48 <= Encode(bytes)[i] <= 102 && Encode(bytes)[i] != 58
    decreases |bytes|
  {
    if bytes != [] {
      EncodedChars(bytes[1..]);
    }
  }
}
