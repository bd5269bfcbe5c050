/** Little-endian words: `to_le_bytes`, `from_le_bytes` and streams of 64-bit
    words. */
module LittleEndian {
  import opened Vocabulary

  function Pow256(k: nat): (r: nat)
    ensures r > 0
  {
    if k == 0 then 1 else 256 * Pow256(k - 1)
  }

  lemma Pow256Values()
    ensures Pow256(1) == 0x100 && Pow256(2) == 0x1_0000 && Pow256(4) == 0x1_0000_0000
    ensures Pow256(8) == 0x1_0000_0000_0000_0000
  {
    assert Pow256(2) == 256 * Pow256(1) && Pow256(3) == 256 * Pow256(2) && Pow256(4) == 256 * Pow256(3);
    assert Pow256(5) == 256 * Pow256(4) && Pow256(6) == 256 * Pow256(5) && Pow256(7) == 256 * Pow256(6);
    assert Pow256(8) == 256 * Pow256(7);
  }

  /** The low `width` bytes of `n`, least significant first. */
  function Bytes(n: nat, width: nat): (b: seq<u8>)
    ensures |b| == width
  {
    if width == 0 then [] else [(n % 256) as u8] + Bytes(n / 256, width - 1)
  }

  function Value(b: seq<u8>): (n: nat)
    ensures n < Pow256(|b|)
  {
    if b == [] then 0 else b[0] as nat + 256 * Value(b[1..])
  }

  lemma {:induction false} ValueOfBytes(n: nat, width: nat)
    requires n < Pow256(width)
    ensures Value(Bytes(n, width)) == n
    decreases width
  {
    if width > 0 {
      ValueOfBytes(n / 256, width - 1);
      assert Bytes(n, width)[1..] == Bytes(n / 256, width - 1);
    }
  }

  lemma {:induction false} BytesOfValue(b: seq<u8>)
    ensures Bytes(Value(b), |b|) == b
    decreases |b|
  {
    if b != [] {
      BytesOfValue(b[1..]);
      var n := Value(b);
      assert n % 256 == b[0] as nat && n / 256 == Value(b[1..]);
      assert b == [b[0]] + b[1..];
    }
  }

  /** A narrower encoding is a prefix of a wider one. */
  lemma {:induction false} NarrowIsPrefix(n: nat, narrow: nat, wide: nat)
    requires narrow <= wide
    ensures Bytes(n, wide)[..narrow] == Bytes(n, narrow)
    decreases narrow
  {
    if narrow > 0 {
      NarrowIsPrefix(n / 256, narrow - 1, wide - 1);
      assert Bytes(n, wide)[..narrow] == [(n % 256) as u8] + Bytes(n / 256, wide - 1)[..narrow - 1];
    }
  }

  // ----- streams of 64-bit words -----

  function Le8(v: u64): (b: seq<u8>)
    ensures |b| == 8
  {
    Bytes(v as nat, 8)
  }

  function Word(b: seq<u8>): u64
    requires |b| == 8
  {
    Pow256Values();
    Value(b) as u64
  }

  lemma WordOfLe8(v: u64)
    ensures Word(Le8(v)) == v
  {
    Pow256Values();
    ValueOfBytes(v as nat, 8);
  }

  lemma Le8OfWord(b: seq<u8>)
    requires |b| == 8
    ensures Le8(Word(b)) == b
  {
    BytesOfValue(b);
  }

  function Stream(words: seq<u64>): (b: seq<u8>)
    ensures |b| == 8 * |words|
  {
    if words == [] then [] else Le8(words[0]) + Stream(words[1..])
  }

  /** The whole words of a stream, as `chunks(8)` cuts them. */
  function WordsOf(b: seq<u8>): (words: seq<u64>)
    requires |b| % 8 == 0
    ensures |words| == |b| / 8
  {
    if b == [] then [] else [Word(b[..8])] + WordsOf(b[8..])
  }

  lemma {:induction false} WordsOfStream(words: seq<u64>)
    ensures WordsOf(Stream(words)) == words
    decreases |words|
  {
    if words != [] {
      var b := Stream(words);
      assert b[..8] == Le8(words[0]) && b[8..] == Stream(words[1..]);
      WordOfLe8(words[0]);
      WordsOfStream(words[1..]);
    }
  }

  lemma {:induction false} StreamOfWords(b: seq<u8>)
    requires |b| % 8 == 0
    ensures Stream(WordsOf(b)) == b
    decreases |b|
  {
    if b != [] {
      Le8OfWord(b[..8]);
      StreamOfWords(b[8..]);
      assert WordsOf(b)[1..] == WordsOf(b[8..]);
      assert b == b[..8] + b[8..];
    }
  }

  lemma {:induction false} StreamAppend(a: seq<u64>, b: seq<u64>)
    ensures Stream(a + b) == Stream(a) + Stream(b)
    decreases |a|
  {
    if a == [] {
      assert a + b == b;
    } else {
      assert (a + b)[1..] == a[1..] + b;
      StreamAppend(a[1..], b);
    }
  }

  lemma StreamSnoc(a: seq<u64>, v: u64)
    ensures Stream(a + [v]) == Stream(a) + Le8(v)
  {
    StreamAppend(a, [v]);
    assert Stream([v]) == Le8(v) + Stream([]);
  }

  /** Where word `i` sits in the stream. */
  lemma {:induction false} WordInStream(words: seq<u64>, i: nat)
    requires i < |words|
    ensures Stream(words)[8 * i..8 * i + 8] == Le8(words[i])
    decreases i
  {
    var b := Stream(words);
    if i > 0 {
      WordInStream(words[1..], i - 1);
      var rest := Stream(words[1..]);
      assert b[8..] == rest;
      assert b[8 * i..8 * i + 8] == rest[8 * (i - 1)..8 * (i - 1) + 8];
    }
  }

  /** The C++ `push_u64`: eight shifted bytes appended. */
  method PushU64(out: seq<u8>, value: u64) returns (r: seq<u8>)
    ensures r == out + Le8(value)
  {
    r := out;
    var rest := value;
    for k := 0 to 8
      invariant out + Le8(value) == r + Bytes(rest as nat, 8 - k)
    {
      var low := (rest % 256) as u8;
      assert Bytes(rest as nat, 8 - k) == [low] + Bytes((rest / 256) as nat, 7 - k);
      r := r + [low];
      rest := rest / 256;
    }
  }
}
