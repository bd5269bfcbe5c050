/** The 81-word register stream: written by `GetAmd64Context`
    (`src/ttd/cpp/ttd_cxx.cpp`), read by `decode_amd64_context`
    (`src/ttd/types.rs`). */
module Context {
  import opened Vocabulary
  import opened LittleEndian

  datatype M128 = M128(low: u64, high: u64)

  /** `XmmSaveArea`. */
  datatype SaveArea = SaveArea(
    controlWord: u16, statusWord: u16, tagWord: u8, errorOpcode: u16,
    errorOffset: u32, errorSelector: u16, dataOffset: u32, dataSelector: u16, mxCsr: u32,
    floats: seq<M128>, xmms: seq<M128>)

  datatype General = General(
    rax: u64, rbx: u64, rcx: u64, rdx: u64, rsi: u64, rdi: u64, rbp: u64, rsp: u64,
    r8: u64, r9: u64, r10: u64, r11: u64, r12: u64, r13: u64, r14: u64, r15: u64, rip: u64)

  datatype Segments = Segments(cs: u16, ds: u16, es: u16, fs: u16, gs: u16, ss: u16)

  /** `TtdX64Regs`. */
  datatype Registers = Registers(general: General, eFlags: u32, segments: Segments, flt: SaveArea)
  {
    /** The float and vector banks are arrays of fixed length. */
    predicate Valid() { |flt.floats| == 8 && |flt.xmms| == 16 }
  }

  // ----- the stream, word by word -----

  function GeneralWords(g: General): (w: seq<u64>)
    ensures |w| == 17
  {
    [g.rax, g.rbx, g.rcx, g.rdx, g.rsi, g.rdi, g.rbp, g.rsp,
     g.r8, g.r9, g.r10, g.r11, g.r12, g.r13, g.r14, g.r15, g.rip]
  }

  function SegmentWords(s: Segments): (w: seq<u64>)
    ensures |w| == 6
  {
    [s.cs as u64, s.ds as u64, s.es as u64, s.fs as u64, s.gs as u64, s.ss as u64]
  }

  /** Low and high halves in turn. */
  function Halves(ms: seq<M128>): (w: seq<u64>)
    ensures |w| == 2 * |ms|
    ensures forall i :: 0 <= i < |ms| ==> w[2 * i] == ms[i].low && w[2 * i + 1] == ms[i].high
  {
    seq(2 * |ms|, k requires 0 <= k < 2 * |ms| => if k % 2 == 0 then ms[k / 2].low else ms[k / 2].high)
  }

  function ControlWords(f: SaveArea): (w: seq<u64>)
    ensures |w| == 9
  {
    [f.controlWord as u64, f.statusWord as u64, f.tagWord as u64, f.errorOpcode as u64, f.errorOffset as u64,
     f.errorSelector as u64, f.dataOffset as u64, f.dataSelector as u64, f.mxCsr as u64]
  }

  function ContextWords(c: Registers): seq<u64> {
    GeneralWords(c.general) + [c.eFlags as u64] + SegmentWords(c.segments)
    + Halves(c.flt.floats) + Halves(c.flt.xmms) + ControlWords(c.flt)
  }

  function Encode(c: Registers): seq<u8> { Stream(ContextWords(c)) }

  // ----- the encoder -----

  method PushAll(out: seq<u8>, words: seq<u64>) returns (r: seq<u8>)
    ensures r == out + Stream(words)
  {
    r := out;
    for i := 0 to |words|
      invariant r == out + Stream(words[..i])
    {
      assert words[..i + 1] == words[..i] + [words[i]];
      StreamSnoc(words[..i], words[i]);
      r := PushU64(r, words[i]);
    }
    assert words[..|words|] == words;
  }

  lemma HalvesSnoc(ms: seq<M128>, m: M128)
    ensures Stream(Halves(ms + [m])) == Stream(Halves(ms)) + Le8(m.low) + Le8(m.high)
  {
    var w := Halves(ms);
    var all := Halves(ms + [m]);
    forall k | 0 <= k < |w|
      ensures all[k] == w[k]
    {
      assert k == 2 * (k / 2) || k == 2 * (k / 2) + 1;
    }
    assert all == w + [m.low] + [m.high];
    StreamSnoc(w, m.low);
    StreamSnoc(w + [m.low], m.high);
  }

  lemma NoHalves(ms: seq<M128>)
    ensures Stream(Halves(ms[..0])) == []
  {
  }

  method PushM128s(out: seq<u8>, ms: seq<M128>) returns (r: seq<u8>)
    ensures r == out + Stream(Halves(ms))
  {
    r := out;
    NoHalves(ms);
    hide Stream, Halves, Le8;
    for i := 0 to |ms|
      invariant r == out + Stream(Halves(ms[..i]))
    {
      ghost var was := Stream(Halves(ms[..i]));
      assert ms[..i + 1] == ms[..i] + [ms[i]];
      HalvesSnoc(ms[..i], ms[i]);
      r := PushU64(r, ms[i].low);
      assert r == out + (was + Le8(ms[i].low));
      r := PushU64(r, ms[i].high);
    }
    assert ms[..|ms|] == ms;
  }

  /** `GetAmd64Context`. */
  method EncodeContext(c: Registers) returns (out: seq<u8>)
    ensures out == Encode(c)
  {
    hide Stream, GeneralWords, SegmentWords, ControlWords, Halves, Le8;
    ghost var w := GeneralWords(c.general);
    out := PushAll([], GeneralWords(c.general));
    out := PushU64(out, c.eFlags as u64);
    StreamSnoc(w, c.eFlags as u64);
    w := w + [c.eFlags as u64];
    out := PushAll(out, SegmentWords(c.segments));
    StreamAppend(w, SegmentWords(c.segments));
    w := w + SegmentWords(c.segments);
    out := PushM128s(out, c.flt.floats);
    StreamAppend(w, Halves(c.flt.floats));
    w := w + Halves(c.flt.floats);
    out := PushM128s(out, c.flt.xmms);
    StreamAppend(w, Halves(c.flt.xmms));
    w := w + Halves(c.flt.xmms);
    out := PushAll(out, ControlWords(c.flt));
    StreamAppend(w, ControlWords(c.flt));
  }

  // ----- the decoder -----

  const WORDS := 81

  predicate Fits8(w: u64) { w < 0x100 }

  predicate Fits16(w: u64) { w < 0x1_0000 }

  predicate Fits32(w: u64) { w < 0x1_0000_0000 }

  predicate NarrowControl(w: seq<u64>)
    requires |w| == WORDS
  {
    && Fits16(w[72]) && Fits16(w[73]) && Fits8(w[74]) && Fits16(w[75]) && Fits32(w[76])
    && Fits16(w[77]) && Fits32(w[78]) && Fits16(w[79]) && Fits32(w[80])
  }

  /** The words that must fit a narrower field, by their place in the stream. */
  predicate Narrow(w: seq<u64>)
    requires |w| == WORDS
  {
    Fits32(w[17]) && (forall i :: 18 <= i < 24 ==> Fits16(w[i])) && NarrowControl(w)
  }

  function Pairs(w: seq<u64>): (ms: seq<M128>)
    requires |w| % 2 == 0
    ensures |ms| == |w| / 2
    ensures forall i :: 0 <= i < |ms| ==> ms[i] == M128(w[2 * i], w[2 * i + 1])
  {
    seq(|w| / 2, i requires 0 <= i < |w| / 2 => M128(w[2 * i], w[2 * i + 1]))
  }

  function FromWords(w: seq<u64>): Registers
    requires |w| == WORDS && Narrow(w)
  {
    Registers(
      General(w[0], w[1], w[2], w[3], w[4], w[5], w[6], w[7],
              w[8], w[9], w[10], w[11], w[12], w[13], w[14], w[15], w[16]),
      w[17] as u32,
      Segments(w[18] as u16, w[19] as u16, w[20] as u16, w[21] as u16, w[22] as u16, w[23] as u16),
      SaveArea(w[72] as u16, w[73] as u16, w[74] as u8, w[75] as u16, w[76] as u32,
               w[77] as u16, w[78] as u32, w[79] as u16, w[80] as u32,
               Pairs(w[24..40]), Pairs(w[40..72])))
  }

  function Decode(bytes: seq<u8>): Option<Registers> {
    if |bytes| != WORDS * 8 then None
    else
      var w := WordsOf(bytes);
      if Narrow(w) then Some(FromWords(w)) else None
  }

  /** The words of a byte stream, one at a time; 0 once they have run out. */
  class WordReader {
    const bytes: seq<u8>
    var at: nat

    constructor (bytes: seq<u8>)
      ensures this.bytes == bytes && at == 0
    {
      this.bytes := bytes;
      at := 0;
    }

    method Next() returns (w: u64)
      requires |bytes| == WORDS * 8 && at < WORDS
      modifies this
      ensures at == old(at) + 1 && w == WordsOf(bytes)[old(at)]
    {
      WordAt(bytes, at);
      w := Word(bytes[8 * at..8 * at + 8]);
      at := at + 1;
    }

    method NextWords(count: nat) returns (words: seq<u64>)
      requires |bytes| == WORDS * 8 && at + count <= WORDS
      modifies this
      ensures at == old(at) + count && words == WordsOf(bytes)[old(at)..at]
    {
      words := [];
      ghost var from := at;
      for i := 0 to count
        invariant at == from + i && words == WordsOf(bytes)[from..at]
      {
        var w := Next();
        words := words + [w];
      }
    }

    method NextM128s(count: nat) returns (ms: seq<M128>)
      requires |bytes| == WORDS * 8 && at + 2 * count <= WORDS
      modifies this
      ensures at == old(at) + 2 * count && ms == Pairs(WordsOf(bytes)[old(at)..at])
    {
      ms := [];
      ghost var from, w := at, WordsOf(bytes);
      for i := 0 to count
        invariant at == from + 2 * i && |ms| == i
        invariant forall k :: 0 <= k < i ==> ms[k] == M128(w[from + 2 * k], w[from + 2 * k + 1])
      {
        var low := Next();
        var high := Next();
        ms := ms + [M128(low, high)];
      }
    }
  }

  lemma SliceAfter(b: seq<u8>, at: nat)
    requires at + 16 <= |b|
    ensures b[8..][at..at + 8] == b[at + 8..at + 16]
  {
  }

  lemma {:induction false} WordAt(b: seq<u8>, i: nat)
    requires |b| % 8 == 0 && 8 * i < |b|
    ensures WordsOf(b)[i] == Word(b[8 * i..8 * i + 8])
    decreases i
  {
    if i > 0 {
      WordAt(b[8..], i - 1);
      SliceAfter(b, 8 * (i - 1));
      assert 8 * (i - 1) + 8 == 8 * i;
    }
  }

  method NextGeneral(reader: WordReader) returns (g: General)
    requires |reader.bytes| == WORDS * 8 && reader.at == 0
    modifies reader
    ensures reader.at == 17
    ensures var w := WordsOf(reader.bytes);
      g == General(w[0], w[1], w[2], w[3], w[4], w[5], w[6], w[7], w[8],
                   w[9], w[10], w[11], w[12], w[13], w[14], w[15], w[16])
  {
    hide WordsOf;
    var w := reader.NextWords(17);
    g := General(w[0], w[1], w[2], w[3], w[4], w[5], w[6], w[7], w[8],
                 w[9], w[10], w[11], w[12], w[13], w[14], w[15], w[16]);
  }

  method NextSegments(reader: WordReader) returns (r: Option<Segments>)
    requires |reader.bytes| == WORDS * 8 && reader.at == 18
    modifies reader
    ensures var w := WordsOf(reader.bytes);
      if forall i :: 18 <= i < 24 ==> Fits16(w[i])
      then
        && reader.at == 24
        && r == Some(Segments(w[18] as u16, w[19] as u16, w[20] as u16, w[21] as u16, w[22] as u16, w[23] as u16))
      else r == None
  {
    hide WordsOf;
    var cs := reader.Next();
    if !Fits16(cs) { return None; }
    var ds := reader.Next();
    if !Fits16(ds) { return None; }
    var es := reader.Next();
    if !Fits16(es) { return None; }
    var fs := reader.Next();
    if !Fits16(fs) { return None; }
    var gs := reader.Next();
    if !Fits16(gs) { return None; }
    var ss := reader.Next();
    if !Fits16(ss) { return None; }
    r := Some(Segments(cs as u16, ds as u16, es as u16, fs as u16, gs as u16, ss as u16));
  }

  method NextControl(reader: WordReader, floats: seq<M128>, xmms: seq<M128>) returns (r: Option<SaveArea>)
    requires |reader.bytes| == WORDS * 8 && reader.at == 72
    modifies reader
    ensures var w := WordsOf(reader.bytes);
      r == if NarrowControl(w)
           then Some(SaveArea(w[72] as u16, w[73] as u16, w[74] as u8, w[75] as u16, w[76] as u32,
                              w[77] as u16, w[78] as u32, w[79] as u16, w[80] as u32, floats, xmms))
           else None
  {
    hide WordsOf;
    var control := reader.Next();
    if !Fits16(control) { return None; }
    var status := reader.Next();
    if !Fits16(status) { return None; }
    var tag := reader.Next();
    if !Fits8(tag) { return None; }
    var opcode := reader.Next();
    if !Fits16(opcode) { return None; }
    var errorOffset := reader.Next();
    if !Fits32(errorOffset) { return None; }
    var errorSelector := reader.Next();
    if !Fits16(errorSelector) { return None; }
    var dataOffset := reader.Next();
    if !Fits32(dataOffset) { return None; }
    var dataSelector := reader.Next();
    if !Fits16(dataSelector) { return None; }
    var mxCsr := reader.Next();
    if !Fits32(mxCsr) { return None; }
    r := Some(SaveArea(control as u16, status as u16, tag as u8, opcode as u16, errorOffset as u32,
                       errorSelector as u16, dataOffset as u32, dataSelector as u16, mxCsr as u32, floats, xmms));
  }

  /** `decode_amd64_context`, in the order it draws words. */
  method DecodeContext(bytes: seq<u8>) returns (r: Option<Registers>)
    ensures r == Decode(bytes)
  {
    if |bytes| != WORDS * 8 {
      return None;
    }
    hide WordsOf, Pairs;
    var reader := new WordReader(bytes);
    var general := NextGeneral(reader);
    var eFlags := reader.Next();
    if !Fits32(eFlags) {
      return None;
    }
    var segments := NextSegments(reader);
    if segments.None? {
      return None;
    }
    var floats := reader.NextM128s(8);
    var xmms := reader.NextM128s(16);
    var flt := NextControl(reader, floats, xmms);
    if flt.None? {
      return None;
    }
    r := Some(Registers(general, eFlags as u32, segments.value, flt.value));
  }

  // ----- round trips -----

  lemma WordPlaces(c: Registers)
    requires c.Valid()
    ensures var w := ContextWords(c);
      && |w| == WORDS && w[..17] == GeneralWords(c.general) && w[17] == c.eFlags as u64
      && w[18..24] == SegmentWords(c.segments)
      && w[24..40] == Halves(c.flt.floats) && w[40..72] == Halves(c.flt.xmms) && w[72..81] == ControlWords(c.flt)
  {
  }

  lemma PairsOfHalves(ms: seq<M128>)
    ensures Pairs(Halves(ms)) == ms
  {
  }

  lemma HalvesOfPairs(w: seq<u64>)
    requires |w| % 2 == 0
    ensures Halves(Pairs(w)) == w
  {
    hide Halves, Pairs;
    var ms := Pairs(w);
    var h := Halves(ms);
    forall k | 0 <= k < |w|
      ensures h[k] == w[k]
    {
      var i := k / 2;
      assert ms[i] == M128(w[2 * i], w[2 * i + 1]) && h[2 * i] == ms[i].low && h[2 * i + 1] == ms[i].high;
      assert k == 2 * i || k == 2 * i + 1;
    }
  }

  lemma FromWordsOfContext(c: Registers)
    requires c.Valid()
    ensures var w := ContextWords(c); |w| == WORDS && Narrow(w) && FromWords(w) == c
  {
    var w := ContextWords(c);
    WordPlaces(c);
    PairsOfHalves(c.flt.floats);
    PairsOfHalves(c.flt.xmms);
    var g, s, k := w[..17], w[18..24], w[72..81];
    assert forall i :: 0 <= i < 17 ==> w[i] == g[i];
    assert forall i :: 0 <= i < 6 ==> w[18 + i] == s[i];
    assert forall i :: 0 <= i < 9 ==> w[72 + i] == k[i];
  }

  /** Every context survives the stream. */
  lemma DecodeEncode(c: Registers)
    requires c.Valid()
    ensures Decode(Encode(c)) == Some(c)
  {
    hide FromWords, Narrow, ContextWords;
    FromWordsOfContext(c);
    WordsOfStream(ContextWords(c));
  }

  lemma SamePieces(v: seq<u64>, w: seq<u64>)
    requires |v| == |w| == WORDS && v[..17] == w[..17] && v[17] == w[17] && v[18..24] == w[18..24]
    requires v[24..40] == w[24..40] && v[40..72] == w[40..72] && v[72..81] == w[72..81]
    ensures v == w
  {
    forall k | 0 <= k < WORDS
      ensures v[k] == w[k]
    {
      assert k < 17 ==> v[k] == v[..17][k];
      assert 18 <= k < 24 ==> v[k] == v[18..24][k - 18];
      assert 24 <= k < 40 ==> v[k] == v[24..40][k - 24];
      assert 40 <= k < 72 ==> v[k] == v[40..72][k - 40];
      assert 72 <= k ==> v[k] == v[72..81][k - 72];
    }
  }

  lemma WordsOfFromWords(w: seq<u64>)
    requires |w| == WORDS && Narrow(w)
    ensures FromWords(w).Valid() && ContextWords(FromWords(w)) == w
  {
    var c := FromWords(w);
    HalvesOfPairs(w[24..40]);
    HalvesOfPairs(w[40..72]);
    WordPlaces(c);
    assert GeneralWords(c.general) == w[..17];
    assert SegmentWords(c.segments) == w[18..24];
    assert ControlWords(c.flt) == w[72..81];
    hide ContextWords, GeneralWords, SegmentWords, ControlWords, Halves, Pairs;
    SamePieces(ContextWords(c), w);
  }

  /** Every accepted stream is reproduced byte for byte. */
  lemma EncodeDecode(bytes: seq<u8>)
    requires Decode(bytes).Some?
    ensures Decode(bytes).value.Valid() && Encode(Decode(bytes).value) == bytes
  {
    WordsOfFromWords(WordsOf(bytes));
    StreamOfWords(bytes);
  }

  /** The decoder accepts the encodings of contexts and nothing else. */
  lemma AcceptsExactlyEncodings(bytes: seq<u8>)
    ensures Decode(bytes).Some? <==> exists c: Registers :: c.Valid() && Encode(c) == bytes
  {
    if Decode(bytes).Some? {
      EncodeDecode(bytes);
    }
    if exists c: Registers :: c.Valid() && Encode(c) == bytes {
      var c: Registers :| c.Valid() && Encode(c) == bytes;
      DecodeEncode(c);
    }
  }
}
