/** GDB's register file and the `p` packet (`src/gdb/regs.rs`). */
module Regs {
  import opened Vocabulary
  import opened LittleEndian
  import opened Context

  datatype SegmentId = CS | SS | DS | ES | FS | GS

  datatype FpuId = Fctrl | Fstat | Ftag | Fiseg | Fioff | Foseg | Fooff | Fop

  datatype RegId =
    | Gpr(i: nat)
    | Rip
    | Eflags
    | Segment(s: SegmentId)
    | St(i: nat)
    | Fpu(f: FpuId)
    | Xmm(i: nat)
    | Mxcsr
    | FsBase
    | GsBase
  {
    /** Only these ids can come from a packet. */
    predicate Valid() {
      (Gpr? ==> i < 16) && (St? ==> i < 8) && (Xmm? ==> i < 16)
    }
  }

  datatype GdbSegments = GdbSegments(cs: u32, ss: u32, ds: u32, es: u32, fs: u32, gs: u32)

  datatype GdbFpu = GdbFpu(fctrl: u32, fstat: u32, ftag: u32, fiseg: u32, fioff: u32, foseg: u32, fooff: u32, fop: u32)

  newtype u128 = x: int | 0 <= x < 0x1_0000_0000_0000_0000_0000_0000_0000_0000

  /** `TtdRegisters`: GDB's order and widths. */
  datatype GdbRegisters = GdbRegisters(
    regs: seq<u64>, eflags: u32, rip: u64, segments: GdbSegments, st: seq<seq<u8>>, fpu: GdbFpu,
    xmm: seq<u128>, mxcsr: u32, fsBase: u64, gsBase: u64)
  {
    predicate Valid() {
      |regs| == 16 && |st| == 8 && |xmm| == 16 && forall i :: 0 <= i < 8 ==> |st[i]| == 10
    }
  }

  function StBytes(m: M128): (b: seq<u8>)
    ensures |b| == 10
  {
    Le8(m.low) + Le8(m.high)[..2]
  }

  lemma Pow256Sixteen()
    ensures Pow256(16) == 0x1_0000_0000_0000_0000_0000_0000_0000_0000
  {
    Pow256Values();
    assert Pow256(9) == 256 * Pow256(8) && Pow256(10) == 256 * Pow256(9) && Pow256(11) == 256 * Pow256(10);
    assert Pow256(12) == 256 * Pow256(11) && Pow256(13) == 256 * Pow256(12) && Pow256(14) == 256 * Pow256(13);
    assert Pow256(15) == 256 * Pow256(14) && Pow256(16) == 256 * Pow256(15);
  }

  /** Both halves as one number. */
  function XmmValue(m: M128): u128 {
    Pow256Sixteen();
    Value(Le8(m.low) + Le8(m.high)) as u128
  }

  /** What `from_ttd` makes of a context, register by register. */
  ghost predicate Projects(c: Registers, teb: u64, r: GdbRegisters) {
    var g, s, f := c.general, c.segments, c.flt;
    && r.regs == [g.rax, g.rbx, g.rcx, g.rdx, g.rsi, g.rdi, g.rbp, g.rsp,
                  g.r8, g.r9, g.r10, g.r11, g.r12, g.r13, g.r14, g.r15]
    && r.eflags == c.eFlags && r.rip == g.rip
    && r.segments == GdbSegments(s.cs as u32, s.ss as u32, s.ds as u32, s.es as u32, s.fs as u32, s.gs as u32)
    && r.fpu == GdbFpu(f.controlWord as u32, f.statusWord as u32, f.tagWord as u32, f.errorSelector as u32,
                       f.errorOffset, f.dataSelector as u32, f.dataOffset, f.errorOpcode as u32)
    && r.mxcsr == f.mxCsr && r.fsBase == 0 && r.gsBase == teb
    && |r.st| == |f.floats| && (forall i :: 0 <= i < |r.st| ==> r.st[i] == StBytes(f.floats[i]))
    && |r.xmm| == |f.xmms| && (forall i :: 0 <= i < |r.xmm| ==> r.xmm[i] == XmmValue(f.xmms[i]))
  }

  method FromTtd(c: Registers, teb: u64) returns (r: GdbRegisters)
    requires c.Valid()
    ensures Projects(c, teb, r) && r.Valid()
  {
    var g, s, f := c.general, c.segments, c.flt;
    var st: seq<seq<u8>> := [];
    for i := 0 to 8
      invariant |st| == i && forall k :: 0 <= k < i ==> st[k] == StBytes(f.floats[k])
    {
      st := st + [Le8(f.floats[i].low) + Le8(f.floats[i].high)[..2]];
    }
    var xmm: seq<u128> := [];
    for i := 0 to 16
      invariant |xmm| == i && forall k :: 0 <= k < i ==> xmm[k] == XmmValue(f.xmms[k])
    {
      xmm := xmm + [XmmValue(f.xmms[i])];
    }
    r := GdbRegisters(
      [g.rax, g.rbx, g.rcx, g.rdx, g.rsi, g.rdi, g.rbp, g.rsp,
       g.r8, g.r9, g.r10, g.r11, g.r12, g.r13, g.r14, g.r15],
      c.eFlags, g.rip,
      GdbSegments(s.cs as u32, s.ss as u32, s.ds as u32, s.es as u32, s.fs as u32, s.gs as u32),
      st,
      GdbFpu(f.controlWord as u32, f.statusWord as u32, f.tagWord as u32, f.errorSelector as u32,
             f.errorOffset, f.dataSelector as u32, f.dataOffset, f.errorOpcode as u32),
      xmm, f.mxCsr, 0, teb);
  }

  // ----- one register -----

  function SegmentValue(g: GdbSegments, s: SegmentId): u32 {
    match s
    case CS => g.cs
    case SS => g.ss
    case DS => g.ds
    case ES => g.es
    case FS => g.fs
    case GS => g.gs
  }

  function FpuValue(g: GdbFpu, f: FpuId): u32 {
    match f
    case Fctrl => g.fctrl
    case Fstat => g.fstat
    case Ftag => g.ftag
    case Fiseg => g.fiseg
    case Fioff => g.fioff
    case Foseg => g.foseg
    case Fooff => g.fooff
    case Fop => g.fop
  }

  /** A register's whole value on the wire. */
  function Image(r: GdbRegisters, id: RegId): seq<u8>
    requires r.Valid() && id.Valid()
  {
    match id
    case Gpr(i) => Le8(r.regs[i])
    case Rip => Le8(r.rip)
    case Eflags => Bytes(r.eflags as nat, 4)
    case Segment(s) => Bytes(SegmentValue(r.segments, s) as nat, 4)
    case St(i) => r.st[i]
    case Fpu(f) => Bytes(FpuValue(r.fpu, f) as nat, 4)
    case Xmm(i) => Bytes(r.xmm[i] as nat, 16)
    case Mxcsr => Bytes(r.mxcsr as nat, 4)
    case FsBase => Le8(r.fsBase)
    case GsBase => Le8(r.gsBase)
  }

  predicate Holds(now: seq<u8>, was: seq<u8>, n: nat, image: seq<u8>) {
    && |now| == |was| && n == (if |was| < |image| then |was| else |image|)
    && now[..n] == image[..n] && now[n..] == was[n..]
  }

  method CopyPrefix(buf: array<u8>, bytes: seq<u8>) returns (n: nat)
    modifies buf
    ensures Holds(buf[..], old(buf[..]), n, bytes)
  {
    n := if buf.Length < |bytes| then buf.Length else |bytes|;
    for i := 0 to n
      invariant forall k :: 0 <= k < i ==> buf[k] == bytes[k]
      invariant forall k :: i <= k < buf.Length ==> buf[k] == old(buf[k])
    {
      buf[i] := bytes[i];
    }
  }

  /** `read_register_value`: the reply is the register's image, cut to the
      buffer; the rest of the buffer stays. */
  method ReadRegister(id: RegId, r: GdbRegisters, buf: array<u8>) returns (n: nat)
    requires r.Valid() && id.Valid()
    modifies buf
    ensures Holds(buf[..], old(buf[..]), n, Image(r, id))
  {
    var value: u64, size: nat;
    match id {
      case St(i) =>
        n := CopyPrefix(buf, r.st[i]);
        return;
      case Xmm(i) =>
        n := CopyPrefix(buf, Bytes(r.xmm[i] as nat, 16));
        return;
      case Gpr(i) => value, size := r.regs[i], 8;
      case Rip => value, size := r.rip, 8;
      case Eflags => value, size := r.eflags as u64, 4;
      case Segment(s) => value, size := SegmentValue(r.segments, s) as u64, 4;
      case Fpu(f) => value, size := FpuValue(r.fpu, f) as u64, 4;
      case Mxcsr => value, size := r.mxcsr as u64, 4;
      case FsBase => value, size := r.fsBase, 8;
      case GsBase => value, size := r.gsBase, 8;
    }
    NarrowIsPrefix(value as nat, size, 8);
    assert Le8(value)[..size] == Image(r, id);
    n := CopyPrefix(buf, Le8(value)[..size]);
  }

  // ----- back to the stream -----

  /** The word of the stream a register starts at. */
  function Place(id: RegId): nat
    requires id.Valid() && !id.FsBase? && !id.GsBase?
  {
    match id
    case Gpr(i) => i
    case Rip => 16
    case Eflags => 17
    case Segment(s) => (match s case CS => 18 case DS => 19 case ES => 20 case FS => 21 case GS => 22 case SS => 23)
    case St(i) => 24 + 2 * i
    case Xmm(i) => 40 + 2 * i
    case Fpu(f) => (match f
                    case Fctrl => 72 case Fstat => 73 case Ftag => 74 case Fop => 75
                    case Fioff => 76 case Fiseg => 77 case Fooff => 78 case Foseg => 79)
    case Mxcsr => 80
  }

  function Size(id: RegId): nat {
    match id
    case Gpr(_) => 8
    case Rip => 8
    case St(_) => 10
    case Xmm(_) => 16
    case FsBase => 8
    case GsBase => 8
    case _ => 4
  }

  lemma Le8IsBytes(v: u64)
    ensures Le8(v) == Bytes(v as nat, 8)
  {
  }

  lemma WordServed(words: seq<u64>, i: nat, v: nat, size: nat)
    requires i < |words| && words[i] as nat == v && size <= 8
    ensures Stream(words)[8 * i..8 * i + size] == Bytes(v, size)
  {
    hide Stream, Bytes;
    var b, at := Stream(words), 8 * i;
    WordInStream(words, i);
    NarrowIsPrefix(v, size, 8);
    Le8IsBytes(words[i]);
    assert b[at..at + size] == b[at..at + 8][..size];
  }

  lemma SliceOfTwo(b: seq<u8>, at: nat, size: nat)
    requires at + 16 <= |b| && size <= 16
    ensures b[at..at + size] == (b[at..at + 8] + b[at + 8..at + 16])[..size]
  {
    assert b[at..at + 16] == b[at..at + 8] + b[at + 8..at + 16];
    assert b[at..at + size] == b[at..at + 16][..size];
  }

  lemma PairServed(words: seq<u64>, i: nat, m: M128, size: nat)
    requires i + 1 < |words| && words[i] == m.low && words[i + 1] == m.high && size <= 16
    ensures Stream(words)[8 * i..8 * i + size] == (Le8(m.low) + Le8(m.high))[..size]
  {
    hide Stream, Le8;
    var b, at := Stream(words), 8 * i;
    WordInStream(words, i);
    WordInStream(words, i + 1);
    assert b[at..at + 8] == Le8(m.low);
    assert 8 * (i + 1) == at + 8;
    assert b[at + 8..at + 16] == Le8(m.high);
    SliceOfTwo(b, at, size);
  }

  lemma XmmImage(m: M128)
    ensures Bytes(XmmValue(m) as nat, 16) == Le8(m.low) + Le8(m.high)
  {
    BytesOfValue(Le8(m.low) + Le8(m.high));
  }

  lemma WordOfScalar(c: Registers, teb: u64, r: GdbRegisters, id: RegId)
    requires c.Valid() && Projects(c, teb, r) && r.Valid() && id.Valid()
    requires id.Gpr? || id.Rip? || id.Eflags? || id.Segment? || id.Fpu? || id.Mxcsr?
    ensures |ContextWords(c)| == WORDS && Size(id) <= 8
    ensures Image(r, id) == Bytes(ContextWords(c)[Place(id)] as nat, Size(id))
  {
    var w := ContextWords(c);
    WordPlaces(c);
    match id
    case Gpr(i) => assert w[i] == w[..17][i];
    case Rip => assert w[16] == w[..17][16];
    case Eflags =>
    case Segment(s) => assert w[Place(id)] == w[18..24][Place(id) - 18];
    case Fpu(f) => assert w[Place(id)] == w[72..81][Place(id) - 72];
    case Mxcsr => assert w[80] == w[72..81][8];
  }

  lemma StServed(c: Registers, i: nat)
    requires c.Valid() && i < 8
    ensures |Encode(c)| == WORDS * 8
    ensures StBytes(c.flt.floats[i]) == Encode(c)[8 * (24 + 2 * i)..8 * (24 + 2 * i) + 10]
  {
    hide Stream, Le8, ContextWords, Halves;
    var w := ContextWords(c);
    var m := c.flt.floats[i];
    WordPlaces(c);
    assert w[24 + 2 * i] == w[24..40][2 * i] && w[24 + 2 * i + 1] == w[24..40][2 * i + 1];
    PairServed(w, 24 + 2 * i, m, 10);
    assert (Le8(m.low) + Le8(m.high))[..10] == StBytes(m);
  }

  lemma XmmServed(c: Registers, i: nat)
    requires c.Valid() && i < 16
    ensures |Encode(c)| == WORDS * 8
    ensures Bytes(XmmValue(c.flt.xmms[i]) as nat, 16) == Encode(c)[8 * (40 + 2 * i)..8 * (40 + 2 * i) + 16]
  {
    hide Stream, Le8, ContextWords, Halves, XmmValue, Bytes;
    var w := ContextWords(c);
    var m := c.flt.xmms[i];
    WordPlaces(c);
    assert w[40 + 2 * i] == w[40..72][2 * i] && w[40 + 2 * i + 1] == w[40..72][2 * i + 1];
    PairServed(w, 40 + 2 * i, m, 16);
    XmmImage(m);
    var both := Le8(m.low) + Le8(m.high);
    assert both[..16] == both;
  }

  /** End to end: what GDB reads of a context register are the stream bytes that
      carry it, although segments and x87 fields change places on the way; and
      the two bases are zero and the TEB. */
  lemma ServedFromStream(c: Registers, teb: u64, r: GdbRegisters, id: RegId)
    requires c.Valid() && Projects(c, teb, r) && r.Valid() && id.Valid()
    ensures |Image(r, id)| == Size(id)
    ensures id.FsBase? ==> Image(r, id) == Le8(0)
    ensures id.GsBase? ==> Image(r, id) == Le8(teb)
    ensures !id.FsBase? && !id.GsBase? ==>
      8 * Place(id) + Size(id) <= |Encode(c)|
      && Image(r, id) == Encode(c)[8 * Place(id)..8 * Place(id) + Size(id)]
  {
    hide ContextWords, Stream, Bytes, StBytes, XmmValue;
    if id.St? {
      StServed(c, id.i);
    } else if id.Xmm? {
      XmmServed(c, id.i);
    } else if !id.FsBase? && !id.GsBase? {
      WordOfScalar(c, teb, r, id);
      WordServed(ContextWords(c), Place(id), ContextWords(c)[Place(id)] as nat, Size(id));
    }
  }

  /** No integer register is cut: its reply read back is its word of the stream. */
  lemma ServedInFull(c: Registers, teb: u64, r: GdbRegisters, id: RegId)
    requires c.Valid() && Projects(c, teb, r) && r.Valid() && id.Valid()
    requires id.Gpr? || id.Rip? || id.Eflags? || id.Segment? || id.Fpu? || id.Mxcsr?
    ensures |ContextWords(c)| == WORDS && Value(Image(r, id)) == ContextWords(c)[Place(id)] as nat
  {
    WordOfScalar(c, teb, r, id);
    Pow256Values();
    var v := ContextWords(c)[Place(id)] as nat;
    ScalarFits(c, id);
    ValueOfBytes(v, Size(id));
  }

  lemma ScalarFits(c: Registers, id: RegId)
    requires c.Valid() && id.Valid()
    requires id.Gpr? || id.Rip? || id.Eflags? || id.Segment? || id.Fpu? || id.Mxcsr?
    ensures |ContextWords(c)| == WORDS && ContextWords(c)[Place(id)] as nat < Pow256(Size(id))
  {
    hide ContextWords, Halves;
    Pow256Values();
    var w := ContextWords(c);
    WordPlaces(c);
    match id
    case Gpr(_) =>
    case Rip =>
    case Eflags =>
    case Segment(_) => assert w[Place(id)] == w[18..24][Place(id) - 18];
    case Fpu(_) => assert w[Place(id)] == w[72..81][Place(id) - 72];
    case Mxcsr => assert w[80] == w[72..81][8];
  }

  /** GDB's document order, by register number. */
  function ByNumber(n: nat): (id: RegId)
    requires n < 59
    ensures id.Valid()
  {
    if n < 16 then Gpr(n)
    else if n == 16 then Rip
    else if n == 17 then Eflags
    else if n < 24 then Segment([CS, SS, DS, ES, FS, GS][n - 18])
    else if n < 32 then St(n - 24)
    else if n < 40 then Fpu([Fctrl, Fstat, Ftag, Fiseg, Fioff, Foseg, Fooff, Fop][n - 32])
    else if n < 56 then Xmm(n - 40)
    else if n == 56 then Mxcsr
    else if n == 57 then FsBase
    else GsBase
  }

  /** `to_raw_id`. */
  function Number(id: RegId): nat {
    match id
    case Gpr(i) => i
    case Rip => 16
    case Eflags => 17
    case Segment(s) => 18 + (match s case CS => 0 case SS => 1 case DS => 2 case ES => 3 case FS => 4 case GS => 5)
    case St(i) => 24 + i
    case Fpu(f) => 32 + (match f
                         case Fctrl => 0 case Fstat => 1 case Ftag => 2 case Fiseg => 3
                         case Fioff => 4 case Foseg => 5 case Fooff => 6 case Fop => 7)
    case Xmm(i) => 40 + i
    case Mxcsr => 56
    case FsBase => 57
    case GsBase => 58
  }

  /** Register numbers and registers correspond one to one. */
  lemma NumbersRoundTrip(n: nat, id: RegId)
    requires n < 59 && id.Valid()
    ensures Number(ByNumber(n)) == n
    ensures Number(id) < 59 && ByNumber(Number(id)) == id
  {
    match id
    case Segment(s) => match s { case CS => case SS => case DS => case ES => case FS => case GS => }
    case Fpu(f) => match f { case Fctrl => case Fstat => case Ftag => case Fiseg =>
                             case Fioff => case Foseg => case Fooff => case Fop => }
    case _ =>
  }

  function TotalSize(n: nat): nat
    requires n <= 59
  {
    if n == 0 then 0 else TotalSize(n - 1) + Size(ByNumber(n - 1))
  }

  lemma SizesUpTo(n: nat)
    requires n <= 59
    ensures TotalSize(n) ==
      if n <= 17 then 8 * n
      else if n <= 24 then 136 + 4 * (n - 17)
      else if n <= 32 then 164 + 10 * (n - 24)
      else if n <= 40 then 244 + 4 * (n - 32)
      else if n <= 56 then 276 + 16 * (n - 40)
      else if n == 57 then 536
      else 536 + 8 * (n - 57)
  {
    if n > 0 {
      SizesUpTo(n - 1);
    }
  }

  /** All registers fill the 536 bytes of the core file and the two bases. */
  lemma RegisterFileSize()
    ensures TotalSize(57) == 536 && TotalSize(59) == 552
  {
    SizesUpTo(57);
    SizesUpTo(59);
  }
}
