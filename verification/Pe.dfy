/** Choosing the text section from a PE section table (`src/gdb/pe.rs`). */
module Pe {
  import opened Vocabulary
  import LittleEndian

  const MEM_EXECUTE: u32 := 0x2000_0000
  const TEXT_NAME: Text := [46, 116, 101, 120, 116]   // ".text"

  lemma FourBytes(b: seq<u8>)
    requires |b| == 4
    ensures LittleEndian.Value(b) ==
      b[0] as int + 0x100 * b[1] as int + 0x1_0000 * b[2] as int + 0x100_0000 * b[3] as int
  {
    var b1, b2, b3 := b[1..], b[2..], b[3..];
    assert b1[1..] == b2 && b2[1..] == b3 && b3[1..] == [];
    assert LittleEndian.Value(b3) == b[3] as int + 256 * LittleEndian.Value([]);
    assert LittleEndian.Value(b2) == b[2] as int + 256 * LittleEndian.Value(b3);
    assert LittleEndian.Value(b1) == b[1] as int + 256 * LittleEndian.Value(b2);
  }

  /** `read_u32`: a little-endian word, and nothing past the end of the bytes. */
  function ReadU32(b: seq<u8>, offset: nat): (r: Option<u32>)
    ensures r.Some? <==> offset + 4 <= |b|
    ensures r.Some? ==>
      r.value as int == b[offset] as int + 0x100 * b[offset + 1] as int
                        + 0x1_0000 * b[offset + 2] as int + 0x100_0000 * b[offset + 3] as int
  {
    if offset + 4 > |b| then None
    else
      LittleEndian.Pow256Values();
      FourBytes(b[offset..offset + 4]);
      Some(LittleEndian.Value(b[offset..offset + 4]) as u32)
  }

  // ----- the table as the PE format lays it out -----

  datatype Section = Section(name: Text, size: u32, address: u32, flags: u32)
  {
    predicate Occupied() { size != 0 && address != 0 }

    predicate IsText() { Occupied() && TEXT_NAME <= name }

    predicate IsExecutable() { Occupied() && (flags / MEM_EXECUTE) % 2 == 1 }
  }

  /** One 40-byte section header. */
  function Header(h: seq<u8>): Section
    requires |h| == 40
  {
    Section(h[..8], ReadU32(h, 8).value, ReadU32(h, 12).value, ReadU32(h, 36).value)
  }

  // ----- the layout, from the writing side -----

  function Le4(n: u32): (b: seq<u8>)
    ensures |b| == 4
  {
    LittleEndian.Bytes(n as nat, 4)
  }

  function Le2(n: u16): (b: seq<u8>)
    ensures |b| == 2
  {
    LittleEndian.Bytes(n as nat, 2)
  }

  /** The fields of a section header that nothing here looks at. */
  datatype Rest = Rest(rawSize: u32, rawAddress: u32, relocations: u32, lineNumbers: u32, nRelocs: u16, nLines: u16)

  /** A section header as a linker lays it out. */
  function Written(s: Section, rest: Rest): (b: seq<u8>)
    requires |s.name| == 8
    ensures |b| == 40
  {
    s.name + Le4(s.size) + Le4(s.address)
    + Le4(rest.rawSize) + Le4(rest.rawAddress) + Le4(rest.relocations) + Le4(rest.lineNumbers)
    + Le2(rest.nRelocs) + Le2(rest.nLines) + Le4(s.flags)
  }

  lemma ReadLe4(b: seq<u8>, offset: nat, n: u32)
    requires offset + 4 <= |b| && b[offset..offset + 4] == Le4(n)
    ensures ReadU32(b, offset) == Some(n)
  {
    LittleEndian.Pow256Values();
    LittleEndian.ValueOfBytes(n as nat, 4);
  }

  /** What a linker writes is what the scan reads. */
  lemma HeaderOfWritten(s: Section, rest: Rest)
    requires |s.name| == 8
    ensures Header(Written(s, rest)) == s
  {
    hide LittleEndian.Bytes, LittleEndian.Value, ReadU32;
    var b := Written(s, rest);
    ReadLe4(b, 8, s.size);
    ReadLe4(b, 12, s.address);
    ReadLe4(b, 36, s.flags);
  }

  predicate Named(ss: seq<(Section, Rest)>) { forall i :: 0 <= i < |ss| ==> |ss[i].0.name| == 8 }

  function TableOf(ss: seq<(Section, Rest)>): (b: seq<u8>)
    requires Named(ss)
    ensures |b| == 40 * |ss|
  {
    if ss == [] then [] else TableOf(ss[..|ss| - 1]) + Written(ss[|ss| - 1].0, ss[|ss| - 1].1)
  }

  predicate ReadAs(got: seq<Section>, ss: seq<(Section, Rest)>) {
    |got| == |ss| && forall i :: 0 <= i < |ss| ==> got[i] == ss[i].0
  }

  lemma ReadAsSnoc(got: seq<Section>, ss: seq<(Section, Rest)>)
    requires ss != [] && ReadAs(got, ss[..|ss| - 1])
    ensures ReadAs(got + [ss[|ss| - 1].0], ss)
  {
  }

  /** A written table reads back as the sections it was written from. */
  lemma {:induction false} SectionsOfTable(ss: seq<(Section, Rest)>)
    requires Named(ss)
    ensures ReadAs(Sections(TableOf(ss)), ss)
    decreases |ss|
  {
    if ss != [] {
      hide Header, Written, Sections, ReadAs;
      var n := |ss| - 1;
      var init := ss[..n];
      SectionsOfTable(init);
      HeaderOfWritten(ss[n].0, ss[n].1);
      SectionsSnoc(TableOf(init), Written(ss[n].0, ss[n].1));
      ReadAsSnoc(Sections(TableOf(init)), ss);
    }
  }

  lemma SectionsSnoc(table: seq<u8>, h: seq<u8>)
    requires |table| % 40 == 0 && |h| == 40
    ensures Sections(table + h) == Sections(table) + [Header(h)]
  {
    hide Header;
    var b, n := table + h, |table| / 40;
    assert b[40 * n..40 * n + 40] == h;
    forall i | 0 <= i < n
      ensures Sections(b)[i] == Sections(table)[i]
    {
      assert b[40 * i..40 * i + 40] == table[40 * i..40 * i + 40];
    }
  }

  /** Executable is bit 29 of the characteristics, whatever the others. */
  lemma ExecutableIsBit29(s: Section, low: nat, bit: bool, high: nat)
    requires low < 0x2000_0000 && high < 4
    requires s.flags as nat == low + (if bit then 0x2000_0000 else 0) + 0x4000_0000 * high
    ensures s.IsExecutable() <==> s.size != 0 && s.address != 0 && bit
  {
    var q := s.flags as nat / 0x2000_0000;
    assert q == (if bit then 1 else 0) + 2 * high;
    assert (s.flags / MEM_EXECUTE) as nat == q;
  }

  function Sections(table: seq<u8>): (ss: seq<Section>)
    ensures |ss| == |table| / 40
    ensures forall i :: 0 <= i < |ss| ==> ss[i] == Header(table[40 * i..40 * i + 40])
  {
    seq(|table| / 40, i requires 0 <= i < |table| / 40 => Header(table[40 * i..40 * i + 40]))
  }

  function Least(a: nat, b: nat): nat { if a <= b then a else b }

  /** `r` is the address of the first section for which `p` holds, or nothing
      when there is none. */
  ghost predicate First(ss: seq<Section>, p: Section -> bool, r: Option<u32>) {
    if r.None? then forall k :: 0 <= k < |ss| ==> !p(ss[k])
    else exists i :: 0 <= i < |ss| && p(ss[i]) && r.value == ss[i].address && forall k :: 0 <= k < i ==> !p(ss[k])
  }

  const TEXT := (s: Section) => s.IsText()
  const EXECUTABLE := (s: Section) => s.IsExecutable()

  lemma NothingYet(p: Section -> bool)
    ensures First([], p, None)
  {
  }

  lemma FirstStays(ss: seq<Section>, p: Section -> bool, r: Option<u32>, next: Section)
    requires First(ss, p, r) && (r.Some? || !p(next))
    ensures First(ss + [next], p, r)
  {
    var all := ss + [next];
    if r.Some? {
      var i :| 0 <= i < |ss| && p(ss[i]) && r.value == ss[i].address && forall k :: 0 <= k < i ==> !p(ss[k]);
      assert p(all[i]) && r.value == all[i].address && forall k :: 0 <= k < i ==> all[k] == ss[k];
    }
  }

  lemma FirstFound(ss: seq<Section>, p: Section -> bool, next: Section, rest: seq<Section>)
    requires First(ss, p, None) && p(next)
    ensures First(ss + [next] + rest, p, Some(next.address))
  {
    var all := ss + [next] + rest;
    assert all[|ss|] == next && forall k :: 0 <= k < |ss| ==> all[k] == ss[k];
  }

  /** The scan of `count` sections answers with the first `.text` section. When
      there is none it answers with the first executable one, provided the
      table holds all its sections; a table cut short yields nothing. */
  method TextRva(table: seq<u8>, count: nat) returns (r: Option<u32>)
    ensures var all := Sections(table); var ss := all[..Least(count, |all|)];
      || (r.Some? && First(ss, TEXT, r))
      || (First(ss, TEXT, None) && count <= |all| && First(ss, EXECUTABLE, r))
      || (First(ss, TEXT, None) && count > |all| && r.None?)
  {
    hide First, LittleEndian.Value, LittleEndian.Pow256;
    NothingYet(TEXT);
    NothingYet(EXECUTABLE);
    ghost var all := Sections(table);
    var executable: Option<u32> := None;
    for index := 0 to count
      invariant index <= |all| && First(all[..index], TEXT, None) && First(all[..index], EXECUTABLE, executable)
    {
      var base := index * 40;
      if base + 40 > |table| {
        assert index == Least(count, |all|);
        return None;
      }
      var header := table[base..base + 40];
      ghost var next := all[index];
      assert next == Header(header) && all[..index + 1] == all[..index] + [next];
      var name := header[..8];
      var size, address, flags := ReadU32(header, 8), ReadU32(header, 12), ReadU32(header, 36);
      if size.None? || address.None? || flags.None? {
        return None;
      }
      if size.value != 0 && address.value != 0 {
        if TEXT_NAME <= name {
          ghost var n := Least(count, |all|);
          FirstFound(all[..index], TEXT, next, all[index + 1..n]);
          assert all[..n] == all[..index] + [next] + all[index + 1..n];
          return Some(address.value);
        }
        if executable.None? && (flags.value / MEM_EXECUTE) % 2 == 1 {
          FirstFound(all[..index], EXECUTABLE, next, []);
          assert all[..index] + [next] + [] == all[..index + 1];
          executable := Some(address.value);
        } else {
          FirstStays(all[..index], EXECUTABLE, executable, next);
        }
      } else {
        FirstStays(all[..index], EXECUTABLE, executable, next);
      }
      FirstStays(all[..index], TEXT, None, next);
    }
    r := executable;
  }
}
