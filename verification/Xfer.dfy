/** Chunked `qXfer` reads (`src/gdb/xml.rs`). */
module Xfer {
  import opened Vocabulary

  function Min(a: int, b: int): int { if a < b then a else b }

  /** `usize::saturating_add`. */
  function SaturatingAdd(a: u64, b: u64): (r: u64)
    ensures r as int == Min(a as int + b as int, U64_MAX as int)
  {
    if b > U64_MAX - a then U64_MAX else a + b
  }

  /** How much of `[offset, offset + length)` there is to give, over the
      integers. */
  function Available(size: nat, offset: u64, length: u64, room: nat): nat {
    if offset as nat >= size then 0 else Min(Min(length as nat, size - offset as nat), room)
  }

  /** `write_xml_chunk`: that much of the data lands at the front of the buffer,
      the rest of the buffer stays, and no offset or length wraps. */
  method WriteChunk(data: seq<u8>, offset: u64, length: u64, buf: array<u8>) returns (n: nat)
    requires |data| <= U64_MAX as int
    modifies buf
    ensures n == Available(|data|, offset, length, buf.Length)
    ensures n == 0 <==> offset as int >= |data| || length == 0 || buf.Length == 0
    ensures n > 0 ==> buf[..n] == data[offset as int..offset as int + n]
    ensures buf[n..] == old(buf[n..])
  {
    var size := |data| as u64;
    var start := if offset < size then offset else size;
    var sum := SaturatingAdd(start, length);
    var end := if sum < size then sum else size;
    if start == size {
      return 0;
    }
    n := Min((end - start) as int, buf.Length);
    for i := 0 to n
      invariant forall k :: 0 <= k < i ==> buf[k] == data[start as int + k]
      invariant forall k :: i <= k < buf.Length ==> buf[k] == old(buf[k])
    {
      buf[i] := data[start as int + i];
    }
  }

  /** A client that advances its offset by each count, with any lengths and
      buffer sizes as long as they are not zero, collects exactly the data in at
      most one read more than there are bytes. */
  method Fetch(data: seq<u8>, length: nat -> u64, room: nat -> nat) returns (got: seq<u8>, count: nat)
    requires |data| <= U64_MAX as int
    requires forall i :: length(i) > 0 && room(i) > 0
    ensures got == data && count <= |data| + 1
  {
    got, count := [], 0;
    while true
      invariant |got| <= |data| && got == data[..|got|] && count <= |got|
      decreases |data| - |got|
    {
      var buf := new u8[room(count)];
      var n := WriteChunk(data, |got| as u64, length(count), buf);
      count := count + 1;
      if n == 0 {
        return;
      }
      got := got + buf[..n];
    }
  }
}
