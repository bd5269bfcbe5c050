/** Text on the wire: UTF-8 bytes, splitting, trimming and lossy decoding as
    Rust's `str` does them. */
module Texts {
  import opened Vocabulary

  const TAB: u8 := 9
  const NEWLINE: u8 := 10
  const RETURN: u8 := 13
  const SPACE: u8 := 32
  const COLON: u8 := 58

  /** An ASCII literal as bytes. */
  function Ascii(s: string): (t: Text)
    requires forall i :: 0 <= i < |s| ==> s[i] < 128 as char
    ensures |t| == |s|
    ensures forall i :: 0 <= i < |s| ==> t[i] as int == s[i] as int
  {
    seq(|s|, i requires 0 <= i < |s| => s[i] as int as u8)
  }

  // ----- split -----

  /** `str::split`: n separators make n + 1 parts. */
  function Split(t: Text, sep: u8): (parts: seq<Text>)
    ensures parts != []
    ensures forall i :: 0 <= i < |parts| ==> sep !in parts[i]
  {
    if t == [] then [[]]
    else
      var rest := Split(t[1..], sep);
      if t[0] == sep then [[]] + rest else [[t[0]] + rest[0]] + rest[1..]
  }

  lemma {:induction false} SplitWhole(a: Text, sep: u8)
    requires sep !in a
    ensures Split(a, sep) == [a]
    decreases |a|
  {
    if a != [] {
      SplitWhole(a[1..], sep);
      assert [a[0]] + a[1..] == a;
    }
  }

  lemma {:induction false} SplitAt(a: Text, rest: Text, sep: u8)
    requires sep !in a
    ensures Split(a + [sep] + rest, sep) == [a] + Split(rest, sep)
    decreases |a|
  {
    var t := a + [sep] + rest;
    if a == [] {
      assert t[1..] == rest;
    } else {
      assert t[1..] == a[1..] + [sep] + rest;
      SplitAt(a[1..], rest, sep);
      assert [a[0]] + a[1..] == a;
    }
  }

  function Join(parts: seq<Text>, sep: u8): Text
    requires parts != []
  {
    if |parts| == 1 then parts[0] else parts[0] + [sep] + Join(parts[1..], sep)
  }

  /** Joining parts that do not contain the separator loses nothing. */
  lemma {:induction false} SplitJoin(parts: seq<Text>, sep: u8)
    requires parts != [] && forall i :: 0 <= i < |parts| ==> sep !in parts[i]
    ensures Split(Join(parts, sep), sep) == parts
    decreases |parts|
  {
    if |parts| == 1 {
      SplitWhole(parts[0], sep);
    } else {
      SplitJoin(parts[1..], sep);
      SplitAt(parts[0], Join(parts[1..], sep), sep);
    }
  }

  /** Splitting loses nothing either. */
  lemma {:induction false} JoinSplit(t: Text, sep: u8)
    ensures Join(Split(t, sep), sep) == t
    decreases |t|
  {
    if t != [] {
      var rest := Split(t[1..], sep);
      JoinSplit(t[1..], sep);
      if t[0] == sep {
        assert ([[]] + rest)[1..] == rest;
      } else {
        var parts := [[t[0]] + rest[0]] + rest[1..];
        assert parts[1..] == rest[1..];
        assert Join(parts, sep) == [t[0]] + Join(rest, sep);
      }
    }
  }

  // ----- trim -----

  /** Length of the Unicode white space that starts `t`, 0 when there is none. */
  function WhitePrefix(t: Text): (n: nat)
    ensures n <= |t| && n <= 3
    ensures n > 0 ==> t[0] <= 32 || t[0] >= 0xC2
  {
    if |t| >= 1 && IsWhite1(t[0]) then 1
    else if |t| >= 2 && IsWhite2(t[0], t[1]) then 2
    else if |t| >= 3 && IsWhite3(t[0], t[1], t[2]) then 3
    else 0
  }

  function WhiteSuffix(t: Text): (n: nat)
    ensures n <= |t| && n <= 3
    ensures n > 0 ==> t[|t| - 1] <= 32 || t[|t| - 1] >= 0x80
  {
    var n := |t|;
    if n >= 1 && IsWhite1(t[n - 1]) then 1
    else if n >= 2 && IsWhite2(t[n - 2], t[n - 1]) then 2
    else if n >= 3 && IsWhite3(t[n - 3], t[n - 2], t[n - 1]) then 3
    else 0
  }

  predicate IsWhite1(a: u8) { 9 <= a <= 13 || a == 32 }

  predicate IsWhite2(a: u8, b: u8) { a == 0xC2 && (b == 0x85 || b == 0xA0) }

  predicate IsWhite3(a: u8, b: u8, c: u8) {
    || (a == 0xE1 && b == 0x9A && c == 0x80)
    || (a == 0xE2 && b == 0x80 && (0x80 <= c <= 0x8A || c == 0xA8 || c == 0xA9 || c == 0xAF))
    || (a == 0xE2 && b == 0x81 && c == 0x9F)
    || (a == 0xE3 && b == 0x80 && c == 0x80)
  }

  function TrimStart(t: Text): Text
    decreases |t|
  {
    var n := WhitePrefix(t);
    if n == 0 then t else TrimStart(t[n..])
  }

  function TrimEnd(t: Text): Text
    decreases |t|
  {
    var n := WhiteSuffix(t);
    if n == 0 then t else TrimEnd(t[..|t| - n])
  }

  function Trim(t: Text): Text { TrimEnd(TrimStart(t)) }

  // ----- lossy UTF-8 decoding -----

  predicate IsContinuation(c: u8) { 0x80 <= c <= 0xBF }

  /** May `b` follow `a` as second byte of a longer sequence? */
  predicate Follows(a: u8, b: u8) {
    || (0xC2 <= a <= 0xDF && IsContinuation(b))
    || (a == 0xE0 && 0xA0 <= b <= 0xBF)
    || (0xE1 <= a <= 0xEF && a != 0xED && IsContinuation(b))
    || (a == 0xED && 0x80 <= b <= 0x9F)
    || (a == 0xF0 && 0x90 <= b <= 0xBF)
    || (0xF1 <= a <= 0xF3 && IsContinuation(b))
    || (a == 0xF4 && 0x80 <= b <= 0x8F)
  }

  function Width(a: u8): nat {
    if a < 0x80 then 1 else if a < 0xC2 then 0 else if a < 0xE0 then 2
    else if a < 0xF0 then 3 else if a < 0xF5 then 4 else 0
  }

  /** The first character of `t`, or the longest stretch that cannot begin one. */
  function FirstChar(t: Text): (r: (bool, nat))
    requires t != []
    ensures 1 <= r.1 <= |t|
    ensures r.0 ==> r.1 == Width(t[0])
  {
    var w := Width(t[0]);
    if w == 1 then (true, 1)
    else if w == 0 || |t| < 2 || !Follows(t[0], t[1]) then (false, 1)
    else if w == 2 then (true, 2)
    else if |t| < 3 || !IsContinuation(t[2]) then (false, 2)
    else if w == 3 then (true, 3)
    else if |t| < 4 || !IsContinuation(t[3]) then (false, 3)
    else (true, 4)
  }

  const REPLACEMENT: Text := [0xEF, 0xBF, 0xBD]

  /** `String::from_utf8_lossy`. */
  function Lossy(t: Text): Text
    decreases |t|
  {
    if t == [] then []
    else
      var (ok, n) := FirstChar(t);
      (if ok then t[..n] else REPLACEMENT) + Lossy(t[n..])
  }

  predicate Utf8(t: Text)
    decreases |t|
  {
    t == [] || (FirstChar(t).0 && Utf8(t[FirstChar(t).1..]))
  }

  // ----- the characters themselves -----

  /** Unicode scalar values. */
  predicate IsScalar(c: nat) { c < 0xD800 || 0xE000 <= c < 0x11_0000 }

  /** The UTF-8 form of a character, as the standard defines it. */
  function Utf8Of(c: nat): (t: Text)
    requires IsScalar(c)
    ensures 1 <= |t| <= 4
  {
    if c < 0x80 then [c as u8]
    else if c < 0x800 then [(0xC0 + c / 0x40) as u8, (0x80 + c % 0x40) as u8]
    else if c < 0x1_0000 then
      [(0xE0 + c / 0x1000) as u8, (0x80 + c / 0x40 % 0x40) as u8, (0x80 + c % 0x40) as u8]
    else
      [(0xF0 + c / 0x4_0000) as u8, (0x80 + c / 0x1000 % 0x40) as u8,
       (0x80 + c / 0x40 % 0x40) as u8, (0x80 + c % 0x40) as u8]
  }

  /** The decoder takes every character whole. */
  lemma CharactersDecode(c: nat, rest: Text)
    requires IsScalar(c)
    ensures FirstChar(Utf8Of(c) + rest) == (true, |Utf8Of(c)|)
  {
    var t := Utf8Of(c);
    if 0x800 <= c < 0x1_0000 {
      assert c / 0x1000 == 0 ==> c / 0x40 % 0x40 >= 0x20;
      assert c / 0x1000 == 13 ==> c / 0x40 % 0x40 < 0x20;
    } else if c >= 0x1_0000 {
      assert c / 0x4_0000 == 0 ==> c / 0x1000 % 0x40 >= 0x10;
      assert c / 0x4_0000 == 4 ==> c / 0x1000 % 0x40 < 0x10;
    }
  }

  lemma Pack(hi: nat, lo: nat)
    requires lo < 0x40
    ensures (hi * 0x40 + lo) / 0x40 == hi && (hi * 0x40 + lo) % 0x40 == lo
  {
  }

  lemma TwoBytesDecoded(a: u8, b: u8) returns (c: nat)
    requires Width(a) == 2 && Follows(a, b)
    ensures IsScalar(c) && [a, b] == Utf8Of(c)
  {
    var x, y := a as nat - 0xC0, b as nat - 0x80;
    c := x * 0x40 + y;
    Pack(x, y);
  }

  lemma ThreeBytesDecoded(a: u8, b: u8, d: u8) returns (c: nat)
    requires Width(a) == 3 && Follows(a, b) && IsContinuation(d)
    ensures IsScalar(c) && [a, b, d] == Utf8Of(c)
  {
    var x, y, z := a as nat - 0xE0, b as nat - 0x80, d as nat - 0x80;
    c := (x * 0x40 + y) * 0x40 + z;
    Pack(x, y);
    Pack(x * 0x40 + y, z);
    assert c / 0x1000 == c / 0x40 / 0x40;
  }

  lemma FourBytesDecoded(a: u8, b: u8, d: u8, e: u8) returns (c: nat)
    requires Width(a) == 4 && Follows(a, b) && IsContinuation(d) && IsContinuation(e)
    ensures IsScalar(c) && [a, b, d, e] == Utf8Of(c)
  {
    var x, y, z, w := a as nat - 0xF0, b as nat - 0x80, d as nat - 0x80, e as nat - 0x80;
    c := ((x * 0x40 + y) * 0x40 + z) * 0x40 + w;
    Pack(x, y);
    Pack(x * 0x40 + y, z);
    Pack((x * 0x40 + y) * 0x40 + z, w);
    assert c / 0x1000 == c / 0x40 / 0x40 && c / 0x4_0000 == c / 0x40 / 0x40 / 0x40;
  }

  /** And it takes nothing else: what it accepts is the form of a character. */
  lemma DecodedIsCharacter(t: Text) returns (c: nat)
    requires t != [] && FirstChar(t).0
    ensures IsScalar(c) && t[..FirstChar(t).1] == Utf8Of(c)
  {
    hide Utf8Of, Follows, IsContinuation;
    var n := FirstChar(t).1;
    if n == 1 {
      OneByteDecoded(t[0]);
      c := t[0] as nat;
    } else if n == 2 {
      c := TwoBytesDecoded(t[0], t[1]);
    } else if n == 3 {
      c := ThreeBytesDecoded(t[0], t[1], t[2]);
    } else {
      c := FourBytesDecoded(t[0], t[1], t[2], t[3]);
    }
  }

  lemma OneByteDecoded(a: u8)
    requires a < 0x80
    ensures Utf8Of(a as nat) == [a]
  {
  }

  /** Unicode's White_Space property. */
  predicate IsWhiteSpace(c: nat) {
    || 9 <= c <= 13 || c == 0x20 || c == 0x85 || c == 0xA0 || c == 0x1680 || 0x2000 <= c <= 0x200A
    || c == 0x2028 || c == 0x2029 || c == 0x202F || c == 0x205F || c == 0x3000
  }

  /** Trimming takes exactly the white-space characters, at either end. */
  lemma TrimsWhiteSpace(c: nat, t: Text)
    requires IsScalar(c)
    ensures WhitePrefix(Utf8Of(c) + t) == if IsWhiteSpace(c) then |Utf8Of(c)| else 0
    ensures WhiteSuffix(t + Utf8Of(c)) == if IsWhiteSpace(c) then |Utf8Of(c)| else 0
  {
    WhiteAtStart(c, t);
    WhiteAtEnd(c, t);
  }

  lemma WhiteAtStart(c: nat, t: Text)
    requires IsScalar(c)
    ensures WhitePrefix(Utf8Of(c) + t) == if IsWhiteSpace(c) then |Utf8Of(c)| else 0
  {
    var u := Utf8Of(c) + t;
    if 0x80 <= c < 0x800 {
      assert u[0] as nat == 0xC0 + c / 0x40 && u[1] as nat == 0x80 + c % 0x40;
    } else if 0x800 <= c < 0x1_0000 {
      ThreeBytes(c, u[0], u[1], u[2]);
    }
  }

  lemma WhiteAtEnd(c: nat, t: Text)
    requires IsScalar(c)
    ensures WhiteSuffix(t + Utf8Of(c)) == if IsWhiteSpace(c) then |Utf8Of(c)| else 0
  {
    var x := Utf8Of(c);
    var u, n := t + x, |t + x|;
    if 0x80 <= c < 0x800 {
      assert u[n - 2] == x[0] && u[n - 1] == x[1];
    } else if 0x800 <= c < 0x1_0000 {
      assert u[n - 3] == x[0] && u[n - 2] == x[1] && u[n - 1] == x[2];
      ThreeBytes(c, x[0], x[1], x[2]);
    } else if c >= 0x1_0000 {
      assert u[n - 3] == x[1] && u[n - 2] == x[2] && u[n - 1] == x[3];
    }
  }

  lemma ThreeBytes(c: nat, a: u8, b: u8, d: u8)
    requires 0x800 <= c < 0x1_0000 && IsScalar(c)
    requires a as nat == 0xE0 + c / 0x1000 && b as nat == 0x80 + c / 0x40 % 0x40 && d as nat == 0x80 + c % 0x40
    ensures IsWhite3(a, b, d) <==> IsWhiteSpace(c)
  {
    var x, y, z := a as nat - 0xE0, b as nat - 0x80, d as nat - 0x80;
    assert c == x * 0x1000 + y * 0x40 + z && x < 16 && y < 0x40 && z < 0x40;
  }

  /** Lossy decoding leaves valid UTF-8 alone, and nothing else. */
  lemma {:induction false} LossyFixesNothingIff(t: Text)
    ensures Lossy(t) == t <==> Utf8(t)
    decreases |t|
  {
    if t != [] {
      var (ok, n) := FirstChar(t);
      var head := if ok then t[..n] else REPLACEMENT;
      LossyFixesNothingIff(t[n..]);
      assert t[..n] + t[n..] == t;
      if Lossy(t) == t {
        assert t[..|head|] == head;
        assert ok;
        assert Lossy(t)[n..] == Lossy(t[n..]);
      }
    }
  }

  lemma {:induction false} AsciiIsUtf8(t: Text)
    requires forall i :: 0 <= i < |t| ==> t[i] < 0x80
    ensures Utf8(t)
    decreases |t|
  {
    if t != [] {
      AsciiIsUtf8(t[1..]);
    }
  }

  // ----- blanks around a text -----

  lemma FirstCharThenBlank(t: Text, w: u8)
    requires t != [] && IsWhite1(w)
    ensures FirstChar(t + [w]) == FirstChar(t)
  {
  }

  lemma {:induction false} LossySnoc(t: Text, w: u8)
    requires IsWhite1(w)
    ensures Lossy(t + [w]) == Lossy(t) + [w]
    decreases |t|
  {
    if t == [] {
      assert [w][1..] == [];
    } else {
      FirstCharThenBlank(t, w);
      var n := FirstChar(t).1;
      assert (t + [w])[n..] == t[n..] + [w] && (t + [w])[..n] == t[..n];
      LossySnoc(t[n..], w);
    }
  }

  lemma LossyCons(w: u8, t: Text)
    requires IsWhite1(w)
    ensures Lossy([w] + t) == [w] + Lossy(t)
  {
    assert FirstChar([w] + t) == (true, 1) && ([w] + t)[1..] == t;
  }

  lemma {:induction false} TrimStartSnoc(t: Text, w: u8)
    requires IsWhite1(w)
    ensures TrimStart(t + [w]) == if TrimStart(t) == [] then [] else TrimStart(t) + [w]
    decreases |t|
  {
    if t == [] {
      assert [w][1..] == [];
    } else {
      var n := WhitePrefix(t);
      assert WhitePrefix(t + [w]) == n;
      if n > 0 {
        assert (t + [w])[n..] == t[n..] + [w];
        TrimStartSnoc(t[n..], w);
      }
    }
  }

  lemma TrimSnoc(t: Text, w: u8)
    requires IsWhite1(w)
    ensures Trim(t + [w]) == Trim(t)
  {
    TrimStartSnoc(t, w);
    var x := TrimStart(t);
    if x != [] {
      assert WhiteSuffix(x + [w]) == 1 && (x + [w])[..|x|] == x;
    }
  }

  lemma TrimCons(w: u8, t: Text)
    requires IsWhite1(w)
    ensures Trim([w] + t) == Trim(t)
  {
    assert WhitePrefix([w] + t) == 1 && ([w] + t)[1..] == t;
  }

  lemma {:induction false} LossyAround(before: Text, t: Text, after: Text)
    requires forall i :: 0 <= i < |before| ==> IsWhite1(before[i])
    requires forall i :: 0 <= i < |after| ==> IsWhite1(after[i])
    ensures Lossy(before + t + after) == before + Lossy(t) + after
    decreases |before| + |after|
  {
    hide Lossy;
    if before != [] {
      assert before + t + after == [before[0]] + (before[1..] + t + after);
      LossyCons(before[0], before[1..] + t + after);
      LossyAround(before[1..], t, after);
      assert before == [before[0]] + before[1..];
    } else if after != [] {
      var n := |after| - 1;
      assert before + t + after == (before + t + after[..n]) + [after[n]];
      LossySnoc(before + t + after[..n], after[n]);
      LossyAround(before, t, after[..n]);
      assert after == after[..n] + [after[n]];
    } else {
      assert before + t + after == t;
    }
  }

  lemma {:induction false} TrimAround(before: Text, t: Text, after: Text)
    requires forall i :: 0 <= i < |before| ==> IsWhite1(before[i])
    requires forall i :: 0 <= i < |after| ==> IsWhite1(after[i])
    ensures Trim(before + t + after) == Trim(t)
    decreases |before| + |after|
  {
    hide Trim;
    if before != [] {
      assert before + t + after == [before[0]] + (before[1..] + t + after);
      TrimCons(before[0], before[1..] + t + after);
      TrimAround(before[1..], t, after);
    } else if after != [] {
      var n := |after| - 1;
      assert before + t + after == (before + t + after[..n]) + [after[n]];
      TrimSnoc(before + t + after[..n], after[n]);
      TrimAround(before, t, after[..n]);
    } else {
      assert before + t + after == t;
    }
  }

  /** What cannot begin a character is replaced by U+FFFD, once for the longest
      stretch of it, and decoding goes on behind it. */
  lemma LossyReplaces(t: Text)
    requires t != [] && !FirstChar(t).0
    ensures Lossy(t) == Utf8Of(0xFFFD) + Lossy(t[FirstChar(t).1..])
  {
    assert Utf8Of(0xFFFD) == REPLACEMENT;
  }

  /** Text that begins and ends with printable ASCII is not trimmed. */
  lemma TrimKeepsPrintable(t: Text)
    requires t != [] && 32 < t[0] < 0x80 && 32 < t[|t| - 1] < 0x80
    ensures Trim(t) == t
  {
  }
}
