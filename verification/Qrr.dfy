/** `qRRCmd` argument lists (`src/gdb/packet.rs`): the literal style
    `:<cmd>:-1[:<hexarg>...]` and the all-hex style `:<hexcmd>[:<hexarg>...]`. */
module Qrr {
  import opened Vocabulary
  import opened Texts
  import Hex

  const MINUS_ONE: Text := [45, 49]

  function TrimColons(t: Text): (r: Text)
    ensures r != [] ==> r[0] != COLON
  {
    if t != [] && t[0] == COLON then TrimColons(t[1..]) else t
  }

  /** An argument that is not hex is taken literally. */
  function NewArg(p: Text): Text {
    match Hex.Decode(p)
    case None => p
    case Some(bytes) => Lossy(bytes)
  }

  function NewArgs(parts: seq<Text>): seq<Text> {
    seq(|parts|, i requires 0 <= i < |parts| => NewArg(parts[i]))
  }

  /** A token that is not hex is dropped. */
  function OldArgs(parts: seq<Text>): seq<Text> {
    if parts == [] then []
    else
      var rest := OldArgs(parts[1..]);
      match Hex.Decode(parts[0])
      case None => rest
      case Some(bytes) => [Lossy(bytes)] + rest
  }

  function ParseArgs(rest: Text): seq<Text> {
    var rest := TrimColons(rest);
    if rest == [] then []
    else
      var parts := Split(rest, COLON);
      if |parts| >= 2 && parts[1] == MINUS_ONE then [parts[0]] + NewArgs(parts[2..])
      else OldArgs(parts)
  }

  method ParseQrrCmdArgs(rest: Text) returns (args: seq<Text>)
    ensures args == ParseArgs(rest)
  {
    var trimmed := TrimColons(rest);
    if trimmed == [] {
      return [];
    }
    var parts := Split(trimmed, COLON);
    if |parts| >= 2 && parts[1] == MINUS_ONE {
      args := [parts[0]];
      for i := 2 to |parts|
        invariant args == [parts[0]] + NewArgs(parts[2..i])
      {
        var decoded := Hex.DecodeHex(parts[i]);
        args := args + [if decoded.None? then parts[i] else Lossy(decoded.value)];
        assert parts[2..i + 1] == parts[2..i] + [parts[i]];
      }
      assert parts[2..|parts|] == parts[2..];
    } else {
      args := [];
      for i := 0 to |parts|
        invariant OldArgs(parts) == args + OldArgs(parts[i..])
      {
        var decoded := Hex.DecodeHex(parts[i]);
        if decoded.Some? {
          args := args + [Lossy(decoded.value)];
        }
        assert parts[i..][1..] == parts[i + 1..];
      }
    }
  }

  // ----- what a client sends -----

  function HexAll(args: seq<Text>): (r: seq<Text>)
    ensures |r| == |args|
  {
    seq(|args|, i requires 0 <= i < |args| => Hex.Encode(args[i]))
  }

  function NewForm(cmd: Text, args: seq<Text>): Text {
    [COLON] + Join([cmd, MINUS_ONE] + HexAll(args), COLON)
  }

  function OldForm(cmd: Text, args: seq<Text>): Text {
    [COLON] + Join(HexAll([cmd] + args), COLON)
  }

  predicate AllUtf8(args: seq<Text>) {
    forall i :: 0 <= i < |args| ==> Utf8(args[i])
  }

  lemma HexAllIsPlain(args: seq<Text>)
    ensures forall i :: 0 <= i < |args| ==> COLON !in HexAll(args)[i] && HexAll(args)[i] != MINUS_ONE
  {
    forall i | 0 <= i < |args|
      ensures COLON !in HexAll(args)[i] && HexAll(args)[i] != MINUS_ONE
    {
      Hex.EncodedChars(args[i]);
      assert |HexAll(args)[i]| > 0 ==> HexAll(args)[i][0] != MINUS_ONE[0];
    }
  }

  lemma NewArgsOfHex(args: seq<Text>)
    requires AllUtf8(args)
    ensures NewArgs(HexAll(args)) == args
  {
    forall i | 0 <= i < |args|
      ensures NewArgs(HexAll(args))[i] == args[i]
    {
      Hex.DecodeEncode(args[i]);
      LossyFixesNothingIff(args[i]);
    }
  }

  lemma {:induction false} OldArgsOfHex(args: seq<Text>)
    requires AllUtf8(args)
    ensures OldArgs(HexAll(args)) == args
    decreases |args|
  {
    if args != [] {
      Hex.DecodeEncode(args[0]);
      LossyFixesNothingIff(args[0]);
      OldArgsOfHex(args[1..]);
      assert HexAll(args)[1..] == HexAll(args[1..]);
    }
  }

  lemma JoinStarts(parts: seq<Text>, sep: u8)
    requires parts != [] && parts[0] != []
    ensures Join(parts, sep) != [] && Join(parts, sep)[0] == parts[0][0]
  {
  }

  /** A non-empty, colon-free command and any arguments survive the literal
      style. */
  lemma NewFormParses(cmd: Text, args: seq<Text>)
    requires cmd != [] && COLON !in cmd && AllUtf8(args)
    ensures ParseArgs(NewForm(cmd, args)) == [cmd] + args
  {
    var parts := [cmd, MINUS_ONE] + HexAll(args);
    HexAllIsPlain(args);
    NewArgsOfHex(args);
    JoinStarts(parts, COLON);
    assert NewForm(cmd, args)[1..] == Join(parts, COLON);
    assert TrimColons(NewForm(cmd, args)) == Join(parts, COLON);
    SplitJoin(parts, COLON);
    assert parts[2..] == HexAll(args);
  }

  /** In the all-hex style any non-empty command survives, colons included, and
      no argument can be mistaken for the marker of the other style. */
  lemma OldFormParses(cmd: Text, args: seq<Text>)
    requires cmd != [] && Utf8(cmd) && AllUtf8(args)
    ensures ParseArgs(OldForm(cmd, args)) == [cmd] + args
  {
    var all := [cmd] + args;
    var parts := HexAll(all);
    HexAllIsPlain(all);
    OldArgsOfHex(all);
    Hex.EncodedChars(cmd);
    JoinStarts(parts, COLON);
    assert OldForm(cmd, args)[1..] == Join(parts, COLON);
    assert TrimColons(OldForm(cmd, args)) == Join(parts, COLON);
    SplitJoin(parts, COLON);
  }

  /** The two wire styles say the same thing. */
  lemma StylesAgree(cmd: Text, args: seq<Text>)
    requires cmd != [] && COLON !in cmd && Utf8(cmd) && AllUtf8(args)
    ensures ParseArgs(NewForm(cmd, args)) == ParseArgs(OldForm(cmd, args)) == [cmd] + args
  {
    NewFormParses(cmd, args);
    OldFormParses(cmd, args);
  }

  // ----- malformed arguments -----

  lemma TrimColonsOf(n: nat, t: Text)
    requires t == [] || t[0] != COLON
    ensures TrimColons(seq(n, i => COLON) + t) == t
  {
    var c := seq(n, i => COLON) + t;
    if n == 0 {
      assert c == t;
    } else {
      assert c[1..] == seq(n - 1, i => COLON) + t;
      TrimColonsOf(n - 1, t);
    }
  }

  /** In the literal style every argument that is not hex is taken as it stands,
      and every other one decoded; colons before the command do not count. */
  lemma LiteralArguments(n: nat, cmd: Text, parts: seq<Text>)
    requires cmd != [] && COLON !in cmd && forall i :: 0 <= i < |parts| ==> COLON !in parts[i]
    ensures var args := ParseArgs(seq(n, i => COLON) + Join([cmd, MINUS_ONE] + parts, COLON));
      && |args| == |parts| + 1 && args[0] == cmd
      && forall i :: 0 <= i < |parts| ==>
           args[i + 1] == match Hex.Decode(parts[i]) case None => parts[i] case Some(bytes) => Lossy(bytes)
  {
    hide Hex.Decode, Lossy;
    var all := [cmd, MINUS_ONE] + parts;
    JoinStarts(all, COLON);
    TrimColonsOf(n, Join(all, COLON));
    SplitJoin(all, COLON);
    assert all[2..] == parts;
  }

  lemma {:induction false} OldArgsAppend(a: seq<Text>, b: seq<Text>)
    ensures OldArgs(a + b) == OldArgs(a) + OldArgs(b)
    decreases |a|
  {
    hide Hex.Decode, Lossy;
    if a == [] {
      assert a + b == b;
    } else {
      assert (a + b)[1..] == a[1..] + b;
      OldArgsAppend(a[1..], b);
    }
  }

  lemma TakenAsHex(n: nat, all: seq<Text>)
    requires all != [] && all[0] != [] && (forall i :: 0 <= i < |all| ==> COLON !in all[i])
    requires |all| > 1 ==> all[1] != MINUS_ONE
    ensures ParseArgs(seq(n, i => COLON) + Join(all, COLON)) == OldArgs(all)
  {
    hide OldArgs;
    JoinStarts(all, COLON);
    TrimColonsOf(n, Join(all, COLON));
    SplitJoin(all, COLON);
  }

  /** In the all-hex style a token that is not hex is dropped, wherever it stands,
      and every other one decoded in its place. */
  lemma HexTokens(n: nat, a: seq<Text>, p: Text, b: seq<Text>)
    requires var all := a + [p] + b;
      && all[0] != [] && (forall i :: 0 <= i < |all| ==> COLON !in all[i]) && (|all| > 1 ==> all[1] != MINUS_ONE)
    ensures ParseArgs(seq(n, i => COLON) + Join(a + [p] + b, COLON)) ==
      OldArgs(a) + (match Hex.Decode(p) case None => [] case Some(bytes) => [Lossy(bytes)]) + OldArgs(b)
  {
    TakenAsHex(n, a + [p] + b);
    hide ParseArgs, Join, Hex.Decode, Lossy;
    OldArgsAppend(a + [p], b);
    OldArgsAppend(a, [p]);
    OneToken(p);
  }

  lemma OneToken(p: Text)
    ensures OldArgs([p]) == match Hex.Decode(p) case None => [] case Some(bytes) => [Lossy(bytes)]
  {
    hide Hex.Decode, Lossy;
    assert [p][1..] == [];
  }
}
