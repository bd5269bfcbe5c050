/** The reverse-debugging commands `vRun` and `qRRCmd`
    (`src/gdb/commands.rs`). */
module Commands {
  import opened Vocabulary
  import opened Texts
  import opened Checkpoints
  import Radix
  import Hex
  import Qrr

  // ----- vRun -----

  const LOWER_C: u8 := 99
  const UPPER_C: u8 := 67

  /** `str::split_once`. */
  function SplitOnce(t: Text, sep: u8): (r: Option<(Text, Text)>)
    ensures r.Some? ==> sep !in r.value.0 && t == r.value.0 + [sep] + r.value.1
    ensures r.None? ==> sep !in t
  {
    if t == [] then None
    else if t[0] == sep then Some(([], t[1..]))
    else
      match SplitOnce(t[1..], sep)
      case None => None
      case Some((a, b)) => Some(([t[0]] + a, b))
  }

  /** The first argument, decoded and trimmed; a missing one reads as empty. */
  function RestartText(args: seq<Text>): Text {
    if args == [] then [] else Trim(Lossy(args[0]))
  }

  /** Where a restart text points. The position form is tried first, because a
      sequence may itself begin with the hex digit `c`. */
  function RestartTarget(text: Text, table: Table, first: Position): Option<Position> {
    match SplitOnce(text, COLON)
    case Some((seqText, stepsText)) =>
      var sequence, steps := Radix.Parse(seqText, 16), Radix.Parse(stepsText, 16);
      if sequence.None? || steps.None? then None else Some(Position(sequence.value, steps.value))
    case None =>
      if text == [] then Some(first)
      else if text[0] == LOWER_C || text[0] == UPPER_C then
        var id := Radix.Parse(text[1..], 10);
        if id.None? then None else PositionOf(table, id.value)
      else None
  }

  /** The slice of a debug target the commands use. */
  datatype Cursor<!S(!new)> = Cursor(
    position: S -> Position,
    first: S -> Position,
    last: S -> Position,
    goto: (S, Position) -> (S, bool))
  {
    /** A jump that fails does not move. */
    ghost predicate FailureStays() {
      forall s, p :: !goto(s, p).1 ==> position(goto(s, p).0) == position(s)
    }

    /** The jump of the replayed process: it never fails, it clamps into the
        lifetime, and the replay engine then settles on a position of the trace,
        which is the clamped one whenever that is in the trace. */
    ghost predicate Clamps(inTrace: Position -> bool) {
      forall s, p ::
        && goto(s, p).1 && inTrace(position(goto(s, p).0))
        && Within(position(goto(s, p).0), first(s), last(s))
        && (inTrace(Clamp(p, first(s), last(s))) ==> position(goto(s, p).0) == Clamp(p, first(s), last(s)))
    }
  }

  predicate Within(p: Position, lo: Position, hi: Position) { !Before(p, lo) && !Before(hi, p) }

  /** `Ord::clamp`. */
  function Clamp(p: Position, lo: Position, hi: Position): Position {
    if Before(p, lo) then lo else if Before(hi, p) then hi else p
  }

  class CommandTarget<S(!new)> {
    const cursor: Cursor<S>
    var state: S

    constructor (cursor: Cursor<S>, state: S)
      ensures this.cursor == cursor && this.state == state
    {
      this.cursor := cursor;
      this.state := state;
    }

    method Goto(p: Position) returns (ok: bool)
      modifies this
      ensures state == cursor.goto(old(state), p).0 && ok == cursor.goto(old(state), p).1
    {
      var (next, landed) := cursor.goto(state, p);
      state := next;
      ok := landed;
    }

    /** A restart that names a place sends the target exactly there, and is
        acknowledged as far as the jump is; one that names none leaves the
        target untouched. So where failed jumps stay, no rejected restart moves
        the target, of whatever cause. */
    method HandleVrun(table: Table, args: seq<Text>) returns (r: Result<(), DebugError>)
      modifies this
      ensures match RestartTarget(RestartText(args), table, cursor.first(old(state)))
        case None => r == Err(InvalidCommand) && state == old(state)
        case Some(p) =>
          && state == cursor.goto(old(state), p).0
          && r == if cursor.goto(old(state), p).1 then Ok(()) else Err(Ttd)
      ensures r.Err? && cursor.FailureStays() ==> cursor.position(state) == cursor.position(old(state))
    {
      var text := RestartText(args);
      match SplitOnce(text, COLON) {
        case Some((seqText, stepsText)) =>
          var sequence, steps := Radix.Parse(seqText, 16), Radix.Parse(stepsText, 16);
          if sequence.None? || steps.None? {
            return Err(InvalidCommand);
          }
          var ok := Goto(Position(sequence.value, steps.value));
          return if ok then Ok(()) else Err(Ttd);
        case None =>
      }
      var target;
      if text == [] {
        target := cursor.first(state);
      } else if text[0] == LOWER_C || text[0] == UPPER_C {
        var id := Radix.Parse(text[1..], 10);
        if id.None? {
          return Err(InvalidCommand);
        }
        var saved := PositionOf(table, id.value);
        if saved.None? {
          return Err(InvalidCommand);
        }
        target := saved.value;
      } else {
        return Err(InvalidCommand);
      }
      var ok := Goto(target);
      return if ok then Ok(()) else Err(Ttd);
    }
  }

  /** A restart without arguments, or with an empty one, goes to the start of the
      trace. */
  lemma BareRestart(table: Table, first: Position)
    ensures RestartTarget(RestartText([]), table, first) == Some(first)
    ensures RestartTarget(RestartText([[]]), table, first) == Some(first)
  {
  }

  /** Blanks around a text do not change where it points, whatever the text. */
  lemma BlanksDoNotMatter(before: Text, text: Text, after: Text)
    requires forall i :: 0 <= i < |before| ==> IsWhite1(before[i])
    requires forall i :: 0 <= i < |after| ==> IsWhite1(after[i])
    ensures RestartText([before + text + after]) == RestartText([text])
  {
    LossyAround(before, text, after);
    TrimAround(before, Lossy(text), after);
  }

  // ----- where a restart lands -----

  /** An acknowledged restart of a clamping target stands where its text points
      if and only if that is a position of the trace, within the lifetime. */
  lemma RestartLandsIff<S(!new)>(c: Cursor<S>, inTrace: Position -> bool, s: S, text: Text, table: Table)
    requires c.Clamps(inTrace) && RestartTarget(text, table, c.first(s)).Some?
    ensures var p := RestartTarget(text, table, c.first(s)).value; var (after, ok) := c.goto(s, p);
      ok && (c.position(after) == p <==> inTrace(p) && Within(p, c.first(s), c.last(s)))
  {
    var p := RestartTarget(text, table, c.first(s)).value;
    assert Within(p, c.first(s), c.last(s)) ==> Clamp(p, c.first(s), c.last(s)) == p;
  }

  /** A target that can stand on every position from 0:0 to `last`. */
  function Recording(last: Position): Cursor<Position> {
    Cursor((s: Position) => s, (s: Position) => Position(0, 0), (s: Position) => last,
           (s: Position, p: Position) => (Clamp(p, Position(0, 0), last), true))
  }

  lemma RecordingClamps(last: Position)
    ensures Recording(last).Clamps((q: Position) => Within(q, Position(0, 0), last))
  {
  }

  /** On this clamping target the printed text of any position past the end is
      acknowledged, and the target stands at the end instead. */
  lemma PastTheEnd(last: Position, p: Position, s: Position, table: Table)
    requires Before(last, p)
    ensures var c := Recording(last); var text := RestartText([FormatPosition(p)]);
      && c.Clamps((q: Position) => Within(q, Position(0, 0), last))
      && RestartTarget(text, table, c.first(s)) == Some(p)
      && c.goto(s, p) == (last, true) && c.position(last) != p
  {
    RecordingClamps(last);
    PositionRoundTrip(p, table, Recording(last).first(s));
  }

  /** Read as colon-separated fields: exactly the texts with two hexadecimal
      fields are positions, and text without a colon is a checkpoint or empty. */
  lemma RestartAcceptsIff(text: Text, table: Table, first: Position, p: Position)
    ensures var fields := Split(text, COLON);
      RestartTarget(text, table, first) == Some(p) <==>
        || (|fields| == 2
            && Radix.Parse(fields[0], 16) == Some(p.sequence) && Radix.Parse(fields[1], 16) == Some(p.steps))
        || (|fields| == 1 && text == [] && p == first)
        || (|fields| == 1 && text != [] && (text[0] == LOWER_C || text[0] == UPPER_C)
            && Radix.Parse(text[1..], 10).Some? && PositionOf(table, Radix.Parse(text[1..], 10).value) == Some(p))
  {
    match SplitOnce(text, COLON)
    case None => SplitWhole(text, COLON);
    case Some((a, b)) =>
      SplitAt(a, b, COLON);
      if COLON in b {
        ColonIsNoDigit(b);
        var i :| 0 <= i < |b| && b[i] == COLON;
        ManyFields(b);
      } else {
        SplitWhole(b, COLON);
      }
  }

  lemma {:induction false} ParseRejects(t: Text, acc: u64, base: Radix.Base)
    requires COLON in t
    ensures Radix.ParseFrom(t, acc, base).None?
    decreases |t|
  {
    var d := Radix.DigitValue(t[0], base);
    if t[0] != COLON && d.Some? && acc as int * base + d.value <= U64_MAX as int {
      ParseRejects(t[1..], (acc as int * base + d.value) as u64, base);
    }
  }

  lemma ColonIsNoDigit(t: Text)
    requires COLON in t
    ensures Radix.Parse(t, 16).None?
  {
    if t[0] == Radix.PLUS {
      assert COLON in t[1..];
      ParseRejects(t[1..], 0, 16);
    } else {
      ParseRejects(t, 0, 16);
    }
  }

  lemma {:induction false} ManyFields(t: Text)
    requires COLON in t
    ensures |Split(t, COLON)| >= 2
    decreases |t|
  {
    if t[0] != COLON {
      ManyFields(t[1..]);
    }
  }

  lemma {:induction false} SplitOnceAt(a: Text, b: Text, sep: u8)
    requires sep !in a
    ensures SplitOnce(a + [sep] + b, sep) == Some((a, b))
    decreases |a|
  {
    var t := a + [sep] + b;
    if a == [] {
      assert t[1..] == b;
    } else {
      assert t[1..] == a[1..] + [sep] + b;
      SplitOnceAt(a[1..], b, sep);
      assert [a[0]] + a[1..] == a;
    }
  }

  /** ASCII text without blanks at its ends reaches the parser unchanged. */
  lemma PlainArgument(t: Text)
    requires t != [] && forall i :: 0 <= i < |t| ==> 32 < t[i] < 0x80
    ensures RestartText([t]) == t
  {
    AsciiIsUtf8(t);
    LossyFixesNothingIff(t);
    TrimKeepsPrintable(t);
  }

  /** A printed position restarts at exactly that position, for all 64-bit
      sequences and steps; no checkpoint can get in the way. */
  lemma PositionRoundTrip(p: Position, table: Table, first: Position)
    ensures RestartTarget(RestartText([FormatPosition(p)]), table, first) == Some(p)
  {
    DigitsArePlain(p.sequence as int, 16);
    DigitsArePlain(p.steps as int, 16);
    PlainArgument(FormatPosition(p));
    SplitOnceAt(Radix.Print(p.sequence as int, 16), Radix.Print(p.steps as int, 16), COLON);
    Radix.ParsePrint(p.sequence, 16);
    Radix.ParsePrint(p.steps, 16);
  }

  function CheckpointName(c: u8, id: u64): Text { [c] + Radix.Print(id as int, 10) }

  lemma NoColon(t: Text)
    requires COLON !in t
    ensures SplitOnce(t, COLON).None?
  {
  }

  /** `c` or `C` and a printed id restart at that checkpoint, if it is live. */
  lemma CheckpointRoundTrip(c: u8, id: u64, table: Table, first: Position)
    requires c == LOWER_C || c == UPPER_C
    ensures RestartTarget(RestartText([CheckpointName(c, id)]), table, first) == PositionOf(table, id)
  {
    var t := CheckpointName(c, id);
    DigitsArePlain(id as int, 10);
    PlainArgument(t);
    NoColon(t);
    assert t[1..] == Radix.Print(id as int, 10);
    Radix.ParsePrint(id, 10);
  }

  /** A checkpoint saved at any point of any history is where its name restarts
      to until it is deleted, and nowhere afterwards. */
  lemma CheckpointRestarts(table: Table, pos: Position, where_: Text, later: seq<TableOp>, c: u8, first: Position)
    requires table.nextId as int + 1 + Inserts(later) <= TWO_64 && (c == LOWER_C || c == UPPER_C)
    ensures var now := Edited(Inserted(table, pos, where_), later);
      RestartTarget(RestartText([CheckpointName(c, table.nextId)]), now, first) ==
        if RemoveOp(table.nextId) in later then None else Some(pos)
  {
    CheckpointRoundTrip(c, table.nextId, Edited(Inserted(table, pos, where_), later), first);
    InsertLasts(table, pos, where_, later);
  }

  // ----- qRRCmd -----

  const WHEN := Ascii("when")
  const CHECKPOINT := Ascii("checkpoint")
  const INFO := Ascii("info checkpoints")
  const DELETE := Ascii("delete checkpoint")
  const NO_SUCH := Ascii("No such checkpoint")
  const DELETED := Ascii("Deleted checkpoint ")

  /** What a command list is answered with, and what it makes of the table. */
  function Command(pos: Position, t: Table, args: seq<Text>): (Text, Table) {
    if args == [] then ([], t)
    else if args[0] == WHEN then (FormatPosition(pos), t)
    else if args[0] == CHECKPOINT then
      var where_ := if |args| > 1 then args[1] else [];
      (Ack(t.nextId, Saved(pos, where_)), Inserted(t, pos, where_))
    else if args[0] == INFO then (Listing(t), t)
    else if args[0] == DELETE then
      var id := if |args| > 1 then Radix.Parse(args[1], 10) else None;
      if id.Some? && id.value in t.byId then
        (DELETED + Radix.Print(id.value as int, 10), Removed(t, id.value))
      else (NO_SUCH, t)
    else ([], t)
  }

  lemma RemoveAbsent(t: Table, id: u64)
    requires id !in t.byId
    ensures Removed(t, id) == t
  {
  }

  /** `handle_qrrcmd` and the hex encoding of its reply. */
  method AnswerQrrcmd(pos: Position, table: CheckpointTable, packet: Text) returns (reply: Text)
    modifies table
    ensures (Hex.Decode(reply), table.View()) ==
      (var (text, after) := Command(pos, old(table.View()), Qrr.ParseArgs(packet)); (Some(text), after))
  {
    ghost var was := table.View();
    ghost var list := Qrr.ParseArgs(packet);
    var args := Qrr.ParseQrrCmdArgs(packet);
    var text: Text := [];
    if args == [] {
    } else if args[0] == WHEN {
      text := FormatPosition(pos);
    } else if args[0] == CHECKPOINT {
      var _, ack := table.Insert(pos, if |args| > 1 then args[1] else []);
      text := ack;
    } else if args[0] == INFO {
      text := table.Render();
    } else if args[0] == DELETE {
      var id := if |args| > 1 then Radix.Parse(args[1], 10) else None;
      var found := false;
      if id.Some? {
        found := table.Remove(id.value);
        if !found {
          RemoveAbsent(was, id.value);
        }
      }
      text := if found then DELETED + Radix.Print(id.value as int, 10) else NO_SUCH;
    }
    assert (text, table.View()) == Command(pos, was, list);
    Hex.DecodeEncode(text);
    reply := Hex.EncodeHex(text);
  }

  // ----- what the client makes of the replies -----

  lemma AckSpaces()
    ensures Ascii("Checkpoint ") == Ascii("Checkpoint") + [SPACE]
    ensures Ascii(" at ") == [SPACE] + Ascii("at") + [SPACE]
  {
  }

  lemma FourWords(a: Text, b: Text, c: Text, rest: Text)
    requires SPACE !in a && SPACE !in b && SPACE !in c
    ensures Split((a + [SPACE]) + b + ([SPACE] + c + [SPACE]) + rest, SPACE) == [a, b, c] + Split(rest, SPACE)
  {
    hide Split;
    var inner := c + [SPACE] + rest;
    var outer := b + [SPACE] + inner;
    SplitAt(c, rest, SPACE);
    SplitAt(b, inner, SPACE);
    SplitAt(a, outer, SPACE);
    var y := [SPACE] + c + [SPACE];
    calc {
      (a + [SPACE]) + b + y + rest;
      { Regroup((a + [SPACE]) + b, y, rest); Regroup(a + [SPACE], b, y + rest); }
      (a + [SPACE]) + (b + (y + rest));
      { assert y + rest == [SPACE] + inner; }
      (a + [SPACE]) + (b + ([SPACE] + inner));
      { Regroup(b, [SPACE], inner); }
      a + [SPACE] + outer;
    }
  }

  lemma WhenComesFirst(pos: Position, where_: Text)
    ensures var rest := if where_ == [] then [] else [SPACE] + where_;
      Split(FormatPosition(pos) + rest, SPACE) ==
        [FormatPosition(pos)] + if where_ == [] then [] else Split(where_, SPACE)
  {
    DigitsArePlain(pos.sequence as int, 16);
    DigitsArePlain(pos.steps as int, 16);
    var when := FormatPosition(pos);
    if where_ == [] {
      assert when + [] == when;
      SplitWhole(when, SPACE);
    } else {
      assert when + ([SPACE] + where_) == when + [SPACE] + where_;
      SplitAt(when, where_, SPACE);
    }
  }

  /** The client reads the id, the position and its own text out of an
      acknowledgement. */
  lemma AckParses(id: u64, pos: Position, where_: Text)
    ensures var words := Split(Ack(id, Saved(pos, where_)), SPACE);
      && |words| >= 4 && words[0] == Ascii("Checkpoint") && words[2] == Ascii("at")
      && Radix.Parse(words[1], 10) == Some(id)
      && words[3] == FormatPosition(pos)
      && (if where_ == [] then |words| == 4 else |words| > 4 && Join(words[4..], SPACE) == Sanitize(where_))
  {
    hide Split, FormatPosition, Join, Sanitize;
    SanitizeKeepsEmpty(where_);
    var cp := Saved(pos, where_);
    var number := Radix.Print(id as int, 10);
    var rest := cp.when + if cp.where_ == [] then [] else [SPACE] + cp.where_;
    DigitsArePlain(id as int, 10);
    Radix.ParsePrint(id, 10);
    AckSpaces();
    FourWords(Ascii("Checkpoint"), number, Ascii("at"), rest);
    WhenComesFirst(pos, cp.where_);
    JoinSplit(cp.where_, SPACE);
    if where_ != [] {
      var tail := Split(cp.where_, SPACE);
      assert ([Ascii("Checkpoint"), number, Ascii("at")] + ([FormatPosition(pos)] + tail))[4..] == tail;
    }
    assert Ack(id, cp) == Ascii("Checkpoint ") + number + Ascii(" at ") + rest;
  }

  lemma CommandsDiffer()
    ensures WHEN != CHECKPOINT && WHEN != INFO && WHEN != DELETE
    ensures CHECKPOINT != INFO && CHECKPOINT != DELETE && INFO != DELETE
  {
    assert |WHEN| == 4 && |CHECKPOINT| == 10 && |INFO| == 16 && |DELETE| == 17;
  }

  lemma WhenIsPlain()
    ensures WHEN != [] && COLON !in WHEN && Utf8(WHEN)
  {
    LettersArePlain("when");
  }

  lemma CheckpointIsPlain()
    ensures CHECKPOINT != [] && COLON !in CHECKPOINT && Utf8(CHECKPOINT)
  {
    LettersArePlain("checkpoint");
  }

  lemma InfoIsPlain()
    ensures INFO != [] && COLON !in INFO && Utf8(INFO)
  {
    LettersArePlain("info checkpoints");
  }

  lemma DeleteIsPlain()
    ensures DELETE != [] && COLON !in DELETE && Utf8(DELETE)
  {
    LettersArePlain("delete checkpoint");
  }

  lemma LettersArePlain(s: string)
    requires forall i :: 0 <= i < |s| ==> s[i] == ' ' || 'a' <= s[i] <= 'z'
    ensures COLON !in Ascii(s) && Utf8(Ascii(s))
  {
    AsciiIsUtf8(Ascii(s));
  }

  /** A packet in either wire style. */
  function Packet(newStyle: bool, cmd: Text, args: seq<Text>): Text {
    if newStyle then Qrr.NewForm(cmd, args) else Qrr.OldForm(cmd, args)
  }

  lemma PacketParses(newStyle: bool, cmd: Text, args: seq<Text>)
    requires cmd != [] && COLON !in cmd && Utf8(cmd) && Qrr.AllUtf8(args)
    ensures Qrr.ParseArgs(Packet(newStyle, cmd, args)) == [cmd] + args
  {
    Qrr.StylesAgree(cmd, args);
  }

  /** End to end, in either wire style: the answer to `when`, sent back as a
      restart, leads to where the target was, and asking changes nothing. */
  lemma WhenThenRestart(t: Table, pos: Position, newStyle: bool, first: Position)
    ensures var (when, after) := Command(pos, t, Qrr.ParseArgs(Packet(newStyle, WHEN, [])));
      after == t && RestartTarget(RestartText([when]), t, first) == Some(pos)
  {
    WhenIsPlain();
    Qrr.StylesAgree(WHEN, []);
    PositionRoundTrip(pos, t, first);
  }

  lemma SavePacket(t: Table, pos: Position, where_: Text, newStyle: bool)
    requires Utf8(where_)
    ensures Command(pos, t, Qrr.ParseArgs(Packet(newStyle, CHECKPOINT, [where_]))) ==
      (Ack(t.nextId, Saved(pos, where_)), Inserted(t, pos, where_))
  {
    hide Packet, Qrr.ParseArgs, FormatPosition, Listing, Ack, Inserted, Saved, Utf8;
    CommandsDiffer();
    CheckpointIsPlain();
    PacketParses(newStyle, CHECKPOINT, [where_]);
    assert ([CHECKPOINT] + [where_])[1] == where_;
  }

  lemma InfoPacket(t: Table, pos: Position, newStyle: bool)
    ensures Command(pos, t, Qrr.ParseArgs(Packet(newStyle, INFO, []))) == (Listing(t), t)
  {
    hide Packet, Qrr.ParseArgs, FormatPosition, Listing, Ack, Inserted, Utf8;
    CommandsDiffer();
    InfoIsPlain();
    PacketParses(newStyle, INFO, []);
  }

  /** End to end, in either wire style: saving a checkpoint, reading its id out
      of the reply and restarting at that id leads back to the position. */
  lemma SaveThenRestart(t: Table, pos: Position, where_: Text, newStyle: bool, first: Position)
    requires Utf8(where_)
    ensures var (ack, saved) := Command(pos, t, Qrr.ParseArgs(Packet(newStyle, CHECKPOINT, [where_])));
      var words := Split(ack, SPACE);
      var id := if |words| >= 4 then Radix.Parse(words[1], 10) else None;
      && id.Some?
      && RestartTarget(RestartText([CheckpointName(LOWER_C, id.value)]), saved, first) == Some(pos)
      && RestartTarget(RestartText([words[3]]), saved, first) == Some(pos)
  {
    hide Command, Packet, Qrr.ParseArgs, Split, Ack, Utf8, RestartTarget, RestartText, Sanitize, Join;
    SavePacket(t, pos, where_, newStyle);
    AckParses(t.nextId, pos, where_);
    CheckpointRoundTrip(LOWER_C, t.nextId, Inserted(t, pos, where_), first);
    PositionRoundTrip(pos, Inserted(t, pos, where_), first);
  }

  lemma DigitsAreUtf8(id: u64)
    ensures Utf8(Radix.Print(id as int, 10))
  {
    DigitsArePlain(id as int, 10);
    AsciiIsUtf8(Radix.Print(id as int, 10));
  }

  lemma DeleteCommand(t: Table, pos: Position, args: seq<Text>, id: u64)
    requires |args| == 2 && args[0] == DELETE && Radix.Parse(args[1], 10) == Some(id)
    ensures Command(pos, t, args) ==
      (if id in t.byId then DELETED + Radix.Print(id as int, 10) else NO_SUCH, Removed(t, id))
  {
    hide FormatPosition, Listing, Ack, Radix.Print, Radix.Parse;
    CommandsDiffer();
    if id !in t.byId {
      RemoveAbsent(t, id);
    }
  }

  /** Deleting by printed id, in either wire style, removes that checkpoint and no
      other. */
  lemma DeleteById(t: Table, pos: Position, id: u64, newStyle: bool)
    ensures var digits := Radix.Print(id as int, 10);
      var (text, after) := Command(pos, t, Qrr.ParseArgs(Packet(newStyle, DELETE, [digits])));
      && after == Removed(t, id)
      && text == if id in t.byId then DELETED + digits else NO_SUCH
  {
    hide Command, Utf8, Packet, Qrr.ParseArgs, Radix.Print, Radix.Parse;
    var digits := Radix.Print(id as int, 10);
    DeleteIsPlain();
    DigitsAreUtf8(id);
    PacketParses(newStyle, DELETE, [digits]);
    Radix.ParsePrint(id, 10);
    DeleteCommand(t, pos, [DELETE] + [digits], id);
  }

  /** In either wire style, whatever the history, `info checkpoints` is answered
      with the header and one three-field row per live checkpoint, in id order,
      and changes nothing. */
  lemma InfoLists(ops: seq<TableOp>, pos: Position, newStyle: bool)
    ensures var t := Edited(EMPTY, ops); var ids := Ascending(t.byId.Keys);
      var (text, after) := Command(pos, t, Qrr.ParseArgs(Packet(newStyle, INFO, [])));
      var lines := Split(text, NEWLINE);
      && after == t && |lines| == |ids| + 2 && lines[|ids| + 1] == [] && Split(lines[0], TAB) == HEADER
      && forall i :: 0 <= i < |ids| ==> Split(lines[i + 1], TAB) == Fields(ids[i], t.byId[ids[i]])
  {
    hide Command, Packet, Qrr.ParseArgs, Edited, Split, Listing, Fields;
    InfoPacket(Edited(EMPTY, ops), pos, newStyle);
    ListingParsesBack(ops);
  }

  /** End to end, packet by packet: a checkpoint saved by a `checkpoint` packet
      after any history is listed by a later `info checkpoints` packet, with the
      id it was given, the position it was saved at and the text of that packet
      made harmless, until it is deleted. */
  lemma SavedIsListed(
      before: seq<TableOp>, at: Position, where_: Text, later: seq<TableOp>, now: Position,
      saveStyle: bool, infoStyle: bool)
    requires 2 + Inserts(before) + Inserts(later) <= TWO_64 && Utf8(where_)
    ensures var id := (1 + Inserts(before)) as u64;
      var (_, saved) := Command(at, Edited(EMPTY, before), Qrr.ParseArgs(Packet(saveStyle, CHECKPOINT, [where_])));
      var t := Edited(saved, later);
      var (text, after) := Command(now, t, Qrr.ParseArgs(Packet(infoStyle, INFO, [])));
      var ids := Ascending(t.byId.Keys);
      var lines := Split(text, NEWLINE);
      && after == t && |lines| == |ids| + 2 && (id in ids <==> RemoveOp(id) !in later)
      && forall i :: 0 <= i < |ids| && ids[i] == id ==>
           Split(lines[i + 1], TAB) ==
             [Radix.Print(id as int, 10), FormatPosition(at), if where_ == [] then Ascii("-") else Sanitize(where_)]
  {
    hide Command, Packet, Qrr.ParseArgs, Edited, Split, Listing, FormatPosition, Sanitize, Inserts, Inserted, Utf8;
    SavePacket(Edited(EMPTY, before), at, where_, saveStyle);
    InfoPacket(Edited(Inserted(Edited(EMPTY, before), at, where_), later), now, infoStyle);
    EditedAppend(EMPTY, before + [InsertOp(at, where_)], later);
    EditedAppend(EMPTY, before, [InsertOp(at, where_)]);
    OneInsert(Edited(EMPTY, before), at, where_);
    RowOfInsert(before, at, where_, later);
  }

  /** Any other command, and none at all, gets the empty answer and changes
      nothing. */
  lemma OtherCommandsAreEmpty(t: Table, pos: Position, cmd: Text, args: seq<Text>, newStyle: bool)
    requires cmd != [] && COLON !in cmd && Utf8(cmd) && Qrr.AllUtf8(args)
    requires cmd != WHEN && cmd != CHECKPOINT && cmd != INFO && cmd != DELETE
    ensures Command(pos, t, Qrr.ParseArgs(Packet(newStyle, cmd, args))) == ([], t)
    ensures Command(pos, t, []) == ([], t)
  {
    PacketParses(newStyle, cmd, args);
  }

  /** A deletion without a number in range deletes nothing and says so. */
  lemma DeleteNeedsANumber(t: Table, pos: Position, args: seq<Text>, newStyle: bool)
    requires Qrr.AllUtf8(args) && (args == [] || Radix.Parse(args[0], 10).None?)
    ensures Command(pos, t, Qrr.ParseArgs(Packet(newStyle, DELETE, args))) == (NO_SUCH, t)
  {
    CommandsDiffer();
    DeleteIsPlain();
    PacketParses(newStyle, DELETE, args);
    assert args != [] ==> ([DELETE] + args)[1] == args[0];
  }

  /** A checkpoint saved without a text reads as saved with an empty one. */
  lemma SaveWithoutText(t: Table, pos: Position, newStyle: bool)
    ensures Command(pos, t, Qrr.ParseArgs(Packet(newStyle, CHECKPOINT, []))) ==
      (Ack(t.nextId, Saved(pos, [])), Inserted(t, pos, []))
  {
    CommandsDiffer();
    CheckpointIsPlain();
    PacketParses(newStyle, CHECKPOINT, []);
  }
}
