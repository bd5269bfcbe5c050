/** The emulated rr checkpoints (`src/gdb/checkpoint.rs`). */
module Checkpoints {
  import opened Vocabulary
  import opened Texts
  import Radix

  /** `{:X}:{:X}`. */
  function FormatPosition(p: Position): Text {
    Radix.Print(p.sequence as int, 16) + [COLON] + Radix.Print(p.steps as int, 16)
  }

  datatype Checkpoint = Checkpoint(position: Position, when: Text, where_: Text)

  datatype Table = Table(byId: map<u64, Checkpoint>, nextId: u64)

  const EMPTY := Table(map[], 1)

  /** Tabs and line ends in client text become spaces. */
  function Sanitize(t: Text): (r: Text)
    ensures |r| == |t|
    ensures TAB !in r && NEWLINE !in r && RETURN !in r
    ensures forall i :: 0 <= i < |t| ==>
      if t[i] == TAB || t[i] == NEWLINE || t[i] == RETURN then r[i] == SPACE else r[i] == t[i]
  {
    seq(|t|, i requires 0 <= i < |t| => if t[i] in [TAB, NEWLINE, RETURN] then SPACE else t[i])
  }

  function Saved(pos: Position, where_: Text): Checkpoint {
    Checkpoint(pos, FormatPosition(pos), Sanitize(where_))
  }

  /** The id counter is a machine word. */
  function Bump(id: u64): u64 { if id == U64_MAX then 0 else id + 1 }

  function Inserted(t: Table, pos: Position, where_: Text): Table {
    Table(t.byId[t.nextId := Saved(pos, where_)], Bump(t.nextId))
  }

  function Removed(t: Table, id: u64): Table {
    t.(byId := t.byId - {id})
  }

  function PositionOf(t: Table, id: u64): Option<Position> {
    if id in t.byId then Some(t.byId[id].position) else None
  }

  /** The acknowledgement the client parses: `Checkpoint <id> at <when>[ <where>]`. */
  function Ack(id: u64, cp: Checkpoint): Text {
    Ascii("Checkpoint ") + Radix.Print(id as int, 10) + Ascii(" at ") + cp.when
    + (if cp.where_ == [] then [] else [SPACE] + cp.where_)
  }

  // ----- the listing -----

  /** The three columns of a row. */
  function Fields(id: u64, cp: Checkpoint): seq<Text> {
    [Radix.Print(id as int, 10), cp.when, if cp.where_ == [] then Ascii("-") else cp.where_]
  }

  const HEADER: seq<Text> := [Ascii("Num"), Ascii("When"), Ascii("Where")]

  function Line(fields: seq<Text>): Text
    requires fields != []
  {
    Join(fields, TAB) + [NEWLINE]
  }

  function Rows(byId: map<u64, Checkpoint>, ids: seq<u64>): Text
    requires forall i :: 0 <= i < |ids| ==> ids[i] in byId
  {
    if ids == [] then [] else Line(Fields(ids[0], byId[ids[0]])) + Rows(byId, ids[1..])
  }

  predicate IsSmallest(m: u64, ids: set<u64>) {
    m in ids && forall x :: x in ids ==> m <= x
  }

  lemma {:induction false} SmallestExists(ids: set<u64>) returns (m: u64)
    requires ids != {}
    ensures IsSmallest(m, ids)
    decreases ids
  {
    var x :| x in ids;
    m := x;
    if ids != {x} {
      var least := SmallestExists(ids - {x});
      m := if x < least then x else least;
      forall y | y in ids
        ensures m <= y
      {
        assert y == x || y in ids - {x};
      }
    }
  }

  lemma HasSmallest(ids: set<u64>)
    requires ids != {}
    ensures exists m :: IsSmallest(m, ids)
  {
    var m := SmallestExists(ids);
  }

  function Smallest(ids: set<u64>): (m: u64)
    requires ids != {}
    ensures IsSmallest(m, ids)
  {
    HasSmallest(ids);
    var m :| IsSmallest(m, ids);
    m
  }

  /** The order a `BTreeMap` is iterated in. */
  function Ascending(ids: set<u64>): (s: seq<u64>)
    ensures forall x :: x in s <==> x in ids
    ensures forall i, k :: 0 <= i < k < |s| ==> s[i] < s[k]
  {
    if ids == {} then []
    else
      var m := Smallest(ids);
      var rest := Ascending(ids - {m});
      assert forall x :: x in ids <==> x == m || x in rest;
      [m] + rest
  }

  function Listing(t: Table): Text {
    Line(HEADER) + Rows(t.byId, Ascending(t.byId.Keys))
  }

  class CheckpointTable {
    var byId: map<u64, Checkpoint>
    var nextId: u64

    function View(): Table
      reads this
    {
      Table(byId, nextId)
    }

    constructor ()
      ensures View() == EMPTY
    {
      byId := map[];
      nextId := 1;
    }

    method Insert(pos: Position, where_: Text) returns (id: u64, ack: Text)
      modifies this
      ensures id == old(nextId) && View() == Inserted(old(View()), pos, where_)
      ensures ack == Ack(id, Saved(pos, where_))
    {
      id := nextId;
      nextId := Bump(nextId);
      var cp := Checkpoint(pos, FormatPosition(pos), Sanitize(where_));
      byId := byId[id := cp];
      ack := Ascii("Checkpoint ") + Radix.Print(id as int, 10) + Ascii(" at ") + cp.when;
      if cp.where_ != [] {
        ack := ack + [SPACE] + cp.where_;
      }
    }

    method Remove(id: u64) returns (found: bool)
      modifies this
      ensures found == (id in old(byId)) && View() == Removed(old(View()), id)
    {
      found := id in byId;
      byId := byId - {id};
    }

    method Render() returns (out: Text)
      ensures out == Listing(View())
    {
      hide Line, Fields, RowOf, Rows;
      out := Line(HEADER);
      var ids := Ascending(byId.Keys);
      ghost var listing := Listing(View());
      assert ids[0..] == ids;
      for i := 0 to |ids|
        invariant listing == out + Rows(byId, ids[i..])
      {
        var row := RowOf(ids[i], byId[ids[i]]);
        RowIsLine(ids[i], byId[ids[i]]);
        RowsFrom(byId, ids, i);
        Regroup(out, row, Rows(byId, ids[i + 1..]));
        out := out + row;
      }
      RowsEnd(byId, ids);
    }
  }

  /** One `writeln!` of the listing. */
  function RowOf(id: u64, cp: Checkpoint): Text {
    Radix.Print(id as int, 10) + [TAB] + cp.when + [TAB]
    + (if cp.where_ == [] then Ascii("-") else cp.where_) + [NEWLINE]
  }

  lemma RowIsLine(id: u64, cp: Checkpoint)
    ensures RowOf(id, cp) == Line(Fields(id, cp))
  {
    RowText(Fields(id, cp));
  }

  lemma RowsFrom(byId: map<u64, Checkpoint>, ids: seq<u64>, i: nat)
    requires i < |ids| && forall k :: 0 <= k < |ids| ==> ids[k] in byId
    ensures Rows(byId, ids[i..]) == Line(Fields(ids[i], byId[ids[i]])) + Rows(byId, ids[i + 1..])
  {
    assert ids[i..][1..] == ids[i + 1..];
  }

  lemma RowsEnd(byId: map<u64, Checkpoint>, ids: seq<u64>)
    ensures Rows(byId, ids[|ids|..]) == []
  {
  }

  lemma Regroup(a: Text, b: Text, c: Text)
    ensures a + (b + c) == (a + b) + c
  {
  }

  lemma RowText(f: seq<Text>)
    requires |f| == 3
    ensures Join(f, TAB) == f[0] + [TAB] + f[1] + [TAB] + f[2]
  {
    assert Join(f[1..], TAB) == f[1] + [TAB] + f[2];
  }

  // ----- every reachable table can be read back -----

  datatype TableOp = InsertOp(pos: Position, where_: Text) | RemoveOp(id: u64)

  function Edit(t: Table, op: TableOp): Table {
    match op
    case InsertOp(pos, where_) => Inserted(t, pos, where_)
    case RemoveOp(id) => Removed(t, id)
  }

  function Edited(t: Table, ops: seq<TableOp>): Table
    decreases |ops|
  {
    if ops == [] then t else Edited(Edit(t, ops[0]), ops[1..])
  }

  /** What insertion establishes about every stored checkpoint. */
  predicate Clean(cp: Checkpoint) {
    cp.when == FormatPosition(cp.position) && cp.where_ == Sanitize(cp.where_)
  }

  ghost predicate AllClean(t: Table) {
    forall id :: id in t.byId ==> Clean(t.byId[id])
  }

  lemma {:induction false} EditsStayClean(t: Table, ops: seq<TableOp>)
    requires AllClean(t)
    ensures AllClean(Edited(t, ops))
    decreases |ops|
  {
    if ops != [] {
      if ops[0].InsertOp? {
        assert Sanitize(Sanitize(ops[0].where_)) == Sanitize(ops[0].where_);
      }
      EditsStayClean(Edit(t, ops[0]), ops[1..]);
    }
  }

  lemma DigitsArePlain(n: nat, base: Radix.Base)
    ensures var t := Radix.Print(n, base);
      forall i :: 0 <= i < |t| ==> 48 <= t[i] <= 102 && t[i] != COLON
  {
    var t := Radix.Print(n, base);
    forall i | 0 <= i < |t|
      ensures 48 <= t[i] <= 102 && t[i] != COLON
    {
      assert Radix.DigitValue(t[i], base).Some?;
    }
  }

  lemma FieldsArePlain(id: u64, cp: Checkpoint)
    requires Clean(cp)
    ensures forall i :: 0 <= i < 3 ==> TAB !in Fields(id, cp)[i] && NEWLINE !in Fields(id, cp)[i]
  {
    DigitsArePlain(id as int, 10);
    DigitsArePlain(cp.position.sequence as int, 16);
    DigitsArePlain(cp.position.steps as int, 16);
  }

  lemma {:induction false} RowsSplit(byId: map<u64, Checkpoint>, ids: seq<u64>)
    requires forall i :: 0 <= i < |ids| ==> ids[i] in byId && Clean(byId[ids[i]])
    ensures var lines := Split(Rows(byId, ids), NEWLINE);
      && |lines| == |ids| + 1 && lines[|ids|] == []
      && forall i :: 0 <= i < |ids| ==> Split(lines[i], TAB) == Fields(ids[i], byId[ids[i]])
    decreases |ids|
  {
    if ids != [] {
      var f := Fields(ids[0], byId[ids[0]]);
      FieldsArePlain(ids[0], byId[ids[0]]);
      RowText(f);
      SplitJoin(f, TAB);
      RowsSplit(byId, ids[1..]);
      SplitAt(Join(f, TAB), Rows(byId, ids[1..]), NEWLINE);
    }
  }

  lemma HeaderSplits()
    ensures Split(Join(HEADER, TAB), TAB) == HEADER && NEWLINE !in Join(HEADER, TAB)
  {
    RowText(HEADER);
    SplitJoin(HEADER, TAB);
  }

  lemma ListingShape(t: Table)
    ensures Listing(t) == Join(HEADER, TAB) + [NEWLINE] + Rows(t.byId, Ascending(t.byId.Keys))
  {
  }

  lemma ListingSplits(byId: map<u64, Checkpoint>, ids: seq<u64>, header: Text, listing: Text)
    requires forall i :: 0 <= i < |ids| ==> ids[i] in byId && Clean(byId[ids[i]])
    requires NEWLINE !in header && listing == header + [NEWLINE] + Rows(byId, ids)
    ensures var lines := Split(listing, NEWLINE);
      && |lines| == |ids| + 2 && lines[0] == header && lines[|ids| + 1] == []
      && forall i :: 0 <= i < |ids| ==> Split(lines[i + 1], TAB) == Fields(ids[i], byId[ids[i]])
  {
    RowsSplit(byId, ids);
    SplitAt(header, Rows(byId, ids), NEWLINE);
    var rows := Split(Rows(byId, ids), NEWLINE);
    assert forall i :: 0 <= i < |rows| ==> ([header] + rows)[i + 1] == rows[i];
  }

  /** Split on newlines and tabs, the listing of any table a client can build is
      the header and one three-field row per live checkpoint, in id order. */
  lemma ListingParsesBack(ops: seq<TableOp>)
    ensures var t := Edited(EMPTY, ops); var ids := Ascending(t.byId.Keys);
      var lines := Split(Listing(t), NEWLINE);
      && |lines| == |ids| + 2 && lines[|ids| + 1] == []
      && Split(lines[0], TAB) == HEADER
      && forall i :: 0 <= i < |ids| ==> Split(lines[i + 1], TAB) == Fields(ids[i], t.byId[ids[i]])
  {
    hide Edited, Listing, Rows, Split, Join, Fields, Clean;
    var t := Edited(EMPTY, ops);
    EditsStayClean(EMPTY, ops);
    HeaderSplits();
    ListingShape(t);
    ListingSplits(t.byId, Ascending(t.byId.Keys), Join(HEADER, TAB), Listing(t));
  }

  // ----- ids over any history -----

  function Inserts(ops: seq<TableOp>): nat {
    if ops == [] then 0 else (if ops[0].InsertOp? then 1 else 0) + Inserts(ops[1..])
  }

  const TWO_64 := 0x1_0000_0000_0000_0000

  /** The counter only counts insertions: the n-th one gets id n, until the
      64-bit counter comes around. */
  lemma {:induction false} NextIdCounts(t: Table, ops: seq<TableOp>)
    ensures Edited(t, ops).nextId as int == (t.nextId as int + Inserts(ops)) % TWO_64
    decreases |ops|
  {
    if ops != [] {
      NextIdCounts(Edit(t, ops[0]), ops[1..]);
    }
  }

  /** Ids start at 1 and are fresh: every live id is below the one the next
      insertion takes, so no insertion ever replaces a checkpoint. */
  lemma {:induction false} IdsAreFresh(ops: seq<TableOp>)
    requires Inserts(ops) + 1 < TWO_64
    ensures var t := Edited(EMPTY, ops);
      t.nextId as int == 1 + Inserts(ops) && forall id :: id in t.byId ==> 1 <= id < t.nextId
  {
    NextIdCounts(EMPTY, ops);
    IdsStayBelow(EMPTY, ops);
  }

  lemma {:induction false} IdsStayBelow(t: Table, ops: seq<TableOp>)
    requires t.nextId as int + Inserts(ops) < TWO_64 && t.nextId > 0
    requires forall id :: id in t.byId ==> 1 <= id < t.nextId
    ensures forall id :: id in Edited(t, ops).byId ==> 1 <= id < Edited(t, ops).nextId
    decreases |ops|
  {
    if ops != [] {
      IdsStayBelow(Edit(t, ops[0]), ops[1..]);
    }
  }

  function Entry(t: Table, id: u64): Option<Checkpoint> {
    if id in t.byId then Some(t.byId[id]) else None
  }

  /** As long as the counter does not come around, a saved checkpoint stays as it
      is until its id is removed, and is gone for good afterwards. */
  lemma {:induction false} CheckpointLasts(t: Table, id: u64, ops: seq<TableOp>)
    requires id < t.nextId && t.nextId as int + Inserts(ops) <= TWO_64
    ensures Entry(Edited(t, ops), id) == (if RemoveOp(id) in ops then None else Entry(t, id))
    decreases |ops|
  {
    if ops != [] {
      var next := Edit(t, ops[0]);
      assert RemoveOp(id) in ops <==> ops[0] == RemoveOp(id) || RemoveOp(id) in ops[1..];
      if next.nextId == 0 {
        NoInsertsKeep(next, id, ops[1..]);
      } else {
        CheckpointLasts(next, id, ops[1..]);
      }
    }
  }

  lemma {:induction false} NoInsertsKeep(t: Table, id: u64, ops: seq<TableOp>)
    requires Inserts(ops) == 0
    ensures Entry(Edited(t, ops), id) == (if RemoveOp(id) in ops then None else Entry(t, id))
    decreases |ops|
  {
    if ops != [] {
      NoInsertsKeep(Edit(t, ops[0]), id, ops[1..]);
    }
  }

  lemma {:induction false} EditedAppend(t: Table, a: seq<TableOp>, b: seq<TableOp>)
    ensures Edited(t, a + b) == Edited(Edited(t, a), b)
    decreases |a|
  {
    if a == [] {
      assert a + b == b;
    } else {
      assert (a + b)[1..] == a[1..] + b;
      EditedAppend(Edit(t, a[0]), a[1..], b);
    }
  }

  lemma OneInsert(t: Table, pos: Position, where_: Text)
    ensures Edited(t, [InsertOp(pos, where_)]) == Inserted(t, pos, where_)
  {
    assert [InsertOp(pos, where_)][1..] == [];
  }

  /** What becomes of one insertion: its checkpoint, as saved, until its id is
      removed. */
  lemma InsertLasts(t: Table, pos: Position, where_: Text, later: seq<TableOp>)
    requires t.nextId as int + 1 + Inserts(later) <= TWO_64
    ensures Entry(Edited(Inserted(t, pos, where_), later), t.nextId) ==
      if RemoveOp(t.nextId) in later then None else Some(Saved(pos, where_))
  {
    var saved := Inserted(t, pos, where_);
    if saved.nextId == 0 {
      NoInsertsKeep(saved, t.nextId, later);
    } else {
      CheckpointLasts(saved, t.nextId, later);
    }
  }

  /** What the client reads back: in any history the n-th insertion, until its id
      is removed, has exactly one row in the listing, with n, the position it was
      made at, and the client's own text made harmless, or "-" for none; once
      removed it has no row. */
  lemma RowOfInsert(before: seq<TableOp>, pos: Position, where_: Text, later: seq<TableOp>)
    requires 2 + Inserts(before) + Inserts(later) <= TWO_64
    ensures var id := (1 + Inserts(before)) as u64;
      var t := Edited(EMPTY, before + [InsertOp(pos, where_)] + later);
      var ids := Ascending(t.byId.Keys);
      var lines := Split(Listing(t), NEWLINE);
      && |lines| == |ids| + 2
      && (id in ids <==> RemoveOp(id) !in later)
      && forall i :: 0 <= i < |ids| && ids[i] == id ==>
           Split(lines[i + 1], TAB) ==
             [Radix.Print(id as int, 10), FormatPosition(pos), if where_ == [] then Ascii("-") else Sanitize(where_)]
  {
    hide Edited, Listing, Split, FormatPosition, Sanitize, Fields, Inserts, Saved;
    EntryOfInsert(before, pos, where_, later);
    ListingParsesBack(before + [InsertOp(pos, where_)] + later);
    FieldsOfSaved((1 + Inserts(before)) as u64, pos, where_);
  }

  lemma EntryOfInsert(before: seq<TableOp>, pos: Position, where_: Text, later: seq<TableOp>)
    requires 2 + Inserts(before) + Inserts(later) <= TWO_64
    ensures var id := (1 + Inserts(before)) as u64;
      Entry(Edited(EMPTY, before + [InsertOp(pos, where_)] + later), id) ==
        if RemoveOp(id) in later then None else Some(Saved(pos, where_))
  {
    hide Edited, Inserts, Saved, Inserted;
    var t := Edited(EMPTY, before);
    NextIdCounts(EMPTY, before);
    EditedAppend(EMPTY, before + [InsertOp(pos, where_)], later);
    EditedAppend(EMPTY, before, [InsertOp(pos, where_)]);
    OneInsert(t, pos, where_);
    InsertLasts(t, pos, where_, later);
  }

  lemma FieldsOfSaved(id: u64, pos: Position, where_: Text)
    ensures Fields(id, Saved(pos, where_)) ==
      [Radix.Print(id as int, 10), FormatPosition(pos), if where_ == [] then Ascii("-") else Sanitize(where_)]
  {
    SanitizeKeepsEmpty(where_);
  }

  lemma SanitizeKeepsEmpty(t: Text)
    ensures Sanitize(t) == [] <==> t == []
  {
  }
}
