/** Sessions one after another (`src/gdb/session.rs`): the serve loop threads
    the backend and the checkpoint table through them. */
module Sessions {
  import opened Vocabulary
  import opened Mapping
  import opened Resume
  import opened Checkpoints
  import opened Commands
  import opened Runner
  import opened Runs
  import opened Progress
  import opened Teardown

  // ----- the checkpoint table within a session -----

  /** What a step does to the table, as edits: only a served `checkpoint` or
      `delete checkpoint` command touches it. */
  function StepEdits(s: State, a: Action): seq<TableOp> {
    if a.Proceed? && s.pc.QueryHeld? && s.pc.query.Save? then
      [InsertOp(s.backend.position, s.pc.query.where_)]
    else if a.Proceed? && s.pc.QueryHeld? && s.pc.query.Delete? then [RemoveOp(s.pc.query.id)]
    else []
  }

  function RunEdits(t: Trace, run: seq<Action>): seq<TableOp>
    requires Legal(t, run)
    decreases |run|
  {
    if run == [] then [] else StepEdits(t.state, run[0]) + RunEdits(Apply(t, run[0]), run[1..])
  }

  lemma RequestLeavesTable(s: State, a: Action)
    requires IsRequest(a)
    ensures RequestStep(s, a).state.checkpoints == s.checkpoints
  {
    match a
    case Resume(_) =>
    case Poll =>
    case CtrlC =>
    case VCtrlC =>
    case Ask(_) =>
    case Disconnect =>
  }

  lemma ServeEdits(s: State)
    requires ProceedEnabled(s) && !InStart(s.pc) && !InInterrupt(s.pc)
    ensures ServeStep(s).state.checkpoints == Edited(s.checkpoints, StepEdits(s, Proceed))
  {
    hide Inserted, Removed, RestartTarget, SoleOwner, StopTid;
    match s.pc
    case CtrlCWait =>
    case PanicLock(_) =>
    case PanicHeld(_) =>
    case QueryLock(_) =>
    case QueryHeld(q) => QueryEdits(s);
    case RestartDone(_) =>
    case TeardownPoll =>
    case TeardownUnwrap =>
  }

  lemma QueryEdits(s: State)
    requires s.pc.QueryHeld?
    ensures QueryStep(s, s.pc.query).checkpoints == Edited(s.checkpoints, StepEdits(s, Proceed))
  {
    hide Inserted, Removed, RestartTarget;
    match s.pc.query
    case Inspect =>
    case Save(where_) => assert StepEdits(s, Proceed)[1..] == [];
    case Delete(id) => assert StepEdits(s, Proceed)[1..] == [];
    case Restart(_, _, _) =>
  }

  lemma StepEditsTable(s: State, a: Action)
    requires Enabled(s, a)
    ensures StepOf(s, a).state.checkpoints == Edited(s.checkpoints, StepEdits(s, a))
  {
    hide RequestStep, ServeStep, WorkStep;
    if IsRequest(a) {
      RequestLeavesTable(s, a);
    } else if ByWorkerThread(a) {
      WorkerAdvances(s, a);
    } else if a.Proceed? && !InStart(s.pc) && !InInterrupt(s.pc) {
      ServeEdits(s);
    }
  }

  /** Over any run of a session the table changes by exactly the served inserts
      and removals, in order; no resume, restart, interrupt or teardown race
      touches it. */
  lemma {:induction false} TableHistory(t: Trace, run: seq<Action>)
    requires Legal(t, run)
    ensures After(t, run).state.checkpoints == Edited(t.state.checkpoints, RunEdits(t, run))
    decreases |run|
  {
    if run != [] {
      hide StepOf, Enabled, Edited, StepEdits;
      StepEditsTable(t.state, run[0]);
      TableHistory(Apply(t, run[0]), run[1..]);
      EditedAppend(t.state.checkpoints, StepEdits(t.state, run[0]), RunEdits(Apply(t, run[0]), run[1..]));
    } else {
      assert Edited(t.state.checkpoints, []) == t.state.checkpoints;
    }
  }

  // ----- serving sessions -----

  /** A client and every interleaving it meets: the whole run of a session, as a
      function of the state the session starts from. */
  type Client = (Backend, Table) -> seq<Action>

  datatype Arrival = Nobody | AcceptFails | Connects(client: Client)

  /** One iteration of the serve loop, with what `shutdown` says before it and
      after it. */
  datatype Turn = Turn(stopBefore: bool, arrival: Arrival, stopAfter: bool)

  datatype ServeError = Connection | BackendRecovery

  datatype Served = Waiting | Returned(backend: Backend) | Failed(error: ServeError)

  /** A session of the past: where it started and how it ended. */
  datatype Visit = Visit(backend: Backend, table: Table, run: seq<Action>, end: State)

  /** The session runs until its target is taken apart. */
  ghost predicate Completes(client: Client, hasHandle: bool) {
    forall b, c :: Finishes(b, c, hasHandle, client(b, c))
  }

  predicate Finishes(b: Backend, c: Table, hasHandle: bool, run: seq<Action>) {
    Legal(Session(b, c, hasHandle), run) && After(Session(b, c, hasHandle), run).state.pc.Closed?
  }

  predicate Genuine(v: Visit, hasHandle: bool) {
    Finishes(v.backend, v.table, hasHandle, v.run)
    && v.end == After(Session(v.backend, v.table, hasHandle), v.run).state
  }

  /** The session handed its backend on, or could not get it back. */
  predicate Recovered(v: Visit) { v.end.pc == Closed(Some(v.end.backend)) }

  predicate Lost(v: Visit) { v.end.pc == Closed(None) }

  /** What the session after these starts from: what the last one ended with,
      or the given backend and an empty table. */
  function NextBackend(visits: seq<Visit>, first: Backend): Backend {
    if visits == [] then first else visits[|visits| - 1].end.backend
  }

  function NextTable(visits: seq<Visit>): Table {
    if visits == [] then EMPTY else visits[|visits| - 1].end.checkpoints
  }

  ghost predicate Follows(visits: seq<Visit>, v: Visit, first: Backend, hasHandle: bool) {
    Genuine(v, hasHandle) && v.backend == NextBackend(visits, first) && v.table == NextTable(visits)
  }

  ghost predicate Chained(visits: seq<Visit>, first: Backend, hasHandle: bool) {
    forall i :: 0 <= i < |visits| ==> Follows(visits[..i], visits[i], first, hasHandle)
  }

  lemma RecoveredOrLost(v: Visit, hasHandle: bool)
    requires Genuine(v, hasHandle)
    ensures Recovered(v) || Lost(v)
  {
    RunKeepsCurrent(Session(v.backend, v.table, hasHandle), v.run);
  }

  ghost predicate Current(s: State) {
    s.pc.Closed? && s.pc.recovered.Some? ==> s.pc.recovered == Some(s.backend) && SoleOwner(s)
  }

  lemma ServeKeepsCurrent(s: State)
    requires Current(s) && ProceedEnabled(s) && !InStart(s.pc) && !InInterrupt(s.pc)
    ensures Current(ServeStep(s).state)
  {
    hide SoleOwner, QueryStep, Receive;
    match s.pc
    case CtrlCWait => ReceivePatient(s, Ready);
    case PanicLock(_) =>
    case PanicHeld(_) =>
    case QueryLock(_) =>
    case QueryHeld(q) => QueryPatient(s, q);
    case RestartDone(_) =>
    case TeardownPoll =>
    case TeardownUnwrap => UnwrapKeepsCurrent(s);
  }

  lemma UnwrapKeepsCurrent(s: State)
    requires s.pc.TeardownUnwrap?
    ensures Current(ServeStep(s).state)
  {
  }

  lemma RequestNeverCloses(s: State, a: Action)
    requires IsRequest(a) && s.pc.Ready?
    ensures !RequestStep(s, a).state.pc.Closed?
  {
    match a
    case Resume(_) =>
    case Poll => ReceivePatient(s, Ready);
    case CtrlC => ReceivePatient(s, InterruptLoad(FromCtrlC));
    case VCtrlC =>
    case Ask(_) =>
    case Disconnect =>
  }

  lemma StepKeepsCurrent(s: State, a: Action)
    requires Current(s) && Enabled(s, a)
    ensures Current(StepOf(s, a).state)
  {
    hide SoleOwner, RequestStep, ServeStep, WorkStep;
    if IsRequest(a) {
      RequestNeverCloses(s, a);
    } else if ByWorkerThread(a) {
      WorkerPatient(s, a);
    } else if a.Proceed? {
      if InStart(s.pc) {
        StartPatient(s);
      } else if InInterrupt(s.pc) {
        InterruptPatient(s);
      } else {
        ServeKeepsCurrent(s);
      }
    }
  }

  lemma {:induction false} RunKeepsCurrent(t: Trace, run: seq<Action>)
    requires Current(t.state) && Legal(t, run)
    ensures Current(After(t, run).state)
    decreases |run|
  {
    if run != [] {
      hide Current, StepOf, Enabled;
      StepKeepsCurrent(t.state, run[0]);
      RunKeepsCurrent(Apply(t, run[0]), run[1..]);
    }
  }

  /** `run_gdb_session`: the recovered backend and the table, or the error. */
  method RunSession(b: Backend, c: Table, hasHandle: bool, client: Client)
    returns (r: Result<(Backend, Table), ServeError>, visit: Visit)
    requires Completes(client, hasHandle)
    ensures Genuine(visit, hasHandle) && visit.backend == b && visit.table == c && visit.run == client(b, c)
    ensures match r
      case Ok(next) => Recovered(visit) && next == (visit.end.backend, visit.end.checkpoints)
      case Err(e) => Lost(visit) && e == BackendRecovery
  {
    var run := client(b, c);
    assert Finishes(b, c, hasHandle, run);
    var end := After(Session(b, c, hasHandle), run).state;
    visit := Visit(b, c, run, end);
    RecoveredOrLost(visit, hasHandle);
    match end.pc.recovered
    case None => r := Err(BackendRecovery);
    case Some(back) => r := Ok((back, end.checkpoints));
  }

  lemma ChainGrows(visits: seq<Visit>, v: Visit, first: Backend, hasHandle: bool)
    requires Chained(visits, first, hasHandle) && Follows(visits, v, first, hasHandle)
    ensures Chained(visits + [v], first, hasHandle)
  {
    hide Follows;
    var all := visits + [v];
    forall i | 0 <= i < |all|
      ensures Follows(all[..i], all[i], first, hasHandle)
    {
      assert all[..i] == visits[..i];
      assert visits[..|visits|] == visits;
    }
  }

  /** The clients that get a session in these turns, in order. */
  function Admitted(turns: seq<Turn>): seq<Client> {
    if turns == [] then []
    else
      var last := turns[|turns| - 1];
      Admitted(turns[..|turns| - 1])
      + if !last.stopBefore && last.arrival.Connects? then [last.arrival.client] else []
  }

  /** Each admitted client had one session, which it ran to the end. */
  ghost predicate Attended(visits: seq<Visit>, clients: seq<Client>) {
    |visits| == |clients|
    && forall i :: 0 <= i < |visits| ==> visits[i].run == clients[i](visits[i].backend, visits[i].table)
  }

  /** Turns after which the loop does not go on, whatever the session did. */
  predicate Ends(turn: Turn, persist: bool) {
    turn.stopBefore || turn.stopAfter || turn.arrival.AcceptFails? || (turn.arrival.Connects? && !persist)
  }

  lemma AdmittedNext(turns: seq<Turn>, i: nat)
    requires i < |turns|
    ensures Admitted(turns[..i + 1]) == Admitted(turns[..i])
      + if !turns[i].stopBefore && turns[i].arrival.Connects? then [turns[i].arrival.client] else []
  {
    assert turns[..i + 1][..i] == turns[..i];
  }

  lemma NothingYet(turns: seq<Turn>, first: Backend, hasHandle: bool)
    ensures Attended([], Admitted(turns[..0])) && Chained([], first, hasHandle)
  {
  }

  /** `serve_sessions` over a prefix of its life: each session starts where the
      one before it ended, only the last can have lost the backend, and the
      loop goes on until a turn or a loss ends it. */
  method ServeSessions(first: Backend, hasHandle: bool, persist: bool, turns: seq<Turn>)
    returns (served: Served, visits: seq<Visit>, used: nat)
    requires forall i :: 0 <= i < |turns| && turns[i].arrival.Connects? ==>
      Completes(turns[i].arrival.client, hasHandle)
    ensures used <= |turns| && Attended(visits, Admitted(turns[..used])) && Chained(visits, first, hasHandle)
    ensures forall i :: 0 <= i < |visits| ==> Recovered(visits[i]) || (i == |visits| - 1 && Lost(visits[i]))
    ensures forall i :: 0 <= i < used - 1 ==> !Ends(turns[i], persist)
    ensures match served
      case Waiting => used == |turns| && forall i :: 0 <= i < used ==> !Ends(turns[i], persist)
      case Returned(b) => used > 0 && Ends(turns[used - 1], persist) && b == NextBackend(visits, first)
      case Failed(Connection) => used > 0 && turns[used - 1].arrival.AcceptFails?
      case Failed(BackendRecovery) => visits != [] && Lost(visits[|visits| - 1])
    ensures visits != [] && Lost(visits[|visits| - 1]) ==> served == Failed(BackendRecovery)
  {
    hide Genuine, Completes, Admitted, Chained;
    NothingYet(turns, first, hasHandle);
    var backend := first;
    var table := EMPTY;
    visits := [];
    used := 0;
    while used < |turns|
      invariant used <= |turns| && Attended(visits, Admitted(turns[..used])) && Chained(visits, first, hasHandle)
      invariant forall k :: 0 <= k < |visits| ==> Recovered(visits[k])
      invariant forall k :: 0 <= k < used ==> !Ends(turns[k], persist)
      invariant backend == NextBackend(visits, first) && table == NextTable(visits)
    {
      var turn := turns[used];
      AdmittedNext(turns, used);
      used := used + 1;
      if turn.stopBefore {
        return Returned(backend), visits, used;
      }
      match turn.arrival {
        case Connects(client) =>
          var r, visit := RunSession(backend, table, hasHandle, client);
          ChainGrows(visits, visit, first, hasHandle);
          visits := visits + [visit];
          if r.Err? {
            return Failed(r.error), visits, used;
          }
          backend, table := r.value.0, r.value.1;
          if !persist || turn.stopAfter {
            return Returned(backend), visits, used;
          }
        case Nobody =>
          if turn.stopAfter {
            return Returned(backend), visits, used;
          }
        case AcceptFails =>
          return Failed(Connection), visits, used;
      }
    }
    served := Waiting;
  }

  // ----- what outlives a session -----

  function VisitEdits(v: Visit, hasHandle: bool): seq<TableOp>
    requires Genuine(v, hasHandle)
  {
    RunEdits(Session(v.backend, v.table, hasHandle), v.run)
  }

  function AllEdits(visits: seq<Visit>, hasHandle: bool): seq<TableOp>
    requires forall i :: 0 <= i < |visits| ==> Genuine(visits[i], hasHandle)
  {
    if visits == [] then []
    else AllEdits(visits[..|visits| - 1], hasHandle) + VisitEdits(visits[|visits| - 1], hasHandle)
  }

  lemma TableOfVisit(v: Visit, hasHandle: bool)
    requires Genuine(v, hasHandle)
    ensures v.end.checkpoints == Edited(v.table, VisitEdits(v, hasHandle))
  {
    TableHistory(Session(v.backend, v.table, hasHandle), v.run);
  }

  /** The table after any number of sessions is the one that all their inserts
      and removals, in order, make of the empty table; so everything proved of
      reachable tables spans reconnects. */
  lemma {:induction false} TableSpansSessions(visits: seq<Visit>, first: Backend, hasHandle: bool)
    requires Chained(visits, first, hasHandle)
    ensures forall i :: 0 <= i < |visits| ==> Genuine(visits[i], hasHandle)
    ensures NextTable(visits) == Edited(EMPTY, AllEdits(visits, hasHandle))
    decreases |visits|
  {
    hide Genuine, VisitEdits;
    assert forall i :: 0 <= i < |visits| ==> Follows(visits[..i], visits[i], first, hasHandle);
    if visits != [] {
      var n := |visits| - 1;
      var init := visits[..n];
      assert forall i :: 0 <= i < n ==> init[..i] == visits[..i];
      TableSpansSessions(init, first, hasHandle);
      TableOfVisit(visits[n], hasHandle);
      EditedAppend(EMPTY, AllEdits(init, hasHandle), VisitEdits(visits[n], hasHandle));
    }
  }

  /** Whatever the workers a session left behind still do, the backend it handed
      on stays as it was. */
  lemma HandedOnBackendIsFinal(v: Visit, hasHandle: bool, t: Trace, later: seq<Action>)
    requires Genuine(v, hasHandle) && Recovered(v)
    requires t == After(Session(v.backend, v.table, hasHandle), v.run) && Legal(t, later)
    ensures After(t, later).state.backend == v.end.backend
    ensures After(t, later).state.checkpoints == v.end.checkpoints
  {
    RunKeepsCurrent(Session(v.backend, v.table, hasHandle), v.run);
    RunKeepsSettled(t, later, v.end.backend, v.end.checkpoints);
  }

  /** A checkpoint saved in any session restarts there in every later one, by
      its printed id in either case, until it is deleted, and nowhere after. */
  lemma CheckpointOutlivesSessions(
      visits: seq<Visit>, first: Backend, hasHandle: bool, run: seq<Action>,
      before: seq<TableOp>, pos: Position, where_: Text, later: seq<TableOp>, c: u8, start: Position)
    requires Chained(visits, first, hasHandle)
    requires Legal(Session(NextBackend(visits, first), NextTable(visits), hasHandle), run)
    requires forall i :: 0 <= i < |visits| ==> Genuine(visits[i], hasHandle)
    requires AllEdits(visits, hasHandle)
      + RunEdits(Session(NextBackend(visits, first), NextTable(visits), hasHandle), run)
      == before + [InsertOp(pos, where_)] + later
    requires Edited(EMPTY, before).nextId as int + 1 + Inserts(later) <= TWO_64 && (c == LOWER_C || c == UPPER_C)
    ensures var id := Edited(EMPTY, before).nextId;
      var now := After(Session(NextBackend(visits, first), NextTable(visits), hasHandle), run).state.checkpoints;
      RestartTarget(RestartText([CheckpointName(c, id)]), now, start) ==
        if RemoveOp(id) in later then None else Some(pos)
  {
    hide Genuine, Legal, After, RunEdits, AllEdits, RestartTarget, Edited, Session;
    var t := Session(NextBackend(visits, first), NextTable(visits), hasHandle);
    SessionTable(NextBackend(visits, first), NextTable(visits), hasHandle);
    TableSpansSessions(visits, first, hasHandle);
    TableHistory(t, run);
    EditedAppend(EMPTY, AllEdits(visits, hasHandle), RunEdits(t, run));
    EditedAppend(EMPTY, before + [InsertOp(pos, where_)], later);
    EditedAppend(EMPTY, before, [InsertOp(pos, where_)]);
    OneInsert(Edited(EMPTY, before), pos, where_);
    CheckpointRestarts(Edited(EMPTY, before), pos, where_, later, c, start);
  }

  lemma SessionTable(b: Backend, c: Table, hasHandle: bool)
    ensures Session(b, c, hasHandle).state.checkpoints == c
  {
  }

  // ----- sessions that lose the backend -----

  /** Resume, and stop before the worker has taken the lock. */
  const STARTED: seq<Action> := [Resume(Continue)] + seq(6, i => Proceed)

  lemma Midway(b: Backend, c: Table, hasHandle: bool) returns (run: seq<Action>, t: Trace)
    ensures Leads(Session(b, c, hasHandle), run, t) && run == STARTED
    ensures var kind := ReplayJob(Continue); t.state == Init(b, c, hasHandle).(
      running := true, rx := Some(Channel(0, None)), workers := [Worker(kind, Spawned)])
  {
    hide Leads;
    var from := Session(b, c, hasHandle);
    NoSteps(from);
    run, t := Onward(from, [], from, Resume(Continue));
    run, t := Onward(from, run, t, Proceed);
    run, t := Onward(from, run, t, Proceed);
    run, t := Onward(from, run, t, Proceed);
    run, t := Onward(from, run, t, Proceed);
    run, t := Onward(from, run, t, Proceed);
    run, t := Onward(from, run, t, Proceed);
  }

  /** The client disconnects with a replay under way: without an interrupt
      handle at once, and with one when teardown runs out of patience. */
  const LOSING: seq<Action> := STARTED + [Disconnect] + [Proceed]

  const LOSING_PATIENTLY: seq<Action> :=
    STARTED + [Disconnect] + [Proceed] + [Proceed] + [Proceed] + [GiveUp] + [Proceed]

  /** From every backend and table, that run of a session without a handle loses
      the backend, although teardown never gives up. */
  lemma LostWithoutHandle(b: Backend, c: Table)
    ensures Finishes(b, c, false, LOSING) && After(Session(b, c, false), LOSING).state.pc == Closed(None)
    ensures GiveUp !in LOSING
  {
    var run, t := Midway(b, c, false);
    var from := Session(b, c, false);
    hide Legal, After, SoleOwner;
    run, t := Onward(from, run, t, Disconnect);
    StillHeld(t.state);
    run, t := Onward(from, run, t, Proceed);
  }

  /** With a handle the same holds for the run that gives up. */
  lemma LostByGivingUp(b: Backend, c: Table)
    ensures Finishes(b, c, true, LOSING_PATIENTLY)
    ensures After(Session(b, c, true), LOSING_PATIENTLY).state.pc == Closed(None)
  {
    var run, t := Midway(b, c, true);
    var from := Session(b, c, true);
    hide Legal, After, SoleOwner;
    run, t := Onward(from, run, t, Disconnect);
    run, t := Onward(from, run, t, Proceed);
    run, t := Onward(from, run, t, Proceed);
    run, t := Onward(from, run, t, Proceed);
    run, t := Onward(from, run, t, GiveUp);
    StillHeld(t.state);
    run, t := Onward(from, run, t, Proceed);
  }

  lemma StillHeld(s: State)
    requires |s.workers| == 1 && s.workers[0].pc.Spawned?
    ensures !SoleOwner(s)
  {
    assert HasHandle(s.workers[0].pc);
  }

  /** So the recovery error of the serve loop is really reached. */
  lemma LossIsPossible(b: Backend, c: Table, hasHandle: bool) returns (v: Visit)
    ensures Genuine(v, hasHandle) && v.backend == b && v.table == c && Lost(v)
  {
    hide Legal, After;
    LostWithoutHandle(b, c);
    LostByGivingUp(b, c);
    var run := if hasHandle then LOSING_PATIENTLY else LOSING;
    v := Visit(b, c, run, After(Session(b, c, hasHandle), run).state);
  }
}
