/** What a packet brings about, whatever the workers do meanwhile: queries of an
    idle runner are served, resumes start their job, and interrupt requests reach
    the flag (`src/gdb/runner.rs`, `src/gdb/session.rs`, `src/gdb/target/`). */
module Service {
  import opened Vocabulary
  import opened Mapping
  import opened Resume
  import opened Checkpoints
  import opened Commands
  import opened Runner
  import opened Runs
  import opened RunnerSafety
  import opened Ledger
  import opened Refinement
  import opened EndStateLaws
  import opened Guarantees
  import opened Progress
  import opened Teardown

  ghost predicate NoRequests(run: seq<Action>) {
    forall i :: 0 <= i < |run| ==> !IsRequest(run[i])
  }

  // ----- queries -----

  /** Nothing a client could tell apart has changed. */
  predicate Same(u: Trace, t: Trace) {
    && u.state.backend == t.state.backend && u.state.checkpoints == t.state.checkpoints
    && u.state.endState == t.state.endState && u.state.restartPending == t.state.restartPending
    && u.log == t.log
  }

  /** `u` is what serving `q` makes of `t`. */
  predicate Served(u: Trace, t: Trace, q: Query) {
    match q
    case Inspect => Same(u, t)
    case Save(where_) =>
      && u.state.checkpoints == Edited(t.state.checkpoints, [InsertOp(t.state.backend.position, where_)])
      && Same(u.(state := u.state.(checkpoints := t.state.checkpoints)), t)
    case Delete(id) =>
      && u.state.checkpoints == Edited(t.state.checkpoints, [RemoveOp(id)])
      && Same(u.(state := u.state.(checkpoints := t.state.checkpoints)), t)
    case Restart(args, start, landing) =>
      var target := RestartTarget(RestartText(args), t.state.checkpoints, start);
      if target.Some? && landing.Some? then
        && u.log == t.log + [Restarted(target.value, landing.value)]
        && u.state.backend == landing.value && u.state.checkpoints == t.state.checkpoints
        && u.state.restartPending && !u.state.endState
      else Same(u, t)
  }

  /** On the way there. */
  predicate Serving(u: Trace, t: Trace, q: Query) {
    && !u.state.running
    && match u.state.pc
       case QueryLock(p) => p == q && Same(u, t)
       case QueryHeld(p) => p == q && Same(u, t)
       case RestartDone(target) =>
         && q.Restart? && q.landing.Some? && u.state.backend == q.landing.value
         && RestartTarget(RestartText(q.args), t.state.checkpoints, q.start) == Some(target)
         && u.state.checkpoints == t.state.checkpoints && u.log == t.log
       case Ready => Served(u, t, q)
       case _ => false
  }

  lemma HeldServes(u: Trace, t: Trace, q: Query)
    requires u.state.pc == QueryHeld(q) && Serving(u, t, q)
    ensures Serving(Apply(u, Proceed), t, q)
  {
    hide RestartTarget, Edited, Inserted, Removed;
    match q
    case Inspect =>
    case Save(where_) => OneInsert(t.state.checkpoints, t.state.backend.position, where_);
    case Delete(id) => OneRemove(t.state.checkpoints, id);
    case Restart(_, _, _) =>
  }

  lemma OneRemove(t: Table, id: u64)
    ensures Edited(t, [RemoveOp(id)]) == Removed(t, id)
  {
    assert [RemoveOp(id)][1..] == [];
  }

  lemma StepServes(u: Trace, a: Action, t: Trace, q: Query)
    requires Control(u.state) && Serving(u, t, q) && Enabled(u.state, a) && !IsRequest(a)
    ensures Serving(Apply(u, a), t, q)
  {
    hide RestartTarget, Edited, Control, Inserted, Removed;
    if ByWorkerThread(a) {
      IdleWorkIsSilent(u.state, a);
    } else if u.state.pc.QueryHeld? {
      HeldServes(u, t, q);
    }
  }

  lemma {:induction false} RunServes(u: Trace, run: seq<Action>, t: Trace, q: Query)
    requires Sound(u) && Serving(u, t, q) && Legal(u, run) && NoRequests(run)
    ensures Sound(After(u, run)) && Serving(After(u, run), t, q)
    decreases |run|
  {
    if run != [] {
      hide Control, Keeps, Balanced, Serving, StepOf, Enabled, Apply;
      StepServes(u, run[0], t, q);
      StepKeepsSound(u, run[0]);
      RunServes(Apply(u, run[0]), run[1..], t, q);
    }
  }

  lemma AskEnters(t: Trace, q: Query)
    requires t.state.pc.Ready? && !t.state.running
    ensures var u := Apply(t, Ask(q)); u.state.pc == QueryLock(q) && Serving(u, t, q)
  {
  }

  /** An idle runner serves every packet. Whatever leftover workers do, the
      protocol thread takes at most three steps, never waits, and is then back
      between packets with the packet served. */
  lemma IdleRunnerServes(t: Trace, q: Query, run: seq<Action>)
    requires Reachable(t) && t.state.pc.Ready? && !t.state.running
    requires Legal(Apply(t, Ask(q)), run) && NoRequests(run)
    ensures OwnSteps(Apply(t, Ask(q)), run) <= 3
    ensures var u := After(Apply(t, Ask(q)), run);
      if u.state.pc.Ready? then Served(u, t, q) else ProceedEnabled(u.state) && !Waits(u.state)
  {
    hide Reachable, Control, Keeps, Balanced, Served, Legal, After, Apply;
    AskEnters(t, q);
    ReachableIsSound(t);
    StepKeepsSound(t, Ask(q));
    RunServes(Apply(t, Ask(q)), run, t, q);
    OperationsEnd(Apply(t, Ask(q)), run);
    ServingProceeds(After(Apply(t, Ask(q)), run), t, q);
  }

  lemma ServingProceeds(u: Trace, t: Trace, q: Query)
    requires Control(u.state) && Serving(u, t, q)
    ensures u.state.pc.Ready? || (ProceedEnabled(u.state) && !Waits(u.state))
  {
  }

  /** A busy one answers without touching anything. */
  lemma BusyRunnerDeclines(t: Trace, q: Query)
    requires t.state.pc.Ready? && t.state.running
    ensures Apply(t, Ask(q)) == t
  {
  }

  /** Restarts really happen: from every session one is recorded, and the backend
      stands where the jump led. */
  lemma RestartHappens(b: Backend, c: Table, hasHandle: bool, start: Position, at: Backend) returns (t: Trace)
    ensures Reachable(t) && t.state.pc.Ready? && t.state.backend == at && t.log == [Restarted(start, at)]
  {
    hide Reachable;
    SessionIsReachable(b, c, hasHandle);
    t := ReachableStep(Session(b, c, hasHandle), Ask(Restart([], start, Some(at))));
    BareRestart(c, start);
    t := ReachableStep(t, Proceed);
    t := ReachableStep(t, Proceed);
    t := ReachableStep(t, Proceed);
  }

  // ----- resumes -----

  /** What an accepted resume puts on record. */
  function Opening(s: State, op: ReplayOp): seq<Event> {
    var kind := Decide(op, s.restartPending, s.endState);
    [Resumed(op, kind)] + (if s.endState && Reverse(op) then [LeftEnd] else [])
    + [Accepted(|s.workers|, op, kind, s.backend)] + [FlagReset(|s.workers|)]
  }

  /** What is on record once the job is chosen. */
  function Decision(s: State, op: ReplayOp): seq<Event> {
    [Resumed(op, Decide(op, s.restartPending, s.endState))] + if s.endState && Reverse(op) then [LeftEnd] else []
  }

  predicate Opens(u: Trace, t: Trace, op: ReplayOp) {
    var n, kind := |t.state.workers|, Decide(op, t.state.restartPending, t.state.endState);
    var head := t.log + Decision(t.state, op);
    var accepted := head + [Accepted(n, op, kind, t.state.backend)];
    if u.state.pc.Ready? then
      accepted + [FlagReset(n)] <= u.log && |u.state.workers| == n + 1 && u.state.workers[n].kind == kind
    else
      && |u.state.workers| == n
      && match u.state.pc
         case LeaveEndState(p) =>
           && p == op && !u.state.running && u.state.backend == t.state.backend && t.state.endState && Reverse(op)
           && kind == ReplayJob(op) && u.log == t.log + [Resumed(op, kind)]
         case StartCas(p, k) =>
           p == op && k == kind && !u.state.running && u.state.backend == t.state.backend && u.log == head
         case StartReset(k) => k == kind && u.log == accepted
         case StartLock(k) => k == kind && u.log == accepted + [FlagReset(n)]
         case StartBegin(k) => k == kind && u.log == accepted + [FlagReset(n)]
         case StartSwapRx(k) => k == kind && u.log == accepted + [FlagReset(n)]
         case StartSpawn(k) => k == kind && u.log == accepted + [FlagReset(n)]
         case _ => false
  }

  lemma ResumeEnters(t: Trace, op: ReplayOp)
    requires t.state.pc.Ready? && !t.state.running
    ensures Opens(Apply(t, Resume(op)), t, op) && InStart(Apply(t, Resume(op)).state.pc)
  {
  }

  lemma DecideOpens(u: Trace, t: Trace, op: ReplayOp)
    requires Opens(u, t, op) && (u.state.pc.LeaveEndState? || u.state.pc.StartCas? || u.state.pc.StartReset?)
    ensures Opens(Apply(u, Proceed), t, op)
  {
    hide Decide;
    if u.state.pc.LeaveEndState? {
      var resumed := [Resumed(op, ReplayJob(op))];
      assert t.log + resumed + [LeftEnd] == t.log + (resumed + [LeftEnd]);
    }
  }

  lemma LaunchOpens(u: Trace, t: Trace, op: ReplayOp)
    requires Opens(u, t, op) && ProceedEnabled(u.state)
    requires u.state.pc.StartLock? || u.state.pc.StartBegin? || u.state.pc.StartSwapRx?
    ensures Opens(Apply(u, Proceed), t, op)
  {
    hide Decide, Decision;
    match u.state.pc
    case StartLock(_) =>
    case StartBegin(_) =>
    case StartSwapRx(_) =>
  }

  lemma SpawnOpens(u: Trace, t: Trace, op: ReplayOp)
    requires Opens(u, t, op) && u.state.pc.StartSpawn?
    ensures Opens(Apply(u, Proceed), t, op)
  {
    hide Decide, Decision;
  }

  lemma ProceedOpens(u: Trace, t: Trace, op: ReplayOp)
    requires Opens(u, t, op) && ProceedEnabled(u.state)
    ensures Opens(Apply(u, Proceed), t, op)
  {
    OpensInStart(u, t, op);
    hide Opens, Apply;
    if u.state.pc.LeaveEndState? || u.state.pc.StartCas? || u.state.pc.StartReset? {
      DecideOpens(u, t, op);
    } else if u.state.pc.StartSpawn? {
      SpawnOpens(u, t, op);
    } else {
      LaunchOpens(u, t, op);
    }
  }

  lemma WorkOpens(u: Trace, a: Action, t: Trace, op: ReplayOp)
    requires Control(u.state) && Opens(u, t, op) && Enabled(u.state, a) && ByWorkerThread(a)
    ensures Opens(Apply(u, a), t, op)
  {
    hide Decide, Control, StepOf, Enabled;
    WorkerAdvances(u.state, a);
    if !u.state.pc.Ready? {
      IdleWorkIsSilent(u.state, a);
    }
  }

  lemma {:induction false} RunOpens(u: Trace, run: seq<Action>, t: Trace, op: ReplayOp)
    requires Sound(u) && Opens(u, t, op) && Legal(u, run) && NoRequests(run)
    ensures Opens(After(u, run), t, op)
    decreases |run|
  {
    if run != [] {
      hide Control, Keeps, Balanced, Opens, StepOf, Apply;
      if ByWorkerThread(run[0]) {
        WorkOpens(u, run[0], t, op);
      } else {
        OpensInStart(u, t, op);
        ProceedOpens(u, t, op);
      }
      StepKeepsSound(u, run[0]);
      RunOpens(Apply(u, run[0]), run[1..], t, op);
    }
  }

  lemma OpensInStart(u: Trace, t: Trace, op: ReplayOp)
    requires Opens(u, t, op)
    ensures InStart(u.state.pc) || u.state.pc.Ready?
  {
  }

  /** An idle runner starts the job of every resume: whatever the workers do, the
      protocol thread is back within seven steps of its own, the resume is on
      record as decided and accepted, and the job has its worker. */
  lemma IdleRunnerStarts(t: Trace, op: ReplayOp, run: seq<Action>)
    requires Reachable(t) && t.state.pc.Ready? && !t.state.running
    requires Legal(Apply(t, Resume(op)), run) && NoRequests(run)
    ensures OwnSteps(Apply(t, Resume(op)), run) <= 7
    ensures var u := After(Apply(t, Resume(op)), run); var n := |t.state.workers|;
      u.state.pc.Ready? ==>
        && t.log + Opening(t.state, op) <= u.log
        && |u.state.workers| == n + 1
        && u.state.workers[n].kind == Decide(op, t.state.restartPending, t.state.endState)
  {
    hide Reachable, Control, Keeps, Balanced, Legal, After, Apply, Decide;
    ResumeEnters(t, op);
    ReachableIsSound(t);
    StepKeepsSound(t, Resume(op));
    RunOpens(Apply(t, Resume(op)), run, t, op);
    OperationsEnd(Apply(t, Resume(op)), run);
    OpeningIs(t, op);
  }

  lemma OpeningIs(t: Trace, op: ReplayOp)
    ensures var n, kind := |t.state.workers|, Decide(op, t.state.restartPending, t.state.endState);
      t.log + Opening(t.state, op) ==
        t.log + Decision(t.state, op) + [Accepted(n, op, kind, t.state.backend)] + [FlagReset(n)]
  {
    hide Decide;
  }

  /** A resume on its way, when the runner was busy at first. */
  predicate Trying(u: Trace, t: Trace) {
    && t.log <= u.log
    && if u.state.pc.Ready? then
         || (|u.state.workers| == |t.state.workers| && Refused in u.log[|t.log|..])
         || |u.state.workers| == |t.state.workers| + 1
       else InStart(u.state.pc) && |u.state.workers| == |t.state.workers|
  }

  lemma CasTries(u: Trace, t: Trace)
    requires Trying(u, t) && u.state.pc.StartCas?
    ensures Trying(Apply(u, Proceed), t)
  {
    var v := Apply(u, Proceed);
    assert v.log[|t.log|..] == u.log[|t.log|..] + v.log[|u.log|..];
  }

  lemma StartTries(u: Trace, t: Trace)
    requires Trying(u, t) && ProceedEnabled(u.state) && !u.state.pc.StartCas?
    ensures Trying(Apply(u, Proceed), t)
  {
    LogGrows(u, Proceed);
  }

  lemma WorkTries(u: Trace, a: Action, t: Trace)
    requires Trying(u, t) && Enabled(u.state, a) && ByWorkerThread(a)
    ensures Trying(Apply(u, a), t)
  {
    hide StepOf, Enabled;
    var v := Apply(u, a);
    LogGrows(u, a);
    WorkerAdvances(u.state, a);
    assert v.log[|t.log|..] == u.log[|t.log|..] + v.log[|u.log|..];
  }

  lemma {:induction false} RunTries(u: Trace, run: seq<Action>, t: Trace)
    requires Trying(u, t) && Legal(u, run) && NoRequests(run)
    ensures Trying(After(u, run), t)
    decreases |run|
  {
    if run != [] {
      TryingInStart(u, t);
      hide Trying, StepOf, Apply;
      if ByWorkerThread(run[0]) {
        WorkTries(u, run[0], t);
      } else if u.state.pc.StartCas? {
        CasTries(u, t);
      } else {
        StartTries(u, t);
      }
      RunTries(Apply(u, run[0]), run[1..], t);
    }
  }

  lemma TryingInStart(u: Trace, t: Trace)
    requires Trying(u, t)
    ensures InStart(u.state.pc) || u.state.pc.Ready?
  {
  }

  lemma ResumeTries(t: Trace, op: ReplayOp)
    requires t.state.pc.Ready?
    ensures Trying(Apply(t, Resume(op)), t)
  {
  }

  /** A busy runner refuses: if the job that ran before the resume still runs
      after it, the resume was refused and no job was added. */
  lemma BusyRunnerRefuses(t: Trace, op: ReplayOp, run: seq<Action>)
    requires Reachable(t) && t.state.pc.Ready? && t.state.workers != []
    requires Legal(Apply(t, Resume(op)), run) && NoRequests(run)
    ensures var u := After(Apply(t, Resume(op)), run); var n := |t.state.workers|;
      u.state.pc.Ready? && |u.state.workers| >= n && !PastIdle(u.state.workers[n - 1].pc) ==>
        |u.state.workers| == n && t.log <= u.log && Refused in u.log[|t.log|..]
    ensures |After(Apply(t, Resume(op)), run).state.workers| >= |t.state.workers|
  {
    hide Reachable, Keeps, Balanced, Legal, After, Apply;
    ResumeTries(t, op);
    ReachableIsSound(t);
    StepKeepsSound(t, Resume(op));
    RunTries(Apply(t, Resume(op)), run, t);
    RunKeepsSound(Apply(t, Resume(op)), run);
  }

  // ----- interrupt requests -----

  /** The flag was stored after `t`. */
  predicate Stored(u: Trace, t: Trace) {
    t.log <= u.log && FlagStored in u.log[|t.log|..]
  }

  /** A request of `caller` on its way: once its load and store are behind it,
      the flag was stored or the runner is idle. A ^C goes on to wait for a runner
      that is still busy, and only then. */
  predicate Asking(u: Trace, t: Trace, caller: Caller) {
    && t.log <= u.log
    && match u.state.pc
       case InterruptLoad(c) => c == caller
       case InterruptStore(c) => c == caller
       case InterruptFire(c) => c == caller && Stored(u, t)
       case CtrlCCheck => caller.FromCtrlC? && (Stored(u, t) || !u.state.running)
       case CtrlCWait => caller.FromCtrlC? && Stored(u, t)
       case PanicLock(_) => caller.FromCtrlC? && !u.state.running
       case PanicHeld(_) => caller.FromCtrlC? && !u.state.running
       case Ready => !u.state.running || (caller.FromVCtrlC? && Stored(u, t))
       case TeardownPoll => caller.FromTeardown? && (Stored(u, t) || !u.state.running)
       case TeardownUnwrap => caller.FromTeardown? && (Stored(u, t) || !u.state.running)
       case Closed(_) => caller.FromTeardown? && (Stored(u, t) || !u.state.running)
       case _ => false
  }

  lemma StoredStays(u: Trace, v: Trace, t: Trace)
    requires t.log <= u.log <= v.log && Stored(u, t)
    ensures Stored(v, t)
  {
    assert v.log[|t.log|..] == u.log[|t.log|..] + v.log[|u.log|..];
  }

  lemma StoreStored(u: Trace, v: Trace, t: Trace)
    requires t.log <= u.log && v.log == u.log + [FlagStored]
    ensures Stored(v, t)
  {
    assert v.log[|t.log|..] == u.log[|t.log|..] + [FlagStored];
  }

  lemma LogGrows(u: Trace, a: Action)
    requires Enabled(u.state, a)
    ensures u.log <= Apply(u, a).log
  {
    hide StepOf;
  }

  lemma WaitEndsIdle(s: State)
    requires Control(s) && s.pc.CtrlCWait? && ProceedEnabled(s)
    ensures var n := StepOf(s, Proceed).state; (n.pc.Ready? || n.pc.PanicLock?) && !n.running
  {
  }

  lemma RequestAsks(u: Trace, t: Trace, caller: Caller)
    requires Asking(u, t, caller) && (u.state.pc.InterruptLoad? || u.state.pc.InterruptFire?)
    ensures Asking(Apply(u, Proceed), t, caller)
  {
    hide Stored;
    var v := Apply(u, Proceed);
    assert v.log == u.log;
    if Stored(u, t) {
      StoredStays(u, v, t);
    }
  }

  lemma StoreAsks(u: Trace, t: Trace, caller: Caller)
    requires Asking(u, t, caller) && u.state.pc.InterruptStore?
    ensures Asking(Apply(u, Proceed), t, caller)
  {
    hide Stored;
    var v := Apply(u, Proceed);
    assert v.log == u.log + [FlagStored];
    StoreStored(u, v, t);
  }

  lemma CheckAsks(u: Trace, t: Trace, caller: Caller)
    requires Asking(u, t, caller) && u.state.pc.CtrlCCheck?
    ensures Asking(Apply(u, Proceed), t, caller)
  {
    hide Stored;
    var v := Apply(u, Proceed);
    assert v.log == u.log;
    if Stored(u, t) {
      StoredStays(u, v, t);
    }
  }

  lemma AfterRequestAsks(u: Trace, t: Trace, caller: Caller)
    requires Asking(u, t, caller) && ProceedEnabled(u.state) && !InInterrupt(u.state.pc) && !u.state.pc.CtrlCWait?
    ensures Asking(Apply(u, Proceed), t, caller)
  {
    hide Stored, SoleOwner, StopTid;
    var v := Apply(u, Proceed);
    LogGrows(u, Proceed);
    if Stored(u, t) {
      StoredStays(u, v, t);
    }
  }

  lemma ProceedAsks(u: Trace, t: Trace, caller: Caller)
    requires Control(u.state) && Asking(u, t, caller) && ProceedEnabled(u.state)
    ensures Asking(Apply(u, Proceed), t, caller)
  {
    if u.state.pc.CtrlCWait? {
      WaitEndsIdle(u.state);
      hide Control, Stored, StepOf;
      LogGrows(u, Proceed);
    } else {
      hide Control, Asking, StepOf;
      if u.state.pc.InterruptStore? {
        StoreAsks(u, t, caller);
      } else if u.state.pc.CtrlCCheck? {
        CheckAsks(u, t, caller);
      } else if InInterrupt(u.state.pc) {
        RequestAsks(u, t, caller);
      } else {
        AfterRequestAsks(u, t, caller);
      }
    }
  }

  lemma WorkAsks(u: Trace, a: Action, t: Trace, caller: Caller)
    requires Asking(u, t, caller) && Enabled(u.state, a) && ByWorkerThread(a)
    ensures Asking(Apply(u, a), t, caller)
  {
    hide StepOf, Stored, Enabled;
    var v := Apply(u, a);
    LogGrows(u, a);
    if Stored(u, t) {
      StoredStays(u, v, t);
    }
    WorkerAdvances(u.state, a);
    WorkerPatient(u.state, a);
  }

  lemma GiveUpAsks(u: Trace, t: Trace, caller: Caller)
    requires Asking(u, t, caller) && u.state.pc.TeardownPoll?
    ensures Asking(Apply(u, GiveUp), t, caller)
  {
  }

  lemma {:induction false} RunAsks(u: Trace, run: seq<Action>, t: Trace, caller: Caller)
    requires Sound(u) && Asking(u, t, caller) && Legal(u, run) && NoRequests(run)
    ensures Asking(After(u, run), t, caller)
    decreases |run|
  {
    if run != [] {
      hide Control, Keeps, Balanced, Asking, StepOf, Apply;
      if ByWorkerThread(run[0]) {
        WorkAsks(u, run[0], t, caller);
      } else if run[0].Proceed? {
        ProceedAsks(u, t, caller);
      } else {
        GiveUpAsks(u, t, caller);
      }
      StepKeepsSound(u, run[0]);
      RunAsks(Apply(u, run[0]), run[1..], t, caller);
    }
  }

  predicate NothingBuffered(s: State) { s.rx.None? || s.rx.value.buffer.None? }

  /** The packets that ask for an interrupt, and who asks. */
  predicate AsksFor(s: State, a: Action, caller: Caller) {
    match a
    case CtrlC => caller.FromCtrlC? && NothingBuffered(s)
    case VCtrlC => caller.FromVCtrlC?
    case Disconnect => caller.FromTeardown? && s.running && s.hasHandle
    case _ => false
  }

  lemma RequestEnters(t: Trace, a: Action, caller: Caller)
    requires t.state.pc.Ready? && AsksFor(t.state, a, caller)
    ensures Apply(t, a).state.pc == InterruptLoad(caller) && Asking(Apply(t, a), t, caller)
  {
  }

  /** A ^C with no stop buffered, a `vCtrlC`, and the end of a session with a
      busy runner and a handle all reach the flag: whatever the workers do, once
      the request is over the flag was stored or the runner is idle. Teardown
      does not poll before that. After a ^C the event loop goes on only with an
      idle runner, and it waits only after the store. */
  lemma RequestsReachTheFlag(t: Trace, a: Action, caller: Caller, run: seq<Action>)
    requires Reachable(t) && t.state.pc.Ready? && AsksFor(t.state, a, caller)
    requires Legal(Apply(t, a), run) && NoRequests(run)
    ensures var u := After(Apply(t, a), run);
      && (u.state.pc.Ready? || u.state.pc.TeardownPoll? || u.state.pc.TeardownUnwrap? || u.state.pc.Closed? ==>
            Stored(u, t) || !u.state.running)
      && (caller.FromCtrlC? && u.state.pc.Ready? ==> !u.state.running)
      && (u.state.pc.CtrlCWait? ==> Stored(u, t))
    ensures OwnSteps(Apply(t, a), run) <= 7
  {
    hide Reachable, Control, Keeps, Balanced, Legal, After, Apply, Stored;
    RequestEnters(t, a, caller);
    ReachableIsSound(t);
    StepKeepsSound(t, a);
    RunAsks(Apply(t, a), run, t, caller);
    OperationsEnd(Apply(t, a), run);
  }

  /** A ^C that finds a stop buffered delivers it and asks for nothing. */
  lemma CtrlCDrainsFirst(t: Trace)
    requires t.state.pc.Ready? && t.state.rx.Some? && t.state.rx.value.buffer.Some?
    requires t.state.rx.value.buffer.value.Done?
    ensures var u := Apply(t, CtrlC);
      && u.log == t.log + [Delivered(t.state.rx.value.job, t.state.rx.value.buffer.value.reply)]
      && u.state == t.state.(rx := Some(Channel(t.state.rx.value.job, None)))
  {
  }

  /** Without a handle, or with an idle runner, teardown asks for nothing and
      does not wait. */
  lemma DisconnectGoesStraightOn(t: Trace)
    requires t.state.pc.Ready? && !(t.state.running && t.state.hasHandle)
    ensures Apply(t, Disconnect) == Trace(t.state.(pc := TeardownUnwrap), t.log)
  {
  }
}
