/** The end of a session: `into_backend` (`src/gdb/runner.rs`). */
module Teardown {
  import opened Vocabulary
  import opened Mapping
  import opened Checkpoints
  import opened Commands
  import opened Runner
  import opened Runs
  import opened RunnerSafety
  import opened Ledger
  import opened Refinement
  import opened Progress

  /** Inside `into_backend`, before it unwraps the handle. */
  predicate InTeardown(pc: ProtocolPc) {
    || pc.TeardownPoll? || pc.TeardownUnwrap?
    || ((pc.InterruptLoad? || pc.InterruptStore? || pc.InterruptFire?) && pc.caller.FromTeardown?)
  }

  // ----- once no worker holds a handle -----

  /** Nobody but `into_backend` can reach the backend any more, and what it
      returns, if it has returned, is that backend. */
  ghost predicate Settled(s: State, b: Backend, c: Table) {
    && s.backend == b && s.checkpoints == c && SoleOwner(s)
    && (InTeardown(s.pc) || s.pc == Closed(Some(b)))
  }

  lemma WorkKeepsSettled(s: State, w: nat, b: Backend, c: Table)
    requires Settled(s, b, c) && WorkEnabled(s, w)
    ensures Settled(WorkStep(s, w).state, b, c)
  {
    match s.workers[w].pc
    case Dropped(_) =>
    case Idle(_) =>
  }

  lemma ProceedKeepsSettled(s: State, b: Backend, c: Table)
    requires Settled(s, b, c) && ProceedEnabled(s)
    ensures Settled(ProceedStep(s).state, b, c)
  {
    match s.pc
    case InterruptLoad(_) =>
    case InterruptStore(_) =>
    case InterruptFire(_) =>
    case TeardownPoll =>
    case TeardownUnwrap =>
  }

  lemma StepKeepsSettled(s: State, a: Action, b: Backend, c: Table)
    requires Settled(s, b, c) && Enabled(s, a)
    ensures Settled(StepOf(s, a).state, b, c)
  {
    match a
    case Proceed => ProceedKeepsSettled(s, b, c);
    case GiveUp =>
    case Work(w) => WorkKeepsSettled(s, w, b, c);
  }

  lemma {:induction false} RunKeepsSettled(t: Trace, run: seq<Action>, b: Backend, c: Table)
    requires Settled(t.state, b, c) && Legal(t, run)
    ensures Settled(After(t, run).state, b, c)
    decreases |run|
  {
    if run != [] {
      hide Settled, StepOf, Enabled;
      StepKeepsSettled(t.state, run[0], b, c);
      RunKeepsSettled(Apply(t, run[0]), run[1..], b, c);
    }
  }

  /** Teardown that sees the runner idle, before or during its bounded wait,
      recovers the backend as it is at that moment, however the winding-down
      workers go on. */
  lemma IdleTeardownRecovers(t: Trace, run: seq<Action>)
    requires Reachable(t) && InTeardown(t.state.pc) && !t.state.running && Legal(t, run)
    ensures var s := After(t, run).state;
      && s.backend == t.state.backend && s.checkpoints == t.state.checkpoints
      && (s.pc.Closed? ==> s.pc.recovered == Some(t.state.backend))
  {
    hide Legal, After;
    ReachableIsSound(t);
    RunKeepsSettled(t, run, t.state.backend, t.state.checkpoints);
  }

  lemma IdleIsSole(s: State)
    requires Control(s) && !s.running
    ensures SoleOwner(s)
  {
  }

  lemma SoleIffDropped(s: State)
    requires Control(s)
    ensures SoleOwner(s) <==> !HasHandle(Newest(s.workers))
  {
    if HasHandle(Newest(s.workers)) {
      assert HasHandle(s.workers[|s.workers| - 1].pc);
    }
  }

  /** The unwrap succeeds exactly when the newest worker has dropped its handle;
      older workers never stand in the way. */
  lemma UnwrapSucceedsIff(t: Trace)
    requires Reachable(t) && t.state.pc.TeardownUnwrap?
    ensures StepOf(t.state, Proceed).state.pc ==
      Closed(if HasHandle(Newest(t.state.workers)) then None else Some(t.state.backend))
    ensures !t.state.running ==> !HasHandle(Newest(t.state.workers))
  {
    hide Reachable, Control, Keeps, SoleOwner;
    ReachableIsSound(t);
    SoleIffDropped(t.state);
    if !t.state.running {
      IdleIsSole(t.state);
    }
  }

  // ----- whole sessions -----

  /** What a session with an interrupt handle keeps as long as teardown does not
      run out of patience. */
  ghost predicate Patient(s: State) {
    && Control(s) && s.hasHandle
    && (s.pc.TeardownUnwrap? ==> !s.running)
    && (s.pc.Closed? ==> s.pc.recovered == Some(s.backend) && SoleOwner(s))
  }

  lemma ReceivePatient(s: State, otherwise: ProtocolPc)
    requires otherwise.Ready? || otherwise.InterruptLoad?
    ensures var n := Receive(s, otherwise).state;
      n.hasHandle == s.hasHandle && !n.pc.TeardownUnwrap? && !n.pc.Closed?
  {
  }

  lemma RequestKeepsPatient(s: State, a: Action)
    requires Patient(s) && s.pc.Ready? && IsRequest(a)
    ensures Patient(RequestStep(s, a).state)
  {
    RequestKeepsControl(s, a);
    hide Control, SoleOwner;
    match a
    case Resume(op) =>
    case Poll => ReceivePatient(s, Ready);
    case CtrlC => ReceivePatient(s, InterruptLoad(FromCtrlC));
    case VCtrlC =>
    case Ask(q) =>
    case Disconnect =>
  }

  lemma StartPatient(s: State)
    requires ProceedEnabled(s) && InStart(s.pc)
    ensures var n := StartStep(s).state; n.hasHandle == s.hasHandle && !n.pc.TeardownUnwrap? && !n.pc.Closed?
  {
    hide Control, SoleOwner;
  }

  lemma InterruptPatient(s: State)
    requires InInterrupt(s.pc)
    ensures var n := InterruptStep(s).state; n.hasHandle == s.hasHandle && !n.pc.TeardownUnwrap? && !n.pc.Closed?
  {
    hide Control, SoleOwner;
  }

  lemma QueryPatient(s: State, q: Query)
    ensures var n := QueryStep(s, q); n.hasHandle == s.hasHandle && !n.pc.TeardownUnwrap? && !n.pc.Closed?
  {
    hide Inserted, Removed, RestartTarget;
  }

  lemma ServePatient(s: State)
    requires Patient(s) && ProceedEnabled(s) && !InStart(s.pc) && !InInterrupt(s.pc)
    ensures var n := ServeStep(s).state;
      && n.hasHandle && (n.pc.TeardownUnwrap? ==> !n.running)
      && (n.pc.Closed? ==> n.pc.recovered == Some(n.backend) && SoleOwner(n))
  {
    if s.pc.TeardownUnwrap? {
      IdleIsSole(s);
    }
    hide Control, SoleOwner, QueryStep, Receive;
    match s.pc
    case CtrlCWait => ReceivePatient(s, Ready);
    case PanicLock(_) =>
    case PanicHeld(_) =>
    case QueryLock(_) =>
    case QueryHeld(q) => QueryPatient(s, q);
    case RestartDone(_) =>
    case TeardownPoll =>
    case TeardownUnwrap =>
  }

  lemma HandOffFrame(s: State, w: nat)
    requires WorkEnabled(s, w) && (!Guarded(s.workers[w].pc) || s.workers[w].pc.Decided?)
    ensures var n := HandOffStep(s, w).state;
      && OnlyWorkerMoves(s, n, w) && (n.running ==> s.running) && n.backend == s.backend
      && (HasHandle(n.workers[w].pc) ==> HasHandle(s.workers[w].pc))
  {
    match s.workers[w].pc
    case Spawned =>
    case Decided(_) =>
    case Released(_) =>
    case Dropped(_) =>
    case Idle(_) =>
  }

  lemma MoveKeepsSole(s: State, n: State, w: nat)
    requires OnlyWorkerMoves(s, n, w) && (HasHandle(n.workers[w].pc) ==> HasHandle(s.workers[w].pc))
    ensures SoleOwner(s) ==> SoleOwner(n)
  {
  }

  /** A worker never makes an idle runner busy, and touches the backend only
      while it holds a handle. */
  lemma WorkerPatient(s: State, a: Action)
    requires Enabled(s, a) && (a.Work? || a.Execute? || a.Panic?)
    ensures var n := StepOf(s, a).state;
      && n.hasHandle == s.hasHandle && n.pc == s.pc && (n.running ==> s.running)
      && (SoleOwner(s) ==> n.backend == s.backend && SoleOwner(n))
  {
    hide JobStep, HandOffStep;
    if a.Work? && !(Guarded(s.workers[a.w].pc) && !s.workers[a.w].pc.Decided?) {
      HandOffFrame(s, a.w);
      MoveKeepsSole(s, HandOffStep(s, a.w).state, a.w);
    } else {
      if a.Work? {
        JobMovesUnderLock(s, a.w);
      }
      assert HasHandle(s.workers[a.w].pc);
    }
  }

  lemma StepKeepsPatient(s: State, a: Action)
    requires Patient(s) && Enabled(s, a) && !a.GiveUp?
    ensures Patient(StepOf(s, a).state)
  {
    StepKeepsControl(s, a);
    hide Control, SoleOwner;
    if IsRequest(a) {
      RequestKeepsPatient(s, a);
    } else if a.Proceed? {
      if InStart(s.pc) {
        StartPatient(s);
      } else if InInterrupt(s.pc) {
        InterruptPatient(s);
      } else {
        ServePatient(s);
      }
    } else {
      WorkerPatient(s, a);
    }
  }

  lemma {:induction false} RunKeepsPatient(t: Trace, run: seq<Action>)
    requires Patient(t.state) && Legal(t, run) && GiveUp !in run
    ensures Patient(After(t, run).state)
    decreases |run|
  {
    if run != [] {
      hide Patient, StepOf, Enabled;
      StepKeepsPatient(t.state, run[0]);
      RunKeepsPatient(Apply(t, run[0]), run[1..]);
    }
  }

  /** With an interrupt handle, a session loses its backend only if teardown
      gave up waiting. */
  lemma OnlyImpatienceLosesTheBackend(b: Backend, c: Table, run: seq<Action>)
    requires Legal(Session(b, c, true), run) && GiveUp !in run
    ensures var s := After(Session(b, c, true), run).state;
      s.pc.Closed? ==> s.pc.recovered == Some(s.backend)
  {
    RunKeepsPatient(Session(b, c, true), run);
  }

  // ----- the bounded wait ends -----

  /** Teardown that has not given up: still asking or polling, or past a poll
      that saw the runner idle. */
  ghost predicate Patiently(s: State) {
    && Control(s)
    && (InTeardown(s.pc) || s.pc.Closed?)
    && (s.pc.TeardownUnwrap? ==> !s.running)
    && (s.pc.Closed? ==> s.pc == Closed(Some(s.backend)) && SoleOwner(s))
  }

  lemma ProceedPatiently(s: State)
    requires Patiently(s) && ProceedEnabled(s)
    ensures var n := ProceedStep(s).state;
      && n.workers == s.workers && (InTeardown(n.pc) || n.pc.Closed?) && (n.pc.TeardownUnwrap? ==> !n.running)
      && (n.pc.Closed? ==> n.pc == Closed(Some(n.backend)) && SoleOwner(n))
  {
    if s.pc.TeardownUnwrap? {
      IdleIsSole(s);
    }
    hide Control;
    match s.pc
    case InterruptLoad(_) =>
    case InterruptStore(_) =>
    case InterruptFire(_) =>
    case TeardownPoll =>
    case TeardownUnwrap =>
  }

  lemma StepPatiently(s: State, a: Action)
    requires Patiently(s) && Enabled(s, a) && !a.GiveUp?
    ensures Patiently(StepOf(s, a).state)
    ensures ByWorkerThread(a) || StepOf(s, a).state.workers == s.workers
  {
    StepKeepsControl(s, a);
    hide Control, SoleOwner, WorkStep;
    if a.Proceed? {
      ProceedPatiently(s);
    } else {
      WorkerPatient(s, a);
    }
  }

  function WorkerSteps(run: seq<Action>): nat {
    if run == [] then 0 else (if ByWorkerThread(run[0]) then 1 else 0) + WorkerSteps(run[1..])
  }

  /** Whatever the schedule, polls included, the workers run down the measure. */
  lemma {:induction false} TeardownRunsDown(t: Trace, run: seq<Action>)
    requires Patiently(t.state) && Legal(t, run) && GiveUp !in run
    ensures Patiently(After(t, run).state)
    ensures WorkerSteps(run) + TotalRemaining(After(t, run).state.workers) <= TotalRemaining(t.state.workers)
    decreases |run|
  {
    if run != [] {
      hide Patiently, StepOf, Enabled;
      StepPatiently(t.state, run[0]);
      if ByWorkerThread(run[0]) {
        WorkerStepDescends(t.state, run[0]);
      }
      TeardownRunsDown(Apply(t, run[0]), run[1..]);
    }
  }

  /** Protocol steps left once the runner is idle. */
  function StepsToClose(pc: ProtocolPc): nat {
    match pc
    case InterruptStore(_) => 4
    case InterruptLoad(_) => 3
    case InterruptFire(_) => 3
    case TeardownPoll => 2
    case TeardownUnwrap => 1
    case _ => 0
  }

  lemma ClosesIn(s: State)
    requires Patiently(s) && !s.running && !s.pc.Closed?
    ensures ProceedEnabled(s)
    ensures var n := StepOf(s, Proceed).state;
      !n.running && n.backend == s.backend && StepsToClose(n.pc) < StepsToClose(s.pc)
  {
    hide Control, SoleOwner;
    match s.pc
    case InterruptLoad(_) =>
    case InterruptStore(_) =>
    case InterruptFire(_) =>
    case TeardownPoll =>
    case TeardownUnwrap =>
  }

  lemma {:induction false} IdleTeardownCloses(t: Trace) returns (more: seq<Action>)
    requires Patiently(t.state) && !t.state.running
    ensures |more| <= StepsToClose(t.state.pc) && Legal(t, more)
    ensures forall i :: 0 <= i < |more| ==> more[i] == Proceed
    ensures After(t, more).state.pc == Closed(Some(t.state.backend))
    decreases StepsToClose(t.state.pc)
  {
    if t.state.pc.Closed? {
      more := [];
      NoSteps(t);
    } else {
      ClosesIn(t.state);
      StepPatiently(t.state, Proceed);
      hide Patiently, StepOf, Legal, After;
      var rest := IdleTeardownCloses(Apply(t, Proceed));
      FirstStep(t, Proceed, rest);
      more := [Proceed] + rest;
    }
  }

  lemma QuietIsIdle(s: State)
    requires Control(s) && !Starting(s.pc) && forall a :: ByWorkerThread(a) ==> !Enabled(s, a)
    ensures !s.running
  {
    if !Newest(s.workers).Sent? {
      WorkersAreNeverStuck(s);
    }
  }

  /** The wait of `into_backend` ends by itself. Under every schedule in which it
      does not give up, polls included, the workers take no more than
      `TotalRemaining` steps; and when none of them can move any more the runner
      is idle and at most four protocol steps return the backend. */
  lemma TeardownReturns(t: Trace, run: seq<Action>) returns (more: seq<Action>)
    requires Reachable(t) && InTeardown(t.state.pc) && !t.state.pc.TeardownUnwrap?
    requires Legal(t, run) && GiveUp !in run
    requires forall a :: ByWorkerThread(a) ==> !Enabled(After(t, run).state, a)
    ensures WorkerSteps(run) <= TotalRemaining(t.state.workers)
    ensures var u := After(t, run);
      && !u.state.running && |more| <= 4 && Legal(u, more)
      && (forall i :: 0 <= i < |more| ==> more[i] == Proceed)
      && After(u, more).state.pc == Closed(Some(u.state.backend))
  {
    hide Reachable, Enabled, Legal, After, Control, Keeps, Balanced, SoleOwner;
    ReachableIsSound(t);
    TeardownRunsDown(t, run);
    QuietIsIdle(After(t, run).state);
    more := IdleTeardownCloses(After(t, run));
  }
}
