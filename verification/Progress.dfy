/** Nothing gets stuck: workers run down a measure, and a blocked wait ends. */
module Progress {
  import opened Vocabulary
  import opened Mapping
  import opened Checkpoints
  import opened Commands
  import opened Runner
  import opened Runs
  import opened RunnerSafety
  import opened Ledger
  import opened Refinement
  import opened DeliveryLaws
  import opened Guarantees

  predicate ByWorkerThread(a: Action) { a.Work? || a.Execute? || a.Panic? }

  /** Steps a worker still has before it, at most. */
  function Remaining(pc: WorkerPc): nat {
    match pc
    case Spawned => 10
    case Locked => 9
    case Executed(_) => 8
    case Noted(_) => 7
    case Ran(_) => 6
    case Aborted => 5
    case Decided(_) => 4
    case Released(_) => 3
    case Dropped(_) => 2
    case Idle(_) => 1
    case Sent => 0
  }

  function TotalRemaining(ws: seq<Worker>): nat {
    if ws == [] then 0 else TotalRemaining(ws[..|ws| - 1]) + Remaining(ws[|ws| - 1].pc)
  }

  lemma {:induction false} TotalAfterMove(ws: seq<Worker>, w: nat, x: Worker)
    requires w < |ws|
    ensures TotalRemaining(ws[w := x]) == TotalRemaining(ws) - Remaining(ws[w].pc) + Remaining(x.pc)
    decreases |ws|
  {
    var n := |ws| - 1;
    var us := ws[w := x];
    if w == n {
      assert us[..n] == ws[..n];
    } else {
      assert us[..n] == ws[..n][w := x];
      TotalAfterMove(ws[..n], w, x);
    }
  }

  /** Worker `w` alone moved, and has fewer steps before it. */
  ghost predicate Advances(s: State, t: State, w: nat) {
    OnlyWorkerMoves(s, t, w) && Remaining(t.workers[w].pc) < Remaining(s.workers[w].pc)
  }

  lemma JobAdvances(s: State, w: nat)
    requires WorkEnabled(s, w) && Guarded(s.workers[w].pc) && !s.workers[w].pc.Decided?
    ensures Advances(s, JobStep(s, w).state, w)
  {
    hide JobReply, InterruptReply, ExitsProcess;
    match s.workers[w].pc
    case Locked =>
    case Executed(_) =>
    case Noted(_) =>
    case Ran(_) =>
    case Aborted =>
  }

  lemma HandOffAdvances(s: State, w: nat)
    requires WorkEnabled(s, w) && (!Guarded(s.workers[w].pc) || s.workers[w].pc.Decided?)
    ensures Advances(s, HandOffStep(s, w).state, w)
  {
    match s.workers[w].pc
    case Spawned =>
    case Decided(_) =>
    case Released(_) =>
    case Dropped(_) =>
    case Idle(_) =>
  }

  lemma BackendCallAdvances(s: State, a: Action)
    requires Enabled(s, a) && (a.Execute? || a.Panic?)
    ensures Advances(s, StepOf(s, a).state, a.w)
  {
  }

  lemma WorkerAdvances(s: State, a: Action)
    requires Enabled(s, a) && ByWorkerThread(a)
    ensures Advances(s, StepOf(s, a).state, a.w)
  {
    hide Advances;
    if !a.Work? {
      BackendCallAdvances(s, a);
    } else if Guarded(s.workers[a.w].pc) && !s.workers[a.w].pc.Decided? {
      JobAdvances(s, a.w);
    } else {
      HandOffAdvances(s, a.w);
    }
  }

  /** Every worker step makes progress and leaves the protocol thread where it
      is. */
  lemma WorkerStepDescends(s: State, a: Action)
    requires Enabled(s, a) && ByWorkerThread(a)
    ensures TotalRemaining(StepOf(s, a).state.workers) < TotalRemaining(s.workers)
    ensures StepOf(s, a).state.pc == s.pc
  {
    hide StepOf, Enabled;
    WorkerAdvances(s, a);
    TotalAfterMove(s.workers, a.w, StepOf(s, a).state.workers[a.w]);
  }

  /** Workers alone can only run for so long, and never move the protocol
      thread. */
  lemma {:induction false} WorkerRunsAreBounded(t: Trace, run: seq<Action>)
    requires Legal(t, run) && forall i :: 0 <= i < |run| ==> ByWorkerThread(run[i])
    ensures |run| + TotalRemaining(After(t, run).state.workers) <= TotalRemaining(t.state.workers)
    ensures After(t, run).state.pc == t.state.pc
    decreases |run|
  {
    if run != [] {
      hide StepOf, Enabled;
      WorkerStepDescends(t.state, run[0]);
      WorkerRunsAreBounded(Apply(t, run[0]), run[1..]);
    }
  }

  /** While the newest job has not sent its result, some worker can move. */
  lemma WorkersAreNeverStuck(s: State)
    requires Control(s) && !Newest(s.workers).Sent?
    ensures exists a :: ByWorkerThread(a) && Enabled(s, a)
  {
    var w := |s.workers| - 1;
    var replays := s.workers[w].pc.Locked? && s.workers[w].kind.ReplayJob?;
    var a := if replays then Execute(w, s.backend, Err(Ttd)) else Work(w);
    assert Enabled(s, a);
  }

  /** The two waits of the protocol thread: for a result, and for an idle runner
      at the end of the session. */
  predicate Waits(s: State) {
    (s.pc.CtrlCWait? && !CanReceive(s)) || (s.pc.TeardownPoll? && s.running)
  }

  /** Steps of its own the protocol thread has before its operation ends, at
      most; none between operations. */
  function Rank(pc: ProtocolPc): (n: nat)
    ensures n == 0 <==> pc.Ready? || pc.Closed?
    ensures n <= 7
  {
    match pc
    case Ready => 0
    case LeaveEndState(_) => 7
    case StartCas(_, _) => 6
    case StartReset(_) => 5
    case StartLock(_) => 4
    case StartBegin(_) => 3
    case StartSwapRx(_) => 2
    case StartSpawn(_) => 1
    case InterruptLoad(_) => 7
    case InterruptStore(_) => 6
    case InterruptFire(_) => 5
    case CtrlCCheck => 4
    case CtrlCWait => 3
    case PanicLock(_) => 2
    case PanicHeld(_) => 1
    case QueryLock(_) => 3
    case QueryHeld(_) => 2
    case RestartDone(_) => 1
    case TeardownPoll => 2
    case TeardownUnwrap => 1
    case Closed(_) => 0
  }

  lemma WaitsForWorkers(s: State)
    requires Control(s) && Waits(s)
    ensures exists a :: ByWorkerThread(a) && Enabled(s, a)
  {
    assert !Newest(s.workers).Sent?;
    WorkersAreNeverStuck(s);
  }

  /** The protocol thread never waits for something that cannot happen: inside
      an operation its next step brings the end of the operation closer, or it
      waits for the workers and one of them can move. */
  lemma ProtocolIsNeverStuck(t: Trace)
    requires Reachable(t) && !t.state.pc.Ready? && !t.state.pc.Closed?
    ensures if Waits(t.state) then exists a :: ByWorkerThread(a) && Enabled(t.state, a)
            else ProceedEnabled(t.state) && Rank(StepOf(t.state, Proceed).state.pc) < Rank(t.state.pc)
  {
    hide Reachable, Keeps, Balanced;
    ReachableIsSound(t);
    if Waits(t.state) {
      hide Control;
      WaitsForWorkers(t.state);
    } else {
      hide Newest;
      ProceedsIsOpen(t.state);
      hide Control;
      ProceedGoesOn(t.state);
    }
  }

  lemma ProceedsIsOpen(s: State)
    requires Control(s) && !s.pc.Ready? && !s.pc.Closed? && !Waits(s)
    ensures ProceedEnabled(s)
  {
  }

  lemma ProceedGoesOn(s: State)
    requires ProceedEnabled(s) && !Waits(s)
    ensures Rank(StepOf(s, Proceed).state.pc) < Rank(s.pc)
  {
    hide SoleOwner, StopTid, RestartTarget, Inserted, Removed;
    if InStart(s.pc) {
      StartGoesOn(s);
    } else if !InInterrupt(s.pc) {
      ServeGoesOn(s);
    }
  }

  lemma StartGoesOn(s: State)
    requires ProceedEnabled(s) && InStart(s.pc)
    ensures Rank(StartStep(s).state.pc) < Rank(s.pc)
  {
  }

  lemma ServeGoesOn(s: State)
    requires ProceedEnabled(s) && !InStart(s.pc) && !InInterrupt(s.pc) && !Waits(s)
    ensures Rank(ServeStep(s).state.pc) < Rank(s.pc)
  {
    hide SoleOwner, StopTid, QueryStep, Receive;
    if s.pc.QueryHeld? {
      QueryFrame(s, s.pc.query);
    } else if s.pc.CtrlCWait? {
      ReceiveGoesOn(s);
    }
  }

  lemma ReceiveGoesOn(s: State)
    ensures Rank(Receive(s, Ready).state.pc) <= 2
  {
  }

  /** The steps of a run that the protocol thread takes outside its waits. */
  function OwnSteps(t: Trace, run: seq<Action>): nat
    requires Legal(t, run)
    decreases |run|
  {
    if run == [] then 0
    else
      (if ByWorkerThread(run[0]) || Waits(t.state) then 0 else 1) + OwnSteps(Apply(t, run[0]), run[1..])
  }

  lemma WaitingStays(s: State)
    requires ProceedEnabled(s) && Waits(s)
    ensures StepOf(s, Proceed).state.pc == s.pc
  {
  }

  /** Every operation of the protocol thread ends: whatever the workers do
      meanwhile, it takes no more than `Rank` steps of its own, so at most seven,
      besides its waits. */
  lemma {:induction false} OperationsEnd(t: Trace, run: seq<Action>)
    requires Legal(t, run) && forall i :: 0 <= i < |run| ==> !IsRequest(run[i])
    ensures OwnSteps(t, run) + Rank(After(t, run).state.pc) <= Rank(t.state.pc)
    decreases |run|
  {
    if run != [] {
      var a := run[0];
      if ByWorkerThread(a) {
        hide StepOf, Enabled, Rank;
        WorkerStepDescends(t.state, a);
      } else if a.Proceed? && !Waits(t.state) {
        ProceedGoesOn(t.state);
      } else if a.Proceed? {
        WaitingStays(t.state);
      }
      hide StepOf, Enabled, Rank, Waits;
      OperationsEnd(Apply(t, a), run[1..]);
    }
  }

  /** In a blocked wait either the result is there or a worker can move. */
  lemma WaitingMakesSense(t: Trace)
    requires Sound(t) && t.state.pc.CtrlCWait?
    ensures t.state.rx.Some?
    ensures t.state.rx.value.buffer.Some? || exists a :: ByWorkerThread(a) && Enabled(t.state, a)
  {
    if !Newest(t.state.workers).Sent? {
      WorkersAreNeverStuck(t.state);
    }
  }

  /** A blocked `wait_result` always returns. However the workers are scheduled,
      they take no more than `TotalRemaining` steps, the protocol thread stays
      in the wait meanwhile, and when no worker can move any more the result is
      in the channel. */
  lemma WaitReturns(t: Trace, run: seq<Action>)
    requires Reachable(t) && t.state.pc.CtrlCWait?
    requires Legal(t, run) && forall i :: 0 <= i < |run| ==> ByWorkerThread(run[i])
    ensures |run| <= TotalRemaining(t.state.workers)
    ensures var s := After(t, run).state;
      && s.pc.CtrlCWait? && s.rx.Some?
      && ((forall a :: ByWorkerThread(a) ==> !Enabled(s, a)) ==> s.rx.value.buffer.Some?)
  {
    hide Reachable, Sound, Enabled, After, Legal;
    ReachableIsSound(t);
    RunKeepsSound(t, run);
    WorkerRunsAreBounded(t, run);
    WaitingMakesSense(After(t, run));
  }

  /** Mapping a panic takes the backend lock without contention. */
  lemma PanicMappingIsFree(t: Trace)
    requires Reachable(t) && t.state.pc.PanicLock?
    ensures ProceedEnabled(t.state)
    ensures StepOf(t.state, Proceed).state.pc == PanicHeld(t.state.pc.job)
  {
    ReachableIsSound(t);
  }

  // ----- every stop arrives -----

  /** The event loop is at a point where it takes a result: about to poll, or
      blocked in a wait. */
  predicate Listening(pc: ProtocolPc) { pc.Ready? || pc.CtrlCWait? }

  function Listen(pc: ProtocolPc): Action { if pc.Ready? then Poll else Proceed }

  /** A sent and undelivered result is there to be taken. */
  lemma ResultIsThere(s: State, l: Ledger)
    requires Control(s) && Keeps(s, l) && Listening(s.pc) && Newest(s.workers).Sent? && !l.job.delivered
    ensures s.rx.Some? && s.rx.value.buffer.Some? && s.rx.value.job + 1 == l.jobs
    ensures s.lock.None?
  {
  }

  lemma DoneDelivers(t: Trace)
    requires Listening(t.state.pc) && t.state.rx.Some? && t.state.rx.value.buffer.Some?
    requires t.state.rx.value.buffer.value.Done?
    ensures Enabled(t.state, Listen(t.state.pc))
    ensures var u := Apply(t, Listen(t.state.pc));
      u.state.pc.Ready? && u.log == t.log + [Delivered(t.state.rx.value.job, t.state.rx.value.buffer.value.reply)]
  {
  }

  lemma PanicIsTaken(t: Trace)
    requires Listening(t.state.pc) && t.state.rx.Some? && t.state.rx.value.buffer.Some?
    requires t.state.rx.value.buffer.value.Panicked?
    ensures Enabled(t.state, Listen(t.state.pc))
    ensures var u := Apply(t, Listen(t.state.pc));
      u.state.pc == PanicLock(t.state.rx.value.job) && u.state.lock == t.state.lock && u.log == t.log
  {
  }

  lemma PanicDelivers(t: Trace)
    requires t.state.pc.PanicLock? && t.state.lock.None?
    ensures Legal(t, [Proceed] + [Proceed])
    ensures var u := After(t, [Proceed] + [Proceed]);
      u.state.pc.Ready?
      && u.log == t.log + [Delivered(t.state.pc.job, SignalWithThread(StopTid(t.state.backend), SIGTRAP))]
  {
    hide StopTid, Legal, After;
    var u := Apply(t, Proceed);
    var v := Apply(u, Proceed);
    NoSteps(v);
    FirstStep(u, Proceed, []);
    assert [Proceed] + [] == [Proceed];
    FirstStep(t, Proceed, [Proceed]);
  }

  /** Taking it delivers it at once, or, for a panic, after the mapping. */
  lemma TakeDelivers(t: Trace) returns (more: seq<Action>)
    requires Listening(t.state.pc) && t.state.lock.None?
    requires t.state.rx.Some? && t.state.rx.value.buffer.Some?
    ensures |more| <= 3 && Legal(t, more)
    ensures var u := After(t, more);
      u.state.pc.Ready? && exists reply :: u.log == t.log + [Delivered(t.state.rx.value.job, reply)]
  {
    hide StopTid, Legal, After, Apply, Enabled;
    var take := Listen(t.state.pc);
    if t.state.rx.value.buffer.value.Done? {
      DoneDelivers(t);
      NoSteps(Apply(t, take));
      FirstStep(t, take, []);
      more := [take] + [];
    } else {
      PanicIsTaken(t);
      PanicDelivers(Apply(t, take));
      FirstStep(t, take, [Proceed] + [Proceed]);
      more := [take] + ([Proceed] + [Proceed]);
    }
  }

  /** Workers accept and deliver nothing. */
  lemma WorkerEvents(s: State, a: Action)
    requires Enabled(s, a) && ByWorkerThread(a)
    ensures var e := StepOf(s, a).event; e.Some? ==> !e.value.Accepted? && !e.value.Delivered?
  {
    hide Move, JobReply, InterruptReply, ExitsProcess;
  }

  lemma EnterQuietly(l: Ledger, e: Event)
    requires !e.Accepted? && !e.Delivered?
    ensures Enter(l, e).jobs == l.jobs && Enter(l, e).job.delivered == l.job.delivered
  {
  }

  lemma {:induction false} WorkersDeliverNothing(t: Trace, run: seq<Action>)
    requires Legal(t, run) && forall i :: 0 <= i < |run| ==> ByWorkerThread(run[i])
    ensures Book(After(t, run).log).jobs == Book(t.log).jobs
    ensures Book(After(t, run).log).job.delivered == Book(t.log).job.delivered
    decreases |run|
  {
    hide StepOf, Enabled, Book, Enter;
    if run != [] {
      var e := StepOf(t.state, run[0]).event;
      WorkerEvents(t.state, run[0]);
      if e.Some? {
        BookExtends(t.log, e.value);
        EnterQuietly(Book(t.log), e.value);
      }
      WorkersDeliverNothing(Apply(t, run[0]), run[1..]);
    }
  }

  /** Every accepted resume that was not superseded gets its stop: once the
      workers, in any order, have run out of steps, the next poll delivers it,
      or the wait that is blocked on it returns it. */
  lemma EveryStopArrives(t: Trace, m: nat, run: seq<Action>) returns (more: seq<Action>)
    requires Reachable(t) && Listening(t.state.pc) && m < |t.log| && t.log[m].Accepted?
    requires forall k :: m < k < |t.log| ==> !t.log[k].Accepted?
    requires forall k :: m < k < |t.log| && t.log[k].Delivered? ==> t.log[k].job != t.log[m].job
    requires Legal(t, run) && forall i :: 0 <= i < |run| ==> ByWorkerThread(run[i])
    requires forall a :: ByWorkerThread(a) ==> !Enabled(After(t, run).state, a)
    ensures |more| <= 3 && Legal(After(t, run), more)
    ensures var u := After(After(t, run), more);
      u.state.pc.Ready? && exists reply :: u.log == After(t, run).log + [Delivered(t.log[m].job, reply)]
  {
    hide Reachable, Enabled, Legal, After, Control, Keeps, Book, Enter, Balanced;
    ReachableIsSound(t);
    StillOwed(t, m);
    RunKeepsSound(t, run);
    WorkersDeliverNothing(t, run);
    WorkerRunsAreBounded(t, run);
    var u := After(t, run);
    if !Newest(u.state.workers).Sent? {
      WorkersAreNeverStuck(u.state);
    }
    ResultIsThere(u.state, Book(u.log));
    more := TakeDelivers(u);
  }

  lemma StillOwed(t: Trace, m: nat)
    requires Sound(t) && m < |t.log| && t.log[m].Accepted?
    requires forall k :: m < k < |t.log| ==> !t.log[k].Accepted?
    requires forall k :: m < k < |t.log| && t.log[k].Delivered? ==> t.log[k].job != t.log[m].job
    ensures Book(t.log).jobs == t.log[m].job + 1 && !Book(t.log).job.delivered
  {
    hide Control, Keeps, Book, Enter;
    var last := FindNewestAccept(t.log, m);
    if Book(t.log).job.delivered {
      var d := FindDelivery(t.log);
      AcceptedFirst(t.log, m, d);
    }
  }

  // ----- interrupt requests -----

  lemma WorkersStoreNothing(s: State, a: Action)
    requires Enabled(s, a) && ByWorkerThread(a)
    ensures StepOf(s, a).event != Some(FlagStored)
  {
    hide Move, JobReply, InterruptReply, ExitsProcess;
  }

  lemma {:induction false} WorkerRunsStoreNothing(t: Trace, run: seq<Action>)
    requires Legal(t, run) && forall i :: 0 <= i < |run| ==> ByWorkerThread(run[i])
    ensures var u := After(t, run);
      u.state.hasHandle == t.state.hasHandle && t.log <= u.log && FlagStored !in u.log[|t.log|..]
    decreases |run|
  {
    if run != [] {
      hide StepOf, Enabled;
      WorkerAdvances(t.state, run[0]);
      WorkersStoreNothing(t.state, run[0]);
      var mid := Apply(t, run[0]);
      WorkerRunsStoreNothing(mid, run[1..]);
      var end := After(t, run);
      assert end.log[|t.log|..] == mid.log[|t.log|..] + end.log[|mid.log|..];
    }
  }

  /** A request stores the flag if and only if its load saw the runner busy,
      whether or not there is an interrupt handle, and whatever the workers do
      between the load and the store. */
  lemma RequestStoresIff(t: Trace, run: seq<Action>)
    requires t.state.pc.InterruptLoad?
    requires var u := Apply(t, Proceed); Legal(u, run) && forall i :: 0 <= i < |run| ==> ByWorkerThread(run[i])
    ensures var v := After(Apply(t, Proceed), run);
      && t.log <= v.log && FlagStored !in v.log[|t.log|..]
      && if t.state.running then
           && ProceedEnabled(v.state) && v.state.pc == InterruptStore(t.state.pc.caller)
           && Apply(v, Proceed).log == v.log + [FlagStored] && Apply(v, Proceed).state.interrupted
           && Apply(v, Proceed).state.pc == (if t.state.hasHandle then InterruptFire(t.state.pc.caller)
                                             else AfterInterrupt(t.state.pc.caller))
         else v.state.pc == AfterInterrupt(t.state.pc.caller)
  {
    LoadDecides(t);
    var u := Apply(t, Proceed);
    WorkerRunsAreBounded(u, run);
    WorkerRunsStoreNothing(u, run);
    hide Legal, After;
    var v := After(u, run);
    if t.state.running {
      StoreStores(v);
    }
  }

  lemma LoadDecides(t: Trace)
    requires t.state.pc.InterruptLoad?
    ensures var u := Apply(t, Proceed); var caller := t.state.pc.caller;
      && u.log == t.log && u.state.hasHandle == t.state.hasHandle
      && u.state.pc == if t.state.running then InterruptStore(caller) else AfterInterrupt(caller)
  {
  }

  lemma StoreStores(t: Trace)
    requires t.state.pc.InterruptStore?
    ensures ProceedEnabled(t.state)
    ensures var u := Apply(t, Proceed); var caller := t.state.pc.caller;
      && u.log == t.log + [FlagStored] && u.state.interrupted
      && u.state.pc == if t.state.hasHandle then InterruptFire(caller) else AfterInterrupt(caller)
  {
  }
}
