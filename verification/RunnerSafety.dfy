/** What every interleaving keeps: one owner of the backend at a time, and an
    idle flag that means what its readers take it to mean. */
module RunnerSafety {
  import opened Vocabulary
  import opened Checkpoints
  import opened Commands
  import opened Runner

  /** Where the worker of the newest job stands. */
  function Newest(ws: seq<Worker>): WorkerPc {
    if ws == [] then Sent else ws[|ws| - 1].pc
  }

  ghost predicate OlderAreIdle(ws: seq<Worker>) {
    forall i :: 0 <= i < |ws| - 1 ==> PastIdle(ws[i].pc)
  }

  /** Operations that began by seeing the runner idle, and during which nobody
      else can set the flag again. */
  predicate NeedsIdle(pc: ProtocolPc) {
    pc.QueryLock? || pc.QueryHeld? || pc.RestartDone? || pc.PanicLock? || pc.PanicHeld?
  }

  predicate FlagTracksNewest(newest: WorkerPc, pc: ProtocolPc, running: bool) {
    && (running <==> Starting(pc) || !PastIdle(newest))
    && (Starting(pc) || NeedsIdle(pc) ==> PastIdle(newest))
  }

  /** The lock has exactly the holder the program counters name. */
  predicate LockTracksGuards(newest: WorkerPc, count: nat, pc: ProtocolPc, lock: Option<Holder>) {
    lock == if ProtocolHolds(pc) then Some(ByProtocol)
            else if Guarded(newest) then Some(ByWorker(if count == 0 then 0 else count - 1))
            else None
  }

  predicate ChannelIsNewest(newest: WorkerPc, count: nat, pc: ProtocolPc, rx: Option<Channel>) {
    && (rx.None? ==> count == 0 && !pc.StartSpawn?)
    && (rx.Some? ==>
          && rx.value.job == (if pc.StartSpawn? then count else count - 1)
          && (rx.value.buffer.Some? ==> newest.Sent? && !pc.StartSpawn?))
    && (pc.PanicLock? || pc.PanicHeld? ==> newest.Sent? && rx == Some(Channel(pc.job, None)))
  }

  ghost predicate Control(s: State) {
    && OlderAreIdle(s.workers)
    && FlagTracksNewest(Newest(s.workers), s.pc, s.running)
    && LockTracksGuards(Newest(s.workers), |s.workers|, s.pc, s.lock)
    && ChannelIsNewest(Newest(s.workers), |s.workers|, s.pc, s.rx)
  }

  lemma ReceiveKeepsControl(s: State, otherwise: ProtocolPc)
    requires Control(s) && (s.pc.Ready? || s.pc.CtrlCWait?)
    requires otherwise.Ready? || otherwise.InterruptLoad?
    ensures Control(Receive(s, otherwise).state)
  {
    if s.rx.Some? && s.rx.value.buffer.Some? {
      match s.rx.value.buffer.value
      case Panicked =>
      case Done(_, _) =>
    }
  }

  lemma RequestKeepsControl(s: State, a: Action)
    requires Control(s) && s.pc.Ready? && IsRequest(a)
    ensures Control(RequestStep(s, a).state)
  {
    match a
    case Resume(op) =>
    case Poll => ReceiveKeepsControl(s, Ready);
    case CtrlC => ReceiveKeepsControl(s, InterruptLoad(FromCtrlC));
    case VCtrlC =>
    case Ask(q) =>
    case Disconnect =>
  }

  /** `start` up to the lock it takes for `begin_resume`. */
  lemma ClaimKeepsControl(s: State)
    requires Control(s) && ProceedEnabled(s)
    requires s.pc.LeaveEndState? || s.pc.StartCas? || s.pc.StartReset? || s.pc.StartLock?
    ensures Control(StartStep(s).state)
  {
  }

  /** `start` from that lock to the spawned worker. */
  lemma LaunchKeepsControl(s: State)
    requires Control(s) && (s.pc.StartBegin? || s.pc.StartSwapRx? || s.pc.StartSpawn?)
    ensures Control(StartStep(s).state)
  {
  }

  lemma InterruptKeepsControl(s: State)
    requires Control(s) && InInterrupt(s.pc)
    ensures Control(InterruptStep(s).state)
  {
    match s.pc
    case InterruptLoad(_) =>
    case InterruptStore(_) =>
    case InterruptFire(_) =>
    case CtrlCCheck =>
  }

  lemma UnlockKeepsControl(s: State, t: State)
    requires Control(s) && s.pc.QueryHeld? && (t.pc.Ready? || t.pc.RestartDone?)
    requires t.workers == s.workers && t.running == s.running && t.rx == s.rx && t.lock.None?
    ensures Control(t)
  {
  }

  /** A query lets go of the lock and, unless it restarts, of nothing else. */
  lemma QueryFrame(s: State, q: Query)
    ensures var t := QueryStep(s, q);
      && t.workers == s.workers && t.running == s.running && t.rx == s.rx && t.lock.None?
      && t.interrupted == s.interrupted && t.endState == s.endState && t.restartPending == s.restartPending
      && (t.pc.RestartDone? || (t.pc.Ready? && t.backend == s.backend))
  {
    hide Inserted, Removed, RestartTarget;
  }

  lemma QueryKeepsControl(s: State)
    requires Control(s) && s.pc.QueryHeld?
    ensures Control(QueryStep(s, s.pc.query))
  {
    hide Control, QueryStep;
    QueryFrame(s, s.pc.query);
    UnlockKeepsControl(s, QueryStep(s, s.pc.query));
  }

  lemma LockedCallKeepsControl(s: State)
    requires Control(s) && ProceedEnabled(s) && (s.pc.PanicLock? || s.pc.PanicHeld? || s.pc.QueryLock?)
    ensures Control(ServeStep(s).state)
  {
  }

  lemma CloseKeepsControl(s: State)
    requires Control(s) && (s.pc.RestartDone? || s.pc.TeardownPoll? || s.pc.TeardownUnwrap?)
    ensures Control(ServeStep(s).state)
  {
    hide SoleOwner;
  }

  lemma ServeKeepsControl(s: State)
    requires Control(s) && ProceedEnabled(s) && !InStart(s.pc) && !InInterrupt(s.pc)
    ensures Control(ServeStep(s).state)
  {
    hide Control;
    match s.pc
    case CtrlCWait => ReceiveKeepsControl(s, Ready);
    case PanicLock(_) => LockedCallKeepsControl(s);
    case PanicHeld(_) => LockedCallKeepsControl(s);
    case QueryLock(_) => LockedCallKeepsControl(s);
    case QueryHeld(_) => QueryKeepsControl(s);
    case RestartDone(_) => CloseKeepsControl(s);
    case TeardownPoll => CloseKeepsControl(s);
    case TeardownUnwrap => CloseKeepsControl(s);
  }

  /** Worker `w` moves; no other worker and nothing of the protocol thread does. */
  ghost predicate OnlyWorkerMoves(s: State, t: State, w: nat) {
    && w < |s.workers| == |t.workers|
    && t.workers == s.workers[w := Worker(s.workers[w].kind, t.workers[w].pc)]
    && t.pc == s.pc && t.restartPending == s.restartPending && t.checkpoints == s.checkpoints
    && t.hasHandle == s.hasHandle
  }

  /** Under the lock a worker leaves the hand-over machinery alone. */
  ghost predicate MovesUnderLock(s: State, t: State, w: nat) {
    && OnlyWorkerMoves(s, t, w)
    && Guarded(s.workers[w].pc) && Guarded(t.workers[w].pc)
    && t.running == s.running && t.lock == s.lock && t.rx == s.rx
  }

  lemma JobMovesUnderLock(s: State, w: nat)
    requires WorkEnabled(s, w) && Guarded(s.workers[w].pc) && !s.workers[w].pc.Decided?
    ensures MovesUnderLock(s, JobStep(s, w).state, w)
  {
    hide JobReply, InterruptReply, ExitsProcess;
    match s.workers[w].pc
    case Locked =>
    case Executed(_) =>
    case Noted(_) =>
    case Ran(_) =>
    case Aborted =>
  }

  lemma MoveKeepsControl(s: State, t: State, w: nat)
    requires Control(s) && MovesUnderLock(s, t, w)
    ensures Control(t)
  {
  }

  lemma HandOffKeepsControl(s: State, w: nat)
    requires Control(s) && WorkEnabled(s, w) && (!Guarded(s.workers[w].pc) || s.workers[w].pc.Decided?)
    requires !s.workers[w].pc.Idle?
    ensures Control(HandOffStep(s, w).state)
  {
    assert w == |s.workers| - 1;
    match s.workers[w].pc
    case Spawned =>
    case Decided(_) =>
    case Released(_) =>
    case Dropped(_) =>
  }

  lemma SendKeepsControl(s: State, t: State, w: nat)
    requires Control(s) && w < |s.workers| && s.workers[w].pc.Idle?
    requires t.workers == s.workers[w := s.workers[w].(pc := Sent)]
    requires t.pc == s.pc && t.running == s.running && t.lock == s.lock
    requires t.rx == s.rx || (s.rx.Some? && s.rx.value.job == w && t.rx.Some? && t.rx.value.job == w)
    ensures Control(t)
  {
    if w < |s.workers| - 1 {
      assert Newest(t.workers) == Newest(s.workers);
    }
  }

  lemma WorkKeepsControl(s: State, w: nat)
    requires Control(s) && WorkEnabled(s, w)
    ensures Control(WorkStep(s, w).state)
  {
    if Guarded(s.workers[w].pc) && !s.workers[w].pc.Decided? {
      JobMovesUnderLock(s, w);
      MoveKeepsControl(s, JobStep(s, w).state, w);
    } else if s.workers[w].pc.Idle? {
      SendKeepsControl(s, HandOffStep(s, w).state, w);
    } else {
      HandOffKeepsControl(s, w);
    }
  }

  lemma StepKeepsControl(s: State, a: Action)
    requires Control(s) && Enabled(s, a)
    ensures Control(StepOf(s, a).state)
  {
    if IsRequest(a) {
      RequestKeepsControl(s, a);
    } else {
      match a
      case Proceed =>
        if s.pc.StartBegin? || s.pc.StartSwapRx? || s.pc.StartSpawn? {
          LaunchKeepsControl(s);
        } else if InStart(s.pc) {
          ClaimKeepsControl(s);
        } else if InInterrupt(s.pc) {
          InterruptKeepsControl(s);
        } else {
          ServeKeepsControl(s);
        }
      case GiveUp =>
      case Work(w) => WorkKeepsControl(s, w);
      case Execute(w, _, _) => MoveKeepsControl(s, StepOf(s, a).state, w);
      case Panic(w, _) => MoveKeepsControl(s, StepOf(s, a).state, w);
    }
  }
}
