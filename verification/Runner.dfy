/** The replay-worker protocol (`src/gdb/runner.rs`, `src/gdb/target.rs`,
    `src/gdb/session.rs`, `src/gdb/target/extended.rs`) as an interleaved
    transition system.

    One protocol thread and any number of workers take turns. Each action
    touches shared memory at most once, so every interleaving of the original's
    atomic accesses is a run here. The protocol thread is a program counter:
    while it is inside one operation it cannot begin another, which is what
    `&mut self` on `start` and the guards' borrows enforce. */
module Runner {
  import opened Vocabulary
  import opened Mapping
  import opened Resume
  import opened Checkpoints
  import opened Commands

  // ----- jobs and workers -----

  /** What a resume is answered with. */
  datatype JobKind = ReplayJob(op: ReplayOp) | ExitReply | PositionStop

  /** The message a worker sends. `byInterrupt` records whose result it is:
      `on_interrupt`'s or the job's own. */
  datatype Outcome = Done(reply: StopReply, byInterrupt: bool) | Panicked

  datatype WorkerPc =
    | Spawned
    | Locked                        // holds the backend, job not yet run
    | Executed(reason: OpResult)    // the replay operation returned
    | Noted(reason: OpResult)       // the end-state store is behind it
    | Ran(reply: StopReply)         // the job returned; the swap is next
    | Aborted                       // the swap saw the flag; `on_interrupt` is next
    | Decided(outcome: Outcome)     // the result is known, or a panic unwinds
    | Released(outcome: Outcome)    // backend guard dropped
    | Dropped(outcome: Outcome)     // backend handle dropped
    | Idle(outcome: Outcome)        // `replay_running` cleared; the send is next
    | Sent

  datatype Worker = Worker(kind: JobKind, pc: WorkerPc)

  predicate PastIdle(pc: WorkerPc) { pc.Idle? || pc.Sent? }

  predicate Guarded(pc: WorkerPc) {
    pc.Locked? || pc.Executed? || pc.Noted? || pc.Ran? || pc.Aborted? || pc.Decided?
  }

  predicate HasHandle(pc: WorkerPc) { pc.Spawned? || Guarded(pc) || pc.Released? }

  // ----- the protocol thread -----

  /** Packets served through `try_lock`. A restart carries its arguments, the
      start of the trace, and where `goto` left the backend, or nothing when it
      failed; `R` is a restart without arguments. */
  datatype Query =
    | Inspect
    | Save(where_: Text)
    | Delete(id: u64)
    | Restart(args: seq<Text>, start: Position, landing: Option<Backend>)

  /** What `request_interrupt` returns to. */
  datatype Caller = FromCtrlC | FromVCtrlC | FromTeardown

  datatype ProtocolPc =
    | Ready
    // spawn_replay and TargetRunner::start
    | LeaveEndState(op: ReplayOp)
    | StartCas(op: ReplayOp, kind: JobKind)
    | StartReset(kind: JobKind)
    | StartLock(kind: JobKind)
    | StartBegin(kind: JobKind)
    | StartSwapRx(kind: JobKind)
    | StartSpawn(kind: JobKind)
    // request_interrupt
    | InterruptLoad(caller: Caller)
    | InterruptStore(caller: Caller)
    | InterruptFire(caller: Caller)
    // on_interrupt
    | CtrlCCheck
    | CtrlCWait
    // map_worker_result on a panic
    | PanicLock(job: nat)
    | PanicHeld(job: nat)
    // try_lock
    | QueryLock(query: Query)
    | QueryHeld(query: Query)
    | RestartDone(target: Position)
    // into_backend
    | TeardownPoll
    | TeardownUnwrap
    | Closed(recovered: Option<Backend>)

  predicate Starting(pc: ProtocolPc) {
    pc.StartReset? || pc.StartLock? || pc.StartBegin? || pc.StartSwapRx? || pc.StartSpawn?
  }

  predicate ProtocolHolds(pc: ProtocolPc) {
    pc.StartBegin? || pc.PanicHeld? || pc.QueryHeld?
  }

  // ----- the shared state -----

  datatype Holder = ByProtocol | ByWorker(job: nat)

  /** The receiving end of one job's channel. */
  datatype Channel = Channel(job: nat, buffer: Option<Outcome>)

  /** What a step can be seen to do; a run is judged by the sequence of these. */
  datatype Event =
    | Resumed(op: ReplayOp, kind: JobKind)                           // spawn_replay decided
    | LeftEnd                                                        // a backward resume cleared the end state
    | Accepted(job: nat, op: ReplayOp, kind: JobKind, at: Backend)   // the compare-exchange succeeded
    | Refused                                                        // AlreadyRunning
    | FlagReset(job: nat)
    | FlagStored
    | FlagSwapped(job: nat, seen: bool)
    | Replayed(job: nat, after: Backend, reason: OpResult)           // the backend returned from a replay
    | ExitSeen(job: nat)                                             // a forward replay ended the process
    | Finished(job: nat, outcome: Outcome, at: Backend)              // the worker let go of the backend
    | Restarted(target: Position, at: Backend)                       // asked for, and where it led
    | Delivered(job: nat, reply: StopReply)                          // a stop reached the client

  datatype State = State(
    backend: Backend,
    lock: Option<Holder>,
    interrupted: bool,
    running: bool,
    workers: seq<Worker>,       // worker i runs job i
    rx: Option<Channel>,
    endState: bool,
    restartPending: bool,
    checkpoints: Table,
    hasHandle: bool,            // the backend offers an interrupt handle
    pc: ProtocolPc)

  /** A session starts from a recovered backend and checkpoint table. */
  function Init(b: Backend, t: Table, hasHandle: bool): State {
    State(b, None, false, false, [], None, false, false, t, hasHandle, Ready)
  }

  datatype Action =
    // a packet, a poll of the event loop, or the end of the session
    | Resume(op: ReplayOp)
    | Poll
    | CtrlC
    | VCtrlC
    | Ask(query: Query)
    | Disconnect
    // the protocol thread's next step inside an operation
    | Proceed
    | GiveUp
    // worker steps
    | Work(w: nat)
    | Execute(w: nat, after: Backend, reason: OpResult)
    | Panic(w: nat, after: Backend)

  // ----- protocol steps -----

  predicate CanReceive(s: State) {
    s.rx.None? || s.rx.value.buffer.Some?
    || (s.rx.value.job < |s.workers| && s.workers[s.rx.value.job].pc.Sent?)
  }

  predicate ProceedEnabled(s: State) {
    match s.pc
    case Ready => false
    case Closed(_) => false
    case StartLock(_) => s.lock.None?
    case QueryLock(_) => s.lock.None?
    case PanicLock(_) => s.lock.None?
    case CtrlCWait => CanReceive(s)
    case _ => true
  }

  datatype Next = Next(state: State, event: Option<Event>)

  function Quietly(s: State): Next { Next(s, None) }

  function Seen(s: State, e: Event): Next { Next(s, Some(e)) }

  /** `spawn_replay` up to its choice of job. */
  function Decide(op: ReplayOp, restartPending: bool, endState: bool): JobKind {
    if restartPending && op.IsForward() then PositionStop
    else if endState && op.IsForward() then ExitReply
    else ReplayJob(op)
  }

  function ResumeStep(s: State, op: ReplayOp): Next {
    var kind := Decide(op, s.restartPending, s.endState);
    var pc := if s.endState && !op.IsForward() then LeaveEndState(op) else StartCas(op, kind);
    Seen(s.(restartPending := false, pc := pc), Resumed(op, kind))
  }

  /** Take the buffered result, if any; a panic outcome is mapped under the
      backend lock first. With nothing buffered, go on at `otherwise`. */
  function Receive(s: State, otherwise: ProtocolPc): Next {
    if s.rx.None? || s.rx.value.buffer.None? then Quietly(s.(pc := otherwise))
    else
      var job := s.rx.value.job;
      match s.rx.value.buffer.value
      case Panicked => Quietly(s.(rx := Some(Channel(job, None)), pc := PanicLock(job)))
      case Done(reply, _) => Seen(s.(rx := Some(Channel(job, None)), pc := Ready), Delivered(job, reply))
  }

  function AfterInterrupt(caller: Caller): ProtocolPc {
    match caller
    case FromCtrlC => CtrlCCheck
    case FromVCtrlC => Ready
    case FromTeardown => TeardownPoll
  }

  function QueryStep(s: State, q: Query): State {
    match q
    case Inspect => s.(lock := None, pc := Ready)
    case Save(where_) =>
      s.(lock := None, pc := Ready, checkpoints := Inserted(s.checkpoints, s.backend.position, where_))
    case Delete(id) => s.(lock := None, pc := Ready, checkpoints := Removed(s.checkpoints, id))
    case Restart(args, start, landing) =>
      var target := RestartTarget(RestartText(args), s.checkpoints, start);
      if target.None? || landing.None? then s.(lock := None, pc := Ready)
      else s.(lock := None, pc := RestartDone(target.value), backend := landing.value)
  }

  /** `Arc::try_unwrap`: only while no worker holds a handle. */
  predicate SoleOwner(s: State) {
    forall i :: 0 <= i < |s.workers| ==> !HasHandle(s.workers[i].pc)
  }

  /** From `spawn_replay`'s decision to the spawned worker. */
  predicate InStart(pc: ProtocolPc) {
    pc.LeaveEndState? || pc.StartCas? || Starting(pc)
  }

  function StartStep(s: State): Next
    requires ProceedEnabled(s) && InStart(s.pc)
  {
    match s.pc
    case LeaveEndState(op) =>
      Seen(s.(endState := false, pc := StartCas(op, ReplayJob(op))), LeftEnd)
    case StartCas(op, kind) =>
      if s.running then Seen(s.(pc := Ready), Refused)
      else Seen(s.(running := true, pc := StartReset(kind)),
                Accepted(|s.workers|, op, kind, s.backend))
    case StartReset(kind) =>
      Seen(s.(interrupted := false, pc := StartLock(kind)), FlagReset(|s.workers|))
    case StartLock(kind) => Quietly(s.(lock := Some(ByProtocol), pc := StartBegin(kind)))
    case StartBegin(kind) => Quietly(s.(lock := None, pc := StartSwapRx(kind)))
    case StartSwapRx(kind) =>
      Quietly(s.(rx := Some(Channel(|s.workers|, None)), pc := StartSpawn(kind)))
    case StartSpawn(kind) =>
      Quietly(s.(workers := s.workers + [Worker(kind, Spawned)], pc := Ready))
  }

  /** `request_interrupt`, and the deciding load of `on_interrupt`. */
  predicate InInterrupt(pc: ProtocolPc) {
    pc.InterruptLoad? || pc.InterruptStore? || pc.InterruptFire? || pc.CtrlCCheck?
  }

  function InterruptStep(s: State): Next
    requires InInterrupt(s.pc)
  {
    match s.pc
    case InterruptLoad(caller) =>
      Quietly(s.(pc := if s.running then InterruptStore(caller) else AfterInterrupt(caller)))
    case InterruptStore(caller) =>
      Seen(s.(interrupted := true,
              pc := if s.hasHandle then InterruptFire(caller) else AfterInterrupt(caller)),
           FlagStored)
    case InterruptFire(caller) => Quietly(s.(pc := AfterInterrupt(caller)))
    case CtrlCCheck => Quietly(s.(pc := if s.running then CtrlCWait else Ready))
  }

  /** Steps that use the backend, wait for a result, or end the session. */
  function ServeStep(s: State): Next
    requires ProceedEnabled(s) && !InStart(s.pc) && !InInterrupt(s.pc)
  {
    match s.pc
    case CtrlCWait => Receive(s, Ready)
    case PanicLock(job) => Quietly(s.(lock := Some(ByProtocol), pc := PanicHeld(job)))
    case PanicHeld(job) =>
      Seen(s.(lock := None, pc := Ready),
           Delivered(job, SignalWithThread(StopTid(s.backend), SIGTRAP)))
    case QueryLock(q) => Quietly(s.(lock := Some(ByProtocol), pc := QueryHeld(q)))
    case QueryHeld(q) => Quietly(QueryStep(s, q))
    case RestartDone(target) =>
      Seen(s.(endState := false, restartPending := true, pc := Ready), Restarted(target, s.backend))
    case TeardownPoll => Quietly(if s.running then s else s.(pc := TeardownUnwrap))
    case TeardownUnwrap =>
      Quietly(s.(pc := Closed(if SoleOwner(s) then Some(s.backend) else None)))
  }

  function ProceedStep(s: State): Next
    requires ProceedEnabled(s)
  {
    if InStart(s.pc) then StartStep(s)
    else if InInterrupt(s.pc) then InterruptStep(s)
    else ServeStep(s)
  }

  // ----- worker steps -----

  function JobReply(kind: JobKind, b: Backend, reason: OpResult): StopReply {
    match kind
    case ReplayJob(_) => MapStopReason(b, reason)
    case ExitReply => Exited(0)
    case PositionStop => SignalWithThread(StopTid(b), SIGTRAP)
  }

  function InterruptReply(kind: JobKind, b: Backend): StopReply {
    match kind
    case ReplayJob(_) => SignalWithThread(StopTid(b), SIGINT)
    case ExitReply => Exited(0)
    case PositionStop => SignalWithThread(StopTid(b), SIGTRAP)
  }

  predicate ExitsProcess(kind: JobKind, reason: OpResult) {
    kind.ReplayJob? && kind.op.IsForward() && reason == Ok(ProcessExit)
  }

  predicate WorkEnabled(s: State, w: nat) {
    w < |s.workers| &&
    var worker := s.workers[w];
    match worker.pc
    case Spawned => s.lock.None?
    case Locked => !worker.kind.ReplayJob?
    case Sent => false
    case _ => true
  }

  function Move(s: State, w: nat, pc: WorkerPc): State
    requires w < |s.workers|
  {
    s.(workers := s.workers[w := s.workers[w].(pc := pc)])
  }

  /** The part of the worker body that runs the job under the backend lock. */
  function JobStep(s: State, w: nat): Next
    requires WorkEnabled(s, w) && Guarded(s.workers[w].pc) && !s.workers[w].pc.Decided?
  {
    var Worker(kind, pc) := s.workers[w];
    match pc
    case Locked => Quietly(Move(s, w, Ran(JobReply(kind, s.backend, Err(Ttd)))))
    case Executed(reason) =>
      if ExitsProcess(kind, reason) then Seen(Move(s, w, Noted(reason)).(endState := true), ExitSeen(w))
      else Quietly(Move(s, w, Noted(reason)))
    case Noted(reason) => Quietly(Move(s, w, Ran(JobReply(kind, s.backend, reason))))
    case Ran(reply) =>
      Seen(Move(s, w, if s.interrupted then Aborted else Decided(Done(reply, false))).(interrupted := false),
           FlagSwapped(w, s.interrupted))
    case Aborted => Quietly(Move(s, w, Decided(Done(InterruptReply(kind, s.backend), true))))
  }

  /** The part that takes the lock and, in this order, gives everything back:
      guard, handle, flag, result. */
  function HandOffStep(s: State, w: nat): Next
    requires WorkEnabled(s, w) && (!Guarded(s.workers[w].pc) || s.workers[w].pc.Decided?)
  {
    match s.workers[w].pc
    case Spawned => Quietly(Move(s, w, Locked).(lock := Some(ByWorker(w))))
    case Decided(outcome) =>
      Seen(Move(s, w, Released(outcome)).(lock := None), Finished(w, outcome, s.backend))
    case Released(outcome) => Quietly(Move(s, w, Dropped(outcome)))
    case Dropped(outcome) => Quietly(Move(s, w, Idle(outcome)).(running := false))
    case Idle(outcome) => Quietly(Move(s, w, Sent).(rx := Post(s.rx, w, outcome)))
  }

  /** A send reaches the receiver only while the runner still holds it. */
  function Post(rx: Option<Channel>, w: nat, outcome: Outcome): Option<Channel> {
    if rx.Some? && rx.value.job == w then Some(Channel(w, Some(outcome))) else rx
  }

  function WorkStep(s: State, w: nat): Next
    requires WorkEnabled(s, w)
  {
    if Guarded(s.workers[w].pc) && !s.workers[w].pc.Decided? then JobStep(s, w) else HandOffStep(s, w)
  }

  /** Backend code may panic wherever a worker calls it; only a replay moves
      the backend. */
  predicate PanicEnabled(s: State, w: nat, after: Backend) {
    w < |s.workers| &&
    var worker := s.workers[w];
    match worker.pc
    case Locked => worker.kind.ReplayJob? || (worker.kind.PositionStop? && after == s.backend)
    case Noted(_) => after == s.backend
    case Aborted => !worker.kind.ExitReply? && after == s.backend
    case _ => false
  }

  // ----- runs -----

  predicate Enabled(s: State, a: Action) {
    match a
    case Proceed => ProceedEnabled(s)
    case GiveUp => s.pc.TeardownPoll?
    case Work(w) => WorkEnabled(s, w)
    case Execute(w, _, _) =>
      w < |s.workers| && s.workers[w].pc.Locked? && s.workers[w].kind.ReplayJob?
    case Panic(w, after) => PanicEnabled(s, w, after)
    case _ => s.pc.Ready?
  }

  /** A packet, a poll of the event loop, or the end of the session. */
  predicate IsRequest(a: Action) {
    a.Resume? || a.Poll? || a.CtrlC? || a.VCtrlC? || a.Ask? || a.Disconnect?
  }

  function RequestStep(s: State, a: Action): Next
    requires IsRequest(a)
  {
    match a
    case Resume(op) => ResumeStep(s, op)
    case Poll => Receive(s, Ready)
    case CtrlC => Receive(s, InterruptLoad(FromCtrlC))
    case VCtrlC => Quietly(s.(pc := InterruptLoad(FromVCtrlC)))
    case Ask(q) => Quietly(if s.running then s else s.(pc := QueryLock(q)))
    case Disconnect =>
      Quietly(s.(pc := if s.running && s.hasHandle then InterruptLoad(FromTeardown) else TeardownUnwrap))
  }

  function StepOf(s: State, a: Action): Next
    requires Enabled(s, a)
  {
    if IsRequest(a) then RequestStep(s, a) else
    match a
    case Proceed => ProceedStep(s)
    case GiveUp => Quietly(s.(pc := TeardownUnwrap))
    case Work(w) => WorkStep(s, w)
    case Execute(w, after, reason) =>
      Seen(Move(s, w, Executed(reason)).(backend := after), Replayed(w, after, reason))
    case Panic(w, after) => Quietly(Move(s, w, Decided(Panicked)).(backend := after))
  }

  function Extend(log: seq<Event>, e: Option<Event>): seq<Event> {
    if e.None? then log else log + [e.value]
  }

  /** Where a run has got to and what it showed on the way, oldest first. */
  datatype Trace = Trace(state: State, log: seq<Event>)

  function Apply(t: Trace, a: Action): Trace
    requires Enabled(t.state, a)
  {
    var n := StepOf(t.state, a);
    Trace(n.state, Extend(t.log, n.event))
  }

  predicate Legal(t: Trace, run: seq<Action>)
    decreases |run|
  {
    run == [] || (Enabled(t.state, run[0]) && Legal(Apply(t, run[0]), run[1..]))
  }

  function After(t: Trace, run: seq<Action>): Trace
    requires Legal(t, run)
    decreases |run|
  {
    if run == [] then t else After(Apply(t, run[0]), run[1..])
  }

  function Session(b: Backend, t: Table, hasHandle: bool): Trace {
    Trace(Init(b, t, hasHandle), [])
  }

  ghost predicate Leads(from: Trace, run: seq<Action>, to: Trace) {
    Legal(from, run) && After(from, run) == to
  }

  /** Some run of some session leads here. */
  ghost predicate Reachable(t: Trace) {
    exists b, c, h, run :: Leads(Session(b, c, h), run, t)
  }
}
