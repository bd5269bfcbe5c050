/** Every interleaving of the runner keeps the ledger. */
module Refinement {
  import opened Vocabulary
  import opened Mapping
  import opened Resume
  import opened Checkpoints
  import opened Runner
  import opened RunnerSafety
  import opened Ledger

  function NewestKind(ws: seq<Worker>): JobKind {
    if ws == [] then ExitReply else ws[|ws| - 1].kind
  }

  /** The job being started has done nothing yet but, perhaps, its reset. */
  predicate MatchesStart(job: Job, pc: ProtocolPc)
    requires Starting(pc)
  {
    && job.kind == pc.kind && job.reset == !pc.StartReset?
    && job.swapped.None? && job.ran.None? && !job.exit && job.finished.None? && !job.delivered
  }

  /** The replay is on record with its reason, and a process exit with it. */
  predicate MatchesReplay(job: Job, exitNoted: bool) {
    job.kind.ReplayJob? ==>
      job.ran.Some? && (job.exit <==> exitNoted && ExitsProcess(job.kind, job.ran.value.1))
  }

  /** The record of a started job agrees with where its worker stands. */
  predicate MatchesWorker(job: Job, kind: JobKind, pc: WorkerPc) {
    && job.reset
    && (!pc.Sent? ==> job.kind == kind && !job.delivered)
    && match pc
       case Spawned => job.swapped.None? && job.finished.None? && job.ran.None? && !job.exit
       case Locked => job.swapped.None? && job.finished.None? && job.ran.None? && !job.exit
       case Executed(reason) =>
         && job.swapped.None? && job.finished.None?
         && kind.ReplayJob? && MatchesReplay(job, false) && job.ran.value.1 == reason
       case Noted(reason) =>
         && job.swapped.None? && job.finished.None?
         && kind.ReplayJob? && MatchesReplay(job, true) && job.ran.value.1 == reason
       case Ran(reply) =>
         job.swapped.None? && job.finished.None? && Fits(job, Done(reply, false)) && MatchesReplay(job, true)
       case Aborted => job.swapped == Some(true) && job.finished.None? && MatchesReplay(job, true)
       case Decided(o) =>
         job.finished.None? && Fits(job, o) && (o.Done? ==> job.swapped == Some(o.byInterrupt))
       case Released(o) => job.finished == Some(o)
       case Dropped(o) => job.finished == Some(o)
       case Idle(o) => job.finished == Some(o)
       case Sent => job.finished.Some?
  }

  /** A sent result is in the channel, being mapped, or delivered. */
  predicate MatchesChannel(job: Job, newest: WorkerPc, pc: ProtocolPc, rx: Option<Channel>) {
    newest.Sent? ==>
      if pc.PanicLock? || pc.PanicHeld? then !job.delivered && job.finished == Some(Panicked)
      else if rx.Some? && rx.value.buffer.Some? then !job.delivered && job.finished == rx.value.buffer
      else job.delivered
  }

  predicate MatchesChoice(choice: Option<(ReplayOp, JobKind)>, pc: ProtocolPc) {
    choice == match pc
              case LeaveEndState(op) => Some((op, ReplayJob(op)))
              case StartCas(op, kind) => Some((op, kind))
              case _ => None
  }

  /** Where the backend has to be while nothing may move it. */
  predicate MatchesBackend(l: Ledger, now: Backend, restarting: bool) {
    && (l.choice.Some? ==> !l.pending)
    && (l.choice.Some? && l.choice.value.1.PositionStop? ==> l.honouring)
    && ((l.pending && !restarting) || (l.choice.Some? && l.honouring) ==>
          now == l.restartAt && l.job.finished.Some?)
    && (l.job.finished.None? && !l.job.kind.ReplayJob? ==> now == l.job.at)
    && (l.job.finished.None? && l.job.ran.Some? ==> now == l.job.ran.value.0)
  }

  predicate Keeps(s: State, l: Ledger) {
    && l.jobs == |s.workers| + (if Starting(s.pc) then 1 else 0)
    && l.flag == s.interrupted && l.endState == s.endState && l.pending == s.restartPending
    && MatchesChoice(l.choice, s.pc)
    && (s.pc.LeaveEndState? ==> !s.pc.op.IsForward())
    && (s.pc.CtrlCWait? ==> !l.job.delivered)
    && (s.pc.StartCas? && !s.pc.op.IsForward() && l.endState ==> l.late)
    && (l.pending || (l.choice.Some? && l.honouring) ==> !s.running)
    && MatchesBackend(l, s.backend, s.pc.RestartDone?)
    && (if Starting(s.pc) then MatchesStart(l.job, s.pc)
        else
          && MatchesWorker(l.job, NewestKind(s.workers), Newest(s.workers))
          && MatchesChannel(l.job, Newest(s.workers), s.pc, s.rx))
  }

  function Posted(l: Ledger, e: Option<Event>): Ledger {
    if e.None? then l else Enter(l, e.value)
  }

  /** The step records only what the ledger allows, and keeps it. */
  predicate Refines(n: Next, l: Ledger) {
    && (n.event.Some? ==> Allowed(l, n.event.value))
    && Keeps(n.state, Posted(l, n.event))
  }

  /** Program points the ledger does not distinguish. */
  predicate Plain(pc: ProtocolPc) {
    !InStart(pc) && !pc.PanicLock? && !pc.PanicHeld? && !pc.RestartDone?
  }

  lemma PlainMoveKeeps(s: State, t: State, l: Ledger)
    requires Keeps(s, l) && Plain(s.pc) && Plain(t.pc)
    requires t.workers == s.workers && t.rx == s.rx && t.interrupted == s.interrupted
    requires t.endState == s.endState && t.restartPending == s.restartPending && t.backend == s.backend
    requires !t.pc.CtrlCWait? && t.running == s.running
    ensures Keeps(t, l)
  {
  }

  lemma TakeRefines(s: State, otherwise: ProtocolPc, l: Ledger)
    requires Control(s) && Keeps(s, l) && (s.pc.Ready? || s.pc.CtrlCWait?)
    requires s.rx.Some? && s.rx.value.buffer.Some? && s.rx.value.buffer.value.Done?
    ensures Refines(Receive(s, otherwise), l)
  {
    hide Fits, Decide;
    assert Newest(s.workers).Sent? && !l.job.delivered;
  }

  lemma TakePanicRefines(s: State, otherwise: ProtocolPc, l: Ledger)
    requires Control(s) && Keeps(s, l) && (s.pc.Ready? || s.pc.CtrlCWait?)
    requires s.rx.Some? && s.rx.value.buffer == Some(Panicked)
    ensures Refines(Receive(s, otherwise), l)
  {
    hide Fits, Decide;
    assert Newest(s.workers).Sent? && !l.job.delivered;
  }

  lemma ReceiveRefines(s: State, otherwise: ProtocolPc, l: Ledger)
    requires Control(s) && Keeps(s, l) && (s.pc.Ready? || s.pc.CtrlCWait?)
    requires otherwise.Ready? || otherwise.InterruptLoad?
    ensures Refines(Receive(s, otherwise), l)
  {
    hide Control, Keeps;
    if s.rx.Some? && s.rx.value.buffer == Some(Panicked) {
      TakePanicRefines(s, otherwise, l);
    } else if s.rx.Some? && s.rx.value.buffer.Some? {
      TakeRefines(s, otherwise, l);
    } else {
      PlainMoveKeeps(s, s.(pc := otherwise), l);
    }
  }

  lemma ResumeRefines(s: State, op: ReplayOp, l: Ledger)
    requires Keeps(s, l) && s.pc.Ready?
    ensures Refines(ResumeStep(s, op), l)
  {
  }

  lemma RequestRefines(s: State, a: Action, l: Ledger)
    requires Control(s) && Keeps(s, l) && s.pc.Ready? && IsRequest(a)
    ensures Refines(RequestStep(s, a), l)
  {
    hide Control, Keeps;
    match a
    case Resume(op) => ResumeRefines(s, op, l);
    case Poll => ReceiveRefines(s, Ready, l);
    case CtrlC => ReceiveRefines(s, InterruptLoad(FromCtrlC), l);
    case VCtrlC => PlainMoveKeeps(s, RequestStep(s, a).state, l);
    case Ask(q) => PlainMoveKeeps(s, RequestStep(s, a).state, l);
    case Disconnect => PlainMoveKeeps(s, RequestStep(s, a).state, l);
  }

  lemma AcceptRefines(s: State, l: Ledger)
    requires Control(s) && Keeps(s, l) && s.pc.StartCas? && !s.running
    ensures Refines(StartStep(s), l)
  {
    hide Fits, Decide;
  }

  lemma RefuseRefines(s: State, l: Ledger)
    requires Control(s) && Keeps(s, l) && s.pc.StartCas? && s.running
    ensures Refines(StartStep(s), l)
  {
    hide Fits, Decide;
  }

  lemma ClaimRefines(s: State, l: Ledger)
    requires Control(s) && Keeps(s, l) && ProceedEnabled(s)
    requires s.pc.LeaveEndState? || s.pc.StartReset? || s.pc.StartLock?
    ensures Refines(StartStep(s), l)
  {
  }

  lemma LaunchRefines(s: State, l: Ledger)
    requires Control(s) && Keeps(s, l) && (s.pc.StartBegin? || s.pc.StartSwapRx? || s.pc.StartSpawn?)
    ensures Refines(StartStep(s), l)
  {
  }

  lemma StartRefines(s: State, l: Ledger)
    requires Control(s) && Keeps(s, l) && ProceedEnabled(s) && InStart(s.pc)
    ensures Refines(StartStep(s), l)
  {
    hide Control, Keeps, StartStep, Refines;
    if s.pc.StartCas? && !s.running {
      AcceptRefines(s, l);
    } else if s.pc.StartCas? {
      RefuseRefines(s, l);
    } else if s.pc.LeaveEndState? || s.pc.StartReset? || s.pc.StartLock? {
      ClaimRefines(s, l);
    } else {
      LaunchRefines(s, l);
    }
  }

  lemma StoreRefines(s: State, l: Ledger)
    requires Keeps(s, l) && s.pc.InterruptStore?
    ensures Refines(InterruptStep(s), l)
  {
  }

  /** `on_interrupt` only blocks on a job that still owes its stop. */
  lemma CheckRefines(s: State, l: Ledger)
    requires Control(s) && Keeps(s, l) && s.pc.CtrlCCheck?
    ensures Refines(InterruptStep(s), l)
  {
  }

  lemma InterruptRefines(s: State, l: Ledger)
    requires Control(s) && Keeps(s, l) && InInterrupt(s.pc)
    ensures Refines(InterruptStep(s), l)
  {
    hide Control, Keeps;
    match s.pc
    case InterruptStore(_) => StoreRefines(s, l);
    case InterruptLoad(_) => PlainMoveKeeps(s, InterruptStep(s).state, l);
    case InterruptFire(_) => PlainMoveKeeps(s, InterruptStep(s).state, l);
    case CtrlCCheck => CheckRefines(s, l);
  }

  /** Only an idle runner is moved by a restart. */
  lemma LandingKeeps(s: State, t: State, l: Ledger)
    requires Control(s) && Keeps(s, l) && s.pc.QueryHeld? && t.pc.RestartDone?
    requires t.workers == s.workers && t.rx == s.rx && t.interrupted == s.interrupted
    requires t.endState == s.endState && t.restartPending == s.restartPending && t.running == s.running
    ensures Keeps(t, l)
  {
  }

  lemma QueryRefines(s: State, l: Ledger)
    requires Control(s) && Keeps(s, l) && s.pc.QueryHeld?
    ensures Keeps(QueryStep(s, s.pc.query), l)
  {
    hide Control, Keeps, QueryStep;
    var t := QueryStep(s, s.pc.query);
    QueryFrame(s, s.pc.query);
    if t.pc.RestartDone? {
      LandingKeeps(s, t, l);
    } else {
      PlainMoveKeeps(s, t, l);
    }
  }

  lemma MapPanicRefines(s: State, l: Ledger)
    requires Control(s) && Keeps(s, l) && ProceedEnabled(s) && (s.pc.PanicLock? || s.pc.PanicHeld?)
    ensures Refines(ServeStep(s), l)
  {
    hide StopTid;
  }

  lemma NoteRestartRefines(s: State, l: Ledger)
    requires Control(s) && Keeps(s, l) && s.pc.RestartDone?
    ensures Refines(ServeStep(s), l)
  {
  }

  lemma PlainServeRefines(s: State, l: Ledger)
    requires Keeps(s, l) && ProceedEnabled(s) && !InStart(s.pc) && !InInterrupt(s.pc)
    requires Plain(s.pc) && !s.pc.CtrlCWait? && !s.pc.QueryHeld?
    ensures Refines(ServeStep(s), l)
  {
    hide Keeps, SoleOwner;
    match s.pc
    case QueryLock(_) => PlainMoveKeeps(s, ServeStep(s).state, l);
    case TeardownPoll => PlainMoveKeeps(s, ServeStep(s).state, l);
    case TeardownUnwrap => PlainMoveKeeps(s, ServeStep(s).state, l);
  }

  lemma ServeRefines(s: State, l: Ledger)
    requires Control(s) && Keeps(s, l) && ProceedEnabled(s) && !InStart(s.pc) && !InInterrupt(s.pc)
    ensures Refines(ServeStep(s), l)
  {
    hide Control, Keeps;
    if s.pc.CtrlCWait? {
      ReceiveRefines(s, Ready, l);
    } else if s.pc.QueryHeld? {
      QueryRefines(s, l);
    } else if Plain(s.pc) {
      PlainServeRefines(s, l);
    } else if s.pc.RestartDone? {
      NoteRestartRefines(s, l);
    } else {
      MapPanicRefines(s, l);
    }
  }

  lemma JobRefines(s: State, w: nat, l: Ledger)
    requires Control(s) && Keeps(s, l) && WorkEnabled(s, w)
    requires var pc := s.workers[w].pc; pc.Locked? || pc.Noted?
    ensures Refines(JobStep(s, w), l)
  {
    assert w == |s.workers| - 1 && !Starting(s.pc);
  }

  lemma ExitRefines(s: State, w: nat, l: Ledger)
    requires Control(s) && Keeps(s, l) && WorkEnabled(s, w) && s.workers[w].pc.Executed?
    ensures Refines(JobStep(s, w), l)
  {
    hide Fits, Decide;
    assert w == |s.workers| - 1 && !Starting(s.pc);
  }

  lemma SwapRefines(s: State, w: nat, l: Ledger)
    requires Control(s) && Keeps(s, l) && WorkEnabled(s, w) && s.workers[w].pc.Ran?
    ensures Refines(JobStep(s, w), l)
  {
    assert w == |s.workers| - 1 && !Starting(s.pc);
  }

  lemma AbortRefines(s: State, w: nat, l: Ledger)
    requires Control(s) && Keeps(s, l) && WorkEnabled(s, w) && s.workers[w].pc.Aborted?
    ensures Refines(JobStep(s, w), l)
  {
    assert w == |s.workers| - 1 && !Starting(s.pc);
  }

  lemma LockRefines(s: State, w: nat, l: Ledger)
    requires Control(s) && Keeps(s, l) && WorkEnabled(s, w)
    requires var pc := s.workers[w].pc; pc.Spawned? || pc.Decided?
    ensures Refines(HandOffStep(s, w), l)
  {
    assert w == |s.workers| - 1 && !Starting(s.pc);
  }

  lemma DropRefines(s: State, w: nat, l: Ledger)
    requires Control(s) && Keeps(s, l) && WorkEnabled(s, w) && s.workers[w].pc.Released?
    ensures Refines(HandOffStep(s, w), l)
  {
    assert w == |s.workers| - 1 && !Starting(s.pc);
  }

  lemma IdleRefines(s: State, w: nat, l: Ledger)
    requires Control(s) && Keeps(s, l) && WorkEnabled(s, w) && s.workers[w].pc.Dropped?
    ensures Refines(HandOffStep(s, w), l)
  {
    assert w == |s.workers| - 1 && !Starting(s.pc);
  }

  /** A late sender's channel is gone; the newest job's result is buffered. */
  lemma SendRefines(s: State, w: nat, l: Ledger)
    requires Control(s) && Keeps(s, l) && w < |s.workers| && s.workers[w].pc.Idle?
    ensures Refines(HandOffStep(s, w), l)
  {
    var t := HandOffStep(s, w).state;
    if w < |s.workers| - 1 {
      assert t.rx == s.rx && Newest(t.workers) == Newest(s.workers);
    } else if !Starting(s.pc) {
      assert s.rx.Some? && s.rx.value.job == w;
    }
  }

  lemma WorkRefines(s: State, w: nat, l: Ledger)
    requires Control(s) && Keeps(s, l) && WorkEnabled(s, w)
    ensures Refines(WorkStep(s, w), l)
  {
    hide Control, Keeps, Refines;
    match s.workers[w].pc
    case Spawned => LockRefines(s, w, l);
    case Locked => JobRefines(s, w, l);
    case Executed(_) => ExitRefines(s, w, l);
    case Noted(_) => JobRefines(s, w, l);
    case Ran(_) => SwapRefines(s, w, l);
    case Aborted => AbortRefines(s, w, l);
    case Decided(_) => LockRefines(s, w, l);
    case Released(_) => DropRefines(s, w, l);
    case Dropped(_) => IdleRefines(s, w, l);
    case Idle(_) => SendRefines(s, w, l);
  }

  /** The backend returned from a replay. */
  lemma ExecuteRefines(s: State, a: Action, l: Ledger)
    requires Control(s) && Keeps(s, l) && Enabled(s, a) && a.Execute?
    ensures Refines(StepOf(s, a), l)
  {
    assert a.w == |s.workers| - 1 && !Starting(s.pc);
  }

  lemma PanicRefines(s: State, a: Action, l: Ledger)
    requires Control(s) && Keeps(s, l) && Enabled(s, a) && a.Panic?
    ensures Refines(StepOf(s, a), l)
  {
    hide Decide, MapStopReason, StopTid;
    assert a.w == |s.workers| - 1 && !Starting(s.pc);
  }

  lemma StepRefines(s: State, a: Action, l: Ledger)
    requires Control(s) && Keeps(s, l) && Enabled(s, a)
    ensures Refines(StepOf(s, a), l)
  {
    if IsRequest(a) {
      RequestRefines(s, a, l);
    } else if a.Proceed? {
      if InStart(s.pc) {
        StartRefines(s, l);
      } else if InInterrupt(s.pc) {
        InterruptRefines(s, l);
      } else {
        ServeRefines(s, l);
      }
    } else if a.Work? {
      WorkRefines(s, a.w, l);
    } else if a.Execute? {
      ExecuteRefines(s, a, l);
    } else if a.Panic? {
      PanicRefines(s, a, l);
    }
  }

  lemma BookExtends(log: seq<Event>, e: Event)
    ensures Book(log + [e]) == Enter(Book(log), e)
  {
    assert (log + [e])[..|log|] == log;
  }

  lemma BalancedExtends(log: seq<Event>, e: Event)
    requires Balanced(log) && Allowed(Book(log), e)
    ensures Balanced(log + [e])
  {
    var l := log + [e];
    forall n | 0 <= n < |l|
      ensures Allowed(Book(l[..n]), l[n])
    {
      assert l[..n] == log[..n];
      assert log[..|log|] == log;
    }
  }

  /** What holds at every point of every run. */
  ghost predicate Sound(t: Trace) {
    Control(t.state) && Balanced(t.log) && Keeps(t.state, Book(t.log))
  }

  lemma StepKeepsSound(t: Trace, a: Action)
    requires Sound(t) && Enabled(t.state, a)
    ensures Sound(Apply(t, a))
  {
    hide Control, Keeps, StepOf, Balanced;
    StepKeepsControl(t.state, a);
    StepRefines(t.state, a, Book(t.log));
    var e := StepOf(t.state, a).event;
    if e.Some? {
      BookExtends(t.log, e.value);
      BalancedExtends(t.log, e.value);
    }
  }

  lemma {:induction false} RunKeepsSound(t: Trace, run: seq<Action>)
    requires Sound(t) && Legal(t, run)
    ensures Sound(After(t, run))
    decreases |run|
  {
    hide Sound, Apply;
    if run != [] {
      StepKeepsSound(t, run[0]);
      RunKeepsSound(Apply(t, run[0]), run[1..]);
    }
  }

  lemma SessionIsSound(b: Backend, c: Table, h: bool)
    ensures Sound(Session(b, c, h))
  {
  }

  /** Every run of every session refines the ledger. */
  lemma ReachableIsSound(t: Trace)
    requires Reachable(t)
    ensures Sound(t)
  {
    hide Sound, Session, Legal, After;
    var b, c, h, run :| Leads(Session(b, c, h), run, t);
    SessionIsSound(b, c, h);
    RunKeepsSound(Session(b, c, h), run);
  }

  lemma ReachableIsBalanced(t: Trace)
    requires Reachable(t)
    ensures Balanced(t.log)
  {
    hide Reachable, Control, Keeps, Balanced;
    ReachableIsSound(t);
  }
}
