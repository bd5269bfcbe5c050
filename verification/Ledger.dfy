/** A sequential account of one session. It knows nothing of threads, locks,
    channels or program counters: it says which events may follow which, and
    every interleaving of the runner is shown to keep it. */
module Ledger {
  import opened Vocabulary
  import opened Mapping
  import opened Resume
  import opened Runner

  /** What is on record about the newest accepted job. */
  datatype Job = Job(
    kind: JobKind,
    at: Backend,                // where the backend was when it was accepted
    reset: bool,                // it has cleared the interrupt flag
    swapped: Option<bool>,      // what its swap of the flag saw
    ran: Option<(Backend, OpResult)>,   // where its replay left the backend, and why
    exit: bool,                 // its replay ended the process
    finished: Option<Outcome>,
    delivered: bool)

  datatype Ledger = Ledger(
    jobs: nat,                  // accepted so far
    job: Job,
    flag: bool,
    endState: bool,
    pending: bool,              // a restart waits for its resume
    restartAt: Backend,
    honouring: bool,            // the last decision followed a restart directly
    choice: Option<(ReplayOp, JobKind)>,   // decided, not yet accepted or refused
    late: bool)                 // a process exit arrived after that decision

  const NOWHERE := Backend(Position(0, 0), None, [])

  /** Before the first resume nothing is owed. */
  const OPENED := Ledger(0, Job(ExitReply, NOWHERE, true, Some(false), None, false, Some(Panicked), true),
                         false, false, false, NOWHERE, false, None, false)

  predicate IsSignal(r: StopReply, signal: Signal) {
    r.SignalWithThread? && r.signal == signal
  }

  /** The results a job with this record can come to. */
  predicate Fits(job: Job, o: Outcome) {
    match o
    case Panicked => !job.kind.ExitReply?
    case Done(reply, byInterrupt) =>
      match job.kind
      case ExitReply => reply == Exited(0)
      case PositionStop => reply == SignalWithThread(StopTid(job.at), SIGTRAP)
      case ReplayJob(_) =>
        && job.ran.Some? && (job.exit <==> ExitsProcess(job.kind, job.ran.value.1))
        && reply == if byInterrupt then SignalWithThread(StopTid(job.ran.value.0), SIGINT)
                    else MapStopReason(job.ran.value.0, job.ran.value.1)
  }

  /** How an outcome reads on the wire. */
  predicate Tells(o: Outcome, reply: StopReply) {
    if o.Panicked? then IsSignal(reply, SIGTRAP) else reply == o.reply
  }

  predicate Allowed(l: Ledger, e: Event) {
    match e
    case Resumed(op, kind) => l.choice.None? && kind == Decide(op, l.pending, l.endState)
    case LeftEnd => l.choice.Some? && !l.choice.value.0.IsForward()
    case Accepted(j, op, kind, at) =>
      && j == l.jobs && l.choice == Some((op, kind)) && l.job.finished.Some?
      && (kind.PositionStop? || l.honouring ==> at == l.restartAt)
      && (!op.IsForward() && l.endState ==> l.late)
    case Refused => l.choice.Some? && !l.job.delivered && !l.honouring
    case FlagReset(j) => j + 1 == l.jobs && !l.job.reset
    case FlagStored => true
    case FlagSwapped(j, seen) =>
      j + 1 == l.jobs && l.job.reset && l.job.swapped.None? && l.job.finished.None? && seen == l.flag
    case Replayed(j, _, _) =>
      && j + 1 == l.jobs && l.job.reset && l.job.finished.None? && l.job.swapped.None?
      && l.job.kind.ReplayJob? && l.job.ran.None?
    case ExitSeen(j) =>
      && j + 1 == l.jobs && l.job.finished.None? && l.job.swapped.None? && !l.job.exit
      && l.job.ran.Some? && ExitsProcess(l.job.kind, l.job.ran.value.1)
    case Finished(j, o, at) =>
      && j + 1 == l.jobs && l.job.reset && l.job.finished.None?
      && (o.Done? ==> l.job.swapped == Some(o.byInterrupt))
      && Fits(l.job, o)
      && (!l.job.kind.ReplayJob? ==> at == l.job.at)
      && (l.job.ran.Some? ==> at == l.job.ran.value.0)
    case Restarted(_, _) => l.choice.None? && l.job.finished.Some?
    case Delivered(j, reply) =>
      j + 1 == l.jobs && l.job.finished.Some? && !l.job.delivered && Tells(l.job.finished.value, reply)
  }

  function Enter(l: Ledger, e: Event): Ledger {
    match e
    case Resumed(op, kind) => 
      l.(pending := false, honouring := l.pending, choice := Some((op, kind)), late := false)
    case LeftEnd => l.(endState := false)
    case Accepted(_, _, kind, at) =>
      l.(jobs := l.jobs + 1, choice := None, job := Job(kind, at, false, None, None, false, None, false))
    case Refused => l.(choice := None)
    case FlagReset(_) => l.(flag := false, job := l.job.(reset := true))
    case FlagStored => l.(flag := true)
    case FlagSwapped(_, seen) => l.(flag := false, job := l.job.(swapped := Some(seen)))
    case Replayed(_, after, reason) => l.(job := l.job.(ran := Some((after, reason))))
    case ExitSeen(_) => l.(endState := true, late := true, job := l.job.(exit := true))
    case Finished(_, o, _) => l.(job := l.job.(finished := Some(o)))
    case Restarted(_, at) => l.(endState := false, pending := true, restartAt := at)
    case Delivered(_, _) => l.(job := l.job.(delivered := true))
  }

  function Book(log: seq<Event>): Ledger {
    if log == [] then OPENED else Enter(Book(log[..|log| - 1]), log[|log| - 1])
  }

  /** Every event was allowed by what came before it. */
  ghost predicate Balanced(log: seq<Event>) {
    forall n :: 0 <= n < |log| ==> Allowed(Book(log[..n]), log[n])
  }
}
