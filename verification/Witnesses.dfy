/** Runs that exist: whatever a replay may come to is shown to some client, so
    that nothing proved of all runs holds for want of them. */
module Witnesses {
  import opened Vocabulary
  import opened Mapping
  import opened Resume
  import opened Checkpoints
  import opened Runner
  import opened Runs
  import opened ExitRace

  /** The first resume of a session, up to its spawned worker. */
  lemma Starts(b: Backend, c: Table, hasHandle: bool, op: ReplayOp) returns (t: Trace)
    ensures Reachable(t)
    ensures t.state == Init(b, c, hasHandle).(
      running := true, rx := Some(Channel(0, None)), workers := [Worker(ReplayJob(op), Spawned)])
  {
    hide Reachable;
    SessionIsReachable(b, c, hasHandle);
    t := ReachableStep(Session(b, c, hasHandle), Resume(op));
    t := ReachableStep(t, Proceed);
    t := ReachableStep(t, Proceed);
    t := ReachableStep(t, Proceed);
    t := ReachableStep(t, Proceed);
    t := ReachableStep(t, Proceed);
    t := ReachableStep(t, Proceed);
  }

  lemma Returns(t: Trace, op: ReplayOp, after: Backend, reason: OpResult) returns (u: Trace)
    requires Reachable(t) && t.state.workers == [Worker(ReplayJob(op), Spawned)] && t.state.lock.None?
    ensures Reachable(u)
    ensures u.state == t.state.(lock := Some(ByWorker(0)), backend := after, endState := u.state.endState,
                                workers := [Worker(ReplayJob(op), Noted(reason))])
  {
    hide Reachable, ExitsProcess;
    u := ReachableStep(t, Work(0));
    u := ReachableStep(u, Execute(0, after, reason));
    u := ReachableStep(u, Work(0));
  }

  lemma Replays(t: Trace, op: ReplayOp, after: Backend, reason: OpResult) returns (u: Trace)
    requires Reachable(t) && t.state.workers == [Worker(ReplayJob(op), Spawned)]
    requires t.state.lock.None? && !t.state.interrupted
    ensures Reachable(u)
    ensures u.state == t.state.(
      lock := Some(ByWorker(0)), backend := after, endState := u.state.endState,
      workers := [Worker(ReplayJob(op), Decided(Done(MapStopReason(after, reason), false)))])
  {
    hide Reachable, MapStopReason;
    u := Returns(t, op, after, reason);
    u := ReachableStep(u, Work(0));
    u := ReachableStep(u, Work(0));
  }

  /** From every session, for every operation and whatever its backend run comes
      to, there is a run that shows the client that stop, with the backend where
      the run left it. */
  lemma EveryReasonIsShown(b: Backend, c: Table, hasHandle: bool, op: ReplayOp, after: Backend, reason: OpResult)
    returns (t: Trace)
    ensures Reachable(t) && t.state.pc.Ready? && !t.state.running && t.state.backend == after
    ensures t.log != [] && t.log[|t.log| - 1] == Delivered(0, MapStopReason(after, reason))
  {
    hide Reachable, MapStopReason;
    t := Starts(b, c, hasHandle, op);
    t := Replays(t, op, after, reason);
    t := OutcomeArrives(t, 0, MapStopReason(after, reason), false);
  }

  lemma Panics(t: Trace, op: ReplayOp, after: Backend) returns (u: Trace)
    requires Reachable(t) && t.state.workers == [Worker(ReplayJob(op), Spawned)] && t.state.lock.None?
    requires t.state.rx == Some(Channel(0, None))
    ensures Reachable(u)
    ensures u.state == t.state.(running := false, backend := after, workers := [Worker(ReplayJob(op), Sent)],
                                rx := Some(Channel(0, Some(Panicked))))
  {
    hide Reachable;
    u := ReachableStep(t, Work(0));
    u := ReachableStep(u, Panic(0, after));
    u := ReachableStep(u, Work(0));
    u := ReachableStep(u, Work(0));
    u := ReachableStep(u, Work(0));
    u := ReachableStep(u, Work(0));
  }

  /** The same for a run that panics: the client is told SIGTRAP, on the thread
      the backend was left on. */
  lemma EveryPanicIsShown(b: Backend, c: Table, hasHandle: bool, op: ReplayOp, after: Backend) returns (t: Trace)
    ensures Reachable(t) && t.state.pc.Ready? && !t.state.running && t.state.backend == after
    ensures t.log != [] && t.log[|t.log| - 1] == Delivered(0, SignalWithThread(StopTid(after), SIGTRAP))
  {
    hide Reachable, StopTid;
    t := Starts(b, c, hasHandle, op);
    t := Panics(t, op, after);
    t := ReachableStep(t, Poll);
    t := ReachableStep(t, Proceed);
    t := ReachableStep(t, Proceed);
  }

  /** A resume of a busy runner is refused, and leaves the running job alone. */
  lemma RefusalHappens(b: Backend, c: Table, hasHandle: bool, op: ReplayOp, second: ReplayOp) returns (t: Trace)
    ensures Reachable(t) && t.state.pc.Ready? && t.state.running
    ensures t.log != [] && t.log[|t.log| - 1] == Refused && t.state.workers == [Worker(ReplayJob(op), Spawned)]
    ensures t.state.rx == Some(Channel(0, None)) && !t.state.interrupted
  {
    hide Reachable;
    t := Starts(b, c, hasHandle, op);
    t := ReachableStep(t, Resume(second));
    t := ReachableStep(t, Proceed);
  }
}
