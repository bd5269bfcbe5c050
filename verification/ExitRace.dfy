/** `W00` without a preceding `T09`. The session notes promise that a recorded
    process exit is first shown as `T09` (`src/gdb/session.rs`, lines 18-22). A
    ^C that lands after the exit was noted and before the worker's swap turns
    that stop into `T02`, and the next forward resume is still answered `W00`.
    `Guarantees.ExitIsShownFirst` says exactly when this happens. */
module ExitRace {
  import opened Vocabulary
  import opened Mapping
  import opened Resume
  import opened Checkpoints
  import opened Runner
  import opened Runs
  import opened Ledger
  import opened DeliveryLaws

  lemma ResumeIsAccepted(t: Trace) returns (u: Trace)
    requires Reachable(t) && t.state.pc.Ready? && !t.state.running && !t.state.restartPending
    ensures Reachable(u)
    ensures var n := |t.state.workers|; var kind := Decide(Continue, false, t.state.endState);
      && u.state == t.state.(running := true, interrupted := false, pc := StartLock(kind))
      && u.log == t.log + [Resumed(Continue, kind), Accepted(n, Continue, kind, t.state.backend), FlagReset(n)]
  {
    hide Reachable, Decide;
    u := ReachableStep(t, Resume(Continue));
    u := ReachableStep(u, Proceed);
    u := ReachableStep(u, Proceed);
  }

  /** A resume of an idle runner gets as far as its spawned worker. */
  lemma ResumeSpawns(t: Trace) returns (u: Trace)
    requires Reachable(t) && t.state.pc.Ready? && !t.state.running && t.state.lock.None?
    requires !t.state.restartPending
    ensures Reachable(u)
    ensures var n := |t.state.workers|; var kind := Decide(Continue, false, t.state.endState);
      && u.state == t.state.(running := true, interrupted := false, rx := Some(Channel(n, None)),
                             workers := t.state.workers + [Worker(kind, Spawned)])
      && u.log == t.log + [Resumed(Continue, kind), Accepted(n, Continue, kind, t.state.backend), FlagReset(n)]
  {
    hide Reachable, Decide;
    u := ResumeIsAccepted(t);
    u := ReachableStep(u, Proceed);
    u := ReachableStep(u, Proceed);
    u := ReachableStep(u, Proceed);
    u := ReachableStep(u, Proceed);
  }

  lemma OutcomeIsSent(t: Trace, w: nat, reply: StopReply, byInterrupt: bool) returns (u: Trace)
    requires Reachable(t) && w + 1 == |t.state.workers| && t.state.workers[w].pc == Decided(Done(reply, byInterrupt))
    requires t.state.rx == Some(Channel(w, None))
    ensures Reachable(u)
    ensures u.state == t.state.(lock := None, running := false, rx := Some(Channel(w, Some(Done(reply, byInterrupt)))),
                                workers := t.state.workers[w := t.state.workers[w].(pc := Sent)])
    ensures u.log == t.log + [Finished(w, Done(reply, byInterrupt), t.state.backend)]
  {
    hide Reachable;
    u := ReachableStep(t, Work(w));
    u := ReachableStep(u, Work(w));
    u := ReachableStep(u, Work(w));
    u := ReachableStep(u, Work(w));
  }

  /** A worker that knows its outcome delivers it, to a poll or to a wait. */
  lemma OutcomeArrives(t: Trace, w: nat, reply: StopReply, byInterrupt: bool) returns (u: Trace)
    requires Reachable(t) && w + 1 == |t.state.workers| && t.state.workers[w].pc == Decided(Done(reply, byInterrupt))
    requires (t.state.pc.Ready? || t.state.pc.CtrlCWait?) && t.state.rx == Some(Channel(w, None))
    ensures Reachable(u)
    ensures u.state == t.state.(lock := None, running := false, pc := Ready,
                                workers := t.state.workers[w := t.state.workers[w].(pc := Sent)])
    ensures u.log == t.log + [Finished(w, Done(reply, byInterrupt), t.state.backend), Delivered(w, reply)]
  {
    hide Reachable;
    u := OutcomeIsSent(t, w, reply, byInterrupt);
    u := ReachableStep(u, if t.state.pc.Ready? then Poll else Proceed);
  }

  /** The worker notes the process exit and maps it. */
  lemma ExitIsNoted(t: Trace) returns (u: Trace)
    requires Reachable(t) && t.state.workers == [Worker(ReplayJob(Continue), Spawned)] && t.state.lock.None?
    ensures Reachable(u)
    ensures var reply := SignalWithThread(StopTid(t.state.backend), SIGKILL);
      u.state == t.state.(lock := Some(ByWorker(0)), endState := true,
                          workers := [Worker(ReplayJob(Continue), Ran(reply))])
    ensures u.log == t.log + [Replayed(0, t.state.backend, Ok(ProcessExit)), ExitSeen(0)]
  {
    hide Reachable, StopTid;
    u := ReachableStep(t, Work(0));
    u := ReachableStep(u, Execute(0, t.state.backend, Ok(ProcessExit)));
    u := ReachableStep(u, Work(0));
    u := ReachableStep(u, Work(0));
  }

  /** A ^C arrives before the worker's swap. */
  lemma InterruptWins(t: Trace, kill: StopReply) returns (u: Trace)
    requires Reachable(t) && t.state.workers == [Worker(ReplayJob(Continue), Ran(kill))]
    requires t.state.pc.Ready? && t.state.running && !t.state.hasHandle && t.state.rx == Some(Channel(0, None))
    ensures Reachable(u)
    ensures var reply := SignalWithThread(StopTid(t.state.backend), SIGINT);
      u.state == t.state.(interrupted := false, pc := CtrlCWait,
                          workers := [Worker(ReplayJob(Continue), Decided(Done(reply, true)))])
    ensures u.log == t.log + [FlagStored, FlagSwapped(0, true)]
  {
    hide Reachable, StopTid;
    u := ReachableStep(t, CtrlC);
    u := ReachableStep(u, Proceed);
    u := ReachableStep(u, Proceed);
    u := ReachableStep(u, Proceed);
    u := ReachableStep(u, Work(0));
    u := ReachableStep(u, Work(0));
  }

  lemma ExitReplyRuns(t: Trace) returns (u: Trace)
    requires Reachable(t) && |t.state.workers| == 2 && t.state.workers[1] == Worker(ExitReply, Spawned)
    requires t.state.lock.None? && !t.state.interrupted
    ensures Reachable(u)
    ensures u.state == t.state.(lock := Some(ByWorker(1)),
                                workers := t.state.workers[1 := Worker(ExitReply, Decided(Done(Exited(0), false)))])
    ensures u.log == t.log + [FlagSwapped(1, false)]
  {
    hide Reachable;
    u := ReachableStep(t, Work(1));
    u := ReachableStep(u, Work(1));
    u := ReachableStep(u, Work(1));
  }

  /** Two resumes, the first answered before the second. */
  lemma WaitsOnce(log: seq<Event>)
    requires |log| == 15 && log[0].Resumed? && log[1].Accepted? && log[9].Resumed? && log[10].Accepted?
    requires log[8].Delivered? && log[8].job == log[1].job
    requires forall i :: 0 <= i < 15 && log[i].Resumed? ==> i == 0 || i == 9
    requires forall i :: 0 <= i < 15 && log[i].Accepted? ==> i == 1 || i == 10
    ensures Disciplined(log)
  {
    assert AnsweredBy(log, 1, 9);
  }

  /** From every backend state, and without an interrupt handle, there is a run
      in which a client that waits for each stop sees `T02`, then `W00`, and
      never a `T09`. */
  lemma ExitWithoutKill(b: Backend) returns (t: Trace, first: nat, second: nat)
    ensures Reachable(t) && !t.state.hasHandle && Disciplined(t.log)
    ensures first < second < |t.log| && FlagStored in t.log[..first]
    ensures t.log[first] == Delivered(0, SignalWithThread(StopTid(b), SIGINT))
    ensures t.log[second] == Delivered(1, Exited(0))
    ensures forall i :: 0 <= i < |t.log| && t.log[i].Delivered? ==> !IsSignal(t.log[i].reply, SIGKILL)
  {
    hide Reachable, StopTid;
    SessionIsReachable(b, EMPTY, false);
    t := ResumeSpawns(Session(b, EMPTY, false));
    t := ExitIsNoted(t);
    t := InterruptWins(t, SignalWithThread(StopTid(b), SIGKILL));
    t := OutcomeArrives(t, 0, SignalWithThread(StopTid(b), SIGINT), true);
    t := ResumeSpawns(t);
    t := ExitReplyRuns(t);
    t := OutcomeArrives(t, 1, Exited(0), false);
    first, second := 8, 14;
    assert t.log[..first][5] == FlagStored;
    WaitsOnce(t.log);
  }
}
