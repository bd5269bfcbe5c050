/** What the stop of an uninterrupted replay tells the client, reason by reason
    (`src/gdb/mapping.rs`). */
module StopReplies {
  import opened Vocabulary
  import opened Mapping
  import opened Runner
  import opened Guarantees

  predicate IsTrapCode(code: u32) { code == 0x8000_0003 || code == 0x8000_0004 }

  predicate IsAbortCode(code: u32) { code == 0xE06D_7363 || code == 0x2047_4343 }

  /** The signal, if the reply carries one. */
  predicate Signals(reply: StopReply, signal: Signal, tid: u64) { reply == SignalWithThread(tid, signal) }

  /** The reply to `reason` names the thread `tid` and says exactly this. */
  predicate Reports(reply: StopReply, reason: OpResult, tid: u64) {
    && (Signals(reply, SIGKILL, tid) <==> reason == Ok(ProcessExit) || reason == Ok(TraceEnd))
    && (Signals(reply, SIGZERO, tid) <==> reason == Ok(TraceStart))
    && (Signals(reply, SIGINT, tid) <==> reason == Ok(Interrupted))
    && (reply.Watch? <==> reason.Ok? && reason.value.Watchpoint?)
    && (reply.Watch? ==>
          && reply.watchTid == tid && reply.addr == reason.value.wpAddr
          && (reply.kind.ReadWrite? <==> reason.value.access % 4 == 3)
          && (reply.kind.Read? <==> reason.value.access % 4 == 1)
          && (reply.kind.Write? <==> reason.value.access % 4 == 0 || reason.value.access % 4 == 2))
    && (Signals(reply, SIGABRT, tid) <==> reason.Ok? && reason.value.Exception? && IsAbortCode(reason.value.code))
    && (Signals(reply, SIGSEGV, tid) <==>
          reason.Ok? && reason.value.Exception? && !IsAbortCode(reason.value.code) && !IsTrapCode(reason.value.code))
    && (Signals(reply, SIGTRAP, tid) <==>
          || reason.Err?
          || reason.value.Breakpoint? || reason.value.StepComplete? || reason.value.PositionReached?
          || (reason.value.Exception? && IsTrapCode(reason.value.code)))
  }

  lemma MapReports(b: Backend, reason: OpResult)
    ensures Reports(MapStopReason(b, reason), reason, StopTid(b))
  {
    hide StopTid;
    match reason
    case Err(_) =>
    case Ok(r) =>
      match r
      case Watchpoint(_, _, access) => AccessBits(access);
      case _ =>
  }

  lemma AccessBits(access: u8)
    ensures access % 2 == 1 <==> access % 4 == 1 || access % 4 == 3
    ensures (access / 2) % 2 == 1 <==> access % 4 == 2 || access % 4 == 3
  {
  }

  /** Over every run: the stop of a replay that was neither interrupted nor
      panicked reports the reason its own backend run ended with, on the thread
      the backend was left on. */
  lemma StopReportsItsReason(t: Trace, d: nat) returns (m: nat, x: nat, f: nat)
    requires Reachable(t) && d < |t.log| && t.log[d].Delivered?
    ensures m < f < d && t.log[m].Accepted? && t.log[f].Finished?
    ensures t.log[m].job == t.log[f].job == t.log[d].job
    ensures t.log[m].kind.ReplayJob? && t.log[f].outcome.Done? && !t.log[f].outcome.byInterrupt ==>
      && m < x < f && t.log[x].Replayed? && t.log[x].job == t.log[d].job
      && Reports(t.log[d].reply, t.log[x].reason, StopTid(t.log[x].after))
  {
    hide Reachable, MapStopReason, StopTid, Reports;
    m, x, f := StopTellsItsReplay(t, d);
    if t.log[m].kind.ReplayJob? && t.log[f].outcome.Done? {
      MapReports(t.log[x].after, t.log[x].reason);
    }
  }
}
