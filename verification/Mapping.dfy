/** The stop-reply vocabulary of the wire (`src/gdb/mapping.rs`). */
module Mapping {
  import opened Vocabulary

  datatype Signal = SIGZERO | SIGINT | SIGTRAP | SIGABRT | SIGKILL | SIGSEGV

  datatype WatchKind = Write | Read | ReadWrite

  datatype StopReply =
    | SignalWithThread(tid: u64, signal: Signal)
    | Watch(watchTid: u64, kind: WatchKind, addr: u64)
    | Exited(code: u8)

  /** What the protocol layer can read of a backend: where it is and which
      threads it knows. */
  datatype Backend = Backend(position: Position, current: Option<u64>, active: seq<u64>)

  /** `usize` is 64 bits wide here, so only 0 is undeliverable. */
  function ToWireTid(t: u64): Option<u64> {
    if t == 0 then None else Some(t)
  }

  /** The thread a stop reply advertises is always a valid wire id: the current
      thread if it is known and deliverable, else the first active one, else 1. */
  function StopTid(b: Backend): (tid: u64)
    ensures tid != 0
    ensures b.current.Some? && b.current.value != 0 ==> tid == b.current.value
    ensures !(b.current.Some? && b.current.value != 0) && b.active != [] && b.active[0] != 0 ==> tid == b.active[0]
    ensures !(b.current.Some? && b.current.value != 0) && (b.active == [] || b.active[0] == 0) ==> tid == 1
  {
    var current := if b.current.Some? then ToWireTid(b.current.value) else None;
    var first := if b.active == [] then None else ToWireTid(b.active[0]);
    if current.Some? then current.value
    else if first.Some? then first.value
    else 1
  }

  function WatchKindFromAccess(access: u8): WatchKind {
    var read := access % 2 == 1;
    var write := (access / 2) % 2 == 1;
    if read && write then ReadWrite else if read then Read else Write
  }

  function SignalForException(code: u32): Signal {
    if code == 0x8000_0003 || code == 0x8000_0004 then SIGTRAP
    else if code == 0xE06D_7363 || code == 0x2047_4343 then SIGABRT
    else SIGSEGV
  }

  function MapStopReason(b: Backend, reason: OpResult): StopReply {
    var tid := StopTid(b);
    match reason
    case Err(_) => SignalWithThread(tid, SIGTRAP)
    case Ok(r) =>
      match r
      case ProcessExit => SignalWithThread(tid, SIGKILL)
      case TraceEnd => SignalWithThread(tid, SIGKILL)
      case TraceStart => SignalWithThread(tid, SIGZERO)
      case Watchpoint(_, addr, access) => Watch(tid, WatchKindFromAccess(access), addr)
      case Exception(code, _) => SignalWithThread(tid, SignalForException(code))
      case Interrupted => SignalWithThread(tid, SIGINT)
      case _ => SignalWithThread(tid, SIGTRAP)
  }
}
