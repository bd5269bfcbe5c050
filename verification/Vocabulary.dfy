/** Types shared by every part of the model: machine words, wire text, trace
    positions and the stop vocabulary of the debug target. */
module Vocabulary {

  newtype u8 = x: int | 0 <= x < 0x100
  newtype u16 = x: int | 0 <= x < 0x1_0000
  newtype u32 = x: int | 0 <= x < 0x1_0000_0000
  newtype u64 = x: int | 0 <= x < 0x1_0000_0000_0000_0000

  const U64_MAX: u64 := 0xffff_ffff_ffff_ffff

  /** A Rust `String` is its UTF-8 bytes. */
  type Text = seq<u8>

  datatype Option<+T> = None | Some(value: T)

  datatype Result<+T, +E> = Ok(value: T) | Err(error: E)

  /** `TtdPosition`: ordered by sequence first, then by steps. */
  datatype Position = Position(sequence: u64, steps: u64)

  predicate Before(a: Position, b: Position) {
    a.sequence < b.sequence || (a.sequence == b.sequence && a.steps < b.steps)
  }

  datatype StopReason =
    | Breakpoint(bpId: u64, addr: u64)
    | Watchpoint(wpId: u64, wpAddr: u64, access: u8)
    | StepComplete
    | TraceEnd
    | ProcessExit
    | TraceStart
    | Interrupted
    | Exception(code: u32, excAddr: u64)
    | PositionReached

  datatype DebugError =
    | ReplayAlreadyRunning
    | Ttd
    | InvalidCommand

  type OpResult = Result<StopReason, DebugError>
}
