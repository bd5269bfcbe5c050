/** Resume operations against an arbitrary backend: the portable range-step
    loop (`src/target.rs`) and the dispatch of one operation
    (`src/gdb/target.rs`). */
module Replay {
  import opened Vocabulary
  import opened Resume

  /** A debug target over states `S`. Nothing is assumed of the functions: a
      step may fail, go backwards, lose the thread or stay where it is. */
  datatype Target<!S> = Target(
    step: S -> (S, OpResult),
    stepBack: S -> (S, OpResult),
    forward: S -> (S, OpResult),
    backward: S -> (S, OpResult),
    select: (S, u64) -> S,
    position: S -> Position,
    rip: (S, Option<u64>) -> Option<u64>)

  /** The range a client asks to stay in, for one thread. */
  datatype Range = Range(tid: Option<u64>, start: u64, end: u64)
  {
    predicate Holds(pc: u64) { start <= pc < end }
  }

  /** `n` single steps, whatever they report. */
  function Steps<S>(m: Target<S>, s: S, n: nat): S {
    if n == 0 then s else m.step(Steps(m, s, n - 1)).0
  }

  /** What the `n`-th step reports. */
  function Report<S>(m: Target<S>, s: S, n: nat): OpResult
    requires n > 0
  {
    m.step(Steps(m, s, n - 1)).1
  }

  /** The `n`-th step leaves nothing to go on for: it failed or reported another
      reason, or the thread is gone, outside the range or not further on. */
  predicate Halts<S>(m: Target<S>, s: S, range: Range, n: nat)
    requires n > 0
  {
    var now := Steps(m, s, n);
    var pc := m.rip(now, range.tid);
    || Report(m, s, n) != Ok(StepComplete)
    || pc.None? || !range.Holds(pc.value)
    || !Before(m.position(Steps(m, s, n - 1)), m.position(now))
  }

  predicate FirstHalt<S>(m: Target<S>, s: S, range: Range, n: nat) {
    n > 0 && Halts(m, s, range, n) && forall k :: 0 < k < n ==> !Halts(m, s, range, k)
  }

  lemma FirstHaltIsUnique<S>(m: Target<S>, s: S, range: Range, a: nat, b: nat)
    requires FirstHalt(m, s, range, a) && FirstHalt(m, s, range, b)
    ensures a == b
  {
  }

  /** A target being driven in place. */
  class Driver<S(!new)> {
    const target: Target<S>
    var state: S

    constructor (target: Target<S>, state: S)
      ensures this.target == target && this.state == state
    {
      this.target := target;
      this.state := state;
    }

    method Step() returns (r: OpResult)
      modifies this
      ensures state == target.step(old(state)).0 && r == target.step(old(state)).1
    {
      var (next, reason) := target.step(state);
      state := next;
      r := reason;
    }

    /** The range-step loop stops at the first step that gives it a reason to,
        with that step's report. It terminates on every backend: the remembered
        position climbs in an order on bounded words. */
    method StepRange(range: Range) returns (r: OpResult, n: nat)
      modifies this
      ensures FirstHalt(target, old(state), range, n)
      ensures state == Steps(target, old(state), n) && r == Report(target, old(state), n)
    {
      var previous := target.position(state);
      n := 0;
      while true
        invariant state == Steps(target, old(state), n) && previous == target.position(state)
        invariant forall k :: 0 < k <= n ==> !Halts(target, old(state), range, k)
        decreases U64_MAX - previous.sequence, U64_MAX - previous.steps
      {
        r := Step();
        n := n + 1;
        if r != Ok(StepComplete) {
          return;
        }
        var pc := target.rip(state, range.tid);
        if pc.None? || !range.Holds(pc.value) {
          return Ok(StepComplete), n;
        }
        var now := target.position(state);
        if !Before(previous, now) {
          return Ok(StepComplete), n;
        }
        previous := now;
      }
    }

    /** One operation, after its thread selection. */
    method Execute(op: ReplayOp) returns (r: OpResult)
      modifies this
      ensures Executes(target, old(state), op, state, r)
    {
      match op {
        case Continue =>
          var (next, reason) := target.forward(state);
          state, r := next, reason;
        case Step(tid) =>
          state := target.select(state, tid);
          r := Step();
        case BackwardContinue =>
          var (next, reason) := target.backward(state);
          state, r := next, reason;
        case BackwardStep(tid) =>
          state := target.select(state, tid);
          var (next, reason) := target.stepBack(state);
          state, r := next, reason;
        case RangeStep(tid, start, end) =>
          state := target.select(state, tid);
          ghost var from := state;
          var n;
          r, n := StepRange(Range(Some(tid), start, end));
          assert Ranges(target, from, Range(Some(tid), start, end), n, state, r);
      }
    }
  }

  ghost predicate Ranges<S(!new)>(m: Target<S>, s: S, range: Range, n: nat, s': S, r: OpResult) {
    FirstHalt(m, s, range, n) && s' == Steps(m, s, n) && r == Report(m, s, n)
  }

  /** What an operation means: where it leaves the target and what it reports. */
  ghost predicate Executes<S(!new)>(m: Target<S>, s: S, op: ReplayOp, s': S, r: OpResult) {
    match op
    case Continue => (s', r) == m.forward(s)
    case BackwardContinue => (s', r) == m.backward(s)
    case Step(tid) => (s', r) == m.step(m.select(s, tid))
    case BackwardStep(tid) => (s', r) == m.stepBack(m.select(s, tid))
    case RangeStep(tid, start, end) =>
      exists n :: Ranges(m, m.select(s, tid), Range(Some(tid), start, end), n, s', r)
  }

  // ----- properties over every backend -----

  /** On every backend the range step ends: this many steps are known not to
      halt it, and the position they reached bounds how many can follow. */
  lemma {:induction false} RangeStepEnds<S>(m: Target<S>, s: S, range: Range, done: nat) returns (n: nat)
    requires forall k :: 0 < k <= done ==> !Halts(m, s, range, k)
    ensures FirstHalt(m, s, range, n)
    decreases U64_MAX - m.position(Steps(m, s, done)).sequence, U64_MAX - m.position(Steps(m, s, done)).steps
  {
    n := done + 1;
    if !Halts(m, s, range, n) {
      n := RangeStepEnds(m, s, range, n);
    }
  }

  /** Every operation has exactly one outcome. */
  lemma ExecutesOnce<S(!new)>(m: Target<S>, s: S, op: ReplayOp) returns (s': S, r: OpResult)
    ensures Executes(m, s, op, s', r)
    ensures forall t, q :: Executes(m, s, op, t, q) ==> t == s' && q == r
  {
    match op
    case Continue => s', r := m.forward(s).0, m.forward(s).1;
    case BackwardContinue => s', r := m.backward(s).0, m.backward(s).1;
    case Step(tid) => var u := m.select(s, tid); s', r := m.step(u).0, m.step(u).1;
    case BackwardStep(tid) => var u := m.select(s, tid); s', r := m.stepBack(u).0, m.stepBack(u).1;
    case RangeStep(tid, start, end) =>
      var u := m.select(s, tid);
      var range := Range(Some(tid), start, end);
      var n := RangeStepEnds(m, u, range, 0);
      s', r := Steps(m, u, n), Report(m, u, n);
      assert Ranges(m, u, range, n, s', r);
      forall k, t, q | Ranges(m, u, range, k, t, q)
        ensures t == s' && q == r
      {
        FirstHaltIsUnique(m, u, range, k, n);
      }
  }

  /** Before the last step the thread never left the range and the trace
      position only went up. */
  lemma {:induction false} InsideUntilHalt<S>(m: Target<S>, s: S, range: Range, n: nat, i: nat, k: nat)
    requires FirstHalt(m, s, range, n) && i < k < n
    ensures m.rip(Steps(m, s, k), range.tid).Some? && range.Holds(m.rip(Steps(m, s, k), range.tid).value)
    ensures Before(m.position(Steps(m, s, i)), m.position(Steps(m, s, k)))
    decreases k
  {
    assert !Halts(m, s, range, k);
    if i + 1 < k {
      InsideUntilHalt(m, s, range, n, i, k - 1);
    }
  }

  lemma EmptyRangeHaltsAtOnce<S(!new)>(m: Target<S>, s: S, range: Range, s': S, r: OpResult)
    requires range.start >= range.end
    ensures (exists n :: Ranges(m, s, range, n, s', r)) <==> (s', r) == m.step(s)
  {
    assert FirstHalt(m, s, range, 1);
    assert Steps(m, s, 1) == m.step(s).0 && Report(m, s, 1) == m.step(s).1;
    if exists n :: Ranges(m, s, range, n, s', r) {
      var n :| Ranges(m, s, range, n, s', r);
      FirstHaltIsUnique(m, s, range, n, 1);
    }
    if (s', r) == m.step(s) {
      assert Ranges(m, s, range, 1, s', r);
    }
  }

  /** Folding a range action into an operation loses nothing: on every backend
      it does what the range loop would have done on the range as sent. */
  lemma FoldingPreservesMeaning<S(!new)>(m: Target<S>, s: S, tid: u64, start: u64, end: u64, s': S, r: OpResult)
    ensures Executes(m, s, StepThreadInRange(tid, start, end).Asks(), s', r)
       <==> Executes(m, s, RangeStep(tid, start, end), s', r)
  {
    if start == end {
      EmptyRangeHaltsAtOnce(m, m.select(s, tid), Range(Some(tid), start, end), s', r);
    }
  }

  // ----- exactly the empty ranges may become steps -----

  ghost predicate SameAsStep(tid: u64, start: u64, end: u64) {
    forall m: Target<u64>, s, s', r ::
      Executes(m, s, RangeStep(tid, start, end), s', r) <==> Executes(m, s, Step(tid), s', r)
  }

  /** Three instructions at one address. */
  function Spinning(pc: u64): Target<u64> {
    var stay := (s: u64) => (s, Ok(StepComplete));
    Target((s: u64) => (if s < 2 then s + 1 else s, Ok(StepComplete)), stay, stay, stay,
           (s: u64, tid: u64) => s,
           (s: u64) => Position(0, s),
           (s: u64, tid: Option<u64>) => Some(pc))
  }

  lemma SpinningRuns(tid: u64, start: u64, end: u64)
    requires start < end
    ensures Executes(Spinning(start), 0, RangeStep(tid, start, end), 2, Ok(StepComplete))
    ensures !Executes(Spinning(start), 0, Step(tid), 2, Ok(StepComplete))
  {
    var m := Spinning(start);
    var range := Range(Some(tid), start, end);
    assert Steps(m, 0, 1) == 1 && Steps(m, 0, 2) == 2 && Steps(m, 0, 3) == 2;
    assert !Halts(m, 0, range, 1) && !Halts(m, 0, range, 2) && Halts(m, 0, range, 3);
    assert FirstHalt(m, 0, range, 3);
    assert Ranges(m, m.select(0, tid), range, 3, 2, Ok(StepComplete));
  }

  /** A range step is a step on every backend if and only if the range is
      empty. */
  lemma StepIffEmpty(tid: u64, start: u64, end: u64)
    ensures SameAsStep(tid, start, end) <==> start >= end
  {
    if start >= end {
      forall m: Target<u64>, s, s', r
        ensures Executes(m, s, RangeStep(tid, start, end), s', r) <==> Executes(m, s, Step(tid), s', r)
      {
        EmptyRangeHaltsAtOnce(m, m.select(s, tid), Range(Some(tid), start, end), s', r);
      }
    } else {
      SpinningRuns(tid, start, end);
    }
  }

  // ----- what the operations do to a position -----

  /** A target whose own calls go the way their names say. */
  ghost predicate Directed<S(!new)>(m: Target<S>) {
    && (forall s :: !Before(m.position(m.step(s).0), m.position(s)))
    && (forall s :: !Before(m.position(m.forward(s).0), m.position(s)))
    && (forall s :: !Before(m.position(s), m.position(m.stepBack(s).0)))
    && (forall s :: !Before(m.position(s), m.position(m.backward(s).0)))
    && (forall s, tid :: m.position(m.select(s, tid)) == m.position(s))
  }

  lemma {:induction false} StepsGoOn<S(!new)>(m: Target<S>, s: S, n: nat)
    requires Directed(m)
    ensures !Before(m.position(Steps(m, s, n)), m.position(s))
    decreases n
  {
    if n > 0 {
      StepsGoOn(m, s, n - 1);
    }
  }

  /** On such a target no forward operation ends before its start, and no
      reverse one after it. */
  lemma OperationsAreDirected<S(!new)>(m: Target<S>, s: S, op: ReplayOp, s': S, r: OpResult)
    requires Directed(m) && Executes(m, s, op, s', r)
    ensures op.IsForward() ==> !Before(m.position(s'), m.position(s))
    ensures !op.IsForward() ==> !Before(m.position(s), m.position(s'))
  {
    if op.RangeStep? {
      var u := m.select(s, op.tid);
      var n :| Ranges(m, u, Range(Some(op.tid), op.start, op.end), n, s', r);
      StepsGoOn(m, u, n);
    }
  }

  /** A target that stands on the places 0 to `end` of a line: a step moves by
      one, a run goes to its end of the line, and selecting a thread does not
      move. */
  ghost predicate Marches<S(!new)>(m: Target<S>, place: S -> int, end: int) {
    && (forall s :: 0 <= place(s) <= end)
    && (forall s :: place(s) < end ==> place(m.step(s).0) == place(s) + 1)
    && (forall s :: place(s) > 0 ==> place(m.stepBack(s).0) == place(s) - 1)
    && (forall s :: place(m.forward(s).0) == end)
    && (forall s :: place(m.backward(s).0) == 0)
    && (forall s, tid :: place(m.select(s, tid)) == place(s))
  }

  lemma {:induction false} StepsMarch<S(!new)>(m: Target<S>, place: S -> int, end: int, s: S, n: nat)
    requires Marches(m, place, end) && place(s) + n <= end
    ensures place(Steps(m, s, n)) == place(s) + n
    decreases n
  {
    if n > 0 {
      StepsMarch(m, place, end, s, n - 1);
    }
  }

  /** On such a target a continue ends where its direction ends, a step moves by
      exactly one, and a range step by as many as it takes, each in its
      direction and with the report of that very call. */
  lemma OperationsMarch<S(!new)>(
      m: Target<S>, place: S -> int, end: int, s: S, op: ReplayOp, s': S, r: OpResult)
    requires Marches(m, place, end) && Executes(m, s, op, s', r)
    ensures op.Continue? ==> place(s') == end && r == m.forward(s).1
    ensures op.BackwardContinue? ==> place(s') == 0 && r == m.backward(s).1
    ensures op.Step? && place(s) < end ==> place(s') == place(s) + 1 && r == m.step(m.select(s, op.tid)).1
    ensures op.BackwardStep? && place(s) > 0 ==> place(s') == place(s) - 1 && r == m.stepBack(m.select(s, op.tid)).1
  {
  }

  /** A step from `a` to `b` that completed, got on, and left the thread inside
      the range. */
  predicate GoesOn<S>(m: Target<S>, tid: u64, start: u64, end: u64, a: S, b: S) {
    var pc := m.rip(b, Some(tid));
    && m.step(a).1 == Ok(StepComplete)
    && pc.Some? && start <= pc.value && pc.value < end
    && Before(m.position(a), m.position(b))
  }

  /** What a range step did: some number of single steps of its own thread, all
      but the last going on inside the range, and the last with a reason to stop.
      On a marching target it moved by that number. */
  lemma RangeStepWatches<S(!new)>(m: Target<S>, s: S, tid: u64, start: u64, end: u64, s': S, r: OpResult)
    returns (n: nat)
    requires Executes(m, s, RangeStep(tid, start, end), s', r)
    ensures var u := m.select(s, tid);
      && n > 0 && s' == Steps(m, u, n) && r == m.step(Steps(m, u, n - 1)).1
      && (forall k :: 0 < k < n ==> GoesOn(m, tid, start, end, Steps(m, u, k - 1), Steps(m, u, k)))
      && !GoesOn(m, tid, start, end, Steps(m, u, n - 1), s')
    ensures forall place, last ::
      Marches(m, place, last) && place(s) + n <= last ==> place(s') == place(s) + n
  {
    var u := m.select(s, tid);
    n :| Ranges(m, u, Range(Some(tid), start, end), n, s', r);
    forall k | 0 < k < n
      ensures GoesOn(m, tid, start, end, Steps(m, u, k - 1), Steps(m, u, k))
    {
      assert !Halts(m, u, Range(Some(tid), start, end), k);
    }
    forall place, last | Marches(m, place, last) && place(s) + n <= last
      ensures place(s') == place(s) + n
    {
      StepsMarch(m, place, last, u, n);
    }
  }

  /** A target on which selecting a thread makes it current, and steps keep it. */
  ghost predicate KeepsThread<S(!new)>(m: Target<S>, current: S -> u64) {
    && (forall s, tid :: current(m.select(s, tid)) == tid)
    && (forall s :: current(m.step(s).0) == current(s) && current(m.stepBack(s).0) == current(s))
  }

  lemma {:induction false} StepsKeepThread<S(!new)>(m: Target<S>, current: S -> u64, s: S, n: nat)
    requires KeepsThread(m, current)
    ensures current(Steps(m, s, n)) == current(s)
    decreases n
  {
    if n > 0 {
      StepsKeepThread(m, current, s, n - 1);
    }
  }

  /** The three operations that name a thread leave it current. */
  lemma OperationsSelect<S(!new)>(m: Target<S>, current: S -> u64, s: S, op: ReplayOp, s': S, r: OpResult)
    requires KeepsThread(m, current) && Executes(m, s, op, s', r) && !op.Continue? && !op.BackwardContinue?
    ensures current(s') == op.tid
  {
    if op.RangeStep? {
      var n := RangeStepWatches(m, s, op.tid, op.start, op.end, s', r);
      StepsKeepThread(m, current, m.select(s, op.tid), n);
    }
  }

  /** A tape of places 0 to `end`: such targets exist. */
  function Tape(end: u64): Target<u64> {
    Target((s: u64) => (if s < end then s + 1 else end, Ok(StepComplete)),
           (s: u64) => (var at := if s < end then s else end; if at > 0 then at - 1 else 0, Ok(StepComplete)),
           (s: u64) => (end, Ok(TraceEnd)),
           (s: u64) => (0, Ok(TraceStart)),
           (s: u64, tid: u64) => s,
           (s: u64) => Position(0, if s < end then s else end),
           (s: u64, tid: Option<u64>) => Some(s))
  }

  lemma TapeMoves(end: u64)
    ensures Directed(Tape(end)) && Marches(Tape(end), (s: u64) => (if s < end then s else end) as int, end as int)
  {
  }
}
