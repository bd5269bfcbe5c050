/** Resume operations and the folding of `vCont` lists (`src/gdb/resume.rs`). */
module Resume {
  import opened Vocabulary

  datatype ReplayOp =
    | Continue
    | Step(tid: u64)
    | BackwardContinue
    | BackwardStep(tid: u64)
    | RangeStep(tid: u64, start: u64, end: u64)
  {
    /** Every operation but the two reverse ones. */
    predicate IsForward(): (forward: bool)
      ensures !forward <==> BackwardContinue? || BackwardStep?
    {
      Continue? || Step? || RangeStep?
    }
  }

  /** One action of a `vCont` list, as it stands on the wire. */
  datatype VContAction =
    | ContinueThread
    | StepThread(tid: u64)
    | StepThreadInRange(tid: u64, start: u64, end: u64)
  {
    /** The operation the action names by itself. */
    function Asks(): ReplayOp {
      match this
      case ContinueThread => Continue
      case StepThread(tid) => Step(tid)
      case StepThreadInRange(tid, start, end) => if start == end then Step(tid) else RangeStep(tid, start, end)
    }
  }

  /** Action `i` is the last of the first `n` that is not a continue. */
  ghost predicate LastSpecific(actions: seq<VContAction>, n: nat, i: nat)
    requires i < n <= |actions|
  {
    !actions[i].ContinueThread? && forall k :: i < k < n ==> actions[k].ContinueThread?
  }

  class ResumeState {
    var pending: ReplayOp

    constructor ()
      ensures pending == Continue
    {
      pending := Continue;
    }

    method Take() returns (op: ReplayOp)
      modifies this
      ensures op == old(pending) && pending == Continue
    {
      op := pending;
      pending := Continue;
    }

    method Clear()
      modifies this
      ensures pending == Continue
    {
      pending := Continue;
    }

    /** A trailing continue does not clobber a pending step. */
    method SetContinue()
      ensures pending == old(pending)
    {
    }

    method SetStep(tid: u64)
      modifies this
      ensures pending == Step(tid)
    {
      pending := Step(tid);
    }

    method SetRangeStep(tid: u64, start: u64, end: u64)
      modifies this
      ensures pending == StepThreadInRange(tid, start, end).Asks()
    {
      pending := if start == end then Step(tid) else RangeStep(tid, start, end);
    }

    /** One whole resume packet: whatever was pending before, the operation is
        the last action that is not a continue, or a continue when there is
        none; and nothing of it is left for the next resume. */
    method Fold(actions: seq<VContAction>) returns (op: ReplayOp, next: ReplayOp)
      modifies this
      ensures forall i :: 0 <= i < |actions| && LastSpecific(actions, |actions|, i) ==> op == actions[i].Asks()
      ensures (forall i :: 0 <= i < |actions| ==> actions[i].ContinueThread?) ==> op == Continue
      ensures next == Continue && pending == Continue
    {
      Clear();
      for n := 0 to |actions|
        invariant forall i :: 0 <= i < n && LastSpecific(actions, n, i) ==> pending == actions[i].Asks()
        invariant (forall i :: 0 <= i < n ==> actions[i].ContinueThread?) ==> pending == Continue
      {
        match actions[n] {
          case ContinueThread => SetContinue();
          case StepThread(tid) => SetStep(tid);
          case StepThreadInRange(tid, start, end) => SetRangeStep(tid, start, end);
        }
      }
      op := Take();
      next := Take();
    }
  }
}
