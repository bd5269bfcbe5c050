/** What the runner, the resume logic and the event loop guarantee together,
    for every run of every session and under every interleaving. */
module Guarantees {
  import opened Vocabulary
  import opened Mapping
  import opened Checkpoints
  import opened Commands
  import opened Runner
  import opened Runs
  import opened RunnerSafety
  import opened Ledger
  import opened Refinement
  import opened LedgerLaws
  import opened DeliveryLaws
  import opened EndStateLaws

  /** At most one thread is inside the backend. An idle runner means that no
      worker holds the lock or a handle, and whoever goes on to take the lock
      finds it free. */
  lemma BackendHasOneOwner(t: Trace)
    requires Reachable(t)
    ensures var s := t.state;
      && (forall i, k | 0 <= i < |s.workers| && 0 <= k < |s.workers| ::
            Guarded(s.workers[i].pc) && Guarded(s.workers[k].pc) ==> i == k)
      && (ProtocolHolds(s.pc) ==> forall i :: 0 <= i < |s.workers| ==> !Guarded(s.workers[i].pc))
      && (!s.running ==> SoleOwner(s) && (s.lock.None? || ProtocolHolds(s.pc)))
      && (s.pc.StartLock? || s.pc.QueryLock? || s.pc.PanicLock? ==> s.lock.None?)
  {
    hide Reachable, Keeps, Balanced;
    ReachableIsSound(t);
  }

  /** A job that did not panic delivers `on_interrupt`'s result exactly when a
      flag store fell between that job's own reset and its own, single swap. */
  lemma InterruptsAreAttributed(t: Trace, f: nat) returns (m: nat)
    requires Reachable(t) && f < |t.log| && t.log[f].Finished? && t.log[f].outcome.Done?
    ensures m < f && t.log[m] == FlagSwapped(t.log[f].job, t.log[f].outcome.byInterrupt)
    ensures t.log[f].outcome.byInterrupt <==> StoredSince(t.log[..m], t.log[f].job)
    ensures forall k :: 0 <= k < |t.log| && k != m && t.log[k].FlagSwapped? ==> t.log[k].job != t.log[f].job
  {
    ReachableIsBalanced(t);
    BalancedPrefix(t.log, f);
    assert Allowed(Book(t.log[..f]), t.log[f]);
    m := FindSwap(t.log[..f]);
    assert t.log[..f][m] == t.log[m];
    SwapSeesStores(t.log, m);
    forall k | 0 <= k < |t.log| && k != m && t.log[k].FlagSwapped?
      ensures t.log[k].job != t.log[f].job
    {
      if k < m {
        SwappedOnce(t.log, k, m);
      } else {
        SwappedOnce(t.log, m, k);
      }
    }
  }

  /** Every delivered stop is the stop of one accepted resume, is the result
      that resume's own job finished with, and is the only one it gets. */
  lemma StopsAnswerTheirResume(t: Trace, d: nat) returns (m: nat, f: nat)
    requires Reachable(t) && d < |t.log| && t.log[d].Delivered?
    ensures m < f < d && t.log[m].Accepted? && t.log[f].Finished?
    ensures t.log[m].job == t.log[f].job == t.log[d].job
    ensures Tells(t.log[f].outcome, t.log[d].reply)
    ensures forall k :: 0 <= k < |t.log| && k != d && t.log[k].Delivered? ==> t.log[k].job != t.log[d].job
  {
    ReachableIsBalanced(t);
    BalancedPrefix(t.log, d);
    assert Allowed(Book(t.log[..d]), t.log[d]);
    m := FindAccept(t.log[..d]);
    assert t.log[..d][m] == t.log[m];
    f := Answered(t.log, m, d);
    forall k | 0 <= k < |t.log| && k != d && t.log[k].Delivered?
      ensures t.log[k].job != t.log[d].job
    {
      if k < d {
        DeliveredOnce(t.log, k, d);
      } else {
        DeliveredOnce(t.log, d, k);
      }
    }
  }

  /** What a resume that replays is told: unless its job panicked, the mapped
      reason of the one replay that job made, in terms of the backend as that
      replay left it, or SIGINT there when it was interrupted. */
  lemma StopTellsItsReplay(t: Trace, d: nat) returns (m: nat, x: nat, f: nat)
    requires Reachable(t) && d < |t.log| && t.log[d].Delivered?
    ensures m < f < d && t.log[m].Accepted? && t.log[f].Finished?
    ensures t.log[m].job == t.log[f].job == t.log[d].job
    ensures t.log[m].kind.ReplayJob? && t.log[f].outcome.Done? ==>
      && m < x < f && t.log[x].Replayed? && t.log[x].job == t.log[d].job && t.log[f].at == t.log[x].after
      && t.log[d].reply == (if t.log[f].outcome.byInterrupt then SignalWithThread(StopTid(t.log[x].after), SIGINT)
                            else MapStopReason(t.log[x].after, t.log[x].reason))
      && forall k :: 0 <= k < |t.log| && k != x && t.log[k].Replayed? ==> t.log[k].job != t.log[d].job
  {
    hide Reachable, MapStopReason, StopTid;
    ReachableIsBalanced(t);
    m, f := StopsAnswerTheirResume(t, d);
    f := Answered(t.log, m, d);
    x := 0;
    if t.log[m].kind.ReplayJob? && t.log[f].outcome.Done? {
      x := OwnReplay(t.log, m, f);
      assert forall k :: 0 <= k < |t.log| && k != x && t.log[k].Replayed? ==> t.log[k].job != t.log[x].job;
    }
  }

  /** The replay a finished job made, before it finished and only once. */
  lemma OwnReplay(log: seq<Event>, m: nat, f: nat) returns (x: nat)
    requires Balanced(log) && m < f < |log| && log[m].Accepted? && log[f].Finished? && log[m].job == log[f].job
    requires Book(log[..f]).job.ran.Some?
    ensures m < x < f && log[x] == Replayed(log[f].job, Book(log[..f]).job.ran.value.0, Book(log[..f]).job.ran.value.1)
    ensures log[f].at == log[x].after
    ensures forall k :: 0 <= k < |log| && k != x && log[k].Replayed? ==> log[k].job != log[x].job
  {
    assert Allowed(Book(log[..f]), log[f]);
    hide Book, Enter;
    BalancedPrefix(log, f);
    x := FindReplay(log[..f]);
    assert log[..f][x] == log[x];
    AcceptedFirst(log, m, x);
    forall k | 0 <= k < |log| && k != x && log[k].Replayed?
      ensures log[k].job != log[x].job
    {
      if k < x {
        ReplayedOnce(log, k, x);
      } else {
        ReplayedOnce(log, x, k);
      }
    }
  }

  /** The stop of the newest job is still under way: its worker has yet to send
      it, it is buffered, or the protocol thread is mapping it. */
  predicate UnderWay(s: State) {
    || Starting(s.pc)
    || (|s.workers| > 0 && !Newest(s.workers).Sent?)
    || (s.rx.Some? && s.rx.value.buffer.Some? && s.rx.value.job == |s.workers| - 1)
    || s.pc.PanicLock? || s.pc.PanicHeld?
  }

  /** No ^C race drops the newest job's stop: until it is delivered it is under
      way, so a poll that found nothing leaves it for the next one. A blocked
      wait only ever ends with a result. */
  lemma NoStopIsDropped(t: Trace, m: nat)
    requires Reachable(t) && m < |t.log| && t.log[m].Accepted?
    requires forall k :: m < k < |t.log| ==> !t.log[k].Accepted?
    ensures UnderWay(t.state) || exists d :: m < d < |t.log| && t.log[d].Delivered? && t.log[d].job == t.log[m].job
    ensures t.state.pc.CtrlCWait? ==>
      t.state.rx.Some? && (CanReceive(t.state) <==> t.state.rx.value.buffer.Some?)
  {
    ReachableIsSound(t);
    var last := FindNewestAccept(t.log, m);
    if Book(t.log).job.delivered {
      var d := FindDelivery(t.log);
      AcceptedFirst(t.log, m, d);
    }
  }

  lemma FindNewestAccept(log: seq<Event>, m: nat) returns (last: nat)
    requires Balanced(log) && m < |log| && log[m].Accepted?
    requires forall k :: m < k < |log| ==> !log[k].Accepted?
    ensures last == m && Book(log).jobs == log[m].job + 1
  {
    BookAt(log, m);
    assert Allowed(Book(log[..m]), log[m]);
    BookGrows(log, m + 1, |log|);
    assert log[..|log|] == log;
    last := FindAccept(log);
    if last < m {
      BookAt(log, last);
      assert Allowed(Book(log[..last]), log[last]);
      BookGrows(log, last + 1, m);
    }
  }

  /** The one way to lose a stop is to resume before it was delivered. */
  lemma StopIsLostIffSuperseded(t: Trace, n: nat, j: nat)
    requires Reachable(t) && n < |t.log| && t.log[n].Accepted? && t.log[n].job == j + 1
    ensures (exists d :: 0 <= d < |t.log| && t.log[d].Delivered? && t.log[d].job == j)
       <==> (exists d :: 0 <= d < n && t.log[d].Delivered? && t.log[d].job == j)
  {
    ReachableIsBalanced(t);
    LostIffSuperseded(t.log, n, j);
  }

  /** `W00` is the answer to exactly the forward resumes made, with no restart
      waiting, after a forward replay ended the process and before a restart or
      backward resume left that end; it does not move the backend. */
  lemma ExitReplies(t: Trace, d: nat) returns (r: nat, m: nat, f: nat)
    requires Reachable(t) && d < |t.log| && t.log[d].Delivered?
    ensures r < m < f < d && t.log[m].Accepted? && t.log[m].job == t.log[d].job
    ensures t.log[r] == Resumed(t.log[m].op, t.log[m].kind)
    ensures t.log[d].reply.Exited? <==>
      t.log[m].op.IsForward() && !RestartWaits(t.log[..r]) && ProcessEnded(t.log[..r])
    ensures t.log[d].reply.Exited? ==>
      t.log[d].reply == Exited(0) && t.log[f].Finished? && t.log[f].job == t.log[d].job && t.log[f].at == t.log[m].at
  {
    ReachableIsBalanced(t);
    m, f := StopsAnswerTheirResume(t, d);
    f := Answered(t.log, m, d);
    r := AcceptedWasDecided(t.log, m);
    ResumeChoice(t.log, r);
  }

  /** For a client that waits for each answer, the backward resumes that count
      are those that were accepted. */
  lemma ExitRepliesWhenStopped(t: Trace, d: nat) returns (r: nat, m: nat)
    requires Reachable(t) && Disciplined(t.log) && d < |t.log| && t.log[d].Delivered?
    ensures r < m < d && t.log[m].Accepted? && t.log[m].job == t.log[d].job
    ensures t.log[r] == Resumed(t.log[m].op, t.log[m].kind)
    ensures t.log[d].reply.Exited? <==>
      t.log[m].op.IsForward() && !RestartWaits(t.log[..r]) && AtProcessExit(t.log[..r])
  {
    ReachableIsBalanced(t);
    var f;
    r, m, f := ExitReplies(t, d);
    ResumeChoice(t.log, r);
    ExitReplyIff(t.log, r);
  }

  /** The stop of the job that ended the process is the synthetic SIGKILL
      exactly when that job was neither interrupted nor panicked. */
  lemma ExitStop(t: Trace, d: nat) returns (f: nat)
    requires Reachable(t) && d < |t.log| && t.log[d].Delivered? && ExitSeen(t.log[d].job) in t.log
    ensures f < d && t.log[f].Finished? && t.log[f].job == t.log[d].job
    ensures IsSignal(t.log[d].reply,
      if t.log[f].outcome.Panicked? then SIGTRAP
      else if t.log[f].outcome.byInterrupt then SIGINT
      else SIGKILL)
  {
    hide Reachable, Book, Enter, Balanced;
    ReachableIsBalanced(t);
    var m;
    m, f := StopsAnswerTheirResume(t, d);
    f := Answered(t.log, m, d);
    var x :| 0 <= x < |t.log| && t.log[x] == ExitSeen(t.log[d].job);
    ExitBeforeFinish(t.log, x, f);
    AcceptedFirst(t.log, m, x);
    ExitIsOfReplay(t.log, x);
  }

  lemma ExitIsOfReplay(log: seq<Event>, x: nat)
    requires Balanced(log) && x < |log| && log[x].ExitSeen?
    ensures Book(log[..x]).job.kind.ReplayJob?
  {
    assert Allowed(Book(log[..x]), log[x]);
  }

  /** A replay that did not panic records a process exit exactly when it was
      forward and its backend returned one. */
  lemma ExitIsNotedIff(t: Trace, m: nat, f: nat) returns (x: nat)
    requires Reachable(t) && m < |t.log| && f < |t.log| && t.log[m].Accepted? && t.log[f].Finished?
    requires t.log[m].job == t.log[f].job && t.log[m].kind.ReplayJob? && t.log[f].outcome.Done?
    ensures m < x < f && t.log[x].Replayed? && t.log[x].job == t.log[m].job
    ensures ExitSeen(t.log[m].job) in t.log[..f] <==>
      t.log[m].kind.op.IsForward() && t.log[x].reason == Ok(ProcessExit)
  {
    hide Reachable, Book, Enter;
    ReachableIsBalanced(t);
    BalancedPrefix(t.log, f);
    AcceptedFirst(t.log, m, f);
    assert Allowed(Book(t.log[..f]), t.log[f]);
    x := OwnReplay(t.log, m, f);
    ExitOnRecord(t.log[..f]);
  }

  /** What a client that waits for each stop sees before a `W00`: a stop of the
      forward job whose replay ended the process, with neither a restart nor an
      accepted backward resume since. That stop is SIGKILL if and only if the
      job did not panic and no interrupt request was stored between its reset
      and its swap. */
  lemma ExitIsShownFirst(t: Trace, d: nat) returns (x: nat, swap: nat, f: nat, shown: nat, r: nat)
    requires Reachable(t) && Disciplined(t.log) && d < |t.log| && t.log[d].Delivered? && t.log[d].reply.Exited?
    ensures x < f < shown < r < d && t.log[x].ExitSeen? && t.log[r].Resumed? && t.log[r].kind.ExitReply?
    ensures t.log[f].Finished? && t.log[shown].Delivered? && t.log[f].job == t.log[shown].job == t.log[x].job
    ensures forall k :: x < k < r ==> !t.log[k].Restarted? && !(t.log[k].Accepted? && !t.log[k].op.IsForward())
    ensures t.log[f].outcome.Done? ==>
      swap < f && t.log[swap] == FlagSwapped(t.log[x].job, t.log[f].outcome.byInterrupt)
    ensures IsSignal(t.log[shown].reply, SIGKILL) <==>
      t.log[f].outcome.Done? && !StoredSince(t.log[..swap], t.log[x].job)
  {
    hide Reachable, Balanced, Book, Allowed, Enter, StoredSince, Disciplined, MapStopReason;
    ReachableIsBalanced(t);
    var m;
    r, m := ExitRepliesWhenStopped(t, d);
    ExitReplyIff(t.log, r);
    x := LastExit(t.log, r);
    shown := ExitWasAnswered(t.log, x, r);
    f := ExitStop(t, shown);
    ExitBeforeFinish(t.log, x, f);
    swap := 0;
    if t.log[f].outcome.Done? {
      swap := InterruptsAreAttributed(t, f);
    }
  }

  lemma LastExit(log: seq<Event>, r: nat) returns (x: nat)
    requires r <= |log| && AtProcessExit(log[..r])
    ensures x < r && log[x].ExitSeen?
    ensures forall k :: x < k < r ==> !log[k].Restarted? && !(log[k].Accepted? && !log[k].op.IsForward())
  {
    var before := log[..r];
    x :| 0 <= x < r && before[x].ExitSeen?
      && forall k :: x < k < r ==> !(before[k].Restarted? || (before[k].Accepted? && !before[k].op.IsForward()));
    assert forall k :: x <= k < r ==> before[k] == log[k];
  }

  lemma ExitWasAnswered(log: seq<Event>, x: nat, r: nat) returns (shown: nat)
    requires Balanced(log) && Disciplined(log) && x < r < |log| && log[x].ExitSeen? && log[r].Resumed?
    ensures shown < r && log[shown].Delivered? && log[shown].job == log[x].job
  {
    hide Book, Enter, Balanced;
    AllowedAt(log, x);
    BalancedPrefix(log, x);
    var m := FindAccept(log[..x]);
    assert log[..x][m] == log[m];
    assert AnsweredBy(log, m, r);
    shown :| m < shown < r && log[shown].Delivered? && log[shown].job == log[m].job;
  }

  /** The place a served restart asks for, when its text names one and the jump
      succeeds. */
  function Asked(s: State): Option<Position>
    requires s.pc.QueryHeld? && s.pc.query.Restart?
  {
    if s.pc.query.landing.None? then None
    else RestartTarget(RestartText(s.pc.query.args), s.checkpoints, s.pc.query.start)
  }

  /** Such a restart moves the backend where the jump led. */
  lemma RestartIsServed(t: Trace, target: Position, at: Backend)
    requires t.state.pc.QueryHeld? && t.state.pc.query.Restart?
    requires Asked(t.state) == Some(target) && t.state.pc.query.landing == Some(at)
    ensures Apply(t, Proceed) == Trace(t.state.(lock := None, pc := RestartDone(target), backend := at), t.log)
  {
    hide RestartTarget;
  }

  /** It is then recorded, with the place asked for; the end state is left and
      the next resume owed. */
  lemma RestartIsNoted(t: Trace)
    requires t.state.pc.RestartDone?
    ensures Apply(t, Proceed) == Trace(t.state.(
      endState := false, restartPending := true, pc := Ready), t.log + [Restarted(t.state.pc.target, t.state.backend)])
  {
  }

  /** The first resume decided after a restart is accepted, never refused, with
      the backend as the restart left it: a forward one to stop in place, a
      backward one to replay. Until then its compare-exchange is still to come
      and cannot fail. */
  lemma RestartIsHonoured(t: Trace, i: nat, r: nat)
    requires Reachable(t) && FollowsRestart(t.log, i, r)
    ensures t.log[r].kind == if t.log[r].op.IsForward() then PositionStop else ReplayJob(t.log[r].op)
    ensures forall k | r < k < |t.log| && Settles(t.log[k]) && (forall j :: r < j < k ==> !Settles(t.log[j])) ::
      Accepts(t.log[k], t.log[r], t.log[i].at)
    ensures (forall j :: r < j < |t.log| ==> !Settles(t.log[j])) ==>
      (t.state.pc.LeaveEndState? || t.state.pc.StartCas?) && !t.state.running
  {
    hide Reachable, Control, Balanced, Book, Keeps;
    ReachableIsSound(t);
    var before := t.log[..r];
    assert before[i] == t.log[i] && forall k :: i < k < r ==> before[k] == t.log[k];
    assert RestartWaits(before);
    ResumeChoice(t.log, r);
    forall k | r < k < |t.log| && Settles(t.log[k]) && (forall j :: r < j < k ==> !Settles(t.log[j]))
      ensures Accepts(t.log[k], t.log[r], t.log[i].at)
    {
      RestartIsAccepted(t.log, i, r, k);
    }
    if forall j :: r < j < |t.log| ==> !Settles(t.log[j]) {
      RestartOnRecord(t.log, i, r);
      assert t.log[..|t.log|] == t.log;
      ChoiceStands(t.log, r, |t.log|);
      HonouringWaits(t.state, Book(t.log));
    }
  }

  lemma HonouringWaits(s: State, l: Ledger)
    requires Keeps(s, l) && l.choice.Some? && l.honouring
    ensures (s.pc.LeaveEndState? || s.pc.StartCas?) && !s.running
  {
  }

  /** End to end: the stop a client gets for a forward resume right after a
      restart is SIGTRAP, with the backend still as the restart left it,
      interrupted or not; unless the job panicked, on the thread selected there. */
  lemma RestartStopsThere(t: Trace, i: nat, r: nat, m: nat, d: nat) returns (f: nat)
    requires Reachable(t) && FollowsRestart(t.log, i, r) && t.log[r].op.IsForward()
    requires r < m < d < |t.log| && t.log[m].Accepted? && forall j :: r < j < m ==> !Settles(t.log[j])
    requires t.log[d].Delivered? && t.log[d].job == t.log[m].job
    ensures m < f < d && t.log[f].Finished? && t.log[f].job == t.log[d].job && t.log[f].at == t.log[i].at
    ensures IsSignal(t.log[d].reply, SIGTRAP)
    ensures t.log[f].outcome.Done? ==> t.log[d].reply == SignalWithThread(StopTid(t.log[i].at), SIGTRAP)
  {
    hide Reachable, Balanced, Book, StopTid;
    ReachableIsBalanced(t);
    RestartIsHonoured(t, i, r);
    assert Settles(t.log[m]);
    f := Answered(t.log, m, d);
  }

  /** A restart being served, about to be recorded, or on record, after `log`. */
  ghost predicate OnItsWay(u: Trace, log: seq<Event>, q: Query, c: Table, target: Position, at: Backend) {
    || (u.log == log && u.state.pc == QueryHeld(q) && u.state.checkpoints == c)
    || (u.log == log && u.state.pc == RestartDone(target) && u.state.backend == at)
    || log + [Restarted(target, at)] <= u.log
  }

  /** While the runner is idle, or the next job is only being started, the
      workers there are do nothing but send. */
  lemma IdleWorkIsSilent(s: State, a: Action)
    requires Control(s) && (Starting(s.pc) || !s.running) && Enabled(s, a) && (a.Work? || a.Execute? || a.Panic?)
    ensures var n := StepOf(s, a);
      && n.event.None? && n.state == s.(workers := n.state.workers, rx := n.state.rx)
      && |n.state.workers| == |s.workers|
  {
    assert a.Work? && PastIdle(s.workers[a.w].pc);
  }

  lemma OnlyWorkersDisturb(s: State, a: Action)
    requires Control(s) && NeedsIdle(s.pc) && Enabled(s, a) && !a.Proceed?
    ensures !s.running && (a.Work? || a.Execute? || a.Panic?)
  {
  }

  lemma StepOnItsWay(u: Trace, a: Action, log: seq<Event>, q: Query, c: Table, target: Position, at: Backend)
    requires Control(u.state) && Enabled(u.state, a) && OnItsWay(u, log, q, c, target, at)
    requires q.Restart? && q.landing == Some(at) && RestartTarget(RestartText(q.args), c, q.start) == Some(target)
    ensures OnItsWay(Apply(u, a), log, q, c, target, at)
  {
    hide RestartTarget, StepOf, Control, Enabled;
    if !(log + [Restarted(target, at)] <= u.log) {
      if !a.Proceed? {
        OnlyWorkersDisturb(u.state, a);
        IdleWorkIsSilent(u.state, a);
      } else if u.state.pc.QueryHeld? {
        RestartIsServed(u, target, at);
      } else {
        RestartIsNoted(u);
      }
    }
  }

  lemma {:induction false} RunOnItsWay(
      u: Trace, run: seq<Action>, log: seq<Event>, q: Query, c: Table, target: Position, at: Backend)
    requires Sound(u) && Legal(u, run) && OnItsWay(u, log, q, c, target, at)
    requires q.Restart? && q.landing == Some(at) && RestartTarget(RestartText(q.args), c, q.start) == Some(target)
    ensures OnItsWay(After(u, run), log, q, c, target, at)
    decreases |run|
  {
    if run != [] {
      hide RestartTarget, StepOf, Enabled, Control, Keeps, Balanced, OnItsWay, Apply;
      StepOnItsWay(u, run[0], log, q, c, target, at);
      StepKeepsSound(u, run[0]);
      RunOnItsWay(Apply(u, run[0]), run[1..], log, q, c, target, at);
    }
  }

  /** From the text of a restart to the stop the client sees, under every
      interleaving: when the text names a place in the present table and the jump
      to it leads the backend to `at`, the next event is that restart, and the
      next resume, if forward, is answered by SIGTRAP with the backend at `at`. */
  lemma NamedRestartStopsThere(
      t: Trace, run: seq<Action>, target: Position, at: Backend, r: nat, m: nat, d: nat) returns (f: nat)
    requires Reachable(t) && t.state.pc.QueryHeld? && t.state.pc.query.Restart?
    requires Asked(t.state) == Some(target) && t.state.pc.query.landing == Some(at) && Legal(t, run)
    requires var log := After(t, run).log;
      && FollowsRestart(log, |t.log|, r) && log[r].op.IsForward()
      && r < m < d < |log| && log[m].Accepted? && (forall j :: r < j < m ==> !Settles(log[j]))
      && log[d].Delivered? && log[d].job == log[m].job
    ensures var log := After(t, run).log;
      && t.log + [Restarted(target, at)] <= log
      && m < f < d && log[f].Finished? && log[f].job == log[d].job && log[f].at == at
      && IsSignal(log[d].reply, SIGTRAP)
  {
    hide Reachable, Legal, After, RestartTarget, Control, Keeps, Balanced;
    ReachableIsSound(t);
    RunOnItsWay(t, run, t.log, t.state.pc.query, t.state.checkpoints, target, at);
    ReachableRun(t, run);
    f := RestartStopsThere(After(t, run), |t.log|, r, m, d);
  }

  /** A client that waits for each stop is never refused a resume. */
  lemma WaitingClientsAreNotRefused(t: Trace, n: nat)
    requires Reachable(t) && Disciplined(t.log) && n < |t.log|
    ensures !t.log[n].Refused?
  {
    hide Reachable, Balanced, Disciplined;
    ReachableIsBalanced(t);
    NothingIsRefused(t.log, n);
  }

  /** Every later resume of a restarted session really replays, until another
      restart or until the process exits again. */
  lemma RestartIsHonouredOnce(t: Trace, i: nat, first: nat, r: nat)
    requires Reachable(t) && i < first < r < |t.log|
    requires t.log[i].Restarted? && t.log[first].Resumed? && t.log[r].Resumed?
    requires forall k :: i < k < r ==> !t.log[k].Restarted? && !t.log[k].ExitSeen?
    ensures t.log[r].kind == ReplayJob(t.log[r].op)
  {
    hide Reachable, Balanced;
    ReachableIsBalanced(t);
    ResumeChoice(t.log, r);
    var before := t.log[..r];
    assert before[i] == t.log[i] && before[first] == t.log[first];
    assert forall k :: i < k < r ==> before[k] == t.log[k];
  }

  /** The resume after the one a restart was honoured with really replays: no
      late store of an earlier worker can turn it into a `W00`. The same holds
      after any number of backward resumes in between. */
  lemma RestartThenReplays(t: Trace, i: nat, first: nat, r: nat)
    requires Reachable(t) && FollowsRestart(t.log, i, first) && first < r < |t.log| && t.log[r].Resumed?
    requires forall k :: first < k < r ==>
      !t.log[k].Restarted? && !(t.log[k].Resumed? && t.log[k].op.IsForward())
    ensures t.log[r].kind == ReplayJob(t.log[r].op)
    ensures forall k :: i < k < r ==> !t.log[k].ExitSeen?
  {
    hide Reachable, Balanced;
    ReachableIsBalanced(t);
    RestartIsHonoured(t, i, first);
    forall k | i < k < r
      ensures !(t.log[k].Resumed? && ForwardReplay(t.log[k].kind))
    {
      if k > first && t.log[k].Resumed? {
        ResumeChoice(t.log, k);
      }
    }
    NoLateExit(t.log, i, r);
    RestartIsHonouredOnce(t, i, first, r);
  }

  /** Every job that stops in place does so where the last restart left the
      backend. */
  lemma RestartStopsInPlace(t: Trace, d: nat) returns (m: nat, f: nat)
    requires Reachable(t) && d < |t.log| && t.log[d].Delivered?
    ensures m < f < d && t.log[m].Accepted? && t.log[m].job == t.log[d].job
    ensures t.log[f].Finished? && t.log[f].job == t.log[d].job
    ensures t.log[m].kind.PositionStop? ==>
      IsSignal(t.log[d].reply, SIGTRAP) && LastRestart(t.log[..m], t.log[f].at)
  {
    ReachableIsBalanced(t);
    m, f := StopsAnswerTheirResume(t, d);
    f := Answered(t.log, m, d);
    if t.log[m].kind.PositionStop? {
      StopsWhereRestarted(t.log, m);
    }
  }
}
