/** What every resume is answered with, over the bare sequence of events. */
module EndStateLaws {
  import opened Vocabulary
  import opened Mapping
  import opened Resume
  import opened Runner
  import opened Ledger
  import opened LedgerLaws
  import opened DeliveryLaws

  /** Some `on` event happened and no `off` event has happened after it. */
  ghost predicate Since(log: seq<Event>, on: Event -> bool, off: Event -> bool) {
    exists i :: 0 <= i < |log| && on(log[i]) && forall k :: i < k < |log| ==> !off(log[k])
  }

  lemma SinceLast(log: seq<Event>, on: Event -> bool, off: Event -> bool)
    requires log != []
    ensures var n := |log| - 1;
      Since(log, on, off) <==> on(log[n]) || (Since(log[..n], on, off) && !off(log[n]))
  {
    var n := |log| - 1;
    var init := log[..n];
    if Since(init, on, off) && !off(log[n]) {
      var i :| 0 <= i < n && on(init[i]) && forall k :: i < k < n ==> !off(init[k]);
      assert on(log[i]) && forall k :: i < k < |log| ==> k == n || log[k] == init[k];
    }
    if Since(log, on, off) && !on(log[n]) {
      var i :| 0 <= i < |log| && on(log[i]) && forall k :: i < k < |log| ==> !off(log[k]);
      assert on(init[i]) && forall k :: i < k < n ==> init[k] == log[k];
    }
  }

  /** A restart happened and no resume has been decided since. */
  ghost predicate RestartWaits(log: seq<Event>) {
    Since(log, (e: Event) => e.Restarted?, (e: Event) => e.Resumed?)
  }

  /** A forward replay ended the process, and neither a restart nor the store of
      a backward resume came since. */
  ghost predicate ProcessEnded(log: seq<Event>) {
    Since(log, (e: Event) => e.ExitSeen?, (e: Event) => e.Restarted? || e.LeftEnd?)
  }

  lemma BookLast(log: seq<Event>)
    requires log != []
    ensures Book(log) == Enter(Book(log[..|log| - 1]), log[|log| - 1])
  {
  }

  lemma EnterFlags(l: Ledger, e: Event)
    ensures Enter(l, e).pending <==> e.Restarted? || (l.pending && !e.Resumed?)
    ensures Enter(l, e).endState <==> e.ExitSeen? || (l.endState && !e.Restarted? && !e.LeftEnd?)
  {
  }

  lemma {:induction false} PendingMeans(log: seq<Event>)
    ensures Book(log).pending <==> RestartWaits(log)
    decreases |log|
  {
    if log != [] {
      hide Book, Enter;
      BookLast(log);
      EnterFlags(Book(log[..|log| - 1]), log[|log| - 1]);
      PendingMeans(log[..|log| - 1]);
      SinceLast(log, (e: Event) => e.Restarted?, (e: Event) => e.Resumed?);
    }
  }

  lemma {:induction false} EndStateMeans(log: seq<Event>)
    ensures Book(log).endState <==> ProcessEnded(log)
    decreases |log|
  {
    if log != [] {
      hide Book, Enter;
      BookLast(log);
      EnterFlags(Book(log[..|log| - 1]), log[|log| - 1]);
      EndStateMeans(log[..|log| - 1]);
      SinceLast(log, (e: Event) => e.ExitSeen?, (e: Event) => e.Restarted? || e.LeftEnd?);
    }
  }

  predicate Reverse(op: ReplayOp) { op.BackwardContinue? || op.BackwardStep? }

  /** Every resume is answered by what happened before it and nothing else. */
  lemma ResumeChoice(log: seq<Event>, n: nat)
    requires Balanced(log) && n < |log| && log[n].Resumed?
    ensures log[n].kind.PositionStop? <==> !Reverse(log[n].op) && RestartWaits(log[..n])
    ensures log[n].kind.ExitReply? <==>
      !Reverse(log[n].op) && !RestartWaits(log[..n]) && ProcessEnded(log[..n])
    ensures log[n].kind.ReplayJob? ==> log[n].kind.op == log[n].op
  {
    assert Allowed(Book(log[..n]), log[n]);
    PendingMeans(log[..n]);
    EndStateMeans(log[..n]);
  }

  // ----- from the decision to the job -----

  lemma EnterChoice(l: Ledger, e: Event)
    requires Allowed(l, e) && !e.Resumed? && Enter(l, e).choice.Some?
    ensures Enter(l, e).choice == l.choice && !e.Accepted?
  {
    hide Fits, Decide, Tells;
  }

  lemma EnterResumed(l: Ledger, e: Event)
    requires e.Resumed?
    ensures Enter(l, e).choice == Some((e.op, e.kind))
  {
    hide Fits, Decide, Tells;
  }

  lemma ChoiceWasMade(log: seq<Event>)
    requires Book(log).choice.Some?
    ensures log != []
  {
  }

  lemma {:induction false} FindResume(log: seq<Event>) returns (r: nat)
    requires Balanced(log) && Book(log).choice.Some?
    ensures r < |log| && log[r].Resumed? && Book(log).choice == Some((log[r].op, log[r].kind))
    ensures forall k :: r < k < |log| ==> !log[k].Resumed? && !log[k].Accepted?
    decreases |log|
  {
    hide Allowed, Enter, Book, Balanced;
    ChoiceWasMade(log);
    LastEntry(log);
    var n := |log| - 1;
    var l := Book(log[..n]);
    if log[n].Resumed? {
      r := n;
      EnterResumed(l, log[n]);
    } else {
      EnterChoice(l, log[n]);
      r := FindResume(log[..n]);
      forall k | r < k < |log|
        ensures !log[k].Resumed? && !log[k].Accepted?
      {
        if k < n {
          assert log[..n][k] == log[k];
        }
      }
    }
  }

  /** An accepted job is the one the last resume decided on. */
  lemma AcceptedWasDecided(log: seq<Event>, m: nat) returns (r: nat)
    requires Balanced(log) && m < |log| && log[m].Accepted?
    ensures r < m && log[r] == Resumed(log[m].op, log[m].kind)
    ensures forall k :: r < k < m ==> !log[k].Resumed? && !log[k].Accepted?
  {
    BalancedPrefix(log, m);
    assert Allowed(Book(log[..m]), log[m]);
    r := FindResume(log[..m]);
    assert log[..m][r] == log[r];
    assert forall k :: r < k < m ==> log[..m][k] == log[k];
  }

  // ----- restarts -----

  ghost predicate LastRestart(log: seq<Event>, at: Backend) {
    exists i :: 0 <= i < |log| && log[i].Restarted? && log[i].at == at
      && forall k :: i < k < |log| ==> !log[k].Restarted?
  }

  lemma EnterElsewhere(l: Ledger, e: Event)
    ensures Enter(l, e).restartAt == if e.Restarted? then e.at else l.restartAt
  {
  }

  lemma LastRestartStays(log: seq<Event>, at: Backend)
    requires log != [] && LastRestart(log[..|log| - 1], at) && !log[|log| - 1].Restarted?
    ensures LastRestart(log, at)
  {
    var n := |log| - 1;
    var init := log[..n];
    var i :| 0 <= i < n && init[i].Restarted? && init[i].at == at && forall k :: i < k < n ==> !init[k].Restarted?;
    assert log[i].Restarted? && log[i].at == at && forall k :: i < k < |log| ==> k == n || log[k] == init[k];
  }

  lemma {:induction false} RestartAtMeans(log: seq<Event>)
    ensures (exists i :: 0 <= i < |log| && log[i].Restarted?) ==> LastRestart(log, Book(log).restartAt)
    decreases |log|
  {
    if log != [] {
      hide Book, Enter;
      var n := |log| - 1;
      BookLast(log);
      EnterElsewhere(Book(log[..n]), log[n]);
      RestartAtMeans(log[..n]);
      if !log[n].Restarted? && exists i :: 0 <= i < |log| && log[i].Restarted? {
        var j :| 0 <= j < |log| && log[j].Restarted?;
        assert log[..n][j].Restarted?;
        LastRestartStays(log, Book(log[..n]).restartAt);
      }
    }
  }

  /** A job that stops in place was accepted where the last restart left the
      backend. */
  lemma StopsWhereRestarted(log: seq<Event>, m: nat)
    requires Balanced(log) && m < |log| && log[m].Accepted? && log[m].kind.PositionStop?
    ensures LastRestart(log[..m], log[m].at)
  {
    assert Allowed(Book(log[..m]), log[m]);
    var r := AcceptedWasDecided(log, m);
    ResumeChoice(log, r);
    var i :| 0 <= i < r && log[..r][i].Restarted?;
    assert log[..m][i].Restarted?;
    RestartAtMeans(log[..m]);
  }

  // ----- the resume that follows a restart -----

  /** The events that end the wait of a decided resume for its runner. */
  predicate Settles(e: Event) { e.Accepted? || e.Refused? || e.Resumed? }

  /** `e` accepts the resume `r`, with the backend as given. */
  predicate Accepts(e: Event, r: Event, at: Backend)
    requires r.Resumed?
  {
    e.Accepted? && e.op == r.op && e.kind == r.kind && e.at == at
  }

  lemma EnterKeepsChoice(l: Ledger, e: Event)
    requires Allowed(l, e) && l.choice.Some? && !Settles(e)
    ensures var l' := Enter(l, e);
      l'.choice == l.choice && l'.honouring == l.honouring && l'.restartAt == l.restartAt
  {
    hide Fits, Decide, Tells;
  }

  lemma EnterResume(l: Ledger, e: Event)
    requires e.Resumed?
    ensures var l' := Enter(l, e);
      l'.choice == Some((e.op, e.kind)) && l'.honouring == l.pending && l'.restartAt == l.restartAt
  {
    hide Fits, Decide, Tells;
  }

  /** Until it is settled, a decision stands as it was made. */
  lemma {:induction false} ChoiceStands(log: seq<Event>, r: nat, k: nat)
    requires Balanced(log) && r < k <= |log| && log[r].Resumed?
    requires forall j :: r < j < k ==> !Settles(log[j])
    ensures var was, now := Book(log[..r]), Book(log[..k]);
      && now.choice == Some((log[r].op, log[r].kind))
      && now.honouring == was.pending && now.restartAt == was.restartAt
    decreases k
  {
    hide Book, Enter, Allowed, Balanced;
    BookAt(log, k - 1);
    if k == r + 1 {
      EnterResume(Book(log[..r]), log[r]);
    } else {
      ChoiceStands(log, r, k - 1);
      AllowedAt(log, k - 1);
      EnterKeepsChoice(Book(log[..k - 1]), log[k - 1]);
    }
  }

  /** `i` is the last restart before the resume `r`, and `r` is the first resume
      after it. */
  ghost predicate FollowsRestart(log: seq<Event>, i: nat, r: nat) {
    && i < r < |log| && log[i].Restarted? && log[r].Resumed?
    && forall k :: i < k < r ==> !log[k].Resumed? && !log[k].Restarted?
  }

  lemma RestartOnRecord(log: seq<Event>, i: nat, r: nat)
    requires FollowsRestart(log, i, r)
    ensures Book(log[..r]).pending && Book(log[..r]).restartAt == log[i].at
  {
    hide Book;
    var before := log[..r];
    assert before[i] == log[i] && forall k :: i < k < r ==> before[k] == log[k];
    PendingMeans(before);
    RestartAtMeans(before);
  }

  lemma SettledHonouring(l: Ledger, e: Event)
    requires Allowed(l, e) && l.choice.Some? && l.honouring && Settles(e)
    ensures e.Accepted? && l.choice == Some((e.op, e.kind)) && e.at == l.restartAt
  {
  }

  /** The resume that follows a restart is never refused: what settles it is its
      acceptance, with the backend as the restart left it. */
  lemma RestartIsAccepted(log: seq<Event>, i: nat, r: nat, k: nat)
    requires Balanced(log) && FollowsRestart(log, i, r) && r < k < |log| && Settles(log[k])
    requires forall j :: r < j < k ==> !Settles(log[j])
    ensures Accepts(log[k], log[r], log[i].at)
  {
    hide Book, Enter, Allowed, Balanced;
    RestartOnRecord(log, i, r);
    ChoiceStands(log, r, k);
    AllowedAt(log, k);
    SettledHonouring(Book(log[..k]), log[k]);
  }

  // ----- no late exit -----

  predicate ForwardReplay(kind: JobKind) { kind.ReplayJob? && kind.op.IsForward() }

  /** No job that could still see the process exit is running or on its way. */
  predicate Calm(l: Ledger) {
    && (l.job.finished.Some? || !ForwardReplay(l.job.kind))
    && (l.choice.Some? ==> !ForwardReplay(l.choice.value.1))
  }

  lemma RestartCalms(l: Ledger, e: Event)
    requires Allowed(l, e) && e.Restarted?
    ensures Calm(Enter(l, e))
  {
  }

  lemma CalmStays(l: Ledger, e: Event)
    requires Allowed(l, e) && Calm(l) && !(e.Resumed? && ForwardReplay(e.kind))
    ensures Calm(Enter(l, e)) && !e.ExitSeen?
  {
    hide Fits, Decide, Tells;
  }

  /** After a restart no process exit is recorded before a forward replay has
      been decided on: every worker's store is behind it. */
  lemma {:induction false} NoLateExit(log: seq<Event>, i: nat, n: nat)
    requires Balanced(log) && i < n <= |log| && log[i].Restarted?
    requires forall k :: i < k < n ==> !(log[k].Resumed? && ForwardReplay(log[k].kind))
    ensures Calm(Book(log[..n])) && forall k :: i < k < n ==> !log[k].ExitSeen?
    decreases n
  {
    hide Book, Enter, Allowed, Balanced, Calm;
    BookAt(log, n - 1);
    AllowedAt(log, n - 1);
    if n == i + 1 {
      RestartCalms(Book(log[..i]), log[i]);
    } else {
      NoLateExit(log, i, n - 1);
      CalmStays(Book(log[..n - 1]), log[n - 1]);
    }
  }

  // ----- clients that resume only when stopped -----

  /** A forward replay ended the process, and neither a restart nor an accepted
      backward resume came since. */
  ghost predicate AtProcessExit(log: seq<Event>) {
    Since(log, (e: Event) => e.ExitSeen?, (e: Event) => e.Restarted? || (e.Accepted? && !e.op.IsForward()))
  }

  ghost predicate EndStateTracks(log: seq<Event>, l: Ledger) {
    && (l.choice.Some? ==> l.job.delivered && l.job.finished.Some? && !l.late)
    && (l.endState ==> AtProcessExit(log))
    && (!(l.choice.Some? && !l.choice.value.0.IsForward()) && AtProcessExit(log) ==> l.endState)
  }

  lemma EnterTracks(log: seq<Event>, l: Ledger)
    requires log != [] && var n := |log| - 1; Allowed(l, log[n]) && EndStateTracks(log[..n], l)
    requires log[|log| - 1].Resumed? ==> l.job.delivered && l.job.finished.Some?
    ensures EndStateTracks(log, Enter(l, log[|log| - 1]))
  {
    SinceLast(log, (e: Event) => e.ExitSeen?, (e: Event) => e.Restarted? || (e.Accepted? && !e.op.IsForward()));
  }

  lemma {:induction false} DisciplinedTracks(log: seq<Event>, n: nat)
    requires Balanced(log) && Disciplined(log) && n <= |log|
    ensures EndStateTracks(log[..n], Book(log[..n]))
    decreases n
  {
    if n == 0 {
      BookOpens(log);
    } else {
      hide Book, Enter, Allowed, EndStateTracks, Disciplined;
      DisciplinedTracks(log, n - 1);
      if log[n - 1].Resumed? {
        NothingOwed(log, n - 1);
      }
      assert log[..n][..n - 1] == log[..n - 1];
      BookAt(log, n - 1);
      EnterTracks(log[..n], Book(log[..n - 1]));
    }
  }

  /** Such a client is never refused. */
  lemma NothingIsRefused(log: seq<Event>, n: nat)
    requires Balanced(log) && Disciplined(log) && n < |log|
    ensures !log[n].Refused?
  {
    DisciplinedTracks(log, n);
    AllowedAt(log, n);
  }

  /** For such a client `W00` answers exactly the forward resumes made at the
      recorded process exit. */
  lemma ExitReplyIff(log: seq<Event>, n: nat)
    requires Balanced(log) && Disciplined(log) && n < |log| && log[n].Resumed?
    ensures log[n].kind.ExitReply? <==>
      log[n].op.IsForward() && !RestartWaits(log[..n]) && AtProcessExit(log[..n])
  {
    DisciplinedTracks(log, n);
    PendingMeans(log[..n]);
    assert Allowed(Book(log[..n]), log[n]);
  }

  // ----- the exit stop itself -----

  lemma EnterExit(l: Ledger, e: Event)
    requires Allowed(l, e) && e.ExitSeen?
    ensures l.jobs == e.job + 1 && l.job.finished.None?
    ensures Enter(l, e).jobs == l.jobs && Enter(l, e).job.exit
  {
    hide Fits, Decide, Tells;
  }

  lemma EnterFinish(l: Ledger, e: Event)
    requires Allowed(l, e) && e.Finished?
    ensures l.jobs == e.job + 1 && Enter(l, e).jobs == l.jobs && Enter(l, e).job.finished.Some?
  {
    hide Fits, Decide, Tells;
  }

  /** A job's process exit is on record by the time it finishes. */
  lemma ExitBeforeFinish(log: seq<Event>, x: nat, f: nat)
    requires Balanced(log) && x < |log| && f < |log|
    requires log[x].ExitSeen? && log[f].Finished? && log[x].job == log[f].job
    ensures x < f && Book(log[..f]).job.exit
  {
    hide Allowed, Enter, Book;
    BookAt(log, x);
    BookAt(log, f);
    EnterExit(Book(log[..x]), log[x]);
    EnterFinish(Book(log[..f]), log[f]);
    if x < f {
      BookGrows(log, x + 1, f);
    } else {
      BookGrows(log, f + 1, x);
    }
  }

  lemma EnterExited(l: Ledger, e: Event)
    requires Allowed(l, e) && !e.ExitSeen? && Enter(l, e).job.exit
    ensures Enter(l, e).jobs == l.jobs && l.job.exit
  {
    hide Fits, Decide, Tells;
  }

  lemma NoExitYet(log: seq<Event>)
    requires Book(log).job.exit
    ensures log != []
  {
  }

  lemma {:induction false} FindExit(log: seq<Event>) returns (x: nat)
    requires Balanced(log) && Book(log).jobs > 0 && Book(log).job.exit
    ensures x < |log| && log[x].ExitSeen? && log[x].job + 1 == Book(log).jobs
    decreases |log|
  {
    hide Book, Enter, Allowed, Balanced;
    NoExitYet(log);
    LastEntry(log);
    var n := |log| - 1;
    var l := Book(log[..n]);
    if log[n].ExitSeen? {
      x := n;
      EnterExit(l, log[n]);
    } else {
      EnterExited(l, log[n]);
      x := FindExit(log[..n]);
    }
  }

  /** The record of a job says whether its process exit was seen. */
  lemma ExitOnRecord(log: seq<Event>)
    requires Balanced(log) && Book(log).jobs > 0
    ensures Book(log).job.exit <==> ExitSeen(Book(log).jobs - 1) in log
  {
    hide Book, Enter, Allowed, Balanced;
    var seen := ExitSeen(Book(log).jobs - 1);
    if Book(log).job.exit {
      var x := FindExit(log);
      assert log[x] == seen;
    }
    if seen in log {
      var x :| 0 <= x < |log| && log[x] == seen;
      AllowedAt(log, x);
      BookAt(log, x);
      EnterExit(Book(log[..x]), log[x]);
      BookGrows(log, x + 1, |log|);
      assert log[..|log|] == log;
    }
  }
}
