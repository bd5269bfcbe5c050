/** Stops and the resumes they answer, over the bare sequence of events. */
module DeliveryLaws {
  import opened Vocabulary
  import opened Runner
  import opened Ledger
  import opened LedgerLaws

  lemma EnterFinished(l: Ledger, e: Event)
    requires Allowed(l, e) && !e.Finished? && Enter(l, e).job.finished.Some?
    ensures Enter(l, e).jobs == l.jobs && Enter(l, e).job.finished == l.job.finished
  {
    hide Fits, Decide, Tells;
  }

  /** A finished job finished at some point. */
  lemma {:induction false} FindFinish(log: seq<Event>) returns (f: nat)
    requires Balanced(log) && Book(log).jobs > 0 && Book(log).job.finished.Some?
    ensures f < |log| && log[f].Finished?
    ensures log[f].job + 1 == Book(log).jobs && Some(log[f].outcome) == Book(log).job.finished
    decreases |log|
  {
    var n := |log| - 1;
    var l := Book(log[..n]);
    assert Allowed(l, log[n]);
    if log[n].Finished? {
      f := n;
    } else {
      EnterFinished(l, log[n]);
      BalancedPrefix(log, n);
      f := FindFinish(log[..n]);
    }
  }

  lemma EnterKind(l: Ledger, e: Event)
    requires Allowed(l, e) && !e.Accepted?
    ensures Enter(l, e).jobs == l.jobs && Enter(l, e).job.kind == l.job.kind && Enter(l, e).job.at == l.job.at
  {
    hide Fits, Decide, Tells;
  }

  /** The newest job was accepted at some point. */
  lemma {:induction false} FindAccept(log: seq<Event>) returns (m: nat)
    requires Balanced(log) && Book(log).jobs > 0
    ensures m < |log| && log[m].Accepted? && log[m].job + 1 == Book(log).jobs
    ensures log[m].kind == Book(log).job.kind && log[m].at == Book(log).job.at
    decreases |log|
  {
    var n := |log| - 1;
    var l := Book(log[..n]);
    assert Allowed(l, log[n]);
    if log[n].Accepted? {
      m := n;
    } else {
      EnterKind(l, log[n]);
      BalancedPrefix(log, n);
      m := FindAccept(log[..n]);
    }
  }

  lemma EnterRan(l: Ledger, e: Event)
    requires Allowed(l, e) && !e.Replayed? && Enter(l, e).job.ran.Some?
    ensures Enter(l, e).jobs == l.jobs && Enter(l, e).job.ran == l.job.ran
  {
    hide Fits, Decide, Tells;
  }

  /** A replay on record was run at some point. */
  lemma {:induction false} FindReplay(log: seq<Event>) returns (x: nat)
    requires Balanced(log) && Book(log).jobs > 0 && Book(log).job.ran.Some?
    ensures x < |log| && log[x] == Replayed(Book(log).jobs - 1, Book(log).job.ran.value.0, Book(log).job.ran.value.1)
    decreases |log|
  {
    var n := |log| - 1;
    var l := Book(log[..n]);
    assert Allowed(l, log[n]);
    if log[n].Replayed? {
      x := n;
    } else {
      EnterRan(l, log[n]);
      BalancedPrefix(log, n);
      x := FindReplay(log[..n]);
    }
  }

  /** No job replays twice. */
  lemma ReplayedOnce(log: seq<Event>, i: nat, k: nat)
    requires Balanced(log) && i < k < |log| && log[i].Replayed? && log[k].Replayed?
    ensures log[i].job != log[k].job
  {
    assert Allowed(Book(log[..i]), log[i]) && Allowed(Book(log[..k]), log[k]);
    BookAt(log, i);
    BookGrows(log, i + 1, k);
  }

  lemma EnterDelivered(l: Ledger, e: Event)
    requires Allowed(l, e) && !e.Delivered? && Enter(l, e).job.delivered
    ensures Enter(l, e).jobs == l.jobs && l.job.delivered
  {
    hide Fits, Decide, Tells;
  }

  /** A job on record as delivered was delivered at some point. */
  lemma {:induction false} FindDelivery(log: seq<Event>) returns (d: nat)
    requires Balanced(log) && Book(log).jobs > 0 && Book(log).job.delivered
    ensures d < |log| && log[d].Delivered? && log[d].job + 1 == Book(log).jobs
    decreases |log|
  {
    var n := |log| - 1;
    var l := Book(log[..n]);
    assert Allowed(l, log[n]);
    if log[n].Delivered? {
      d := n;
    } else {
      EnterDelivered(l, log[n]);
      BalancedPrefix(log, n);
      d := FindDelivery(log[..n]);
    }
  }

  predicate OfJob(e: Event) {
    e.FlagReset? || e.FlagSwapped? || e.Replayed? || e.ExitSeen? || e.Finished? || e.Delivered?
  }

  /** Events of a job come after its acceptance and before the next job's. */
  lemma AcceptedFirst(log: seq<Event>, m: nat, k: nat)
    requires Balanced(log) && m < |log| && k < |log| && log[m].Accepted? && OfJob(log[k])
    ensures log[k].job == log[m].job ==> m < k
    ensures m < k ==> log[m].job <= log[k].job
    ensures m < k && log[k].job == log[m].job ==>
      var job := Book(log[..k]).job; job.kind == log[m].kind && job.at == log[m].at
  {
    assert Allowed(Book(log[..m]), log[m]) && Allowed(Book(log[..k]), log[k]);
    BookAt(log, m);
    if m < k {
      BookGrows(log, m + 1, k);
    } else {
      BookGrows(log, k, m);
    }
  }

  /** No job's stop is delivered twice. */
  lemma DeliveredOnce(log: seq<Event>, i: nat, k: nat)
    requires Balanced(log) && i < k < |log| && log[i].Delivered? && log[k].Delivered?
    ensures log[i].job != log[k].job
  {
    assert Allowed(Book(log[..i]), log[i]) && Allowed(Book(log[..k]), log[k]);
    BookAt(log, i);
    BookGrows(log, i + 1, k);
  }

  /** A delivered stop is the result its own job came to, in the form the kind
      of job prescribes; jobs that do not replay leave the backend in place. */
  lemma Answered(log: seq<Event>, m: nat, d: nat) returns (f: nat)
    requires Balanced(log) && m < |log| && d < |log|
    requires log[m].Accepted? && log[d].Delivered? && log[m].job == log[d].job
    ensures m < f < d && log[f].Finished? && log[f].job == log[m].job
    ensures Tells(log[f].outcome, log[d].reply)
    ensures var job := Book(log[..f]).job;
      job.kind == log[m].kind && job.at == log[m].at && Fits(job, log[f].outcome)
    ensures !log[m].kind.ReplayJob? ==> log[f].at == log[m].at
  {
    AcceptedFirst(log, m, d);
    BalancedPrefix(log, d);
    assert Allowed(Book(log[..d]), log[d]);
    f := FindFinish(log[..d]);
    assert log[..d][f] == log[f] && Allowed(Book(log[..f]), log[f]);
    AcceptedFirst(log, m, f);
  }

  /** Once the next job is accepted, an undelivered stop is lost for good; one
      delivered before that is safe. */
  lemma LostIffSuperseded(log: seq<Event>, n: nat, j: nat)
    requires Balanced(log) && n < |log| && log[n].Accepted? && log[n].job == j + 1
    ensures (exists d :: 0 <= d < |log| && log[d].Delivered? && log[d].job == j)
       <==> (exists d :: 0 <= d < n && log[d].Delivered? && log[d].job == j)
  {
    forall d | 0 <= d < |log| && log[d].Delivered? && log[d].job == j
      ensures d < n
    {
      AcceptedFirst(log, n, d);
      assert d != n;
    }
  }

  /** The client resumes only when every accepted resume has been answered. */
  ghost predicate Disciplined(log: seq<Event>) {
    forall n, m :: 0 <= m < n < |log| && log[n].Resumed? && log[m].Accepted? ==>
      AnsweredBy(log, m, n)
  }

  ghost predicate AnsweredBy(log: seq<Event>, m: nat, n: nat)
    requires m <= n <= |log| && m < |log| && log[m].Accepted?
  {
    exists d :: m < d < n && log[d].Delivered? && log[d].job == log[m].job
  }

  lemma BookOpens(log: seq<Event>)
    ensures Book(log[..0]) == OPENED
  {
  }

  /** To such a client nothing is owed when it resumes. */
  lemma NothingOwed(log: seq<Event>, n: nat)
    requires Balanced(log) && Disciplined(log) && n < |log| && log[n].Resumed?
    ensures Book(log[..n]).job.delivered && Book(log[..n]).job.finished.Some?
  {
    hide Book;
    BalancedPrefix(log, n);
    if Book(log[..n]).jobs > 0 {
      var m := FindAccept(log[..n]);
      assert log[..n][m] == log[m];
      assert AnsweredBy(log, m, n);
      var d :| m < d < n && log[d].Delivered? && log[d].job == log[m].job;
      assert Allowed(Book(log[..d]), log[d]);
      BookAt(log, d);
      BookGrows(log, d + 1, n);
    } else {
      BookOpens(log);
      BookGrows(log, 0, n);
    }
  }
}
