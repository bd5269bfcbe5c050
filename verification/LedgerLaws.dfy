/** What a balanced ledger means, stated over the bare sequence of events. */
module LedgerLaws {
  import opened Runner
  import opened Ledger

  // ----- a job's record is only ever added to -----

  predicate Grows(a: Ledger, b: Ledger) {
    a.jobs < b.jobs ||
    (&& a.jobs == b.jobs
     && a.job.kind == b.job.kind && a.job.at == b.job.at
     && (a.job.reset ==> b.job.reset)
     && (a.job.swapped.Some? ==> b.job.swapped == a.job.swapped)
     && (a.job.ran.Some? ==> b.job.ran == a.job.ran)
     && (a.job.exit ==> b.job.exit)
     && (a.job.finished.Some? ==>
           b.job.finished == a.job.finished && b.job.exit == a.job.exit && b.job.ran == a.job.ran)
     && (a.job.delivered ==> b.job.delivered))
  }

  lemma EnterGrows(l: Ledger, e: Event)
    requires Allowed(l, e)
    ensures Grows(l, Enter(l, e))
  {
    hide Fits, Decide, Tells;
    match e
    case Resumed(_, _) =>
    case LeftEnd =>
    case Accepted(_, _, _, _) =>
    case Refused =>
    case FlagReset(_) =>
    case FlagStored =>
    case FlagSwapped(_, _) =>
    case Replayed(_, _, _) =>
    case ExitSeen(_) =>
    case Finished(_, _, _) =>
    case Restarted(_, _) =>
    case Delivered(_, _) =>
  }

  lemma BookAt(log: seq<Event>, n: nat)
    requires n < |log|
    ensures Book(log[..n + 1]) == Enter(Book(log[..n]), log[n])
  {
    assert log[..n + 1][..n] == log[..n];
  }

  lemma {:induction false} BookGrows(log: seq<Event>, i: nat, k: nat)
    requires Balanced(log) && i <= k <= |log|
    ensures Grows(Book(log[..i]), Book(log[..k]))
    decreases k
  {
    hide Allowed, Enter, Book, Balanced;
    if i < k {
      BookGrows(log, i, k - 1);
      BookAt(log, k - 1);
      AllowedAt(log, k - 1);
      EnterGrows(Book(log[..k - 1]), log[k - 1]);
    }
  }

  lemma BalancedPrefix(log: seq<Event>, n: nat)
    requires Balanced(log) && n <= |log|
    ensures Balanced(log[..n])
  {
    forall k | 0 <= k < n
      ensures Allowed(Book(log[..n][..k]), log[..n][k])
    {
      assert log[..n][..k] == log[..k];
    }
  }

  lemma AllowedAt(log: seq<Event>, n: nat)
    requires Balanced(log) && n < |log|
    ensures Allowed(Book(log[..n]), log[n])
  {
    hide Allowed, Book;
  }

  lemma LastEntry(log: seq<Event>)
    requires Balanced(log) && log != []
    ensures var n := |log| - 1; var l := Book(log[..n]);
      Allowed(l, log[n]) && Book(log) == Enter(l, log[n]) && Balanced(log[..n])
  {
    hide Allowed, Enter;
    BalancedPrefix(log, |log| - 1);
  }

  // ----- interrupt attribution -----

  /** A request stored the flag after job `j` had reset it. */
  ghost predicate StoredSince(log: seq<Event>, j: nat) {
    exists i, k :: 0 <= i < k < |log| && log[i] == FlagReset(j) && log[k] == FlagStored
  }

  lemma SinceAppend(log: seq<Event>, e: Event, j: nat)
    ensures StoredSince(log + [e], j) <==> StoredSince(log, j) || (e == FlagStored && FlagReset(j) in log)
  {
    var l := log + [e];
    if StoredSince(log, j) {
      var i, k :| 0 <= i < k < |log| && log[i] == FlagReset(j) && log[k] == FlagStored;
      assert l[i] == FlagReset(j) && l[k] == FlagStored;
    }
    if e == FlagStored && FlagReset(j) in log {
      var i :| 0 <= i < |log| && log[i] == FlagReset(j);
      assert l[i] == FlagReset(j) && l[|log|] == FlagStored;
    }
    if StoredSince(l, j) {
      var i, k :| 0 <= i < k < |l| && l[i] == FlagReset(j) && l[k] == FlagStored;
      assert log[i] == FlagReset(j);
      if k < |log| {
        assert log[k] == FlagStored;
      }
    }
  }

  ghost predicate ResetsKnown(log: seq<Event>, l: Ledger) {
    forall j: nat :: FlagReset(j) in log ==> j < l.jobs && (j + 1 == l.jobs ==> l.job.reset)
  }

  ghost predicate FlagMeans(log: seq<Event>, l: Ledger) {
    l.jobs > 0 && l.job.reset && l.job.swapped.None? ==>
      FlagReset(l.jobs - 1) in log && (l.flag <==> StoredSince(log, l.jobs - 1))
  }

  lemma EnterFlag(log: seq<Event>, l: Ledger, e: Event)
    requires Allowed(l, e) && ResetsKnown(log, l) && FlagMeans(log, l)
    ensures var l' := Enter(l, e); ResetsKnown(log + [e], l') && FlagMeans(log + [e], l')
  {
    hide Fits, Decide, Tells;
    if Enter(l, e).jobs > 0 {
      SinceAppend(log, e, Enter(l, e).jobs - 1);
    }
    match e
    case Resumed(_, _) =>
    case LeftEnd =>
    case Accepted(_, _, _, _) =>
    case Refused =>
    case FlagReset(_) =>
    case FlagStored =>
    case FlagSwapped(_, _) =>
    case Replayed(_, _, _) =>
    case ExitSeen(_) =>
    case Finished(_, _, _) =>
    case Restarted(_, _) =>
    case Delivered(_, _) =>
  }

  lemma {:induction false} FlagIsStores(log: seq<Event>)
    requires Balanced(log)
    ensures ResetsKnown(log, Book(log)) && FlagMeans(log, Book(log))
    decreases |log|
  {
    if log != [] {
      hide Allowed, Enter, ResetsKnown, FlagMeans;
      var n := |log| - 1;
      BalancedPrefix(log, n);
      FlagIsStores(log[..n]);
      assert log == log[..n] + [log[n]];
      EnterFlag(log[..n], Book(log[..n]), log[n]);
    }
  }

  /** A swap sees the flag exactly when a store fell between that job's reset
      and the swap. */
  lemma SwapSeesStores(log: seq<Event>, m: nat)
    requires Balanced(log) && m < |log| && log[m].FlagSwapped?
    ensures log[m].seen <==> StoredSince(log[..m], log[m].job)
  {
    BalancedPrefix(log, m);
    FlagIsStores(log[..m]);
  }

  lemma EnterSwapped(l: Ledger, e: Event)
    requires Allowed(l, e) && !e.FlagSwapped? && Enter(l, e).job.swapped.Some?
    ensures Enter(l, e).jobs == l.jobs && Enter(l, e).job.swapped == l.job.swapped
  {
    hide Fits, Decide, Tells;
  }

  /** Some earlier event settled what the newest job's swap saw. */
  lemma {:induction false} FindSwap(log: seq<Event>) returns (m: nat)
    requires Balanced(log) && Book(log).jobs > 0 && Book(log).job.swapped.Some?
    ensures m < |log| && log[m] == FlagSwapped(Book(log).jobs - 1, Book(log).job.swapped.value)
    decreases |log|
  {
    var n := |log| - 1;
    var l := Book(log[..n]);
    assert Allowed(l, log[n]);
    if log[n].FlagSwapped? {
      m := n;
    } else {
      EnterSwapped(l, log[n]);
      BalancedPrefix(log, n);
      m := FindSwap(log[..n]);
    }
  }

  lemma SwappedOnce(log: seq<Event>, i: nat, k: nat)
    requires Balanced(log) && i < k < |log| && log[i].FlagSwapped? && log[k].FlagSwapped?
    ensures log[i].job != log[k].job
  {
    BookAt(log, i);
    BookGrows(log, i + 1, k);
  }
}
