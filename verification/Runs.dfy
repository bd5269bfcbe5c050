/** Runs grow at both ends, and reachable states stay reachable. */
module Runs {
  import opened Mapping
  import opened Checkpoints
  import opened Runner

  lemma NoSteps(t: Trace)
    ensures Leads(t, [], t)
  {
  }

  lemma FirstStep(t: Trace, a: Action, rest: seq<Action>)
    requires Enabled(t.state, a) && Legal(Apply(t, a), rest)
    ensures Legal(t, [a] + rest) && After(t, [a] + rest) == After(Apply(t, a), rest)
  {
    hide Enabled, Apply;
    assert ([a] + rest)[1..] == rest;
  }

  lemma {:induction false} AfterAppend(t: Trace, run: seq<Action>, a: Action)
    requires Legal(t, run) && Enabled(After(t, run).state, a)
    ensures Legal(t, run + [a]) && After(t, run + [a]) == Apply(After(t, run), a)
    decreases |run|
  {
    hide Enabled, Apply;
    if run == [] {
      assert (run + [a])[1..] == [];
    } else {
      assert (run + [a])[1..] == run[1..] + [a];
      AfterAppend(Apply(t, run[0]), run[1..], a);
    }
  }

  lemma Onward(from: Trace, run: seq<Action>, t: Trace, a: Action) returns (longer: seq<Action>, u: Trace)
    requires Leads(from, run, t) && Enabled(t.state, a)
    ensures longer == run + [a] && u == Apply(t, a) && Leads(from, longer, u)
  {
    hide Enabled, Apply, Legal, After;
    longer, u := run + [a], Apply(t, a);
    AfterAppend(from, run, a);
  }

  lemma SessionIsReachable(b: Backend, c: Table, h: bool)
    ensures Reachable(Session(b, c, h))
  {
    NoSteps(Session(b, c, h));
  }

  lemma ReachableStep(t: Trace, a: Action) returns (u: Trace)
    requires Reachable(t) && Enabled(t.state, a)
    ensures u == Apply(t, a) && Reachable(u)
  {
    hide Enabled, Apply, Leads, Session;
    var b, c, h, run :| Leads(Session(b, c, h), run, t);
    run, u := Onward(Session(b, c, h), run, t, a);
  }

  lemma {:induction false} ReachableRun(t: Trace, run: seq<Action>)
    requires Reachable(t) && Legal(t, run)
    ensures Reachable(After(t, run))
    decreases |run|
  {
    hide Reachable, Enabled, Apply;
    if run != [] {
      var u := ReachableStep(t, run[0]);
      ReachableRun(u, run[1..]);
    }
  }
}
