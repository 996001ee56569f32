/** The inductive invariant of the wired daemon. */
module Invariant {
  import opened Common
  import opened Pipeline
  import opened Flow
  import opened Shutdown
  import opened Accounting

  ghost predicate Good(c: Config, s: State) {
    Flows(c, s) && Orderly(c, s) && Balanced(c, s)
  }

  lemma StepKeepsGood(c: Config, s: State, a: Action)
    requires c.Wired() && Good(c, s) && Enabled(c, s, a)
    ensures Good(c, Apply(c, s, a))
  {
    StepKeepsFlows(c, s, a);
    StepKeepsOrderly(c, s, a);
    StepKeepsBalanced(c, s, a);
  }

  lemma {:induction false} RunsStayGood(c: Config, s: State, run: seq<Action>)
    requires c.Wired() && Good(c, s)
    ensures After(c, s, run).Some? ==> Good(c, After(c, s, run).value)
  {
    if run != [] && After(c, s, run).Some? {
      var shorter, t, a := LastStep(c, s, run);
      RunsStayGood(c, s, shorter);
      StepKeepsGood(c, t, a);
    }
  }

  lemma ReachableIsGood(c: Config, s: State)
    requires c.Wired() && Reachable(c, s)
    ensures Good(c, s)
  {
    InitiallyFlows(c);
    InitiallyOrderly(c);
    InitiallyBalanced(c);
    var run :| After(c, Init(c), run) == Some(s);
    RunsStayGood(c, Init(c), run);
  }
}
