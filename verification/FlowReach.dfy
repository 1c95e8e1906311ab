/** What the exactness of plain runs means for functions whose answer depends on the node
    alone, and a chart whose loop node is lost. */
module FlowReach {
  import opened Flowchart
  import opened FlowExecutor
  import opened FlowPlain

  /** A walk along the edges that the answers select. */
  ghost predicate SelectedWalk(chart: Chart, answers: nat -> bool, walk: seq<nat>) {
    && InChart(walk, |chart|)
    && forall i | 0 < i < |walk| :: walk[i] in if answers(walk[i - 1]) then chart[walk[i - 1]].onTrue else chart[walk[i - 1]].onFalse
  }

  ghost predicate LeadsTo(chart: Chart, answers: nat -> bool, roots: seq<nat>, walk: seq<nat>, n: nat) {
    walk != [] && walk[0] in roots && walk[|walk| - 1] == n && SelectedWalk(chart, answers, walk)
  }

  ghost predicate Reachable(chart: Chart, answers: nat -> bool, roots: seq<nat>, n: nat) {
    exists walk :: LeadsTo(chart, answers, roots, walk, n)
  }

  ghost function ReachableSet(chart: Chart, answers: nat -> bool, roots: seq<nat>): set<nat> {
    set n | 0 <= n < |chart| && Reachable(chart, answers, roots, n)
  }

  ghost predicate Answers(script: Script, answers: nat -> bool) {
    forall calls, n {:trigger script(calls, n)} :: script(calls, n).answer == answers(n)
  }

  lemma RootsAreReachable(chart: Chart, answers: nat -> bool, roots: seq<nat>)
    requires InChart(roots, |chart|)
    ensures AllIn(roots, ReachableSet(chart, answers, roots))
  {
    forall i | 0 <= i < |roots|
      ensures roots[i] in ReachableSet(chart, answers, roots)
    {
      assert LeadsTo(chart, answers, roots, [roots[i]], roots[i]);
    }
  }

  lemma ReachableGoesOn(chart: Chart, answers: nat -> bool, roots: seq<nat>, n: nat, c: nat)
    requires n in ReachableSet(chart, answers, roots) && c < |chart| && c in chart[n].Subsequence(answers(n))
    ensures c in ReachableSet(chart, answers, roots)
  {
    var walk :| LeadsTo(chart, answers, roots, walk, n);
    assert LeadsTo(chart, answers, roots, walk + [c], c);
  }

  lemma ReachableIsClosed(chart: Chart, script: Script, answers: nat -> bool, roots: seq<nat>, calls: seq<nat>)
    requires WellFormed(chart) && Answers(script, answers)
    ensures Closed(chart, Taken(script, calls), ReachableSet(chart, answers, roots))
  {
    TakenCounts(script, calls);
    var S := ReachableSet(chart, answers, roots);
    forall x | x in Taken(script, calls) && x.node in S && x.node < |chart|
      ensures AllIn(chart[x.node].Subsequence(x.taken), S)
    {
      var ids := chart[x.node].Subsequence(x.taken);
      forall i | 0 <= i < |ids|
        ensures ids[i] in S
      {
        assert InChart(ids, |chart|);
        ReachableGoesOn(chart, answers, roots, x.node, ids[i]);
      }
    }
  }

  lemma WalkTo(chart: Chart, answers: nat -> bool, roots: seq<nat>, n: nat) returns (walk: seq<nat>)
    requires n in ReachableSet(chart, answers, roots)
    ensures LeadsTo(chart, answers, roots, walk, n)
  {
    walk :| LeadsTo(chart, answers, roots, walk, n);
  }

  /** Calls that include the roots and are closed include the end of every walk. */
  lemma {:induction false} WalkIsCalled(chart: Chart, script: Script, answers: nat -> bool, roots: seq<nat>, calls: seq<nat>, walk: seq<nat>, n: nat)
    requires Answers(script, answers) && LeadsTo(chart, answers, roots, walk, n) && AllIn(roots, Members(calls))
    requires Closed(chart, Taken(script, calls), Members(calls))
    ensures n in calls
    decreases |walk|
  {
    if |walk| > 1 {
      var before := walk[..|walk| - 1];
      var m := before[|before| - 1];
      assert LeadsTo(chart, answers, roots, before, m);
      WalkIsCalled(chart, script, answers, roots, calls, before, m);
      TakenCounts(script, calls);
      var i :| 0 <= i < |calls| && calls[i] == m;
      assert Taken(script, calls)[i] == Expansion(m, answers(m));
      assert AllIn(chart[m].Subsequence(answers(m)), Members(calls));
    }
  }

  lemma RootsFit(chart: Chart, s: State, start: nat)
    requires start < |chart| && Fits(chart, s)
    ensures InChart(Roots(chart, s, start), |chart|)
  {
    hide Lists;
  }

  /** With answers fixed per node, a run that is not cut short calls exactly the functions of
      the nodes reachable along the selected edges, each once. A start node that skips its
      function is called only if it is reached again. */
  lemma CallsWhatIsReachable(chart: Chart, script: Script, answers: nat -> bool, tick: nat, cap: nat, s: State, start: nat)
    requires Plain(script) && Answers(script, answers) && LoopsAreChecked(chart)
    requires Fits(chart, s) && Clean(s, start)
    requires tick < |s.waiting| && Bound(chart, s, start) <= cap
    ensures var r := RunFlow(chart, script, tick, cap, s, start);
            && Distinct(r.calls)
            && forall n :: n in r.calls <==> n in ReachableSet(chart, answers, Roots(chart, s, start))
  {
    hide RunFlow, Lists, Closed, Reachable, Settled, Distinct, Answers, InChart, Roots;
    PlainRunsAreExact(chart, script, tick, cap, s, start);
    var r := RunFlow(chart, script, tick, cap, s, start);
    var roots := Roots(chart, s, start);
    var S := ReachableSet(chart, answers, roots);
    ReachableIsClosed(chart, script, answers, roots, r.calls);
    RootsFit(chart, s, start);
    RootsAreReachable(chart, answers, roots);
    assert AllIn(r.calls, S);
    forall n | n in S
      ensures n in r.calls
    {
      var walk := WalkTo(chart, answers, roots, n);
      WalkIsCalled(chart, script, answers, roots, r.calls, walk, n);
    }
  }
}
