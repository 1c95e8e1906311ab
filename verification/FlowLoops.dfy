/** Charts whose looping nodes all wait for the next tick: how often a run can reach a node
    is bounded by the edges that lead into it. */
module FlowLoops {
  import opened Flowchart
  import opened FlowExecutor
  import opened FlowPlain
  import opened FlowReach

  /** How often the edges that a sequence of calls selects lead into a node. */
  ghost function Into(chart: Chart, script: Script, calls: seq<nat>, n: nat): nat
    requires InChart(calls, |chart|)
    decreases |calls|
  {
    if calls == [] then 0
    else
      var before, m := calls[..|calls| - 1], calls[|calls| - 1];
      Into(chart, script, before, n) + multiset(chart[m].Subsequence(script(before, m).answer))[n]
  }

  /** Every visit of a node has its own edge into it, and so has its place on the stack. */
  ghost predicate Paid(chart: Chart, script: Script, roots: seq<nat>, s: State, n: nat)
    requires InChart(s.calls, |chart|)
  {
    multiset(s.revisits)[n] + multiset(s.calls)[n] + (if n in s.stack then 1 else 0)
    <= multiset(roots)[n] + Into(chart, script, s.calls, n)
  }

  lemma IntoGrows(chart: Chart, script: Script, calls: seq<nat>, m: nat, n: nat)
    requires InChart(calls, |chart|) && m < |chart|
    ensures InChart(calls + [m], |chart|)
    ensures Into(chart, script, calls + [m], n) ==
            Into(chart, script, calls, n) + multiset(chart[m].Subsequence(script(calls, m).answer))[n]
  {
    assert (calls + [m])[..|calls|] == calls;
  }

  /** The stack without its top has one place less for the top node and all others. */
  lemma TopIsOnce(s: State)
    requires Linked(s) && s.stack != []
    ensures Top(s) !in s.stack[..|s.stack| - 1]
    ensures forall n | n in s.stack :: n == Top(s) || n in s.stack[..|s.stack| - 1]
  {
    assert s.stack == s.stack[..|s.stack| - 1] + [Top(s)];
  }

  lemma PushedFromEither(chart: Chart, s: State, ids: seq<nat>, n: nat)
    requires InChart(ids, |chart|) && Fits(chart, s) && n in PushAll(chart, s, ids).stack
    ensures n in s.stack || n in ids
  {
    hide Lists, PushAll, WellFormed;
    var S := Members(s.stack) + Members(ids);
    PushAllStaysIn(chart, s, ids, S);
    assert n in S;
  }

  lemma RevisitPays(chart: Chart, script: Script, roots: seq<nat>, s: State, r: State, n: nat)
    requires Linked(s) && s.stack != [] && InChart(s.calls, |chart|) && Paid(chart, script, roots, s, n)
    requires r.calls == s.calls && r.revisits == s.revisits + [Top(s)]
    requires n in r.stack ==> n in s.stack[..|s.stack| - 1]
    ensures Paid(chart, script, roots, r, n)
  {
    hide Lists;
    TopIsOnce(s);
  }

  lemma CallPays(chart: Chart, script: Script, tick: nat, roots: seq<nat>, s: State, n: nat)
    requires Plain(script) && Fits(chart, s) && s.stack != [] && Top(s) < |s.nodes|
    requires var node := s.nodes[Top(s)]; node.status != Running && !node.runFlag && !node.skip
    requires InChart(s.calls, |chart|) && Paid(chart, script, roots, s, n)
    ensures var r := Round(chart, script, tick, s);
            InChart(r.calls, |chart|) && Paid(chart, script, roots, r, n)
  {
    hide Lists, PushAll, Round, WellFormed;
    TopIsOnce(s);
    CallingRound(chart, script, tick, s);
    var m := Top(s);
    var answer := script(s.calls, m).answer;
    var w, ids := Called(s, answer), chart[m].Subsequence(answer);
    IdsFit(chart, m, answer);
    PushAllCovers(chart, w, ids);
    IntoGrows(chart, script, s.calls, m, n);
    if n in PushAll(chart, w, ids).stack {
      PushedFromEither(chart, w, ids, n);
    }
  }

  lemma IdsFit(chart: Chart, m: nat, answer: bool)
    requires WellFormed(chart) && m < |chart|
    ensures InChart(chart[m].Subsequence(answer), |chart|)
  {
  }

  lemma RoundPays(chart: Chart, script: Script, tick: nat, initial: seq<Expansion>, bound: nat,
                  roots: seq<nat>, s: State, n: nat)
    requires Plain(script) && LoopsAreChecked(chart)
    requires Going(chart, script, tick, initial, bound, s) && s.stack != [] && Paid(chart, script, roots, s, n)
    ensures var r := Round(chart, script, tick, s);
            InChart(r.calls, |chart|) && Paid(chart, script, roots, r, n)
  {
    hide Lists, WellFormed, PushAll, Detach, Taken, Pending, Paid, Without;
    PopKeepsLinks(s);
    var m := Top(s);
    assert Stands(s.nodes[m], m in s.calls, multiset(s.revisits)[m], tick, m in s.history);
    var r := Round(chart, script, tick, s);
    if s.nodes[m].status == Running {
      RevisitPays(chart, script, roots, s, r, n);
    } else if s.nodes[m].runFlag {
      DetachMoves(s, m);
      TopIsOnce(s);
      RevisitPays(chart, script, roots, s, r, n);
    } else {
      CallPays(chart, script, tick, roots, s, n);
    }
  }

  lemma {:induction false} LoopPays(chart: Chart, script: Script, tick: nat, initial: seq<Expansion>, bound: nat,
                                    roots: seq<nat>, s: State, cap: nat, n: nat)
    requires Plain(script) && LoopsAreChecked(chart)
    requires Going(chart, script, tick, initial, bound, s) && s.steps <= cap && Paid(chart, script, roots, s, n)
    ensures var r := Loop(chart, script, tick, s, cap);
            InChart(r.calls, |chart|) && (!r.capped ==> Paid(chart, script, roots, r, n))
    decreases cap - s.steps
  {
    hide Round, Drain, Lists, WellFormed, Paid;
    if s.stack != [] {
      if s.steps == cap {
        DrainOnlyDrains(chart, s);
      } else {
        RoundKeepsGoing(chart, script, tick, initial, bound, s);
        RoundPays(chart, script, tick, initial, bound, roots, s, n);
        var r, t := Round(chart, script, tick, s), Round(chart, script, tick, s).(steps := s.steps + 1);
        SamePay(chart, script, roots, r, t, n);
        LoopPays(chart, script, tick, initial, bound, roots, t, cap, n);
      }
    }
  }

  lemma SamePay(chart: Chart, script: Script, roots: seq<nat>, s: State, r: State, n: nat)
    requires InChart(s.calls, |chart|) && Paid(chart, script, roots, s, n)
    requires r.calls == s.calls && r.revisits == s.revisits && r.stack == s.stack
    ensures Paid(chart, script, roots, r, n)
  {
  }

  lemma StartPays(chart: Chart, script: Script, tick: nat, s: State, start: nat, n: nat)
    requires Plain(script) && Fits(chart, s) && Clean(s, start)
    ensures var t := Round(chart, script, tick, Started(chart, s, start)).(steps := 1);
            InChart(t.calls, |chart|) && Paid(chart, script, Roots(chart, s, start), t, n)
  {
    hide Lists, PushAll, Round, Started, WellFormed;
    FirstRound(chart, script, tick, s, start);
    var answer := FirstAnswer(script, s, start);
    var w, ids := Begun(s, start, answer), chart[start].Subsequence(answer);
    IdsFit(chart, start, answer);
    PushAllCovers(chart, w, ids);
    if n in PushAll(chart, w, ids).stack {
      PushedFromEither(chart, w, ids, n);
    }
    if !s.nodes[start].skip {
      IntoGrows(chart, script, [], start, n);
      assert [] + [start] == [start];
    }
  }

  /** A run reaches a node no more often than edges lead into it, each counted once. */
  lemma VisitsArePaid(chart: Chart, script: Script, tick: nat, cap: nat, s: State, start: nat, n: nat)
    requires Plain(script) && LoopsAreChecked(chart) && Fits(chart, s) && Clean(s, start)
    requires tick < |s.waiting| && 1 <= cap
    ensures var r := RunFlow(chart, script, tick, cap, s, start);
            && InChart(r.calls, |chart|)
            && (!r.capped ==> multiset(r.revisits)[n] + multiset(r.calls)[n] <=
                              multiset(Roots(chart, s, start))[n] + Into(chart, script, r.calls, n))
  {
    hide Loop, Round, Started, Lists, WellFormed, Roots;
    var t := Round(chart, script, tick, Started(chart, s, start)).(steps := 1);
    var initial, bound := Initial(s, start), Bound(chart, s, start);
    FirstLoop(chart, script, tick, cap, s, start);
    StartGoes(chart, script, tick, s, start);
    StartPays(chart, script, tick, s, start, n);
    LoopPays(chart, script, tick, initial, bound, Roots(chart, s, start), t, cap, n);
    RecordIsKept(chart, Loop(chart, script, tick, t, cap));
  }

  // ----- What a chart says about its runs

  function Sum(weight: nat -> nat, from: set<nat>, size: nat): nat {
    if size == 0 then 0 else Sum(weight, from, size - 1) + if size - 1 in from then weight(size - 1) else 0
  }

  lemma {:induction false} SumOfOneMore(weight: nat -> nat, from: set<nat>, m: nat, size: nat)
    requires m !in from
    ensures Sum(weight, from + {m}, size) == Sum(weight, from, size) + if m < size then weight(m) else 0
  {
    if size > 0 {
      SumOfOneMore(weight, from, m, size - 1);
    }
  }

  lemma {:induction false} SumOfMore(weight: nat -> nat, from: set<nat>, more: set<nat>, size: nat)
    requires from <= more
    ensures Sum(weight, from, size) <= Sum(weight, more, size)
  {
    if size > 0 {
      SumOfMore(weight, from, more, size - 1);
    }
  }

  lemma {:induction false} IntoIsSummed(chart: Chart, script: Script, calls: seq<nat>, n: nat, weight: nat -> nat)
    requires Distinct(calls) && InChart(calls, |chart|)
    requires forall earlier, m: nat {:trigger script(earlier, m)} | m < |chart| ::
               multiset(chart[m].Subsequence(script(earlier, m).answer))[n] <= weight(m)
    ensures Into(chart, script, calls, n) <= Sum(weight, Members(calls), |chart|)
    decreases |calls|
  {
    if calls != [] {
      var before, m := calls[..|calls| - 1], calls[|calls| - 1];
      IntoIsSummed(chart, script, before, n, weight);
      assert calls == before + [m];
      assert m !in Members(before);
      SumOfOneMore(weight, Members(before), m, |chart|);
      assert Members(calls) == Members(before) + {m};
    }
  }

  /** The number of edges from each node into a given one that a fixed answer selects. */
  function Selected(chart: Chart, answers: nat -> bool, n: nat): nat -> nat {
    (m: nat) => if m < |chart| then multiset(chart[m].Subsequence(answers(m)))[n] else 0
  }

  /** The greatest number of edges from each node into a given one that any answer selects. */
  function Selectable(chart: Chart, n: nat): nat -> nat {
    (m: nat) => if m < |chart| then Max(multiset(chart[m].onTrue)[n], multiset(chart[m].onFalse)[n]) else 0
  }

  function Max(a: nat, b: nat): nat {
    if a < b then b else a
  }

  /** No node runs without waiting for the tick at which it is to be resumed. */
  predicate NoneLost(r: State, tick: nat) {
    forall n | 0 <= n < |r.nodes| :: r.nodes[n].status == Running ==> r.nodes[n].place == Waiting(tick)
  }

  lemma FewVisitsLoseNone(r: State, tick: nat)
    requires Settled(r, tick)
    requires forall n: nat {:trigger multiset(r.revisits)[n]} | n < |r.nodes| ::
               multiset(r.revisits)[n] + multiset(r.calls)[n] <= 2
    ensures NoneLost(r, tick)
  {
    forall n | 0 <= n < |r.nodes|
      ensures r.nodes[n].status == Running ==> r.nodes[n].place == Waiting(tick)
    {
      var again := multiset(r.revisits)[n];
      assert again > 0 ==> n in multiset(r.calls);
    }
  }

  lemma RunFits(chart: Chart, script: Script, tick: nat, cap: nat, s: State, start: nat)
    requires Fits(chart, s) && Clean(s, start)
    ensures start < |chart| == |s.nodes|
    ensures |RunFlow(chart, script, tick, cap, s, start).nodes| == |chart|
    ensures 1 <= Bound(chart, s, start)
  {
    hide RunFlow, Lists, WellFormed;
  }

  /** A run reaches a node at most as often as its roots and the selected edges from the nodes
      that are called lead into it. */
  lemma VisitsAreBounded(chart: Chart, script: Script, tick: nat, cap: nat, s: State, start: nat,
                         n: nat, weight: nat -> nat, from: set<nat>)
    requires Plain(script) && LoopsAreChecked(chart) && Fits(chart, s) && Clean(s, start)
    requires tick < |s.waiting| && 1 <= cap
    requires forall earlier, m: nat {:trigger script(earlier, m)} | m < |chart| ::
               multiset(chart[m].Subsequence(script(earlier, m).answer))[n] <= weight(m)
    requires Members(RunFlow(chart, script, tick, cap, s, start).calls) <= from
    requires !RunFlow(chart, script, tick, cap, s, start).capped
    ensures var r := RunFlow(chart, script, tick, cap, s, start);
            multiset(r.revisits)[n] + multiset(r.calls)[n] <=
            multiset(Roots(chart, s, start))[n] + Sum(weight, from, |chart|)
  {
    hide *;
    RunFits(chart, script, tick, cap, s, start);
    VisitsArePaid(chart, script, tick, cap, s, start, n);
    PlainRunsAreExact(chart, script, tick, cap, s, start);
    var r := RunFlow(chart, script, tick, cap, s, start);
    IntoIsSummed(chart, script, r.calls, n, weight);
    SumOfMore(weight, Members(r.calls), from, |chart|);
  }

  lemma SelectableIsGreatest(chart: Chart, script: Script, n: nat)
    ensures forall earlier, m: nat {:trigger script(earlier, m)} | m < |chart| ::
              multiset(chart[m].Subsequence(script(earlier, m).answer))[n] <= Selectable(chart, n)(m)
  {
  }

  lemma SelectedIsSelected(chart: Chart, script: Script, answers: nat -> bool, n: nat)
    requires Answers(script, answers)
    ensures forall earlier, m: nat {:trigger script(earlier, m)} | m < |chart| ::
              multiset(chart[m].Subsequence(script(earlier, m).answer))[n] <= Selected(chart, answers, n)(m)
  {
  }

  function AllNodes(size: nat): (S: set<nat>)
    ensures forall n: nat :: n in S <==> n < size
  {
    if size == 0 then {} else AllNodes(size - 1) + {size - 1}
  }

  /** Whatever plain functions answer, no node is lost in a chart in which at most two edges
      of one kind lead into every node, where the start of the run counts as one. */
  lemma FewEdgesLoseNone(chart: Chart, script: Script, tick: nat, cap: nat, s: State, start: nat)
    requires Plain(script) && LoopsAreChecked(chart) && Fits(chart, s) && Clean(s, start)
    requires tick < |s.waiting| && Bound(chart, s, start) <= cap
    requires forall n: nat | n < |chart| ::
               multiset(Roots(chart, s, start))[n] + Sum(Selectable(chart, n), AllNodes(|chart|), |chart|) <= 2
    ensures NoneLost(RunFlow(chart, script, tick, cap, s, start), tick)
  {
    hide *;
    RunFits(chart, script, tick, cap, s, start);
    PlainRunsAreExact(chart, script, tick, cap, s, start);
    var r := RunFlow(chart, script, tick, cap, s, start);
    CalledAreNodes(chart, r.calls);
    forall n: nat | n < |r.nodes|
      ensures multiset(r.revisits)[n] + multiset(r.calls)[n] <= 2
    {
      SelectableIsGreatest(chart, script, n);
      VisitsAreBounded(chart, script, tick, cap, s, start, n, Selectable(chart, n), AllNodes(|chart|));
    }
    FewVisitsLoseNone(r, tick);
  }

  lemma CalledAreNodes(chart: Chart, calls: seq<nat>)
    requires InChart(calls, |chart|)
    ensures Members(calls) <= AllNodes(|chart|)
  {
  }

  /** With answers fixed per node only the selected edges from reachable nodes count. */
  lemma FewSelectedEdgesLoseNone(chart: Chart, script: Script, answers: nat -> bool, tick: nat, cap: nat, s: State, start: nat)
    requires Plain(script) && Answers(script, answers) && LoopsAreChecked(chart) && Fits(chart, s) && Clean(s, start)
    requires tick < |s.waiting| && Bound(chart, s, start) <= cap
    requires var roots := Roots(chart, s, start);
             forall n: nat | n < |chart| ::
               multiset(roots)[n] + Sum(Selected(chart, answers, n), ReachableSet(chart, answers, roots), |chart|) <= 2
    ensures NoneLost(RunFlow(chart, script, tick, cap, s, start), tick)
  {
    hide *;
    RunFits(chart, script, tick, cap, s, start);
    PlainRunsAreExact(chart, script, tick, cap, s, start);
    CallsWhatIsReachable(chart, script, answers, tick, cap, s, start);
    var r, S := RunFlow(chart, script, tick, cap, s, start), ReachableSet(chart, answers, Roots(chart, s, start));
    CalledAreReached(r.calls, S);
    forall n: nat | n < |r.nodes|
      ensures multiset(r.revisits)[n] + multiset(r.calls)[n] <= 2
    {
      SelectedIsSelected(chart, script, answers, n);
      VisitsAreBounded(chart, script, tick, cap, s, start, n, Selected(chart, answers, n), S);
    }
    FewVisitsLoseNone(r, tick);
  }

  lemma CalledAreReached(calls: seq<nat>, S: set<nat>)
    requires forall n | n in calls :: n in S
    ensures Members(calls) <= S
  {
  }
}
