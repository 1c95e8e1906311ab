/** Handling an event: the list of waiting nodes is taken away as a batch, and every node of
    the batch is woken in turn, unless something else removes it first. */
module FlowDispatch {
  import opened Flowchart
  import opened FlowExecutor

  /** The functions of the runs of one event may differ from run to run. */
  type Scripts = seq<nat> -> Script

  /** Swaps a waiting list with the empty batch. */
  function TakeBatch(s: State, event: nat): State
    requires event < |s.waiting|
  {
    var list := s.waiting[event];
    s.(batch := list, waiting := s.waiting[event := []],
    nodes := seq(|s.nodes|, n requires 0 <= n < |s.nodes| =>
               if s.nodes[n].place == Waiting(event) then s.nodes[n].(place := InBatch) else s.nodes[n]))
  }

  /** Pops the first node of the batch, to be run. */
  function WakeFirst(s: State): State
    requires s.batch != [] && s.batch[0] < |s.nodes|
  {
    var n := s.batch[0];
    s.(batch := s.batch[1..], nodes := s.nodes[n := s.nodes[n].(place := Nowhere, status := Idle)])
  }

  lemma TakingKeepsLinks(s: State, event: nat)
    requires Linked(s) && s.batch == [] && event < |s.waiting|
    ensures Linked(TakeBatch(s, event))
  {
    var t := TakeBatch(s, event);
    assert ListOf(t.batch, t.nodes, InBatch) by {
      assert ListOf(s.waiting[event], s.nodes, Waiting(event));
      assert ListOf([], s.nodes, InBatch);
    }
    assert ListOf(t.stack, t.nodes, OnStack) by {
      assert ListOf(s.stack, s.nodes, OnStack);
    }
    forall e | 0 <= e < |t.waiting|
      ensures ListOf(t.waiting[e], t.nodes, Waiting(e))
    {
      assert ListOf(s.waiting[e], s.nodes, Waiting(e));
    }
  }

  lemma TakenIsAtRest(s: State, event: nat)
    requires AtRest(s) && event < |s.waiting|
    ensures AtRest(TakeBatch(s, event))
  {
  }

  lemma WakingKeepsLinks(s: State)
    requires Linked(s) && s.batch != []
    ensures s.batch[0] < |s.nodes| && Linked(WakeFirst(s))
  {
    hide Without, ListOf;
    FirstIsLinked(s.batch, s.nodes);
    var n := s.batch[0];
    var node := s.nodes[n].(place := Nowhere, status := Idle);
    FirstLeaves(s.batch, s.nodes, node);
    ListKeeps(s.stack, s.nodes, OnStack, n, node);
    forall e | 0 <= e < |s.waiting|
      ensures ListOf(s.waiting[e], s.nodes[n := node], Waiting(e))
    {
      ListKeeps(s.waiting[e], s.nodes, Waiting(e), n, node);
    }
  }

  lemma FirstIsLinked(q: seq<nat>, nodes: seq<Node>)
    requires q != [] && ListOf(q, nodes, InBatch)
    ensures q[0] < |nodes| && nodes[q[0]].place == InBatch
  {
    assert q[0] in q;
  }

  lemma FirstLeaves(q: seq<nat>, nodes: seq<Node>, node: Node)
    requires q != [] && ListOf(q, nodes, InBatch) && node.place != InBatch
    ensures q[0] < |nodes| && ListOf(q[1..], nodes[q[0] := node], InBatch)
  {
    assert q == [q[0]] + q[1..];
    assert q[0] in q && q[0] !in q[1..];
    assert forall m :: m in q <==> m in q[1..] || m == q[0];
  }

  /** Runs the first node of the batch. */
  ghost function WakeOne(chart: Chart, script: Script, tick: nat, cap: nat, s: State): State
    requires Fits(chart, s) && s.batch != []
  {
    WakingKeepsLinks(s);
    RunFlow(chart, script, tick, cap, WakeFirst(s), s.batch[0])
  }

  lemma WakingEndsAtRest(chart: Chart, script: Script, tick: nat, cap: nat, s: State)
    requires Fits(chart, s) && AtRest(s) && s.batch != []
    ensures var r := WakeOne(chart, script, tick, cap, s);
            Fits(chart, r) && AtRest(r) && Shrinks(s.batch[1..], r.batch) && |r.batch| < |s.batch|
  {
    hide RunFlow, Lists, WellFormed, Shrinks, InChart;
    WakingKeepsLinks(s);
    var t := WakeFirst(s);
    assert AtRest(t);
    hide AtRest;
    RunsEndAtRest(chart, script, tick, cap, t, s.batch[0]);
    RunsShrinkBatch(chart, script, tick, cap, t, s.batch[0]);
  }

  ghost function WakeAll(chart: Chart, scripts: Scripts, tick: nat, cap: nat, s: State, woken: seq<nat>): (r: (State, seq<nat>))
    requires Fits(chart, s) && AtRest(s)
    ensures Fits(chart, r.0) && AtRest(r.0) && r.0.batch == []
    decreases |s.batch|
  {
    if s.batch == [] then (s, woken)
    else
      WakingEndsAtRest(chart, scripts(woken), tick, cap, s);
      WakeAll(chart, scripts, tick, cap, WakeOne(chart, scripts(woken), tick, cap, s), woken + [s.batch[0]])
  }

  /** `Manager::HandleEvent`: the state afterwards, and the nodes woken. */
  ghost function HandleEvent(chart: Chart, scripts: Scripts, tick: nat, cap: nat, s: State, event: nat): (r: (State, seq<nat>))
    requires Fits(chart, s) && AtRest(s) && s.batch == []
    ensures Fits(chart, r.0) && AtRest(r.0) && r.0.batch == []
  {
    if event >= |s.waiting| || s.waiting[event] == [] then (s, [])
    else
      TakingKeepsLinks(s, event);
      WakeAll(chart, scripts, tick, cap, TakeBatch(s, event), [])
  }

  // ----- The batch only shrinks

  /** q is p without some of its nodes; the order is kept. */
  ghost predicate Shrinks(p: seq<nat>, q: seq<nat>) {
    exists gone :: q == Without(p, gone)
  }

  lemma ShrinksNot(p: seq<nat>)
    ensures Shrinks(p, p)
  {
    WithoutNone(p, {});
    assert p == Without(p, {});
  }

  lemma ShrinksTwice(p: seq<nat>, q: seq<nat>, r: seq<nat>)
    requires Shrinks(p, q) && Shrinks(q, r)
    ensures Shrinks(p, r)
  {
    var a :| q == Without(p, a);
    var b :| r == Without(q, b);
    WithoutTwice(p, a, b);
  }

  lemma ShrinksBy(p: seq<nat>, gone: set<nat>)
    ensures Shrinks(p, Without(p, gone))
  {
  }

  lemma ServeShrinks(chart: Chart, s: State, n: nat, request: Request)
    requires n < |chart| && Fits(chart, s)
    ensures Shrinks(s.batch, Serve(chart, s, n, request).batch)
  {
    hide Without, Lists, WellFormed, Detach, Shrinks;
    ShrinksNot(s.batch);
    ShrinksBy(s.batch, {n});
    match request
    case WaitFor(event) =>
      var t := Update(s, n, s.nodes[n].(status := Running, skip := true, result := rTRUE));
      DetachMoves(t, n);
    case Wait =>
    case StopNodes(ids) => ShrinksBy(s.batch, ValidIds(ids, |chart|));
    case StopFlow(ids) => ShrinksBy(s.batch, Flow(chart, ids));
    case Return => ShrinksBy(s.batch, Everything(|chart|));
  }

  lemma {:induction false} ServeAllShrinks(chart: Chart, s: State, n: nat, requests: seq<Request>)
    requires n < |chart| && Fits(chart, s)
    ensures Shrinks(s.batch, ServeAll(chart, s, n, requests).batch)
    decreases |requests|
  {
    hide Serve, Lists, WellFormed, Shrinks;
    ShrinksNot(s.batch);
    if requests != [] {
      ServeShrinks(chart, s, n, requests[0]);
      var t := Serve(chart, s, n, requests[0]);
      ServeAllShrinks(chart, t, n, requests[1..]);
      ShrinksTwice(s.batch, t.batch, ServeAll(chart, s, n, requests).batch);
    }
  }

  lemma RunNodeShrinks(chart: Chart, script: Script, s: State, n: nat)
    requires n < |chart| && Fits(chart, s)
    ensures Shrinks(s.batch, RunNode(chart, script, s, n).batch)
  {
    hide ServeAll, Lists, WellFormed, Shrinks;
    ShrinksNot(s.batch);
    var node := s.nodes[n];
    if !node.skip {
      UpdateKeepsLinks(s, n, node.(runFlag := true, result := rFALSE));
      var t := Update(s, n, node.(runFlag := true, result := rFALSE)).(calls := s.calls + [n]);
      ServeAllShrinks(chart, t, n, script(s.calls, n).requests);
    }
  }

  lemma {:induction false} PushAllShrinks(chart: Chart, s: State, ids: seq<nat>)
    requires InChart(ids, |chart|) && Fits(chart, s)
    ensures Shrinks(s.batch, PushAll(chart, s, ids).batch)
    decreases |ids|
  {
    hide Lists, WellFormed, Detach, Shrinks;
    ShrinksNot(s.batch);
    if ids != [] {
      var last := ids[|ids| - 1];
      PushKeepsLinks(s, last);
      DetachMoves(s, last);
      ShrinksBy(s.batch, {last});
      var t := Push(s, last);
      PushAllShrinks(chart, t, ids[..|ids| - 1]);
      ShrinksTwice(s.batch, t.batch, PushAll(chart, s, ids).batch);
    }
  }

  lemma StackIsNotEmpty(s: State, n: nat)
    requires n < |s.nodes| && Linked(s) && s.nodes[n].place == OnStack
    ensures s.stack != []
  {
    assert n in s.stack;
  }

  lemma LeaveShrinks(chart: Chart, s: State, n: nat)
    requires n < |chart| && Fits(chart, s)
    ensures Shrinks(s.batch, Leave(chart, s, n).batch)
  {
    hide Lists, PushAll, Shrinks;
    ShrinksNot(s.batch);
    if s.nodes[n].place == OnStack {
      StackIsNotEmpty(s, n);
      PopKeepsLinks(s);
    }
    var t := if s.nodes[n].place == OnStack then Pop(s) else s;
    var node := t.nodes[n].(status := EndRun);
    if t.nodes[n].status != Running && node.result != rSTOP {
      UpdateKeepsLinks(t, n, node);
      var taken := node.result == rTRUE;
      var u := Update(t, n, node);
      PushAllShrinks(chart, u.(expansions := u.expansions + [Expansion(n, taken)]), chart[n].Subsequence(taken));
    }
  }

  lemma RoundShrinks(chart: Chart, script: Script, tick: nat, s: State)
    requires s.stack != [] && Fits(chart, s)
    ensures Shrinks(s.batch, Round(chart, script, tick, s).batch)
  {
    hide Lists, WellFormed, Detach, RunNode, Leave, Shrinks;
    PopKeepsLinks(s);
    var n := Top(s);
    ShrinksNot(s.batch);
    DetachMoves(s, n);
    if s.nodes[n].status != Running && !(s.nodes[n].runFlag && !chart[n].noLoopCheck) {
      RunNodeShrinks(chart, script, s, n);
      var t := RunNode(chart, script, s, n);
      LeaveShrinks(chart, t, n);
      ShrinksTwice(s.batch, t.batch, Leave(chart, t, n).batch);
    }
  }

  lemma {:induction false} DrainKeepsBatch(chart: Chart, s: State)
    requires Fits(chart, s)
    ensures Drain(chart, s).batch == s.batch
    decreases |s.stack|
  {
    hide Lists, WellFormed;
    if s.stack != [] {
      PopKeepsLinks(s);
      var n := Top(s);
      var t := Pop(s);
      UpdateKeepsLinks(t, n, t.nodes[n].(status := EndRun));
      DrainKeepsBatch(chart, Update(t, n, t.nodes[n].(status := EndRun)));
    }
  }

  lemma {:induction false} LoopShrinks(chart: Chart, script: Script, tick: nat, s: State, cap: nat)
    requires Fits(chart, s) && s.steps <= cap
    ensures Shrinks(s.batch, Loop(chart, script, tick, s, cap).batch)
    decreases cap - s.steps
  {
    hide Round, Drain, Lists, WellFormed, Shrinks;
    ShrinksNot(s.batch);
    if s.stack != [] && s.running {
      if s.steps == cap {
        DrainKeepsBatch(chart, s);
      } else {
        RoundShrinks(chart, script, tick, s);
        var t := Round(chart, script, tick, s).(steps := s.steps + 1);
        LoopShrinks(chart, script, tick, t, cap);
        ShrinksTwice(s.batch, t.batch, Loop(chart, script, tick, s, cap).batch);
      }
    }
  }

  lemma SettleShrinks(chart: Chart, s: State)
    requires Fits(chart, s)
    ensures Shrinks(s.batch, Conclude(chart, Settle(chart, s)).batch)
  {
    hide Lists, WellFormed, Shrinks, Without, AnyRunning;
    var t := Settle(chart, s);
    ShrinksBy(s.batch, Ended(s, Members(s.history)));
    ShrinksBy(t.batch, Everything(|chart|));
    ShrinksNot(t.batch);
    ShrinksTwice(s.batch, t.batch, Conclude(chart, t).batch);
  }

  lemma RunsShrinkBatch(chart: Chart, script: Script, tick: nat, cap: nat, s: State, start: nat)
    requires start < |chart| && Fits(chart, s)
    ensures Shrinks(s.batch, RunFlow(chart, script, tick, cap, s, start).batch)
    ensures |RunFlow(chart, script, tick, cap, s, start).batch| <= |s.batch|
  {
    hide Loop, Lists, WellFormed, Shrinks, Settle, Conclude, Detach;
    ShrinksNot(s.batch);
    var r := RunFlow(chart, script, tick, cap, s, start);
    if s.running {
      UpdateKeepsLinks(s, start, s.nodes[start].(status := Idle));
      var b := Update(s, start, s.nodes[start].(status := Idle)).(busy := false, steps := 0, capped := false,
                calls := [], expansions := [], revisits := []);
      DetachMoves(b, start);
      ShrinksBy(s.batch, {start});
      var t := Started(chart, s, start);
      LoopShrinks(chart, script, tick, t, cap);
      var u := Loop(chart, script, tick, t, cap);
      SettleShrinks(chart, u);
      ShrinksTwice(s.batch, t.batch, u.batch);
      ShrinksTwice(s.batch, u.batch, r.batch);
    }
    ShrunkIsShorter(s.batch, r.batch);
  }

  lemma ShrunkIsShorter(p: seq<nat>, q: seq<nat>)
    requires Shrinks(p, q)
    ensures |q| <= |p|
  {
  }

  // ----- Main result

  lemma {:induction false} WithoutMissing(q: seq<nat>, gone: set<nat>, n: nat)
    requires n !in q
    ensures Without(q, gone - {n}) == Without(q, gone)
  {
    if q != [] {
      WithoutMissing(q[1..], gone, n);
    }
  }

  lemma ShrinksBehind(n: nat, p: seq<nat>, q: seq<nat>)
    requires n !in p && Shrinks(p, q)
    ensures Shrinks([n] + p, [n] + q)
  {
    var gone :| q == Without(p, gone);
    WithoutMissing(p, gone, n);
    assert ([n] + p)[1..] == p;
    assert [n] + q == Without([n] + p, gone - {n});
  }

  /** The woken nodes are the batch without those removed before their turn. */
  lemma {:induction false} WakesABatch(chart: Chart, scripts: Scripts, tick: nat, cap: nat, s: State, woken: seq<nat>)
    requires Fits(chart, s) && AtRest(s)
    ensures var r := WakeAll(chart, scripts, tick, cap, s, woken);
            && woken <= r.1
            && Shrinks(s.batch, r.1[|woken|..])
            && (s.batch != [] ==> |r.1| > |woken| && r.1[|woken|] == s.batch[0])
    decreases |s.batch|
  {
    hide Lists, WellFormed, WakeOne, AtRest, Shrinks;
    if s.batch == [] {
      ShrinksNot(s.batch);
    } else {
      WakingEndsAtRest(chart, scripts(woken), tick, cap, s);
      var n, t := s.batch[0], WakeOne(chart, scripts(woken), tick, cap, s);
      WakesABatch(chart, scripts, tick, cap, t, woken + [n]);
      var r := WakeAll(chart, scripts, tick, cap, s, woken);
      var later := r.1[|woken| + 1..];
      ShrinksTwice(s.batch[1..], t.batch, later);
      FirstIsNotBehind(s);
      ShrinksBehind(n, s.batch[1..], later);
      assert s.batch == [n] + s.batch[1..];
      assert r.1[|woken|..] == [n] + later by { assert r.1[|woken|] == (woken + [n])[|woken|]; }
    }
  }

  lemma FirstIsNotBehind(s: State)
    requires Linked(s) && s.batch != []
    ensures s.batch[0] !in s.batch[1..]
  {
  }

  /** An event wakes the nodes that waited for it when it came: each at most once, in the
      order in which they began to wait, the first one always, and the others unless they
      were removed before their turn. Nodes that begin to wait meanwhile, or wait again, are
      not woken by it. */
  lemma EventsWakeOnce(chart: Chart, scripts: Scripts, tick: nat, cap: nat, s: State, event: nat)
    requires Fits(chart, s) && AtRest(s) && s.batch == [] && event < |s.waiting|
    ensures var list := s.waiting[event];
            var r := HandleEvent(chart, scripts, tick, cap, s, event);
            && Distinct(r.1)
            && Shrinks(list, r.1)
            && |r.1| <= |list|
            && (list != [] ==> r.1 != [] && r.1[0] == list[0])
            && Fits(chart, r.0) && AtRest(r.0) && r.0.batch == []
  {
    var list := s.waiting[event];
    TakenIsAtRest(s, event);
    hide WellFormed, WakeAll, AtRest, Shrinks;
    assert ListOf(list, s.nodes, Waiting(event));
    if list == [] {
      ShrinksNot(list);
    } else {
      TakingKeepsLinks(s, event);
      var t := TakeBatch(s, event);
      WakesABatch(chart, scripts, tick, cap, t, []);
      var r := WakeAll(chart, scripts, tick, cap, t, []);
      assert r.1[0..] == r.1;
      ShrunkIsDistinct(list, r.1);
    }
  }

  /** One turn: the first node of the batch is taken out of it, and run. */
  ghost predicate Turn(chart: Chart, script: Script, tick: nat, cap: nat, s: State, n: nat, r: State) {
    && Fits(chart, s) && s.batch != [] && s.batch[0] == n && n < |chart|
    && var t := s.(batch := s.batch[1..], nodes := s.nodes[n := s.nodes[n].(place := Nowhere, status := Idle)]);
       Fits(chart, t) && r == RunFlow(chart, script, tick, cap, t, n)
  }

  /** The nodes are run one after the other, from each state to the next. */
  ghost predicate Turns(chart: Chart, scripts: Scripts, tick: nat, cap: nat, before: seq<nat>, states: seq<State>, woken: seq<nat>) {
    && |states| == |woken| + 1
    && forall i | 0 <= i < |woken| ::
         Turn(chart, scripts(before + woken[..i]), tick, cap, states[i], woken[i], states[i + 1])
  }

  lemma WakingIsATurn(chart: Chart, script: Script, tick: nat, cap: nat, s: State)
    requires Fits(chart, s) && s.batch != []
    ensures Turn(chart, script, tick, cap, s, s.batch[0], WakeOne(chart, script, tick, cap, s))
  {
    hide RunFlow, Lists, WellFormed;
    WakingKeepsLinks(s);
  }

  lemma {:induction false} WakesInTurn(chart: Chart, scripts: Scripts, tick: nat, cap: nat, s: State, before: seq<nat>)
    returns (states: seq<State>)
    requires Fits(chart, s) && AtRest(s)
    ensures var r := WakeAll(chart, scripts, tick, cap, s, before);
            && before <= r.1 && Turns(chart, scripts, tick, cap, before, states, r.1[|before|..])
            && states[0] == s && states[|states| - 1] == r.0
    decreases |s.batch|
  {
    hide Lists, WellFormed, WakeOne, AtRest, Shrinks, Turn;
    if s.batch == [] {
      states := [s];
    } else {
      WakingEndsAtRest(chart, scripts(before), tick, cap, s);
      WakingIsATurn(chart, scripts(before), tick, cap, s);
      var n, t := s.batch[0], WakeOne(chart, scripts(before), tick, cap, s);
      var rest := WakesInTurn(chart, scripts, tick, cap, t, before + [n]);
      states := [s] + rest;
      var r := WakeAll(chart, scripts, tick, cap, s, before);
      OneMoreTurn(chart, scripts, tick, cap, before, n, s, rest, r.1);
    }
  }

  lemma OneMoreTurn(chart: Chart, scripts: Scripts, tick: nat, cap: nat, before: seq<nat>, n: nat, s: State, rest: seq<State>, all: seq<nat>)
    requires before + [n] <= all && rest != [] && Turn(chart, scripts(before), tick, cap, s, n, rest[0])
    requires Turns(chart, scripts, tick, cap, before + [n], rest, all[|before| + 1..])
    ensures before <= all && Turns(chart, scripts, tick, cap, before, [s] + rest, all[|before|..])
  {
    hide Turn;
    var woken, later, states := all[|before|..], all[|before| + 1..], [s] + rest;
    assert woken == [n] + later;
    forall i | 0 <= i < |woken|
      ensures Turn(chart, scripts(before + woken[..i]), tick, cap, states[i], woken[i], states[i + 1])
    {
      if i == 0 {
        assert before + woken[..0] == before;
      } else {
        assert before + [n] + later[..i - 1] == before + woken[..i];
      }
    }
  }

  /** Handling an event runs every node it wakes, one after the other, each from the state that
      the run before has left; it ends when no node of the batch is left. */
  lemma EventsRunWhatTheyWake(chart: Chart, scripts: Scripts, tick: nat, cap: nat, s: State, event: nat) returns (states: seq<State>)
    requires Fits(chart, s) && AtRest(s) && s.batch == [] && event < |s.waiting| && s.waiting[event] != []
    ensures var r := HandleEvent(chart, scripts, tick, cap, s, event);
            && Turns(chart, scripts, tick, cap, [], states, r.1)
            && states[0].batch == s.waiting[event] && states[0].waiting == s.waiting[event := []]
            && states[|states| - 1] == r.0 && r.0.batch == []
  {
    TakenIsAtRest(s, event);
    hide WellFormed, WakeAll, AtRest, Turn;
    TakingKeepsLinks(s, event);
    states := WakesInTurn(chart, scripts, tick, cap, TakeBatch(s, event), []);
    var r := WakeAll(chart, scripts, tick, cap, TakeBatch(s, event), []);
    assert r.1[0..] == r.1;
  }

  lemma ShrunkIsDistinct(p: seq<nat>, q: seq<nat>)
    requires Distinct(p) && Shrinks(p, q)
    ensures Distinct(q) && |q| <= |p|
  {
    var gone :| q == Without(p, gone);
    WithoutKeepsDistinct(p, gone);
  }
}
