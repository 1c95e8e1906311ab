/** The breadth-first search of `Manager::StopFlow`. */
module FlowSearch {
  import opened Flowchart
  import opened FlowExecutor

  /** Whether every child of an id in S is in S or waits in the queue. */
  predicate Explored(chart: Chart, S: set<nat>, queue: seq<nat>) {
    forall n | n in S :: n < |chart| && ExploredNode(chart, n, S, queue)
  }

  predicate ExploredNode(chart: Chart, n: nat, S: set<nat>, queue: seq<nat>)
    requires n < |chart|
  {
    forall c | c in Children(chart[n]) :: c in S || c in queue
  }

  lemma FlowGoesOn(chart: Chart, ids: seq<nat>, n: nat, c: nat)
    requires n in Flow(chart, ids) && c in Children(chart[n]) && c < |chart|
    ensures c in Flow(chart, ids)
  {
    var walk :| Leads(chart, ids, walk, n);
    assert Leads(chart, ids, walk + [c], c);
  }

  lemma FlowIsInChart(chart: Chart, ids: seq<nat>, n: nat)
    requires n in Flow(chart, ids)
    ensures n < |chart|
  {
  }

  lemma FlowBegins(chart: Chart, ids: seq<nat>, id: nat)
    requires id in ids && id < |chart|
    ensures id in Flow(chart, ids)
  {
    assert Leads(chart, ids, [id], id);
  }

  /** A fully explored set that has the valid ids has all that is behind them. */
  lemma {:induction false} WalkStaysIn(chart: Chart, ids: seq<nat>, walk: seq<nat>, n: nat, S: set<nat>)
    requires Explored(chart, S, []) && ValidIds(ids, |chart|) <= S && Leads(chart, ids, walk, n)
    ensures n in S
    decreases |walk|
  {
    if |walk| > 1 {
      var before := walk[..|walk| - 1];
      assert Leads(chart, ids, before, before[|before| - 1]);
      WalkStaysIn(chart, ids, before, before[|before| - 1], S);
    }
  }

  lemma FlowIsLeast(chart: Chart, ids: seq<nat>, S: set<nat>)
    requires Explored(chart, S, []) && ValidIds(ids, |chart|) <= S
    ensures Flow(chart, ids) <= S
  {
    forall n | n in Flow(chart, ids)
      ensures n in S
    {
      var walk :| Leads(chart, ids, walk, n);
      WalkStaysIn(chart, ids, walk, n, S);
    }
  }

  /** Finds the flow behind the ids: the nodes reachable along edges of both kinds. */
  method CollectFlow(chart: Chart, ids: seq<nat>) returns (stopIds: set<nat>)
    requires WellFormed(chart)
    ensures stopIds == Flow(chart, ids)
  {
    stopIds := {};
    var idQueue: seq<nat> := [];
    for i := 0 to |ids|
      invariant idQueue == []
      invariant stopIds <= Flow(chart, ids)
      invariant Explored(chart, stopIds, [])
      invariant ValidIds(ids[..i], |chart|) <= stopIds
    {
      assert ids[..i + 1] == ids[..i] + [ids[i]];
      if ids[i] >= |chart| {
        continue;
      }
      FlowBegins(chart, ids, ids[i]);
      idQueue := idQueue + [ids[i]];
      stopIds, idQueue := Drain(chart, ids, stopIds, idQueue);
    }
    assert ids[..|ids|] == ids;
    FlowIsLeast(chart, ids, stopIds);
  }

  /** The inner loop: works off the queue. */
  method Drain(chart: Chart, ghost ids: seq<nat>, found: set<nat>, queue: seq<nat>) returns (stopIds: set<nat>, idQueue: seq<nat>)
    requires WellFormed(chart) && found <= Flow(chart, ids)
    requires forall id | id in queue :: id in Flow(chart, ids)
    requires Explored(chart, found, queue)
    ensures idQueue == [] && stopIds <= Flow(chart, ids)
    ensures found <= stopIds && (forall id | id in queue :: id in stopIds)
    ensures Explored(chart, stopIds, [])
  {
    stopIds, idQueue := found, queue;
    while idQueue != []
      invariant found <= stopIds <= Flow(chart, ids)
      invariant forall id | id in idQueue :: id in Flow(chart, ids)
      invariant forall id | id in queue :: id in stopIds || id in idQueue
      invariant Explored(chart, stopIds, idQueue)
      decreases Flow(chart, ids) - stopIds, |idQueue|
    {
      hide Flow, WellFormed;
      var head := idQueue[0];
      ghost var rest := idQueue;
      idQueue := idQueue[1..];
      assert forall id | id in rest :: id == head || id in idQueue;
      if head !in stopIds {
        assert head in rest;
        FlowIsInChart(chart, ids, head);
        ExploresOne(chart, stopIds, rest, head, idQueue + chart[head].onTrue + chart[head].onFalse);
        QueuesFlow(chart, ids, head);
        stopIds := stopIds + {head};
        idQueue := idQueue + chart[head].onTrue;
        idQueue := idQueue + chart[head].onFalse;
      }
    }
  }

  lemma ExploresOne(chart: Chart, S: set<nat>, queue: seq<nat>, head: nat, next: seq<nat>)
    requires Explored(chart, S, queue) && head < |chart|
    requires forall id | id in queue :: id == head || id in next
    requires forall c | c in Children(chart[head]) :: c in next
    ensures Explored(chart, S + {head}, next)
  {
  }

  lemma QueuesFlow(chart: Chart, ids: seq<nat>, head: nat)
    requires WellFormed(chart) && head < |chart| && head in Flow(chart, ids)
    ensures forall c | c in Children(chart[head]) :: c in Flow(chart, ids)
  {
    forall c | c in Children(chart[head])
      ensures c in Flow(chart, ids)
    {
      assert InChart(chart[head].Subsequence(true), |chart|) && InChart(chart[head].Subsequence(false), |chart|);
      FlowGoesOn(chart, ids, head, c);
    }
  }
}
