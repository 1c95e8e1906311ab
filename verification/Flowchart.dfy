/** Charts, their nodes, and the places a node can be linked in: the executor's stack or
    one of the agent's lists of nodes that wait for an event. */
module Flowchart {
  /** The shape of one node; children are ids in the chart. */
  datatype NodeData = NodeData(onTrue: seq<nat>, onFalse: seq<nat>, isEvent: bool, noLoopCheck: bool) {
    function Subsequence(taken: bool): seq<nat> {
      if taken then onTrue else onFalse
    }
  }

  type Chart = seq<NodeData>

  predicate WellFormed(chart: Chart) {
    forall n, taken | 0 <= n < |chart| :: InChart(chart[n].Subsequence(taken), |chart|)
  }

  predicate InChart(ids: seq<nat>, size: nat) {
    forall i | 0 <= i < |ids| :: ids[i] < size
  }

  datatype Status = Idle | Running | EndRun

  datatype NodeResult = rFALSE | rTRUE | rSTOP

  function ResultOf(answer: bool): NodeResult {
    if answer then rTRUE else rFALSE
  }

  /** Where a node is linked: the executor's stack, the list of nodes that wait for an event,
      or the batch of nodes that an event in dispatch has taken from such a list. */
  datatype Place = Nowhere | OnStack | Waiting(event: nat) | InBatch

  datatype Node = Node(status: Status, result: NodeResult, runFlag: bool, skip: bool, armed: bool, place: Place)

  /** A node after `Node::Stop`. */
  const STOPPED := Node(Idle, rSTOP, false, false, false, Nowhere)

  datatype Expansion = Expansion(node: nat, taken: bool)

  /** The chart, the executor and the waiting lists. The last fields record a run: its
      rounds, whether the cap was hit, the functions called, the nodes whose children were
      pushed, and the visits to nodes that run or have run. */
  datatype State = State(nodes: seq<Node>, stack: seq<nat>, history: seq<nat>, waiting: seq<seq<nat>>, batch: seq<nat>,
                         running: bool, busy: bool, steps: nat, capped: bool,
                         calls: seq<nat>, expansions: seq<Expansion>, revisits: seq<nat>)

  // ----- Lists

  predicate Distinct(q: seq<nat>) {
    forall i, j | 0 <= i < j < |q| :: q[i] != q[j]
  }

  function Without<T(==)>(q: seq<T>, gone: set<T>): (r: seq<T>)
    ensures forall n | n in r :: n in q && n !in gone
    ensures forall n | n in q && n !in gone :: n in r
    ensures |r| <= |q|
  {
    if q == [] then []
    else (if q[0] in gone then [] else [q[0]]) + Without(q[1..], gone)
  }

  lemma {:induction false} WithoutKeepsDistinct(q: seq<nat>, gone: set<nat>)
    requires Distinct(q)
    ensures Distinct(Without(q, gone))
  {
    if q != [] {
      WithoutKeepsDistinct(q[1..], gone);
      assert forall x :: x in q[1..] ==> x != q[0];
    }
  }

  lemma {:induction false} WithoutNone<T>(q: seq<T>, gone: set<T>)
    requires forall n | n in q :: n !in gone
    ensures Without(q, gone) == q
  {
    if q != [] {
      WithoutNone(q[1..], gone);
    }
  }

  lemma {:induction false} WithoutTwice<T>(q: seq<T>, a: set<T>, b: set<T>)
    ensures Without(Without(q, a), b) == Without(q, a + b)
  {
    if q != [] {
      WithoutTwice(q[1..], a, b);
      if q[0] !in a {
        assert Without(q, a) == [q[0]] + Without(q[1..], a);
      } else {
        assert Without(q, a) == Without(q[1..], a);
      }
    }
  }

  // ----- The container invariant

  predicate ListOf(q: seq<nat>, nodes: seq<Node>, place: Place) {
    && Distinct(q)
    && (forall n | n in q :: n < |nodes| && nodes[n].place == place)
    && (forall n | 0 <= n < |nodes| && nodes[n].place == place :: n in q)
  }

  predicate Lists(nodes: seq<Node>, stack: seq<nat>, batch: seq<nat>, waiting: seq<seq<nat>>) {
    && ListOf(stack, nodes, OnStack)
    && ListOf(batch, nodes, InBatch)
    && (forall e | 0 <= e < |waiting| :: ListOf(waiting[e], nodes, Waiting(e)))
  }

  /** Every node is linked in the list its container pointer names, once, and nowhere else. */
  predicate Linked(s: State) {
    && Lists(s.nodes, s.stack, s.batch, s.waiting)
    && (forall n | 0 <= n < |s.nodes| && s.nodes[n].place.Waiting? :: s.nodes[n].place.event < |s.waiting|)
  }

  lemma ListLoses(q: seq<nat>, nodes: seq<Node>, place: Place, n: nat, node: Node)
    requires n < |nodes| && ListOf(q, nodes, place) && node.place != place
    ensures ListOf(Without(q, {n}), nodes[n := node], place)
    ensures nodes[n].place != place ==> Without(q, {n}) == q
  {
    WithoutKeepsDistinct(q, {n});
    if nodes[n].place != place {
      WithoutNone(q, {n});
    }
  }

  lemma ListGains(q: seq<nat>, nodes: seq<Node>, place: Place, n: nat, node: Node)
    requires n < |nodes| && ListOf(q, nodes, place) && nodes[n].place != place && node.place == place
    ensures ListOf(q + [n], nodes[n := node], place)
  {
  }

  lemma ListKeeps(q: seq<nat>, nodes: seq<Node>, place: Place, n: nat, node: Node)
    requires n < |nodes| && ListOf(q, nodes, place) && nodes[n].place != place && node.place != place
    ensures ListOf(q, nodes[n := node], place)
  {
  }

  // ----- Containers

  /** `container->Remove(node)`, when the node has a container. */
  function Detach(s: State, n: nat): (r: State)
    requires n < |s.nodes|
    requires s.nodes[n].place.Waiting? ==> s.nodes[n].place.event < |s.waiting|
  {
    var node := s.nodes[n];
    var t := s.(nodes := s.nodes[n := node.(place := Nowhere)]);
    match node.place
    case Nowhere => t
    case OnStack => t.(stack := Without(s.stack, {n}))
    case Waiting(e) => t.(waiting := s.waiting[e := Without(s.waiting[e], {n})])
    case InBatch => t.(batch := Without(s.batch, {n}))
  }

  /** Detaching changes one place, and shortens the list the node was in. */
  lemma DetachMoves(s: State, n: nat)
    requires n < |s.nodes|
    requires s.nodes[n].place.Waiting? ==> s.nodes[n].place.event < |s.waiting|
    ensures var r := Detach(s, n);
            && r.nodes == s.nodes[n := s.nodes[n].(place := Nowhere)]
            && |r.waiting| == |s.waiting|
            && r == s.(nodes := r.nodes, stack := r.stack, waiting := r.waiting, batch := r.batch)
            && r.batch == (if s.nodes[n].place == InBatch then Without(s.batch, {n}) else s.batch)
            && r.stack == if s.nodes[n].place == OnStack then Without(s.stack, {n}) else s.stack
  {
    hide Without;
  }

  lemma DetachKeepsLinks(s: State, n: nat)
    requires n < |s.nodes| && Linked(s)
    ensures Linked(Detach(s, n))
  {
    hide ListOf, Without;
    var node := s.nodes[n].(place := Nowhere);
    ListLoses(s.stack, s.nodes, OnStack, n, node);
    ListLoses(s.batch, s.nodes, InBatch, n, node);
    forall e | 0 <= e < |s.waiting|
      ensures ListOf(Without(s.waiting[e], {n}), s.nodes[n := node], Waiting(e))
      ensures s.nodes[n].place != Waiting(e) ==> Without(s.waiting[e], {n}) == s.waiting[e]
    {
      ListLoses(s.waiting[e], s.nodes, Waiting(e), n, node);
    }
  }

  /** `Push` of the executor. */
  function Push(s: State, n: nat): State
    requires n < |s.nodes|
    requires s.nodes[n].place.Waiting? ==> s.nodes[n].place.event < |s.waiting|
  {
    var t := Detach(s, n);
    t.(stack := t.stack + [n], nodes := t.nodes[n := t.nodes[n].(place := OnStack)])
  }

  lemma PushKeepsLinks(s: State, n: nat)
    requires n < |s.nodes| && Linked(s)
    ensures Linked(Push(s, n))
  {
    hide ListOf, Without;
    DetachKeepsLinks(s, n);
    var t := Detach(s, n);
    var node := t.nodes[n].(place := OnStack);
    ListGains(t.stack, t.nodes, OnStack, n, node);
    ListKeeps(t.batch, t.nodes, InBatch, n, node);
    forall e | 0 <= e < |t.waiting|
      ensures ListOf(t.waiting[e], t.nodes[n := node], Waiting(e))
    {
      ListKeeps(t.waiting[e], t.nodes, Waiting(e), n, node);
    }
  }

  function Top(s: State): nat
    requires s.stack != []
  {
    s.stack[|s.stack| - 1]
  }

  /** `Pop` of the executor: the node goes to the history. */
  function Pop(s: State): State
    requires s.stack != [] && Top(s) < |s.nodes|
  {
    var n := Top(s);
    s.(stack := s.stack[..|s.stack| - 1], history := s.history + [n], nodes := s.nodes[n := s.nodes[n].(place := Nowhere)])
  }

  lemma PopKeepsLinks(s: State)
    requires s.stack != [] && Linked(s)
    ensures Top(s) < |s.nodes| && s.nodes[Top(s)].place == OnStack
    ensures Linked(Pop(s))
  {
    hide ListOf, Without;
    var q, n := s.stack, Top(s);
    TopIsLinked(q, s.nodes);
    var node := s.nodes[n].(place := Nowhere);
    ListKeeps(s.batch, s.nodes, InBatch, n, node);
    forall e | 0 <= e < |s.waiting|
      ensures ListOf(s.waiting[e], s.nodes[n := node], Waiting(e))
    {
      ListKeeps(s.waiting[e], s.nodes, Waiting(e), n, node);
    }
  }

  lemma TopIsLinked(q: seq<nat>, nodes: seq<Node>)
    requires q != [] && ListOf(q, nodes, OnStack)
    ensures var n := q[|q| - 1];
            && n < |nodes|
            && nodes[n].place == OnStack
            && ListOf(q[..|q| - 1], nodes[n := nodes[n].(place := Nowhere)], OnStack)
  {
    var p, n := q[..|q| - 1], q[|q| - 1];
    assert q == p + [n];
    assert n in q && n !in p;
    assert forall m :: m in q <==> m in p || m == n;
  }

  /** `Agent::WaitEvent`: nothing happens when the event is out of range. */
  function WaitEvent(s: State, n: nat, event: nat): State
    requires n < |s.nodes|
    requires s.nodes[n].place.Waiting? ==> s.nodes[n].place.event < |s.waiting|
  {
    if event >= |s.waiting| then s
    else
      var t := Detach(s, n);
      t.(waiting := t.waiting[event := t.waiting[event] + [n]],
      nodes := t.nodes[n := t.nodes[n].(place := Waiting(event), status := Running)])
  }

  lemma WaitEventKeepsLinks(s: State, n: nat, event: nat)
    requires n < |s.nodes| && Linked(s)
    ensures Linked(WaitEvent(s, n, event))
  {
    hide ListOf, Without;
    DetachKeepsLinks(s, n);
    if event < |s.waiting| {
      var t := Detach(s, n);
      var node := t.nodes[n].(place := Waiting(event), status := Running);
      ListKeeps(t.stack, t.nodes, OnStack, n, node);
      ListKeeps(t.batch, t.nodes, InBatch, n, node);
      ListGains(t.waiting[event], t.nodes, Waiting(event), n, node);
      forall e | 0 <= e < |t.waiting| && e != event
        ensures ListOf(t.waiting[e], t.nodes[n := node], Waiting(e))
      {
        ListKeeps(t.waiting[e], t.nodes, Waiting(e), n, node);
      }
    }
  }

  /** `Node::Stop` of every node in a set. */
  function StopAll(s: State, gone: set<nat>): State {
    s.(nodes := seq(|s.nodes|, n requires 0 <= n < |s.nodes| => if n in gone then STOPPED else s.nodes[n]),
    stack := Without(s.stack, gone),
    batch := Without(s.batch, gone),
    waiting := seq(|s.waiting|, e requires 0 <= e < |s.waiting| => Without(s.waiting[e], gone)))
  }

  lemma StopKeepsLinks(s: State, gone: set<nat>)
    requires Linked(s)
    ensures Linked(StopAll(s, gone))
  {
    hide ListOf, Without;
    ListStops(s.stack, s, OnStack, gone);
    ListStops(s.batch, s, InBatch, gone);
    forall e | 0 <= e < |s.waiting|
      ensures ListOf(Without(s.waiting[e], gone), StopAll(s, gone).nodes, Waiting(e))
    {
      ListStops(s.waiting[e], s, Waiting(e), gone);
    }
  }

  lemma ListStops(q: seq<nat>, s: State, place: Place, gone: set<nat>)
    requires ListOf(q, s.nodes, place) && place != Nowhere
    ensures ListOf(Without(q, gone), StopAll(s, gone).nodes, place)
  {
    WithoutKeepsDistinct(q, gone);
  }

  // ----- What the operations on containers do

  /** Apart from node n, what is in the lists of t is in those of s, in the same order. */
  ghost predicate Removed(s: State, t: State, gone: set<nat>) {
    && t.stack == Without(s.stack, gone)
    && t.batch == Without(s.batch, gone)
    && |t.waiting| == |s.waiting|
    && forall e | 0 <= e < |s.waiting| :: t.waiting[e] == Without(s.waiting[e], gone)
  }

  ghost predicate OthersSame(s: State, t: State, gone: set<nat>) {
    && |t.nodes| == |s.nodes|
    && forall m | 0 <= m < |s.nodes| && m !in gone :: t.nodes[m] == s.nodes[m]
  }

  lemma DetachRemoves(s: State, n: nat)
    requires n < |s.nodes| && Linked(s)
    ensures var r := Detach(s, n);
            && Removed(s, r, {n}) && r.nodes == s.nodes[n := s.nodes[n].(place := Nowhere)]
            && r == s.(nodes := r.nodes, stack := r.stack, waiting := r.waiting, batch := r.batch)
  {
    hide ListOf, Without;
    var node := s.nodes[n].(place := Nowhere);
    ListLoses(s.stack, s.nodes, OnStack, n, node);
    ListLoses(s.batch, s.nodes, InBatch, n, node);
    forall e | 0 <= e < |s.waiting|
      ensures s.nodes[n].place != Waiting(e) ==> Without(s.waiting[e], {n}) == s.waiting[e]
    {
      ListLoses(s.waiting[e], s.nodes, Waiting(e), n, node);
    }
  }

  /** Pushing takes a node out of whatever list it is in and puts it on top of the stack; only
      its place changes. */
  lemma PushDoes(s: State, n: nat)
    requires n < |s.nodes| && Linked(s)
    ensures var r := Push(s, n);
            && r.stack == Without(s.stack, {n}) + [n]
            && Removed(s, r.(stack := r.stack[..|r.stack| - 1]), {n})
            && r.nodes == s.nodes[n := s.nodes[n].(place := OnStack)]
            && r == s.(nodes := r.nodes, stack := r.stack, waiting := r.waiting, batch := r.batch)
  {
    hide ListOf, Lists, Without, Detach;
    DetachRemoves(s, n);
  }

  /** A node that begins to wait for an event in range leaves whatever list it is in, becomes
      the last one that waits for the event, and runs; out of range nothing happens. */
  lemma WaitEventDoes(s: State, n: nat, event: nat)
    requires n < |s.nodes| && Linked(s)
    ensures event >= |s.waiting| ==> WaitEvent(s, n, event) == s
    ensures event < |s.waiting| ==>
              var r := WaitEvent(s, n, event);
              && |r.waiting| == |s.waiting|
              && r.waiting[event] == Without(s.waiting[event], {n}) + [n]
              && Removed(s, r.(waiting := r.waiting[event := Without(s.waiting[event], {n})]), {n})
              && r.nodes == s.nodes[n := s.nodes[n].(place := Waiting(event), status := Running)]
              && r == s.(nodes := r.nodes, stack := r.stack, waiting := r.waiting, batch := r.batch)
  {
    hide ListOf, Lists, Without, Detach;
    DetachRemoves(s, n);
  }

  /** Stopped nodes are idle, with no flag set, no timer armed and the result of a stopped node,
      and in no list; all others stay as they are, in their order. */
  lemma StopDoes(s: State, gone: set<nat>)
    ensures var r := StopAll(s, gone);
            && Removed(s, r, gone) && OthersSame(s, r, gone)
            && r == s.(nodes := r.nodes, stack := r.stack, waiting := r.waiting, batch := r.batch)
            && forall n | n in gone && n < |s.nodes| ::
                 var node := r.nodes[n];
                 && node.status == Idle && node.result == rSTOP && node.place == Nowhere
                 && !node.runFlag && !node.skip && !node.armed
  {
    hide Without;
  }

  // ----- The flow behind a node

  /** A walk along edges of both kinds. */
  predicate Walk(chart: Chart, walk: seq<nat>) {
    && InChart(walk, |chart|)
    && forall i | 0 < i < |walk| :: walk[i] in Children(chart[walk[i - 1]])
  }

  function Children(data: NodeData): seq<nat> {
    data.onTrue + data.onFalse
  }

  /** The nodes a walk leads to from one of the given ids; ids out of range lead nowhere. */
  ghost function Flow(chart: Chart, ids: seq<nat>): set<nat> {
    set n | 0 <= n < |chart| && Reaches(chart, ids, n)
  }

  ghost predicate Reaches(chart: Chart, ids: seq<nat>, n: nat) {
    exists walk :: Leads(chart, ids, walk, n)
  }

  predicate Leads(chart: Chart, ids: seq<nat>, walk: seq<nat>, n: nat) {
    walk != [] && Walk(chart, walk) && walk[0] in ids && walk[|walk| - 1] == n
  }
}
