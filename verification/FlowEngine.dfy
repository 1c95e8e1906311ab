/** The engine as it runs: nodes are objects whose fields the engine changes in place, and
    whose containers are lists of node ids. Every method does what the functions of
    Flowchart and FlowExecutor say. */
module FlowEngine {
  import opened Flowchart
  import opened FlowExecutor
  import FlowSearch
  import FlowDispatch

  class FlowNode {
    const id: nat
    var status: Status
    var result: NodeResult
    var runFlag: bool
    var skip: bool
    var armed: bool
    /** The container pointer. A node whose list was swapped away keeps pointing at the list
        it was pushed to; the ghost field tells where it is linked. */
    var container: Place
    ghost var place: Place

    constructor (id: nat)
      ensures this.id == id && Fresh()
    {
      this.id := id;
      status, result, runFlag, skip, armed := Idle, rTRUE, false, false, false;
      container, place := Nowhere, Nowhere;
    }

    ghost predicate Fresh()
      reads this
    {
      View() == Node(Idle, rTRUE, false, false, false, Nowhere) && container == Nowhere
    }

    ghost function View(): Node
      reads this
    {
      Node(status, result, runFlag, skip, armed, place)
    }

    ghost predicate Sound(events: nat)
      reads this
    {
      && container != InBatch
      && (place == container || (place == InBatch && container.Waiting?))
      && (container.Waiting? ==> container.event < events)
    }
  }

  ghost predicate AllSound(nodes: seq<FlowNode>, events: nat)
    reads nodes
  {
    forall i | 0 <= i < |nodes| :: nodes[i].Sound(events)
  }

  ghost function Views(nodes: seq<FlowNode>): (r: seq<Node>)
    reads nodes
    ensures |r| == |nodes| && forall i | 0 <= i < |nodes| :: r[i] == nodes[i].View()
  {
    seq(|nodes|, i requires 0 <= i < |nodes| reads nodes => nodes[i].View())
  }

  lemma NothingLinked(s: State)
    requires s.stack == [] && s.batch == []
    requires forall e | 0 <= e < |s.waiting| :: s.waiting[e] == []
    requires forall n | 0 <= n < |s.nodes| :: s.nodes[n].place == Nowhere
    ensures Linked(s)
  {
  }

  // ----- Lemmas about stopping

  lemma StopTwice(s: State, a: set<nat>, b: set<nat>)
    ensures StopAll(StopAll(s, a), b) == StopAll(s, a + b)
  {
    hide Without;
    WithoutTwice(s.stack, a, b);
    WithoutTwice(s.batch, a, b);
    forall e | 0 <= e < |s.waiting|
      ensures StopAll(StopAll(s, a), b).waiting[e] == StopAll(s, a + b).waiting[e]
    {
      WithoutTwice(s.waiting[e], a, b);
    }
  }

  lemma StopNone(s: State)
    ensures StopAll(s, {}) == s
  {
    hide Without;
    WithoutNone(s.stack, {});
    WithoutNone(s.batch, {});
    forall e | 0 <= e < |s.waiting|
      ensures StopAll(s, {}).waiting[e] == s.waiting[e]
    {
      WithoutNone(s.waiting[e], {});
    }
  }

  /** Stopping one node is unlinking it from the list it is in. */
  lemma StopOne(s: State, n: nat)
    requires n < |s.nodes| && Linked(s)
    ensures StopAll(s, {n}) == Detach(s, n).(nodes := s.nodes[n := STOPPED])
  {
    hide Without;
    if s.nodes[n].place != OnStack {
      WithoutNone(s.stack, {n});
    }
    if s.nodes[n].place != InBatch {
      WithoutNone(s.batch, {n});
    }
    forall e | 0 <= e < |s.waiting| && s.nodes[n].place != Waiting(e)
      ensures Without(s.waiting[e], {n}) == s.waiting[e]
    {
      WithoutNone(s.waiting[e], {n});
    }
  }

  class Engine {
    const chart: Chart
    const tick: nat
    const cap: nat
    const nodes: seq<FlowNode>
    var running: bool
    var waiting: seq<seq<nat>>
    var batch: seq<nat>
    var nodeList: seq<nat>
    var historyNodes: seq<nat>
    var hasRunningNode: bool
    var nodesCount: nat
    ghost var capped: bool
    var calls: seq<nat>
    ghost var expansions: seq<Expansion>
    ghost var revisits: seq<nat>

    ghost function Abstract(): State
      reads this, nodes
    {
      State(Views(nodes), nodeList, historyNodes, waiting, batch, running, hasRunningNode, nodesCount, capped,
            calls, expansions, revisits)
    }

    predicate Numbered() {
      forall i | 0 <= i < |nodes| :: nodes[i].id == i
    }

    ghost predicate Valid()
      reads this, nodes
    {
      && Numbered()
      && AllSound(nodes, |waiting|)
      && |nodes| == |chart|
      && Fits(chart, Abstract())
    }

    lemma NodeIsSound(n: nat)
      requires n < |nodes| && AllSound(nodes, |waiting|)
      ensures nodes[n].Sound(|waiting|)
    {
    }

    /** The state after one node object has changed. */
    twostate lemma OneNodeChanged(n: nat)
      requires Numbered() && n < |nodes| && |waiting| == old(|waiting|)
      requires old(AllSound(nodes, |waiting|)) && nodes[n].Sound(|waiting|)
      requires forall i | 0 <= i < |nodes| && i != n :: unchanged(nodes[i])
      ensures Views(nodes) == old(Views(nodes))[n := nodes[n].View()]
      ensures AllSound(nodes, |waiting|)
    {
    }

    /** An engine for a chart with fresh nodes. */
    constructor (chart: Chart, tick: nat, cap: nat, events: nat, nodes: seq<FlowNode>)
      requires WellFormed(chart) && |nodes| == |chart|
      requires forall i | 0 <= i < |nodes| :: nodes[i].id == i && nodes[i].Fresh()
      ensures Valid() && AtRest(Abstract()) && batch == [] && |waiting| == events
      ensures this.chart == chart && this.tick == tick && this.cap == cap && this.nodes == nodes && !running
    {
      this.chart, this.tick, this.cap, this.nodes := chart, tick, cap, nodes;
      running, batch, nodeList, historyNodes := false, [], [], [];
      waiting := seq(events, _ => []);
      hasRunningNode, nodesCount, capped, calls, expansions, revisits := false, 0, false, [], [], [];
      new;
      ghost var s := Abstract();
      NothingLinked(s);
    }

    // ----- Containers

    /** Unlinks a node by its own link: it leaves the ring it is in, which is the waiting list
        it points at, or the batch if that list was swapped away. */
    method Unlink(n: nat, e: nat)
      requires Valid() && n < |chart| && nodes[n].container == Waiting(e)
      modifies this`waiting, this`batch
      ensures waiting == if nodes[n].place == InBatch then old(waiting) else old(waiting)[e := Without(old(waiting)[e], {n})]
      ensures batch == if nodes[n].place == InBatch then Without(old(batch), {n}) else old(batch)
    {
      NodeIsSound(n);
      hide Without, WellFormed, AllSound;
      if nodes[n].place == InBatch {
        LacksNode(Abstract(), n, e);
        WithoutNone(waiting[e], {n});
        assert waiting[e := waiting[e]] == waiting;
      } else {
        BatchLacks(Abstract(), n);
        WithoutNone(batch, {n});
      }
      waiting := waiting[e := Without(waiting[e], {n})];
      batch := Without(batch, {n});
    }

    /** `node->SetContainer(nullptr)` */
    method ClearContainer(n: nat)
      requires Numbered() && AllSound(nodes, |waiting|) && n < |nodes|
      modifies nodes
      ensures AllSound(nodes, |waiting|)
      ensures Views(nodes) == old(Views(nodes))[n := old(nodes[n].View()).(place := Nowhere)]
    {
      nodes[n].container := Nowhere;
      nodes[n].place := Nowhere;
      OneNodeChanged(n);
    }

    /** Takes a node out of the list it is in. */
    method TakeOff(n: nat)
      requires Valid() && n < |chart|
      modifies this`nodeList, this`waiting, this`batch
      ensures Abstract().(nodes := Detach(old(Abstract()), n).nodes) == Detach(old(Abstract()), n)
      ensures |waiting| == |old(waiting)|
    {
      ghost var s := Abstract();
      NodeIsSound(n);
      DetachMoves(s, n);
      DetachWaits(s, n);
      hide Without, Fits, Detach, AllSound;
      if nodes[n].container == OnStack {
        nodeList := Without(nodeList, {n});
      } else if nodes[n].container.Waiting? {
        Unlink(n, nodes[n].container.event);
      }
    }

    /** `container->Remove(node)` */
    method RemoveFromContainer(n: nat)
      requires Valid() && n < |chart|
      modifies this, nodes
      ensures Valid() && Abstract() == Detach(old(Abstract()), n)
    {
      ghost var s := Abstract();
      DetachFits(chart, s, n);
      DetachMoves(s, n);
      hide Without, Fits, Detach, AllSound;
      TakeOff(n);
      ClearContainer(n);
      assert Abstract() == Detach(s, n);
    }

    method PutOnTop(n: nat)
      requires Valid() && n < |chart| && nodes[n].place == Nowhere
      modifies this, nodes
      ensures Valid() && Abstract() == Push(old(Abstract()), n)
    {
      ghost var s := Abstract();
      PushFits(chart, s, n);
      hide Without, Fits, AllSound;
      nodeList := nodeList + [n];
      label before:
      nodes[n].container := OnStack;
      nodes[n].place := OnStack;
      OneNodeChanged@before(n);
      assert Abstract() == Push(s, n);
    }

    /** `DfsExecutor::Push` */
    method PushNode(n: nat)
      requires Valid() && n < |chart|
      modifies this, nodes
      ensures Valid() && Abstract() == Push(old(Abstract()), n)
    {
      ghost var s := Abstract();
      DetachFits(chart, s, n);
      DetachMoves(s, n);
      hide Without, Fits, AllSound;
      RemoveFromContainer(n);
      DetachTwice(s, n);
      hide Detach;
      PutOnTop(n);
    }

    /** `DfsExecutor::Pop` */
    method PopNode() returns (n: nat)
      requires Valid() && nodeList != []
      modifies this, nodes
      ensures n == Top(old(Abstract())) && n < |chart|
      ensures Valid() && Abstract() == Pop(old(Abstract()))
    {
      hide Without, Lists, WellFormed, AllSound;
      PopKeepsLinks(Abstract());
      n := nodeList[|nodeList| - 1];
      NodeIsSound(n);
      historyNodes := historyNodes + [n];
      nodeList := nodeList[..|nodeList| - 1];
      if nodes[n].container == OnStack {
        nodes[n].container := Nowhere;
        nodes[n].place := Nowhere;
      }
      OneNodeChanged(n);
    }

    /** Puts a node that is in no list behind the nodes that wait for an event. */
    method PutBack(n: nat, event: nat)
      requires Valid() && n < |chart| && nodes[n].place == Nowhere && event < |waiting|
      modifies this, nodes
      ensures Valid() && Abstract() == WaitEvent(old(Abstract()), n, event)
    {
      ghost var s := Abstract();
      WaitEventFits(chart, s, n, event);
      hide Without, Fits, AllSound;
      waiting := waiting[event := waiting[event] + [n]];
      label before:
      nodes[n].container := Waiting(event);
      nodes[n].place := Waiting(event);
      nodes[n].status := Running;
      OneNodeChanged@before(n);
      assert Abstract() == WaitEvent(s, n, event);
    }

    /** `Agent::WaitEvent` */
    method AgentWaitEvent(n: nat, event: nat)
      requires Valid() && n < |chart|
      modifies this, nodes
      ensures Valid() && Abstract() == WaitEvent(old(Abstract()), n, event)
    {
      ghost var s := Abstract();
      DetachFits(chart, s, n);
      DetachMoves(s, n);
      hide Without, Fits, AllSound;
      if event < |waiting| {
        RemoveFromContainer(n);
        DetachTwice(s, n);
        hide Detach;
        PutBack(n, event);
      }
    }

    method ClearNode(n: nat)
      requires Valid() && n < |chart|
      modifies nodes
      ensures Valid()
      ensures Abstract() == Update(old(Abstract()), n, Node(Idle, rSTOP, false, false, false, old(nodes[n].place)))
    {
      ghost var s := Abstract();
      NodeIsSound(n);
      UpdateFits(chart, s, n, Node(Idle, rSTOP, false, false, false, s.nodes[n].place));
      hide Fits, AllSound;
      var node := nodes[n];
      node.status, node.result, node.runFlag, node.skip := Idle, rSTOP, false, false;
      node.armed := false;
      OneNodeChanged(n);
    }

    /** `Node::Stop` */
    method StopNode(n: nat)
      requires Valid() && n < |chart|
      modifies this, nodes
      ensures Valid() && Abstract() == StopAll(old(Abstract()), {n})
    {
      ghost var s := Abstract();
      StopOne(s, n);
      DetachMoves(s, n);
      DetachIgnores(s, n, Node(Idle, rSTOP, false, false, false, s.nodes[n].place));
      hide Without, Fits, Detach, StopAll, AllSound;
      ClearNode(n);
      RemoveFromContainer(n);
    }

    /** `DfsExecutor::Remove`, called with nodes that are on its stack or in no list. */
    method Remove(n: nat)
      requires Valid() && n < |chart| && nodes[n].place in {Nowhere, OnStack}
      modifies this, nodes
      ensures Valid() && Abstract() == Detach(old(Abstract()), n)
    {
      NodeIsSound(n);
      hide Without, Lists, WellFormed, AllSound;
      DetachKeepsLinks(Abstract(), n);
      if nodes[n].place == Nowhere {
        StackLacks(Abstract(), n);
        WithoutNone(nodeList, {n});
      }
      nodeList := Without(nodeList, {n});
      nodes[n].container := Nowhere;
      nodes[n].place := Nowhere;
      OneNodeChanged(n);
    }

    /** Stops a node and takes it from the executor. */
    method StopAndRemove(n: nat)
      requires Valid() && n < |chart|
      modifies this, nodes
      ensures Valid() && Abstract() == StopAll(old(Abstract()), {n})
    {
      hide Without, Lists, WellFormed, AllSound;
      StopNode(n);
      ghost var s := Abstract();
      assert s.nodes[n] == STOPPED;
      Remove(n);
      assert s.nodes[n := STOPPED] == s.nodes;
    }

    // ----- Requests

    method StopNodes(ids: seq<nat>)
      requires Valid()
      modifies this, nodes
      ensures Valid() && Abstract() == StopAll(old(Abstract()), ValidIds(ids, |chart|))
    {
      hide Without, Lists, WellFormed, StopAll, AllSound;
      ghost var s := Abstract();
      StopNone(s);
      assert ValidIds(ids[..0], |chart|) == {};
      for i := 0 to |ids|
        invariant Valid() && Abstract() == StopAll(s, ValidIds(ids[..i], |chart|))
      {
        ghost var done := ValidIds(ids[..i], |chart|);
        assert ids[..i + 1] == ids[..i] + [ids[i]];
        if ids[i] >= |chart| {
          assert ValidIds(ids[..i + 1], |chart|) == done;
          continue;
        }
        StopAndRemove(ids[i]);
        StopTwice(s, done, {ids[i]});
        assert ValidIds(ids[..i + 1], |chart|) == done + {ids[i]};
      }
      assert ids[..|ids|] == ids;
    }

    /** `Chart::Stop` */
    method StopChart()
      requires Valid()
      modifies this, nodes
      ensures Valid() && Abstract() == StopAll(old(Abstract()), Everything(|chart|)).(running := false)
    {
      hide Without, Lists, WellFormed, StopAll, AllSound;
      ghost var s := Abstract();
      StopNone(s);
      assert Everything(0) == {};
      for n := 0 to |nodes|
        invariant Valid() && Abstract() == StopAll(s, Everything(n))
      {
        StopNode(n);
        StopTwice(s, Everything(n), {n});
        assert Everything(n + 1) == Everything(n) + {n};
      }
      running := false;
    }
  
    method StopFlow(ids: seq<nat>)
      requires Valid()
      modifies this, nodes
      ensures Valid() && Abstract() == StopAll(old(Abstract()), Flow(chart, ids))
    {
      hide Without, Lists, WellFormed, StopAll, AllSound;
      ghost var s := Abstract();
      StopNone(s);
      var stopIds := FlowSearch.CollectFlow(chart, ids);
      ghost var done: set<nat> := {};
      while stopIds != {}
        invariant Valid() && done + stopIds == Flow(chart, ids)
        invariant Abstract() == StopAll(s, done)
        decreases stopIds
      {
        var c :| c in stopIds;
        StopAndRemove(c);
        StopTwice(s, done, {c});
        stopIds := stopIds - {c};
        done := done + {c};
      }
      assert done == Flow(chart, ids);
    }

    /** `Manager::WaitEvent` */
    method ManagerWaitEvent(n: nat, event: nat)
      requires Valid() && n < |chart|
      modifies this, nodes
      ensures Valid() && Abstract() == ServeWaitFor(chart, old(Abstract()), n, event)
    {
      NodeIsSound(n);
      hide Without, Lists, WellFormed, WaitEvent, AllSound;
      if !chart[n].isEvent {
        return;
      }
      ghost var s := Abstract();
      nodes[n].status, nodes[n].skip, nodes[n].result := Running, true, rTRUE;
      OneNodeChanged(n);
      UpdateKeepsLinks(s, n, nodes[n].View());
      AgentWaitEvent(n, event);
    }

    /** `Manager::Wait`, without the timer's due time. */
    method WaitTime(n: nat)
      requires Valid() && n < |chart|
      modifies this, nodes
      ensures Valid() && Abstract() == FlowExecutor.Serve(chart, old(Abstract()), n, Wait)
    {
      NodeIsSound(n);
      hide Without, Lists, WellFormed, AllSound;
      ghost var s := Abstract();
      var node := nodes[n];
      node.armed, node.skip, node.result, node.status := true, true, rTRUE, Running;
      OneNodeChanged(n);
      UpdateKeepsLinks(s, n, node.View());
    }

    method ServeRequest(n: nat, request: Request)
      requires Valid() && n < |chart|
      modifies this, nodes
      ensures Valid() && Abstract() == Serve(chart, old(Abstract()), n, request)
    {
      hide Without, Lists, WellFormed, StopAll, ServeWaitFor, AllSound;
      match request
      case WaitFor(event) => ManagerWaitEvent(n, event);
      case Wait => WaitTime(n);
      case StopNodes(ids) => StopNodes(ids);
      case StopFlow(ids) => StopFlow(ids);
      case Return => StopChart();
    }

    // ----- Running

    method ServeRequests(n: nat, requests: seq<Request>)
      requires Valid() && n < |chart|
      modifies this, nodes
      ensures Valid() && Abstract() == ServeAll(chart, old(Abstract()), n, requests)
    {
      hide Without, Lists, WellFormed, Serve, AllSound;
      ghost var t := Abstract();
      for i := 0 to |requests|
        invariant Valid()
        invariant ServeAll(chart, Abstract(), n, requests[i..]) == ServeAll(chart, t, n, requests)
      {
        assert requests[i..][1..] == requests[i + 1..];
        ServeRequest(n, requests[i]);
      }
    }

    method SetNode(n: nat, runFlag: bool, skip: bool, result: NodeResult)
      requires Valid() && n < |chart|
      modifies this, nodes
      ensures Valid()
      ensures Abstract() == Update(old(Abstract()), n, old(Abstract()).nodes[n].(runFlag := runFlag, skip := skip, result := result))
    {
      NodeIsSound(n);
      hide Lists, WellFormed, AllSound;
      ghost var s := Abstract();
      nodes[n].runFlag, nodes[n].skip, nodes[n].result := runFlag, skip, result;
      OneNodeChanged(n);
      UpdateKeepsLinks(s, n, nodes[n].View());
    }

    method SetStatus(n: nat, status: Status, runFlag: bool)
      requires Valid() && n < |chart|
      modifies this, nodes
      ensures Valid()
      ensures Abstract() == Update(old(Abstract()), n, old(Abstract()).nodes[n].(status := status, runFlag := runFlag))
    {
      NodeIsSound(n);
      hide Lists, WellFormed, AllSound;
      ghost var s := Abstract();
      nodes[n].status, nodes[n].runFlag := status, runFlag;
      OneNodeChanged(n);
      UpdateKeepsLinks(s, n, nodes[n].View());
    }

    /** `Node::Run`; the function makes its requests one after the other. */
    method RunOne(script: Script, n: nat)
      requires Valid() && n < |chart|
      modifies this, nodes
      ensures Valid() && Abstract() == RunNode(chart, script, old(Abstract()), n)
    {
      hide Without, Lists, WellFormed, ServeAll, AllSound;
      if nodes[n].skip {
        SetNode(n, nodes[n].runFlag, false, nodes[n].result);
        return;
      }
      SetNode(n, true, false, rFALSE);
      var reply := script(calls, n);
      calls := calls + [n];
      ServeRequests(n, reply.requests);
      if nodes[n].result != rSTOP {
        SetNode(n, nodes[n].runFlag, nodes[n].skip, ResultOf(reply.answer));
      }
    }

    /** `DfsExecutor::AddSubsequenceNodes` */
    method AddSubsequenceNodes(n: nat)
      requires Valid() && n < |chart|
      modifies this, nodes
      ensures Valid() && Abstract() == Expand(chart, old(Abstract()), n)
    {
      hide Without, Lists, Push, AllSound;
      var result := nodes[n].result;
      if result == rSTOP {
        return;
      }
      var ids := chart[n].Subsequence(result == rTRUE);
      expansions := expansions + [Expansion(n, result == rTRUE)];
      ghost var s := Abstract();
      var count := |ids|;
      assert ids[..count] == ids;
      while count > 0
        invariant 0 <= count <= |ids| && Valid()
        invariant PushAll(chart, Abstract(), ids[..count]) == PushAll(chart, s, ids)
      {
        count := count - 1;
        assert ids[..count + 1][..count] == ids[..count];
        PushNode(ids[count]);
      }
    }
  
    /** A node that was stopped or waits has left the stack already. */
    method PopIfOnStack(n: nat)
      requires Valid() && n < |chart| && Current(Abstract(), n)
      modifies this, nodes
      ensures Valid()
      ensures Abstract() == if old(Abstract()).nodes[n].place == OnStack then Pop(old(Abstract())) else old(Abstract())
    {
      NodeIsSound(n);
      assert nodes[n].container == OnStack ==> nodeList != [];
      hide Fits, AllSound, Current;
      if nodes[n].container == OnStack {
        var popped := PopNode();
      }
    }

    /** What the main loop does with a node after it ran. */
    method LeaveNode(n: nat)
      requires Valid() && n < |chart| && Current(Abstract(), n)
      modifies this, nodes
      ensures Valid() && Abstract() == Leave(chart, old(Abstract()), n)
    {
      hide Lists, WellFormed, InChart, Expand, AllSound, Current;
      PopIfOnStack(n);
      if nodes[n].status == Running {
        SetStatus(n, Running, false);
        hasRunningNode := true;
      } else {
        SetStatus(n, EndRun, nodes[n].runFlag);
        AddSubsequenceNodes(n);
      }
    }

    method Revisited(n: nat)
      requires Valid()
      modifies this
      ensures Valid() && Abstract() == old(Abstract()).(busy := true, revisits := old(revisits) + [n])
    {
      hide Lists, WellFormed, InChart, AllSound;
      hasRunningNode := true;
      revisits := revisits + [n];
    }

    /** One round of the main loop. */
    method RunTop(script: Script)
      requires Valid() && nodeList != []
      modifies this, nodes
      ensures Valid() && Abstract() == Round(chart, script, tick, old(Abstract()))
    {
      ghost var s := Abstract();
      PopKeepsLinks(s);
      RunIsTame(s, script);
      hide Fits, Linked, RunNode, Leave, AllSound, WaitEvent, Current;
      var n := nodeList[|nodeList| - 1];
      if nodes[n].status == Running {
        var popped := PopNode();
        Revisited(n);
      } else if nodes[n].runFlag && !chart[n].noLoopCheck {
        AgentWaitEvent(n, tick);
        Revisited(n);
      } else {
        RunOne(script, n);
        LeaveNode(n);
      }
    }

    lemma RunIsTame(s: State, script: Script)
      requires Fits(chart, s) && s.stack != []
      ensures Top(s) < |chart| && Current(RunNode(chart, script, s, Top(s)), Top(s))
    {
      PopKeepsLinks(s);
      RunNodeIsTame(chart, script, s, Top(s));
    }

    /** Too many rounds: what is left on the stack ends at once. */
    method EndAll()
      requires Valid()
      modifies this, nodes
      ensures Valid() && Abstract() == Drain(chart, old(Abstract())) && nodeList == []
    {
      hide Without, Lists, WellFormed, InChart, AllSound;
      ghost var s := Abstract();
      while nodeList != []
        invariant Valid() && Drain(chart, Abstract()) == Drain(chart, s)
        decreases |nodeList|
      {
        var n := PopNode();
        SetStatus(n, EndRun, nodes[n].runFlag);
      }
    }

    /** Resets the nodes of the history. */
    method SettleHistory()
      requires Valid()
      modifies this, nodes
      ensures Valid() && Abstract() == Settle(chart, old(Abstract()))
    {
      hide Without, Lists, WellFormed, Reset, AllSound;
      ghost var s := Abstract();
      ResetNone(chart, s);
      for i := 0 to |historyNodes|
        invariant Valid() && historyNodes == s.history
        invariant Abstract() == Reset(chart, s, Members(s.history[..i]))
      {
        var n := historyNodes[i];
        ResetOneMore(chart, s, Members(s.history[..i]), n);
        assert Members(s.history[..i + 1]) == Members(s.history[..i]) + {n} by {
          assert s.history[..i + 1] == s.history[..i] + [n];
        }
        SetStatus(n, nodes[n].status, false);
        if nodes[n].status == EndRun {
          StopNode(n);
        }
        assert Abstract().history == s.history;
      }
      assert s.history[..|s.history|] == s.history;
      historyNodes := [];
    }

    /** `Chart::CheckRunning` */
    method CheckRunning() returns (any: bool)
      requires Valid()
      ensures any == AnyRunning(Abstract())
    {
      for n := 0 to |nodes|
        invariant forall m | 0 <= m < n :: Abstract().nodes[m].status != Running
      {
        if nodes[n].status == Running {
          assert Abstract().nodes[n].status == Running;
          return true;
        }
      }
      return false;
    }

    method Begin(start: nat)
      requires Valid() && start < |chart|
      modifies this, nodes
      ensures Valid() && Abstract() == Started(chart, old(Abstract()), start)
      ensures nodesCount == 0 && !capped
    {
      hide Without, Lists, WellFormed, InChart, Push, AllSound;
      hasRunningNode, nodesCount, capped := false, 0, false;
      calls, expansions, revisits := [], [], [];
      SetStatus(start, Idle, nodes[start].runFlag);
      PushNode(start);
    }

    method RunRound(script: Script)
      requires Valid() && nodeList != []
      modifies this, nodes
      ensures Valid() && nodesCount == old(nodesCount) + 1
      ensures Abstract() == Round(chart, script, tick, old(Abstract())).(steps := old(nodesCount) + 1)
    {
      hide Lists, WellFormed, InChart, Round, AllSound;
      RunTop(script);
      nodesCount := nodesCount + 1;
    }

    method HitCap()
      requires Valid()
      modifies this, nodes
      ensures Valid() && Abstract() == Drain(chart, old(Abstract())).(capped := true)
    {
      hide Lists, WellFormed, InChart, Drain, AllSound;
      EndAll();
      capped := true;
    }

    /** The main loop of `DfsExecutor::RunFlow`. */
    method MainLoop(script: Script)
      requires Valid() && nodesCount <= cap
      modifies this, nodes
      ensures Valid() && Abstract() == Loop(chart, script, tick, old(Abstract()), cap)
    {
      hide Fits, Round, Drain, AllSound;
      ghost var s := Abstract();
      while nodeList != [] && running
        invariant Valid() && nodesCount <= cap
        invariant Loop(chart, script, tick, Abstract(), cap) == Loop(chart, script, tick, s, cap)
        decreases cap - nodesCount
      {
        if nodesCount == cap {
          HitCap();
          return;
        }
        RunRound(script);
      }
    }

    /** `DfsExecutor::RunFlow` for a chart whose agent runs. */
    method Run(script: Script, start: nat)
      requires Valid() && start < |chart| && nodeList == []
      modifies this, nodes
      ensures Valid() && Abstract() == RunFlow(chart, script, tick, cap, old(Abstract()), start)
    {
      hide Without, Lists, WellFormed, InChart, Started, Loop, Settle, AnyRunning, AllSound;
      if !running {
        return;
      }
      Begin(start);
      MainLoop(script);
      SettleHistory();
      var any := CheckRunning();
      if !hasRunningNode && !any && running {
        StopChart();
      }
    }

    // ----- Events

    /** `node_list.swap(*waiting_nodes)`: no node is touched. */
    method SwapAway(event: nat)
      requires Valid() && batch == [] && event < |waiting|
      modifies this, nodes
      ensures Valid() && Abstract() == FlowDispatch.TakeBatch(old(Abstract()), event)
      ensures forall i | 0 <= i < |nodes| :: nodes[i].container == old(nodes[i].container)
    {
      ghost var s := Abstract();
      FlowDispatch.TakingKeepsLinks(s, event);
      hide Lists, WellFormed, Without;
      batch, waiting := waiting[event], waiting[event := []];
      forall i | 0 <= i < |nodes| && nodes[i].place == Waiting(event) {
        nodes[i].place := InBatch;
      }
      assert Views(nodes) == FlowDispatch.TakeBatch(s, event).nodes;
    }

    /** Pops the first node of the batch; it is idle before it runs. */
    method PopBatch() returns (n: nat)
      requires Valid() && batch != []
      modifies this, nodes
      ensures old(batch)[0] < |chart| && n == old(batch)[0]
      ensures Valid() && Abstract() == FlowDispatch.WakeFirst(old(Abstract()))
    {
      ghost var s := Abstract();
      FlowDispatch.WakingKeepsLinks(s);
      n := batch[0];
      hide Lists, WellFormed, Without, AllSound;
      batch := batch[1..];
      nodes[n].container := Nowhere;
      nodes[n].place := Nowhere;
      nodes[n].status := Idle;
      OneNodeChanged(n);
    }

    method WakeNext(script: Script) returns (n: nat)
      requires Valid() && AtRest(Abstract()) && batch != []
      modifies this, nodes
      ensures Valid() && AtRest(Abstract()) && |batch| < |old(batch)|
      ensures n == old(batch)[0] && Abstract() == FlowDispatch.WakeOne(chart, script, tick, cap, old(Abstract()))
    {
      ghost var s := Abstract();
      FlowDispatch.WakingEndsAtRest(chart, script, tick, cap, s);
      hide Lists, WellFormed, Without, AllSound, AtRest, RunFlow, InChart;
      n := PopBatch();
      Run(script, n);
    }

    /** `Manager::HandleEvent` and `_handleEvent` */
    method HandleEvent(scripts: FlowDispatch.Scripts, event: nat) returns (woken: seq<nat>)
      requires Valid() && AtRest(Abstract()) && batch == []
      modifies this, nodes
      ensures Valid()
      ensures (Abstract(), woken) == FlowDispatch.HandleEvent(chart, scripts, tick, cap, old(Abstract()), event)
    {
      woken := [];
      if event >= |waiting| || waiting[event] == [] {
        return;
      }
      ghost var s := Abstract();
      SwapAway(event);
      ghost var t := Abstract();
      FlowDispatch.TakenIsAtRest(s, event);
      hide Lists, WellFormed, Without, AllSound, AtRest, FlowDispatch.WakeOne;
      while batch != []
        invariant Valid() && AtRest(Abstract())
        invariant FlowDispatch.WakeAll(chart, scripts, tick, cap, Abstract(), woken) ==
                  FlowDispatch.WakeAll(chart, scripts, tick, cap, t, [])
        decreases |batch|
      {
        var n := WakeNext(scripts(woken));
        woken := woken + [n];
      }
    }
  }

  lemma ResetNone(chart: Chart, s: State)
    requires Fits(chart, s)
    ensures Reset(chart, s, Members([])) == s
  {
    hide Without, Lists, WellFormed, InChart;
    assert Members([]) == {} && Ended(s, {}) == {};
    StopNone(s);
  }

  /** Resetting one more node of the history. */
  lemma ResetOneMore(chart: Chart, s: State, done: set<nat>, n: nat)
    requires Fits(chart, s) && n < |chart|
    ensures var u := Reset(chart, s, done);
            var v := Update(u, n, u.nodes[n].(runFlag := false));
            Reset(chart, s, done + {n}) == if v.nodes[n].status == EndRun then StopAll(v, {n}) else v
  {
    hide Without, Lists, WellFormed, InChart;
    var u := Reset(chart, s, done);
    var v := Update(u, n, u.nodes[n].(runFlag := false));
    var w := Reset(chart, s, done + {n});
    if s.nodes[n].status == EndRun && n !in done {
      assert Ended(s, done + {n}) == Ended(s, done) + {n};
      StopTwice(s, Ended(s, done), {n});
      assert StopAll(v, {n}).stack == w.stack && StopAll(v, {n}).batch == w.batch;
      assert StopAll(v, {n}).waiting == w.waiting;
      assert StopAll(v, {n}).nodes == w.nodes;
    } else {
      assert Ended(s, done + {n}) == Ended(s, done);
      assert v.nodes == w.nodes;
    }
  }

  lemma DetachWaits(s: State, n: nat)
    requires n < |s.nodes|
    requires s.nodes[n].place.Waiting? ==> s.nodes[n].place.event < |s.waiting|
    ensures var place := s.nodes[n].place;
            Detach(s, n).waiting == if place.Waiting? then s.waiting[place.event := Without(s.waiting[place.event], {n})]
                                    else s.waiting
  {
  }

  lemma DetachTwice(s: State, n: nat)
    requires n < |s.nodes|
    requires s.nodes[n].place.Waiting? ==> s.nodes[n].place.event < |s.waiting|
    ensures var t := Detach(s, n); t.nodes[n].place == Nowhere && Detach(t, n) == t
  {
    hide Without;
  }

  lemma DetachFits(chart: Chart, s: State, n: nat)
    requires Fits(chart, s) && n < |chart|
    ensures s.nodes[n].place.Waiting? ==> s.nodes[n].place.event < |s.waiting|
    ensures Fits(chart, Detach(s, n))
  {
    DetachKeepsLinks(s, n);
    hide Lists, Without;
  }

  lemma WaitEventFits(chart: Chart, s: State, n: nat, event: nat)
    requires Fits(chart, s) && n < |chart|
    ensures Fits(chart, WaitEvent(s, n, event))
  {
    WaitEventKeepsLinks(s, n, event);
    hide Lists, Without;
  }

  lemma UpdateFits(chart: Chart, s: State, n: nat, node: Node)
    requires Fits(chart, s) && n < |chart| && node.place == s.nodes[n].place
    ensures Fits(chart, Update(s, n, node))
  {
    UpdateKeepsLinks(s, n, node);
  }

  lemma LacksNode(s: State, n: nat, e: nat)
    requires n < |s.nodes| && Linked(s) && e < |s.waiting| && s.nodes[n].place != Waiting(e)
    ensures n !in s.waiting[e]
  {
  }

  lemma BatchLacks(s: State, n: nat)
    requires n < |s.nodes| && Linked(s) && s.nodes[n].place != InBatch
    ensures n !in s.batch
  {
  }

  lemma StackLacks(s: State, n: nat)
    requires n < |s.nodes| && Linked(s) && s.nodes[n].place != OnStack
    ensures n !in s.stack
  {
  }

  lemma DetachIgnores(s: State, n: nat, node: Node)
    requires n < |s.nodes| && Linked(s) && node.place == s.nodes[n].place
    ensures Detach(Update(s, n, node), n) == Detach(s, n).(nodes := s.nodes[n := node.(place := Nowhere)])
  {
    hide Without, Lists;
  }
}
