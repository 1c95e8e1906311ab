/** The depth-first executor: one run of a chart from a start node. What the script
    functions do is a parameter. */
module FlowExecutor {
  import opened Flowchart

  /** What a node function asks of the engine while it runs. */
  datatype Request =
    | WaitFor(event: nat)
    | Wait
    | StopNodes(ids: seq<nat>)
    | StopFlow(ids: seq<nat>)
    | Return

  datatype Reply = Reply(requests: seq<Request>, answer: bool)

  /** Functions may depend on the calls made before. */
  type Script = (seq<nat>, nat) -> Reply

  ghost predicate Fits(chart: Chart, s: State) {
    WellFormed(chart) && |s.nodes| == |chart| && Linked(s) && InChart(s.history, |chart|)
  }

  function Update(s: State, n: nat, node: Node): State
    requires n < |s.nodes|
  {
    s.(nodes := s.nodes[n := node])
  }

  lemma UpdateKeepsLinks(s: State, n: nat, node: Node)
    requires n < |s.nodes| && Linked(s) && node.place == s.nodes[n].place
    ensures Linked(Update(s, n, node))
  {
    forall q, place | ListOf(q, s.nodes, place)
      ensures ListOf(q, s.nodes[n := node], place)
    {
    }
  }

  // ----- Requests

  ghost function Everything(size: nat): (r: set<nat>)
    ensures forall n :: n in r <==> 0 <= n < size
  {
    if size == 0 then {} else Everything(size - 1) + {size - 1}
  }

  /** `Manager::WaitEvent`: only an event node can wait. */
  ghost function ServeWaitFor(chart: Chart, s: State, n: nat, event: nat): (r: State)
    requires n < |chart| && Fits(chart, s)
    ensures Fits(chart, r) && r.steps == s.steps && r.capped == s.capped
  {
    if !chart[n].isEvent then s
    else
      var t := Update(s, n, s.nodes[n].(status := Running, skip := true, result := rTRUE));
      UpdateKeepsLinks(s, n, t.nodes[n]);
      WaitEventKeepsLinks(t, n, event);
      WaitEvent(t, n, event)
  }

  /** The ids that name a node; the others are reported and passed over. */
  function ValidIds(ids: seq<nat>, size: nat): set<nat> {
    set id | id in ids && id < size
  }

  ghost function Serve(chart: Chart, s: State, n: nat, request: Request): (r: State)
    requires n < |chart| && Fits(chart, s)
    ensures Fits(chart, r) && r.steps == s.steps && r.capped == s.capped
  {
    var node := s.nodes[n];
    match request
    case WaitFor(event) => ServeWaitFor(chart, s, n, event)
    case Wait =>
      var t := Update(s, n, node.(armed := true, skip := true, result := rTRUE, status := Running));
      UpdateKeepsLinks(s, n, t.nodes[n]);
      t
    case StopNodes(ids) =>
      StopKeepsLinks(s, ValidIds(ids, |chart|));
      StopAll(s, ValidIds(ids, |chart|))
    case StopFlow(ids) =>
      StopKeepsLinks(s, Flow(chart, ids));
      StopAll(s, Flow(chart, ids))
    case Return =>
      StopKeepsLinks(s, Everything(|chart|));
      StopAll(s, Everything(|chart|)).(running := false)
  }

  ghost function ServeAll(chart: Chart, s: State, n: nat, requests: seq<Request>): (r: State)
    requires n < |chart| && Fits(chart, s)
    ensures Fits(chart, r) && r.steps == s.steps && r.capped == s.capped
    decreases |requests|
  {
    if requests == [] then s
    else ServeAll(chart, Serve(chart, s, n, requests[0]), n, requests[1..])
  }

  // ----- One node

  /** `Node::Run` */
  ghost function RunNode(chart: Chart, script: Script, s: State, n: nat): (r: State)
    requires n < |chart| && Fits(chart, s)
    ensures Fits(chart, r) && r.steps == s.steps && r.capped == s.capped
  {
    var node := s.nodes[n];
    if node.skip then
      UpdateKeepsLinks(s, n, node.(skip := false));
      Update(s, n, node.(skip := false))
    else
      var reply := script(s.calls, n);
      UpdateKeepsLinks(s, n, node.(runFlag := true, result := rFALSE));
      var t := Update(s, n, node.(runFlag := true, result := rFALSE)).(calls := s.calls + [n]);
      var u := ServeAll(chart, t, n, reply.requests);
      if u.nodes[n].result == rSTOP then u
      else
        UpdateKeepsLinks(u, n, u.nodes[n].(result := ResultOf(reply.answer)));
        Update(u, n, u.nodes[n].(result := ResultOf(reply.answer)))
  }

  /** Pushes the first `count` children, the last one first. */
  ghost function PushAll(chart: Chart, s: State, ids: seq<nat>): (r: State)
    requires InChart(ids, |chart|) && Fits(chart, s)
    ensures Fits(chart, r) && r.steps == s.steps && r.capped == s.capped
    decreases |ids|
  {
    if ids == [] then s
    else
      var last := ids[|ids| - 1];
      PushKeepsLinks(s, last);
      PushAll(chart, Push(s, last), ids[..|ids| - 1])
  }

  /** `AddSubsequenceNodes` */
  ghost function Expand(chart: Chart, s: State, n: nat): (r: State)
    requires n < |chart| && Fits(chart, s)
    ensures Fits(chart, r) && r.steps == s.steps && r.capped == s.capped
  {
    if s.nodes[n].result == rSTOP then s
    else
      var taken := s.nodes[n].result == rTRUE;
      PushAll(chart, s.(expansions := s.expansions + [Expansion(n, taken)]), chart[n].Subsequence(taken))
  }

  /** What happens to a node after its run. */
  ghost function Leave(chart: Chart, s: State, n: nat): (r: State)
    requires n < |chart| && Fits(chart, s)
    ensures Fits(chart, r) && r.steps == s.steps && r.capped == s.capped
  {
    var t := if s.nodes[n].place == OnStack then PopKeepsLinks(s); Pop(s) else s;
    var node := t.nodes[n];
    if node.status == Running then
      UpdateKeepsLinks(t, n, node.(runFlag := false));
      Update(t, n, node.(runFlag := false)).(busy := true)
    else
      UpdateKeepsLinks(t, n, node.(status := EndRun));
      Expand(chart, Update(t, n, node.(status := EndRun)), n)
  }

  /** One round of the main loop, for the node on top of the stack. */
  ghost function Round(chart: Chart, script: Script, tick: nat, s: State): (r: State)
    requires s.stack != [] && Fits(chart, s)
    ensures Fits(chart, r) && r.steps == s.steps && r.capped == s.capped
  {
    PopKeepsLinks(s);
    var n := Top(s);
    var node := s.nodes[n];
    if node.status == Running then
      Pop(s).(busy := true, revisits := s.revisits + [n])
    else if node.runFlag && !chart[n].noLoopCheck then
      WaitEventKeepsLinks(s, n, tick);
      WaitEvent(s, n, tick).(busy := true, revisits := s.revisits + [n])
    else
      Leave(chart, RunNode(chart, script, s, n), n)
  }

  /** Too many rounds: what is left on the stack ends at once. */
  ghost function Drain(chart: Chart, s: State): (r: State)
    requires Fits(chart, s)
    ensures Fits(chart, r)
    decreases |s.stack|
  {
    if s.stack == [] then s
    else
      PopKeepsLinks(s);
      var n := Top(s);
      var t := Pop(s);
      UpdateKeepsLinks(t, n, t.nodes[n].(status := EndRun));
      Drain(chart, Update(t, n, t.nodes[n].(status := EndRun)))
  }

  ghost function Loop(chart: Chart, script: Script, tick: nat, s: State, cap: nat): (r: State)
    requires Fits(chart, s) && s.steps <= cap
    ensures Fits(chart, r)
    decreases cap - s.steps
  {
    if s.stack == [] || !s.running then s
    else if s.steps == cap then Drain(chart, s).(capped := true)
    else Loop(chart, script, tick, Round(chart, script, tick, s).(steps := s.steps + 1), cap)
  }

  /** Resets nodes that ran: flags are cleared, ended nodes are stopped. */
  ghost function Reset(chart: Chart, s: State, done: set<nat>): (r: State)
    requires Fits(chart, s)
    ensures Fits(chart, r)
  {
    var t := s.(nodes := seq(|s.nodes|, n requires 0 <= n < |s.nodes| =>
                            if n in done then s.nodes[n].(runFlag := false) else s.nodes[n]));
    FlagsKeepLinks(s, t);
    StopKeepsLinks(t, Ended(s, done));
    StopAll(t, Ended(s, done))
  }

  function Ended(s: State, done: set<nat>): set<nat> {
    set n | n in done && n < |s.nodes| && s.nodes[n].status == EndRun
  }

  function Members(q: seq<nat>): set<nat> {
    set n | n in q
  }

  /** The end of a run: every node of the history is reset. */
  ghost function Settle(chart: Chart, s: State): (r: State)
    requires Fits(chart, s)
    ensures Fits(chart, r)
  {
    Reset(chart, s, Members(s.history)).(history := [])
  }

  lemma FlagsKeepLinks(s: State, t: State)
    requires Linked(s) && t.stack == s.stack && t.waiting == s.waiting && t.batch == s.batch && |t.nodes| == |s.nodes|
    requires forall n | 0 <= n < |s.nodes| :: t.nodes[n].place == s.nodes[n].place
    ensures Linked(t)
  {
    forall q, place | ListOf(q, s.nodes, place)
      ensures ListOf(q, t.nodes, place)
    {
    }
  }

  /** `Chart::CheckRunning` */
  predicate AnyRunning(s: State) {
    exists n | 0 <= n < |s.nodes| :: s.nodes[n].status == Running
  }

  /** A chart in which nothing runs returns by itself. */
  ghost function Conclude(chart: Chart, s: State): (r: State)
    requires Fits(chart, s)
    ensures Fits(chart, r)
  {
    if s.busy || AnyRunning(s) || !s.running then s
    else
      StopKeepsLinks(s, Everything(|chart|));
      StopAll(s, Everything(|chart|)).(running := false)
  }

  /** The state a run starts in. */
  ghost function Started(chart: Chart, s: State, start: nat): (r: State)
    requires start < |chart| && Fits(chart, s)
    ensures Fits(chart, r) && r.stack != [] && r.steps == 0 && !r.capped
  {
    UpdateKeepsLinks(s, start, s.nodes[start].(status := Idle));
    var t := Update(s, start, s.nodes[start].(status := Idle)).(busy := false, steps := 0, capped := false,
              calls := [], expansions := [], revisits := []);
    PushKeepsLinks(t, start);
    Push(t, start)
  }

  /** `DfsExecutor::RunFlow` */
  ghost function RunFlow(chart: Chart, script: Script, tick: nat, cap: nat, s: State, start: nat): (r: State)
    requires start < |chart| && Fits(chart, s)
    ensures Fits(chart, r)
  {
    if !s.running then s
    else Conclude(chart, Settle(chart, Loop(chart, script, tick, Started(chart, s, start), cap)))
  }

  // ----- What every run leaves behind

  /** Between runs: empty stack and history, no flags; a node that waits for an event runs,
      and a node is left ended only when it was stopped from within its own function. */
  predicate AtRest(s: State) {
    && s.stack == []
    && s.history == []
    && forall n | 0 <= n < |s.nodes| ::
         && !s.nodes[n].runFlag
         && (s.nodes[n].status == EndRun ==> s.nodes[n].result == rSTOP)
         && (s.nodes[n].place.Waiting? ==> s.nodes[n].status == Running)
  }

  predicate Tidy(node: Node, remembered: bool) {
    && (node.runFlag ==> remembered)
    && (node.status == EndRun ==> remembered || node.result == rSTOP)
    && (node.place.Waiting? ==> node.status == Running)
  }

  /** The loop invariant: flags and ended nodes are in the history. */
  predicate Tracked(s: State) {
    && (s.running || s.stack == [])
    && forall n | 0 <= n < |s.nodes| :: Tidy(s.nodes[n], n in s.history)
  }

  /** While a function runs, its node is on top of the stack, or waits, or was stopped. */
  predicate Current(s: State, n: nat) {
    && n < |s.nodes|
    && var node := s.nodes[n];
       && (node.place == OnStack ==> s.stack != [] && Top(s) == n)
       && (node.place != OnStack ==> node.status == Running || (node.result == rSTOP && !node.runFlag))
       && (node.place.Waiting? ==> node.status == Running)
       && (node.status == EndRun ==> node.place == OnStack)
  }

  /** Requests of node n touch other nodes only by stopping them. */
  predicate Tame(s: State, r: State, n: nat) {
    && |r.nodes| == |s.nodes|
    && r.history == s.history
    && (r.running == s.running || r.stack == [])
    && (s.stack == [] ==> r.stack == [])
    && forall m | 0 <= m < |s.nodes| && m != n :: r.nodes[m] == s.nodes[m] || r.nodes[m] == STOPPED
  }

  lemma {:induction false} WithoutKeepsLast(q: seq<nat>, gone: set<nat>)
    requires q != [] && q[|q| - 1] !in gone
    ensures var r := Without(q, gone); r != [] && r[|r| - 1] == q[|q| - 1]
  {
    if |q| > 1 {
      WithoutKeepsLast(q[1..], gone);
      var t := Without(q[1..], gone);
      assert Without(q, gone) == (if q[0] in gone then [] else [q[0]]) + t;
      assert t[|t| - 1] == q[|q| - 1];
    } else {
      assert Without(q[1..], gone) == [];
    }
  }

  lemma StopIsTame(s: State, n: nat, gone: set<nat>)
    requires Current(s, n)
    ensures Current(StopAll(s, gone), n) && Tame(s, StopAll(s, gone), n)
  {
    if n !in gone && s.nodes[n].place == OnStack {
      WithoutKeepsLast(s.stack, gone);
    }
  }

  lemma StopEmptiesStack(chart: Chart, s: State)
    requires Fits(chart, s)
    ensures StopAll(s, Everything(|chart|)).stack == []
  {
    var q := Without(s.stack, Everything(|chart|));
    if q != [] {
      SomethingIn(q);
    }
  }

  lemma SomethingIn(q: seq<nat>)
    requires q != []
    ensures exists n :: n in q
  {
    assert q[0] in q;
  }

  lemma WaitForIsTame(chart: Chart, s: State, n: nat, event: nat)
    requires n < |chart| && Fits(chart, s) && Current(s, n)
    ensures var r := ServeWaitFor(chart, s, n, event); Current(r, n) && Tame(s, r, n)
  {
    hide Without, Lists, WellFormed, Detach;
    var t := Update(s, n, s.nodes[n].(status := Running, skip := true, result := rTRUE));
    DetachMoves(t, n);
  }

  lemma ServeIsTame(chart: Chart, s: State, n: nat, request: Request)
    requires n < |chart| && Fits(chart, s) && Current(s, n)
    ensures var r := Serve(chart, s, n, request); Current(r, n) && Tame(s, r, n)
  {
    hide Without, Lists, WellFormed, ServeWaitFor, StopAll;
    match request
    case WaitFor(event) => WaitForIsTame(chart, s, n, event);
    case Wait =>
    case StopNodes(ids) => StopIsTame(s, n, ValidIds(ids, |chart|));
    case StopFlow(ids) => StopIsTame(s, n, Flow(chart, ids));
    case Return =>
      StopIsTame(s, n, Everything(|chart|));
      StopEmptiesStack(chart, s);
  }

  lemma {:induction false} ServeAllIsTame(chart: Chart, s: State, n: nat, requests: seq<Request>)
    requires n < |chart| && Fits(chart, s) && Current(s, n)
    ensures var r := ServeAll(chart, s, n, requests); Current(r, n) && Tame(s, r, n)
    decreases |requests|
  {
    hide Serve, Current, Lists, WellFormed;
    if requests != [] {
      ServeIsTame(chart, s, n, requests[0]);
      ServeAllIsTame(chart, Serve(chart, s, n, requests[0]), n, requests[1..]);
    }
  }

  lemma RunNodeIsTame(chart: Chart, script: Script, s: State, n: nat)
    requires n < |chart| && Fits(chart, s) && s.stack != [] && Top(s) == n && s.nodes[n].place == OnStack
    ensures var r := RunNode(chart, script, s, n); Current(r, n) && Tame(s, r, n)
  {
    hide ServeAll, Lists, WellFormed;
    var node := s.nodes[n];
    if !node.skip {
      UpdateKeepsLinks(s, n, node.(runFlag := true, result := rFALSE));
      var t := Update(s, n, node.(runFlag := true, result := rFALSE)).(calls := s.calls + [n]);
      ServeAllIsTame(chart, t, n, script(s.calls, n).requests);
    }
  }

  /** Pushing changes places only. */
  predicate Moved(s: State, r: State) {
    && |r.nodes| == |s.nodes|
    && r.history == s.history
    && r.running == s.running
    && forall m | 0 <= m < |s.nodes| ::
         r.nodes[m] == s.nodes[m] || r.nodes[m] == s.nodes[m].(place := OnStack)
  }

  lemma PushMoves(s: State, n: nat)
    requires n < |s.nodes| && Linked(s)
    ensures Moved(s, Push(s, n))
  {
    hide Without, Lists, Detach;
    DetachMoves(s, n);
  }

  lemma {:induction false} PushAllMoves(chart: Chart, s: State, ids: seq<nat>)
    requires InChart(ids, |chart|) && Fits(chart, s)
    ensures Moved(s, PushAll(chart, s, ids))
    decreases |ids|
  {
    hide Push, Lists, WellFormed;
    if ids != [] {
      var last := ids[|ids| - 1];
      PushKeepsLinks(s, last);
      PushMoves(s, last);
      PushAllMoves(chart, Push(s, last), ids[..|ids| - 1]);
    }
  }

  lemma LeaveIsTracked(chart: Chart, s: State, n: nat)
    requires n < |chart| && Fits(chart, s) && Current(s, n)
    requires s.running || s.stack == []
    requires forall m | 0 <= m < |s.nodes| && m != n :: Tidy(s.nodes[m], m in s.history)
    ensures Tracked(Leave(chart, s, n))
  {
    hide Expand, Lists, WellFormed, Without, Tidy;
    var t := if s.nodes[n].place == OnStack then Pop(s) else s;
    if s.nodes[n].place == OnStack {
      PopKeepsLinks(s);
      assert t.history[|t.history| - 1] == n;
    }
    OthersStayTidy(s, t, n);
    var node := t.nodes[n];
    if node.status == Running {
      RunningIsTidy(node, n in t.history);
    } else {
      UpdateKeepsLinks(t, n, node.(status := EndRun));
      var u := Update(t, n, node.(status := EndRun));
      EndedIsTidy(node, n in t.history);
      ExpandMoves(chart, u, n);
      MovedStaysTracked(u, Expand(chart, u, n));
    }
  }

  lemma RunningIsTidy(node: Node, remembered: bool)
    requires node.status == Running
    ensures Tidy(node.(runFlag := false), remembered)
  {
  }

  lemma EndedIsTidy(node: Node, remembered: bool)
    requires remembered || (node.result == rSTOP && !node.runFlag)
    requires !node.place.Waiting?
    ensures Tidy(node.(status := EndRun), remembered)
  {
  }

  lemma OthersStayTidy(s: State, t: State, n: nat)
    requires n < |s.nodes| == |t.nodes| && s.history <= t.history
    requires forall m | 0 <= m < |s.nodes| && m != n :: t.nodes[m] == s.nodes[m] && Tidy(s.nodes[m], m in s.history)
    ensures forall m | 0 <= m < |t.nodes| && m != n :: Tidy(t.nodes[m], m in t.history)
  {
    forall m | m in s.history
      ensures m in t.history
    {
      var i :| 0 <= i < |s.history| && s.history[i] == m;
      assert t.history[i] == m;
    }
  }

  lemma MovedStaysTracked(s: State, r: State)
    requires forall m | 0 <= m < |s.nodes| :: Tidy(s.nodes[m], m in s.history)
    requires Moved(s, r) && (r == s || r.running) && (s.running || s.stack == [])
    ensures Tracked(r)
  {
    forall m | 0 <= m < |r.nodes|
      ensures Tidy(r.nodes[m], m in r.history)
    {
      assert Tidy(s.nodes[m], m in s.history);
    }
  }

  lemma ExpandMoves(chart: Chart, s: State, n: nat)
    requires n < |chart| && Fits(chart, s)
    ensures Moved(s, Expand(chart, s, n))
    ensures s.nodes[n].result == rSTOP ==> Expand(chart, s, n) == s
  {
    hide PushAll, Lists;
    if s.nodes[n].result != rSTOP {
      var taken := s.nodes[n].result == rTRUE;
      PushAllMoves(chart, s.(expansions := s.expansions + [Expansion(n, taken)]), chart[n].Subsequence(taken));
    }
  }

  lemma RoundIsTracked(chart: Chart, script: Script, tick: nat, s: State)
    requires s.stack != [] && Fits(chart, s) && Tracked(s)
    ensures Tracked(Round(chart, script, tick, s))
  {
    hide RunNode, Leave, Without, Lists, WellFormed;
    PopKeepsLinks(s);
    var n := Top(s);
    var node := s.nodes[n];
    if node.status == Running {
      assert forall m :: m in s.history ==> m in Pop(s).history;
    } else if node.runFlag && !chart[n].noLoopCheck {
    } else {
      RunNodeIsTame(chart, script, s, n);
      LeaveIsTracked(chart, RunNode(chart, script, s, n), n);
    }
  }

  lemma {:induction false} DrainIsTracked(chart: Chart, s: State)
    requires Fits(chart, s) && Tracked(s)
    ensures Tracked(Drain(chart, s)) && Drain(chart, s).stack == []
    decreases |s.stack|
  {
    hide Lists, WellFormed;
    if s.stack != [] {
      PopKeepsLinks(s);
      var n := Top(s);
      var t := Pop(s);
      assert t.history[|t.history| - 1] == n;
      assert forall m :: m in s.history ==> m in t.history;
      UpdateKeepsLinks(t, n, t.nodes[n].(status := EndRun));
      DrainIsTracked(chart, Update(t, n, t.nodes[n].(status := EndRun)));
    }
  }

  lemma {:induction false} LoopIsTracked(chart: Chart, script: Script, tick: nat, s: State, cap: nat)
    requires Fits(chart, s) && s.steps <= cap && Tracked(s)
    ensures var r := Loop(chart, script, tick, s, cap); Tracked(r) && r.stack == []
    decreases cap - s.steps
  {
    hide Round, Drain, Lists, WellFormed;
    if s.stack != [] && s.running {
      if s.steps == cap {
        DrainIsTracked(chart, s);
      } else {
        RoundIsTracked(chart, script, tick, s);
        LoopIsTracked(chart, script, tick, Round(chart, script, tick, s).(steps := s.steps + 1), cap);
      }
    }
  }

  /** Whatever the functions do, a run ends at rest, and its containers are consistent. */
  lemma RunsEndAtRest(chart: Chart, script: Script, tick: nat, cap: nat, s: State, start: nat)
    requires start < |chart| && Fits(chart, s) && AtRest(s)
    ensures var r := RunFlow(chart, script, tick, cap, s, start); Fits(chart, r) && AtRest(r)
  {
    hide Loop, Without, Lists, WellFormed;
    if s.running {
      var t := Started(chart, s, start);
      LoopIsTracked(chart, script, tick, t, cap);
      var u := Loop(chart, script, tick, t, cap);
      var v := Settle(chart, u);
      assert AtRest(v);
    }
  }

  // ----- The order of the children

  /** The ids last to first; an id that is listed twice counts where it is listed first. */
  function LastToFirst(ids: seq<nat>): seq<nat> {
    if ids == [] then []
    else
      var most, last := ids[..|ids| - 1], ids[|ids| - 1];
      (if last in most then [] else [last]) + LastToFirst(most)
  }

  lemma WithoutStep(n: nat, rest: seq<nat>, gone: set<nat>)
    ensures Without([n] + rest, gone) == (if n in gone then [] else [n]) + Without(rest, gone)
  {
    assert ([n] + rest)[1..] == rest;
  }

  lemma WithoutOne(n: nat, gone: set<nat>)
    ensures Without([], gone) == [] && Without([n], gone) == if n in gone then [] else [n]
  {
    assert [n][1..] == [];
  }

  lemma Associative(a: seq<nat>, b: seq<nat>, c: seq<nat>)
    ensures a + (b + c) == (a + b) + c
  {
  }

  lemma {:induction false} WithoutLast(q: seq<nat>, n: nat, gone: set<nat>)
    ensures Without(q + [n], gone) == Without(q, gone) + if n in gone then [] else [n]
  {
    hide Without;
    var last := if n in gone then [] else [n];
    if q == [] {
      WithoutOne(n, gone);
      assert [] + [n] == [n] && [] + last == last;
    } else {
      var first, rest := q[0], q[1..];
      WithoutLast(rest, n, gone);
      WithoutStep(first, rest, gone);
      WithoutStep(first, rest + [n], gone);
      Associative([first], rest, [n]);
      Associative(if first in gone then [] else [first], Without(rest, gone), last);
      assert q == [first] + rest;
    }
  }

  lemma PushFits(chart: Chart, s: State, n: nat)
    requires Fits(chart, s) && n < |chart|
    ensures Fits(chart, Push(s, n))
  {
    PushKeepsLinks(s, n);
    hide Lists, Without;
  }

  lemma PushOnTop(s: State, n: nat)
    requires n < |s.nodes| && Linked(s)
    ensures Push(s, n).stack == Without(s.stack, {n}) + [n]
  {
    DetachMoves(s, n);
    if s.nodes[n].place != OnStack {
      assert n !in s.stack;
      WithoutNone(s.stack, {n});
    }
  }

  lemma {:induction false} PushedOnTop(chart: Chart, s: State, ids: seq<nat>)
    requires InChart(ids, |chart|) && Fits(chart, s)
    ensures PushAll(chart, s, ids).stack == Without(s.stack, Members(ids)) + LastToFirst(ids)
    decreases |ids|
  {
    hide Lists, WellFormed, Without, Push, Members;
    if ids == [] {
      assert Members(ids) == {} by { NoMembers(); }
      WithoutNone(s.stack, {});
    } else {
      var most, last := ids[..|ids| - 1], ids[|ids| - 1];
      PushFits(chart, s, last);
      PushOnTop(s, last);
      PushedOnTop(chart, Push(s, last), most);
      OneMoreOnTop(s.stack, ids);
      hide Fits, InChart, LastToFirst;
    }
  }

  lemma OneMoreOnTop(stack: seq<nat>, ids: seq<nat>)
    requires ids != []
    ensures var most, last := ids[..|ids| - 1], ids[|ids| - 1];
            Without(Without(stack, {last}) + [last], Members(most)) + LastToFirst(most) ==
            Without(stack, Members(ids)) + LastToFirst(ids)
  {
    var most, last := ids[..|ids| - 1], ids[|ids| - 1];
    WithoutLast(Without(stack, {last}), last, Members(most));
    WithoutTwice(stack, {last}, Members(most));
    MembersSplit(ids);
    hide Without, Members;
    Regroup(Without(Without(stack, {last}) + [last], Members(most)), Without(stack, Members(ids)),
            if last in most then [] else [last], LastToFirst(most), LastToFirst(ids));
  }

  lemma Regroup(x: seq<nat>, a: seq<nat>, b: seq<nat>, c: seq<nat>, d: seq<nat>)
    requires x == a + b && d == b + c
    ensures x + c == a + d
  {
  }

  lemma {:induction false} FirstIsLast(ids: seq<nat>)
    requires ids != []
    ensures var r := LastToFirst(ids); r != [] && r[|r| - 1] == ids[0]
  {
    var most := ids[..|ids| - 1];
    if most != [] {
      FirstIsLast(most);
    } else {
      assert LastToFirst(most) == [];
    }
  }

  /** Depth first: the children end up on top of the stack, the first one topmost, each once;
      one that was on the stack already has moved up, and the rest of the stack keeps its
      order. */
  lemma ChildrenComeNext(chart: Chart, s: State, ids: seq<nat>)
    requires InChart(ids, |chart|) && Fits(chart, s)
    ensures var r := PushAll(chart, s, ids);
            && r.stack == Without(s.stack, Members(ids)) + LastToFirst(ids)
            && (ids != [] ==> r.stack != [] && Top(r) == ids[0])
  {
    hide Fits, InChart, PushAll, LastToFirst, Members, Without;
    PushedOnTop(chart, s, ids);
    if ids != [] {
      FirstIsLast(ids);
    }
  }

  lemma NoMembers()
    ensures Members([]) == {}
  {
  }

  lemma MembersSplit(ids: seq<nat>)
    requires ids != []
    ensures var most, last := ids[..|ids| - 1], ids[|ids| - 1];
            Members(ids) == {last} + Members(most) && (last in most <==> last in Members(most))
  {
    assert ids == ids[..|ids| - 1] + [ids[|ids| - 1]];
  }

  // ----- Nodes that stop themselves

  ghost predicate Stops(chart: Chart, n: nat, request: Request) {
    match request
    case StopNodes(ids) => n in ValidIds(ids, |chart|)
    case StopFlow(ids) => n in Flow(chart, ids)
    case Return => true
    case _ => false
  }

  /** Waiting overrides an earlier stop; only an event node can wait for an event. */
  predicate Waits(chart: Chart, n: nat, request: Request)
    requires n < |chart|
  {
    request.Wait? || (request.WaitFor? && chart[n].isEvent)
  }

  /** The node stops itself and asks for no wait afterwards. */
  ghost predicate StopsItself(chart: Chart, n: nat, requests: seq<Request>)
    requires n < |chart|
  {
    exists i | 0 <= i < |requests| :: StopsLast(chart, n, requests, i)
  }

  ghost predicate StopsLast(chart: Chart, n: nat, requests: seq<Request>, i: nat)
    requires n < |chart| && i < |requests|
  {
    Stops(chart, n, requests[i]) && forall j | i < j < |requests| :: !Waits(chart, n, requests[j])
  }

  /** Nothing is pushed or expanded. */
  predicate OnlyLoses(s: State, r: State) {
    && |r.nodes| == |s.nodes|
    && r.expansions == s.expansions
    && forall m | m in r.stack :: m in s.stack
  }

  lemma ServeOnlyLoses(chart: Chart, s: State, n: nat, request: Request)
    requires n < |chart| && Fits(chart, s)
    ensures var r := Serve(chart, s, n, request);
            && OnlyLoses(s, r)
            && (Stops(chart, n, request) ==> r.nodes[n] == STOPPED)
            && (!Waits(chart, n, request) && s.nodes[n] == STOPPED ==> r.nodes[n] == STOPPED)
  {
    hide Without, Lists, WellFormed, Detach;
    if request.WaitFor? && chart[n].isEvent {
      var t := Update(s, n, s.nodes[n].(status := Running, skip := true, result := rTRUE));
      DetachMoves(t, n);
    }
  }

  lemma {:induction false} ServeAllOnlyLoses(chart: Chart, s: State, n: nat, requests: seq<Request>)
    requires n < |chart| && Fits(chart, s)
    ensures OnlyLoses(s, ServeAll(chart, s, n, requests))
    decreases |requests|
  {
    hide Serve, Lists, WellFormed;
    if requests != [] {
      ServeOnlyLoses(chart, s, n, requests[0]);
      ServeAllOnlyLoses(chart, Serve(chart, s, n, requests[0]), n, requests[1..]);
    }
  }

  lemma {:induction false} StaysStopped(chart: Chart, s: State, n: nat, requests: seq<Request>)
    requires n < |chart| && Fits(chart, s) && s.nodes[n] == STOPPED
    requires forall j | 0 <= j < |requests| :: !Waits(chart, n, requests[j])
    ensures ServeAll(chart, s, n, requests).nodes[n] == STOPPED
    decreases |requests|
  {
    hide Serve, Lists, WellFormed, Waits;
    if requests != [] {
      ServeOnlyLoses(chart, s, n, requests[0]);
      StaysStopped(chart, Serve(chart, s, n, requests[0]), n, requests[1..]);
    }
  }

  lemma {:induction false} EndsStopped(chart: Chart, s: State, n: nat, requests: seq<Request>, i: nat)
    requires n < |chart| && Fits(chart, s) && i < |requests| && StopsLast(chart, n, requests, i)
    ensures ServeAll(chart, s, n, requests).nodes[n] == STOPPED
    decreases |requests|
  {
    hide Serve, Lists, WellFormed, Waits, Stops;
    ServeOnlyLoses(chart, s, n, requests[0]);
    var t := Serve(chart, s, n, requests[0]);
    if i == 0 {
      StaysStopped(chart, t, n, requests[1..]);
    } else {
      EndsStopped(chart, t, n, requests[1..], i - 1);
    }
  }

  /** A node that stops itself and asks for no wait afterwards pushes no children, whatever its
      function answers. */
  lemma StoppedNodePushesNothing(chart: Chart, script: Script, tick: nat, s: State)
    requires s.stack != [] && Fits(chart, s) && Top(s) < |s.nodes|
    requires var node := s.nodes[Top(s)];
             node.status != Running && !node.skip && !(node.runFlag && !chart[Top(s)].noLoopCheck)
    requires StopsItself(chart, Top(s), script(s.calls, Top(s)).requests)
    ensures var n, r := Top(s), Round(chart, script, tick, s);
            && OnlyLoses(s, r)
            && n !in r.stack
            && r.nodes[n] == STOPPED.(status := EndRun)
  {
    hide ServeAll, Lists, WellFormed;
    PopKeepsLinks(s);
    var n := Top(s);
    var node := s.nodes[n];
    UpdateKeepsLinks(s, n, node.(runFlag := true, result := rFALSE));
    var t := Update(s, n, node.(runFlag := true, result := rFALSE)).(calls := s.calls + [n]);
    var requests := script(s.calls, n).requests;
    var i :| 0 <= i < |requests| && StopsLast(chart, n, requests, i);
    EndsStopped(chart, t, n, requests, i);
    ServeAllOnlyLoses(chart, t, n, requests);
    var u := ServeAll(chart, t, n, requests);
    assert RunNode(chart, script, s, n) == u;
    StoppedIsOffStack(u, n);
  }

  lemma StoppedIsOffStack(s: State, n: nat)
    requires n < |s.nodes| && Linked(s) && s.nodes[n] == STOPPED
    ensures n !in s.stack
  {
  }
}
