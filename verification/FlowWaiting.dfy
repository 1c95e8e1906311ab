/** Nodes that ask to wait, and what becomes of them in their round and when they run again. */
module FlowWaiting {
  import opened Flowchart
  import opened FlowExecutor

  /** What a request to wait for time leaves behind: the node is armed, runs, and will skip its
      function with a true result; it stays where it is, and nothing else changes. */
  lemma WaitDoes(chart: Chart, s: State, n: nat)
    requires n < |chart| && Fits(chart, s)
    ensures var r := Serve(chart, s, n, Wait);
            && OthersSame(s, r, {n}) && r == s.(nodes := r.nodes)
            && r.nodes[n].armed && r.nodes[n].status == Running && r.nodes[n].skip && r.nodes[n].result == rTRUE
            && r.nodes[n].place == s.nodes[n].place && r.nodes[n].runFlag == s.nodes[n].runFlag
  {
    hide Lists, WellFormed;
  }

  /** A request to wait for an event is only served for an event node. In range, the node leaves
      the list it is in, becomes the last one that waits for the event, runs, and will skip its
      function with a true result; no other node changes. */
  lemma WaitForDoes(chart: Chart, s: State, n: nat, event: nat)
    requires n < |chart| && Fits(chart, s)
    ensures !chart[n].isEvent ==> Serve(chart, s, n, WaitFor(event)) == s
    ensures chart[n].isEvent ==>
              var r := Serve(chart, s, n, WaitFor(event));
              && OthersSame(s, r, {n}) && |r.waiting| == |s.waiting|
              && r.nodes[n].status == Running && r.nodes[n].skip && r.nodes[n].result == rTRUE
              && r.nodes[n].armed == s.nodes[n].armed && r.nodes[n].runFlag == s.nodes[n].runFlag
              && r == s.(nodes := r.nodes, stack := r.stack, waiting := r.waiting, batch := r.batch)
              && if event >= |s.waiting| then r == s.(nodes := r.nodes) && r.nodes[n].place == s.nodes[n].place
                 else
                   && r.nodes[n].place == Waiting(event)
                   && r.waiting[event] == Without(s.waiting[event], {n}) + [n]
                   && Removed(s, r.(waiting := r.waiting[event := Without(s.waiting[event], {n})]), {n})
  {
    hide Lists, WellFormed, WaitEvent, Without, ListOf;
    if chart[n].isEvent {
      var t := Update(s, n, s.nodes[n].(status := Running, skip := true, result := rTRUE));
      UpdateKeepsLinks(s, n, t.nodes[n]);
      WaitEventDoes(t, n, event);
    }
  }

  ghost predicate IsNamed(chart: Chart, request: Request, m: nat) {
    match request
    case StopNodes(ids) => m in ids
    case StopFlow(ids) => m in Flow(chart, ids)
    case _ => true
  }

  predicate IsStopped(s: State, m: nat) {
    && m < |s.nodes|
    && var node := s.nodes[m];
       && node.status == Idle && node.result == rSTOP && node.place == Nowhere
       && !node.runFlag && !node.skip && !node.armed
       && m !in s.stack && m !in s.batch && forall e | 0 <= e < |s.waiting| :: m !in s.waiting[e]
  }

  /** Requests to stop: every node named, with its flow where that is asked for, or all nodes and
      the chart, are stopped and in no list; all other nodes stay as they are. */
  lemma StopRequestsDo(chart: Chart, s: State, n: nat, request: Request)
    requires n < |chart| && Fits(chart, s) && (request.StopNodes? || request.StopFlow? || request.Return?)
    ensures var r := Serve(chart, s, n, request);
            && r.running == (s.running && !request.Return?)
            && forall m: nat | m < |chart| :: if IsNamed(chart, request, m) then IsStopped(r, m) else r.nodes[m] == s.nodes[m]
  {
    hide Lists, WellFormed, Without;
  }

  /** The node asks to wait, and neither stops itself nor asks to wait again afterwards. */
  ghost predicate WaitsLast(chart: Chart, n: nat, requests: seq<Request>, i: nat)
    requires n < |chart| && i < |requests|
  {
    && Waits(chart, n, requests[i])
    && forall j | i < j < |requests| :: !Waits(chart, n, requests[j]) && !Stops(chart, n, requests[j])
  }

  /** How a node stands after a request to wait. */
  ghost predicate Stays(s: State, n: nat, request: Request) {
    && n < |s.nodes|
    && var node := s.nodes[n];
       && node.status == Running && node.skip && node.result == rTRUE
       && (request.Wait? ==> node.armed)
       && (request.WaitFor? && request.event < |s.waiting| ==> node.place == Waiting(request.event))
  }

  lemma WaitingIsServed(chart: Chart, s: State, n: nat, request: Request)
    requires n < |chart| && Fits(chart, s) && Waits(chart, n, request)
    ensures var r := Serve(chart, s, n, request);
            Stays(r, n, request) && |r.waiting| == |s.waiting|
  {
    hide Lists, WellFormed, Serve, Removed;
    match request
    case Wait => WaitDoes(chart, s, n);
    case WaitFor(event) => WaitForDoes(chart, s, n, event);
    case _ =>
  }

  lemma OtherRequestsKeep(chart: Chart, s: State, n: nat, request: Request)
    requires n < |chart| && Fits(chart, s) && !Waits(chart, n, request) && !Stops(chart, n, request)
    ensures var r := Serve(chart, s, n, request); r.nodes[n] == s.nodes[n] && |r.waiting| == |s.waiting|
  {
    hide Lists, WellFormed, Without;
  }

  lemma {:induction false} RestKeeps(chart: Chart, s: State, n: nat, requests: seq<Request>)
    requires n < |chart| && Fits(chart, s)
    requires forall j | 0 <= j < |requests| :: !Waits(chart, n, requests[j]) && !Stops(chart, n, requests[j])
    ensures var r := ServeAll(chart, s, n, requests); r.nodes[n] == s.nodes[n] && |r.waiting| == |s.waiting| && r.calls == s.calls
    decreases |requests|
  {
    hide Serve, Lists, WellFormed, Waits, Stops;
    if requests != [] {
      OtherRequestsKeep(chart, s, n, requests[0]);
      ServeKeepsEvents(chart, s, n, requests[0]);
      RestKeeps(chart, Serve(chart, s, n, requests[0]), n, requests[1..]);
    }
  }

  lemma ServeKeepsEvents(chart: Chart, s: State, n: nat, request: Request)
    requires n < |chart| && Fits(chart, s)
    ensures var r := Serve(chart, s, n, request); |r.waiting| == |s.waiting| && r.calls == s.calls
  {
    hide Lists, WellFormed, Without;
  }

  lemma {:induction false} LastWaitCounts(chart: Chart, s: State, n: nat, requests: seq<Request>, i: nat)
    requires n < |chart| && Fits(chart, s) && i < |requests| && WaitsLast(chart, n, requests, i)
    ensures var r := ServeAll(chart, s, n, requests); Stays(r, n, requests[i]) && |r.waiting| == |s.waiting| && r.calls == s.calls
    decreases |requests|
  {
    hide Serve, Lists, WellFormed, Waits, Stops;
    var t := Serve(chart, s, n, requests[0]);
    ServeKeepsEvents(chart, s, n, requests[0]);
    if i == 0 {
      WaitingIsServed(chart, s, n, requests[0]);
      RestKeeps(chart, t, n, requests[1..]);
    } else {
      LastWaitCounts(chart, t, n, requests[1..], i - 1);
    }
  }

  /** A node whose last effective request is to wait pushes no children in its round, whatever
      its function answers: it keeps running, armed or in the list of its event, and when it
      runs again it will skip its function, with the result that the function gave. */
  lemma WaitingNodePushesNothing(chart: Chart, script: Script, tick: nat, s: State, i: nat)
    requires s.stack != [] && Fits(chart, s) && Top(s) < |s.nodes|
    requires var node := s.nodes[Top(s)];
             node.status != Running && !node.skip && !(node.runFlag && !chart[Top(s)].noLoopCheck)
    requires var requests := script(s.calls, Top(s)).requests;
             i < |requests| && WaitsLast(chart, Top(s), requests, i)
    ensures var n, r := Top(s), Round(chart, script, tick, s);
            var reply := script(s.calls, n);
            && OnlyLoses(s, r) && r.calls == s.calls + [n] && r.busy
            && n < |r.nodes|
            && var node := r.nodes[n];
               && node.status == Running && node.skip && !node.runFlag && node.result == ResultOf(reply.answer)
               && (reply.requests[i].Wait? ==> node.armed)
               && (reply.requests[i].WaitFor? && reply.requests[i].event < |s.waiting| ==>
                     node.place == Waiting(reply.requests[i].event))
               && node.place != OnStack
  {
    hide ServeAll, Lists, WellFormed, Leave, Waits, Stops, Current, Tame;
    PopKeepsLinks(s);
    var n := Top(s);
    var node := s.nodes[n];
    UpdateKeepsLinks(s, n, node.(runFlag := true, result := rFALSE));
    var t := Update(s, n, node.(runFlag := true, result := rFALSE)).(calls := s.calls + [n]);
    var requests := script(s.calls, n).requests;
    LastWaitCounts(chart, t, n, requests, i);
    ServeAllOnlyLoses(chart, t, n, requests);
    RunNodeIsTame(chart, script, s, n);
    RunningLeaves(chart, RunNode(chart, script, s, n), n);
  }

  lemma RunningLeaves(chart: Chart, s: State, n: nat)
    requires n < |chart| && Fits(chart, s) && Current(s, n) && s.nodes[n].status == Running
    ensures var r := Leave(chart, s, n);
            && OnlyLoses(s, r) && r.calls == s.calls && r.busy && r.waiting == s.waiting
            && r.nodes[n] == s.nodes[n].(runFlag := false, place := if s.nodes[n].place == OnStack then Nowhere else s.nodes[n].place)
  {
    hide Lists, WellFormed;
  }

  /** The children a node pushes are topmost in their order, above what was on the stack. */
  predicate OnTop(before: seq<nat>, after: seq<nat>, ids: seq<nat>) {
    after == Without(before, Members(ids)) + LastToFirst(ids)
  }

  lemma EndedLeaves(chart: Chart, s: State, n: nat)
    requires n < |chart| && Fits(chart, s) && s.stack != [] && Top(s) == n && s.nodes[n].place == OnStack
    requires s.nodes[n].status != Running && s.nodes[n].result != rSTOP
    ensures var r, taken := Leave(chart, s, n), s.nodes[n].result == rTRUE;
            && r.calls == s.calls && r.expansions == s.expansions + [Expansion(n, taken)]
            && OnTop(s.stack[..|s.stack| - 1], r.stack, if taken then chart[n].onTrue else chart[n].onFalse)
  {
    hide Lists, WellFormed, PushAll, Without, Members, LastToFirst;
    PopKeepsLinks(s);
    var v := Pop(s);
    UpdateKeepsLinks(v, n, v.nodes[n].(status := EndRun));
    var taken := s.nodes[n].result == rTRUE;
    var w := Update(v, n, v.nodes[n].(status := EndRun)).(expansions := s.expansions + [Expansion(n, taken)]);
    PushedInto(chart, w, n, taken);
    assert Leave(chart, s, n) == PushAll(chart, w, chart[n].Subsequence(taken));
  }

  /** A node that neither asks to wait nor stops itself ends, and pushes the children that its
      answer selects. */
  lemma ServedNodeExpands(chart: Chart, script: Script, tick: nat, s: State) returns (rest: seq<nat>)
    requires s.stack != [] && Fits(chart, s) && Top(s) < |s.nodes|
    requires var node := s.nodes[Top(s)];
             node.status != Running && !node.skip && !(node.runFlag && !chart[Top(s)].noLoopCheck)
    requires var n := Top(s);
             var requests := script(s.calls, n).requests;
             forall j | 0 <= j < |requests| :: !Waits(chart, n, requests[j]) && !Stops(chart, n, requests[j])
    ensures var n, r := Top(s), Round(chart, script, tick, s);
            var answer := script(s.calls, n).answer;
            && r.calls == s.calls + [n] && r.expansions == s.expansions + [Expansion(n, answer)]
            && (forall m | m in rest :: m in s.stack)
            && OnTop(rest, r.stack, if answer then chart[n].onTrue else chart[n].onFalse)
  {
    hide ServeAll, Lists, WellFormed, Leave, Waits, Stops, OnTop;
    PopKeepsLinks(s);
    var n := Top(s);
    var node := s.nodes[n];
    UpdateKeepsLinks(s, n, node.(runFlag := true, result := rFALSE));
    var t := Update(s, n, node.(runFlag := true, result := rFALSE)).(calls := s.calls + [n]);
    var requests := script(s.calls, n).requests;
    RestKeeps(chart, t, n, requests);
    ServeAllOnlyLoses(chart, t, n, requests);
    RunNodeIsTame(chart, script, s, n);
    var u := RunNode(chart, script, s, n);
    rest := u.stack[..|u.stack| - 1];
    EndedLeaves(chart, u, n);
  }

  /** A node that skips its function is not called when it runs; the result it has selects the
      edges, and their ends come next, the first one topmost. */
  lemma ResumedNodeSkips(chart: Chart, script: Script, tick: nat, s: State)
    requires s.stack != [] && Fits(chart, s) && Top(s) < |s.nodes|
    requires var node := s.nodes[Top(s)]; node.status != Running && node.skip && !node.runFlag && node.result != rSTOP
    ensures var n, r := Top(s), Round(chart, script, tick, s);
            var taken := s.nodes[n].result == rTRUE;
            var ids := if taken then chart[n].onTrue else chart[n].onFalse;
            && r.calls == s.calls && r.expansions == s.expansions + [Expansion(n, taken)]
            && OnTop(s.stack[..|s.stack| - 1], r.stack, ids)
  {
    hide Lists, WellFormed, Leave, OnTop;
    PopKeepsLinks(s);
    var n := Top(s);
    var u := Update(s, n, s.nodes[n].(skip := false));
    UpdateKeepsLinks(s, n, u.nodes[n]);
    EndedLeaves(chart, u, n);
  }

  lemma PushedInto(chart: Chart, s: State, n: nat, taken: bool)
    requires n < |chart| && Fits(chart, s)
    ensures InChart(chart[n].Subsequence(taken), |chart|)
    ensures var ids := if taken then chart[n].onTrue else chart[n].onFalse;
            var r := PushAll(chart, s, chart[n].Subsequence(taken));
            && r.calls == s.calls && r.expansions == s.expansions
            && r.stack == Without(s.stack, Members(ids)) + LastToFirst(ids)
  {
    hide Lists, Without, Members, LastToFirst, PushAll;
    ChildrenComeNext(chart, s, chart[n].Subsequence(taken));
    PushAllRecordsNothing(chart, s, chart[n].Subsequence(taken));
  }

  lemma {:induction false} PushAllRecordsNothing(chart: Chart, s: State, ids: seq<nat>)
    requires InChart(ids, |chart|) && Fits(chart, s)
    ensures var r := PushAll(chart, s, ids); r.calls == s.calls && r.expansions == s.expansions
    decreases |ids|
  {
    hide Lists, WellFormed;
    if ids != [] {
      PushKeepsLinks(s, ids[|ids| - 1]);
      PushAllRecordsNothing(chart, Push(s, ids[|ids| - 1]), ids[..|ids| - 1]);
    }
  }

  /** At the end of a run the chart returns by itself exactly when no node runs and none has been
      met running; then every node is stopped, and otherwise nothing changes. */
  lemma ChartsReturn(chart: Chart, s: State)
    requires Fits(chart, s) && s.running
    ensures var r := Conclude(chart, s);
            && (r.running <==> s.busy || exists n | 0 <= n < |s.nodes| :: s.nodes[n].status == Running)
            && (r.running ==> r == s)
            && (!r.running ==> forall n: nat | n < |chart| :: IsStopped(r, n))
  {
    hide Lists, WellFormed, Without;
  }
}
