/** Runs of charts whose functions only answer true or false. */
module FlowPlain {
  import opened Flowchart
  import opened FlowExecutor

  ghost predicate Plain(script: Script) {
    forall calls, n {:trigger script(calls, n)} :: script(calls, n).requests == []
  }

  predicate LoopsAreChecked(chart: Chart) {
    forall n | 0 <= n < |chart| :: !chart[n].noLoopCheck
  }

  /** A chart in which nothing happens but that its start node may have been set running and
      told to skip its function, with a result that selects edges. */
  predicate Clean(s: State, start: nat) {
    && start < |s.nodes|
    && s.running
    && AtRest(s)
    && (s.nodes[start].skip ==> s.nodes[start].result != rSTOP)
    && forall n | 0 <= n < |s.nodes| ::
         s.nodes[n].place == Nowhere && (n != start ==> s.nodes[n].status == Idle && !s.nodes[n].skip)
  }

  /** The edges that a sequence of calls selects. */
  ghost function Taken(script: Script, calls: seq<nat>): seq<Expansion>
    decreases |calls|
  {
    if calls == [] then []
    else
      var before, n := calls[..|calls| - 1], calls[|calls| - 1];
      Taken(script, before) + [Expansion(n, script(before, n).answer)]
  }

  // ----- The loop invariant

  /** How a node stands: never reached again after its call, reached once more and parked
      until the next tick, or reached more often and then in no list at all. */
  predicate Stands(node: Node, called: bool, again: nat, tick: nat, remembered: bool) {
    && node.runFlag == called
    && !node.skip
    && (node.status == EndRun ==> remembered)
    && (called ==> remembered)
    && (again == 0 ==> (node.status == EndRun || !called) && node.status != Running && node.place in {Nowhere, OnStack})
    && (again == 1 ==> called && node.status == Running && node.place in {Waiting(tick), OnStack})
    && (again > 1 ==> called && node.status == Running && node.place in {Nowhere, OnStack})
  }

  predicate AllStand(s: State, tick: nat) {
    forall n | 0 <= n < |s.nodes| ::
      Stands(s.nodes[n], n in s.calls, multiset(s.revisits)[n], tick, n in s.history)
  }

  predicate Covered(s: State, c: nat) {
    c in s.stack || c in s.calls
  }

  /** Every child of an expanded node is on the stack or has been visited. */
  predicate Closing(chart: Chart, s: State) {
    forall x | x in s.expansions ::
      x.node < |chart| && AllCovered(s, chart[x.node].Subsequence(x.taken))
  }

  predicate AllCovered(s: State, ids: seq<nat>) {
    forall i | 0 <= i < |ids| :: Covered(s, ids[i])
  }

  /** More children than any answer of the nodes not yet called can push. */
  function Pending(chart: Chart, calls: seq<nat>, size: nat): nat
    requires size <= |chart|
  {
    if size == 0 then 0
    else Pending(chart, calls, size - 1) + if size - 1 in calls then 0 else Width(chart[size - 1])
  }

  function Width(data: NodeData): nat {
    if |data.onTrue| > |data.onFalse| then |data.onTrue| else |data.onFalse|
  }

  ghost predicate Going(chart: Chart, script: Script, tick: nat, initial: seq<Expansion>, bound: nat, s: State) {
    && Fits(chart, s)
    && s.running
    && tick < |s.waiting|
    && !s.capped
    && s.busy == (s.revisits != [])
    && Distinct(s.calls) && InChart(s.calls, |chart|)
    && AllStand(s, tick)
    && Closing(chart, s)
    && s.expansions == initial + Taken(script, s.calls)
    && s.steps + |s.stack| + Pending(chart, s.calls, |chart|) <= bound
  }

  // ----- Pushing

  /** Pushing covers the children, keeps what was covered, and adds no more than their number. */
  lemma {:induction false} PushAllCovers(chart: Chart, s: State, ids: seq<nat>)
    requires InChart(ids, |chart|) && Fits(chart, s)
    ensures var r := PushAll(chart, s, ids);
            && |r.stack| <= |s.stack| + |ids|
            && (forall c | Covered(s, c) :: Covered(r, c))
            && AllCovered(r, ids)
            && |r.waiting| == |s.waiting|
            && r == s.(nodes := r.nodes, stack := r.stack, waiting := r.waiting, batch := r.batch)
    decreases |ids|
  {
    hide Lists, WellFormed, Without, Push;
    if ids != [] {
      var last := ids[|ids| - 1];
      PushKeepsLinks(s, last);
      PushCovers(s, last);
      var t := Push(s, last);
      PushAllCovers(chart, t, ids[..|ids| - 1]);
      var r := PushAll(chart, s, ids);
      assert Covered(r, last);
      forall i | 0 <= i < |ids|
        ensures Covered(r, ids[i])
      {
        if i < |ids| - 1 {
          assert ids[i] == ids[..|ids| - 1][i];
        }
      }
    }
  }

  lemma PushCovers(s: State, n: nat)
    requires n < |s.nodes| && Linked(s)
    ensures var r := Push(s, n);
            && |r.nodes| == |s.nodes|
            && |r.stack| <= |s.stack| + 1
            && (forall c | Covered(s, c) :: Covered(r, c))
            && Covered(r, n)
            && |r.waiting| == |s.waiting|
            && r == s.(nodes := r.nodes, stack := r.stack, waiting := r.waiting, batch := r.batch)
  {
    hide Lists, Detach;
    DetachMoves(s, n);
    assert Push(s, n).stack[|Push(s, n).stack| - 1] == n;
  }

  lemma MovedStillStands(s: State, r: State, tick: nat)
    requires AllStand(s, tick) && Moved(s, r) && r.calls == s.calls && r.revisits == s.revisits
    ensures AllStand(r, tick)
  {
    forall n | 0 <= n < |r.nodes|
      ensures Stands(r.nodes[n], n in r.calls, multiset(r.revisits)[n], tick, n in r.history)
    {
      assert Stands(s.nodes[n], n in s.calls, multiset(s.revisits)[n], tick, n in s.history);
    }
  }

  // ----- The three kinds of rounds

  /** A running node is popped and forgotten. */
  lemma PoppingKeepsGoing(chart: Chart, script: Script, tick: nat, initial: seq<Expansion>, bound: nat, s: State)
    requires Going(chart, script, tick, initial, bound, s) && s.stack != []
    requires Top(s) < |s.nodes| && s.nodes[Top(s)].status == Running
    ensures var r := Round(chart, script, tick, s).(steps := s.steps + 1);
            Going(chart, script, tick, initial, bound, r)
  {
    hide Lists, WellFormed, Pending, Taken, Distinct, InChart;
    PopKeepsLinks(s);
    var n := Top(s);
    var r := Round(chart, script, tick, s).(steps := s.steps + 1);
    PoppedStands(s, r, tick);
    assert Stands(s.nodes[n], n in s.calls, multiset(s.revisits)[n], tick, n in s.history);
    PoppedCovers(s, r);
    CoverageCloses(chart, s, r);
  }

  lemma PoppedStands(s: State, r: State, tick: nat)
    requires s.stack != [] && Top(s) < |s.nodes| && s.nodes[Top(s)].status == Running && s.nodes[Top(s)].place == OnStack
    requires AllStand(s, tick)
    requires r.nodes == Pop(s).nodes && r.calls == s.calls && r.revisits == s.revisits + [Top(s)] && r.history == s.history + [Top(s)]
    ensures AllStand(r, tick)
  {
    forall n | 0 <= n < |r.nodes|
      ensures Stands(r.nodes[n], n in r.calls, multiset(r.revisits)[n], tick, n in r.history)
    {
      assert Stands(s.nodes[n], n in s.calls, multiset(s.revisits)[n], tick, n in s.history);
    }
  }

  lemma PoppedCovers(s: State, r: State)
    requires s.stack != [] && r.stack == s.stack[..|s.stack| - 1] && Top(s) in s.calls && r.calls == s.calls
    ensures forall c | Covered(s, c) :: Covered(r, c)
  {
    assert s.stack == r.stack + [Top(s)];
  }

  lemma CoverageCloses(chart: Chart, s: State, r: State)
    requires Closing(chart, s) && r.expansions == s.expansions
    requires forall c | Covered(s, c) :: Covered(r, c)
    ensures Closing(chart, r)
  {
    hide Covered;
  }

  /** A node that has run is parked until the next tick. */
  lemma ParkingKeepsGoing(chart: Chart, script: Script, tick: nat, initial: seq<Expansion>, bound: nat, s: State)
    requires LoopsAreChecked(chart)
    requires Going(chart, script, tick, initial, bound, s) && s.stack != []
    requires Top(s) < |s.nodes| && s.nodes[Top(s)].status != Running && s.nodes[Top(s)].runFlag
    ensures var r := Round(chart, script, tick, s).(steps := s.steps + 1);
            Going(chart, script, tick, initial, bound, r)
  {
    hide Lists, WellFormed, Pending, Taken, Distinct, InChart, Detach, Without, Covered;
    PopKeepsLinks(s);
    var n := Top(s);
    WaitEventKeepsLinks(s, n, tick);
    DetachMoves(s, n);
    var r := Round(chart, script, tick, s).(steps := s.steps + 1);
    assert Stands(s.nodes[n], n in s.calls, multiset(s.revisits)[n], tick, n in s.history);
    ParkedStands(s, r, tick);
    assert n == s.stack[|s.stack| - 1];
    WithoutShrinks(s.stack, n);
    ParkedCovers(s, r);
    CoverageCloses(chart, s, r);
  }

  lemma ParkedCovers(s: State, r: State)
    requires s.stack != [] && r.stack == Without(s.stack, {Top(s)}) && Top(s) in s.calls && r.calls == s.calls
    ensures forall c | Covered(s, c) :: Covered(r, c)
  {
  }

  lemma ParkedStands(s: State, r: State, tick: nat)
    requires s.stack != [] && Top(s) < |s.nodes| && s.nodes[Top(s)].status != Running && s.nodes[Top(s)].runFlag
    requires AllStand(s, tick)
    requires var n := Top(s);
             && r.nodes == s.nodes[n := s.nodes[n].(place := Waiting(tick), status := Running)]
             && r.calls == s.calls && r.revisits == s.revisits + [n] && r.history == s.history
    ensures AllStand(r, tick)
  {
    forall n | 0 <= n < |r.nodes|
      ensures Stands(r.nodes[n], n in r.calls, multiset(r.revisits)[n], tick, n in r.history)
    {
      assert Stands(s.nodes[n], n in s.calls, multiset(s.revisits)[n], tick, n in s.history);
    }
  }

  lemma {:induction false} WithoutShrinks(q: seq<nat>, n: nat)
    requires n in q
    ensures |Without(q, {n})| < |q|
  {
    if q[0] != n {
      WithoutShrinks(q[1..], n);
    }
  }

  /** What a plain function does to its node. */
  lemma PlainCall(chart: Chart, script: Script, s: State, n: nat)
    requires Plain(script) && n < |chart| && Fits(chart, s) && !s.nodes[n].skip
    ensures RunNode(chart, script, s, n) ==
            Update(s, n, s.nodes[n].(runFlag := true, result := ResultOf(script(s.calls, n).answer))).(calls := s.calls + [n])
  {
    hide Lists, WellFormed;
    var t := Update(s, n, s.nodes[n].(runFlag := true, result := rFALSE)).(calls := s.calls + [n]);
    UpdateKeepsLinks(s, n, t.nodes[n]);
    var reply := script(s.calls, n);
    assert ServeAll(chart, t, n, reply.requests) == t;
  }

  /** The node on top of the stack leaves it, ended, and is about to push its children. */
  function Left(s: State, n: nat): State
    requires s.stack != [] && n < |s.nodes|
  {
    s.(stack := s.stack[..|s.stack| - 1], history := s.history + [n],
    nodes := s.nodes[n := s.nodes[n].(place := Nowhere, status := EndRun)],
    expansions := s.expansions + [Expansion(n, s.nodes[n].result == rTRUE)])
  }

  lemma PlainLeave(chart: Chart, s: State, n: nat)
    requires n < |chart| && Fits(chart, s) && s.stack != [] && Top(s) == n
    requires s.nodes[n].status != Running && s.nodes[n].result != rSTOP
    ensures Fits(chart, Left(s, n))
    ensures Leave(chart, s, n) == PushAll(chart, Left(s, n), chart[n].Subsequence(s.nodes[n].result == rTRUE))
  {
    hide Lists, PushAll, Without, WellFormed;
    PopKeepsLinks(s);
    var t := Pop(s);
    UpdateKeepsLinks(t, n, t.nodes[n].(status := EndRun));
    assert Left(s, n) == Update(t, n, t.nodes[n].(status := EndRun)).(expansions := Left(s, n).expansions);
  }

  lemma {:induction false} PendingDrops(chart: Chart, calls: seq<nat>, n: nat, size: nat)
    requires n !in calls && n < |chart| && size <= |chart|
    ensures Pending(chart, calls + [n], size) + (if n < size then Width(chart[n]) else 0) == Pending(chart, calls, size)
  {
    hide Width;
    if size > 0 {
      PendingDrops(chart, calls, n, size - 1);
      assert forall m :: m in calls + [n] <==> m in calls || m == n;
    }
  }

  lemma NoWider(data: NodeData, taken: bool)
    ensures |data.Subsequence(taken)| <= Width(data)
  {
  }

  lemma TakenGrows(script: Script, calls: seq<nat>, n: nat)
    ensures Taken(script, calls + [n]) == Taken(script, calls) + [Expansion(n, script(calls, n).answer)]
  {
    assert (calls + [n])[..|calls|] == calls;
  }

  /** The node on top of the stack after its call, before its children are pushed. */
  function Called(s: State, answer: bool): State
    requires s.stack != [] && Top(s) < |s.nodes|
  {
    var n := Top(s);
    s.(stack := s.stack[..|s.stack| - 1], history := s.history + [n], calls := s.calls + [n],
    nodes := s.nodes[n := s.nodes[n].(runFlag := true, result := ResultOf(answer), place := Nowhere, status := EndRun)],
    expansions := s.expansions + [Expansion(n, answer)])
  }

  lemma CallingRound(chart: Chart, script: Script, tick: nat, s: State)
    requires Plain(script) && Fits(chart, s) && s.stack != [] && Top(s) < |s.nodes|
    requires var node := s.nodes[Top(s)]; node.status != Running && !node.runFlag && !node.skip
    ensures var n, answer := Top(s), script(s.calls, Top(s)).answer;
            && Fits(chart, Called(s, answer))
            && Round(chart, script, tick, s) == PushAll(chart, Called(s, answer), chart[n].Subsequence(answer))
  {
    hide Lists, WellFormed, PushAll, RunNode, Leave;
    PopKeepsLinks(s);
    var n := Top(s);
    PlainCall(chart, script, s, n);
    var u := RunNode(chart, script, s, n);
    PlainLeave(chart, u, n);
    assert Left(u, n) == Called(s, script(s.calls, n).answer);
  }

  /** A node not yet called is called, and its children cover the edges it selects. */
  lemma CallingKeepsGoing(chart: Chart, script: Script, tick: nat, initial: seq<Expansion>, bound: nat, s: State)
    requires Plain(script)
    requires Going(chart, script, tick, initial, bound, s) && s.stack != []
    requires Top(s) < |s.nodes| && s.nodes[Top(s)].status != Running && !s.nodes[Top(s)].runFlag
    ensures var r := Round(chart, script, tick, s).(steps := s.steps + 1);
            Going(chart, script, tick, initial, bound, r)
  {
    hide Lists, Pending, Taken, PushAll, Round, Width, Without, Stands, AllStand;
    PopKeepsLinks(s);
    var n := Top(s);
    NotYetCalled(s, n, tick);
    CallingRound(chart, script, tick, s);
    var answer := script(s.calls, n).answer;
    var w, ids := Called(s, answer), chart[n].Subsequence(answer);
    CalledStands(s, w, tick);
    PushAllMoves(chart, w, ids);
    PushAllCovers(chart, w, ids);
    var r := PushAll(chart, w, ids).(steps := s.steps + 1);
    MovedStillStands(w, r, tick);
    PendingDrops(chart, s.calls, n, |chart|);
    TakenGrows(script, s.calls, n);
    NoWider(chart[n], answer);
    CalledCloses(chart, s, w, r);
  }

  lemma NotYetCalled(s: State, n: nat, tick: nat)
    requires AllStand(s, tick) && n < |s.nodes| && !s.nodes[n].runFlag
    ensures n !in s.calls && !s.nodes[n].skip
  {
    assert Stands(s.nodes[n], n in s.calls, multiset(s.revisits)[n], tick, n in s.history);
  }

  lemma CalledStands(s: State, w: State, tick: nat)
    requires s.stack != [] && Top(s) < |s.nodes| && AllStand(s, tick)
    requires var n := Top(s);
             && !s.nodes[n].runFlag && s.nodes[n].status != Running
             && |w.nodes| == |s.nodes|
             && (forall m | 0 <= m < |s.nodes| && m != n :: w.nodes[m] == s.nodes[m])
             && w.nodes[n].runFlag && !w.nodes[n].skip && w.nodes[n].status == EndRun && w.nodes[n].place == Nowhere
             && w.calls == s.calls + [n] && w.revisits == s.revisits && w.history == s.history + [n]
    ensures AllStand(w, tick)
  {
    forall m | 0 <= m < |w.nodes|
      ensures Stands(w.nodes[m], m in w.calls, multiset(w.revisits)[m], tick, m in w.history)
    {
      assert Stands(s.nodes[m], m in s.calls, multiset(s.revisits)[m], tick, m in s.history);
    }
  }

  lemma CalledCloses(chart: Chart, s: State, w: State, r: State)
    requires s.stack != [] && w.stack == s.stack[..|s.stack| - 1] && w.calls == s.calls + [Top(s)]
    requires Top(s) < |chart| && r.expansions == w.expansions
    requires w.expansions != [] && w.expansions[..|w.expansions| - 1] == s.expansions
    requires w.expansions[|w.expansions| - 1].node == Top(s)
    requires Closing(chart, s)
    requires forall c | Covered(w, c) :: Covered(r, c)
    requires AllCovered(r, chart[Top(s)].Subsequence(w.expansions[|w.expansions| - 1].taken))
    ensures Closing(chart, r)
  {
    assert s.stack == w.stack + [Top(s)];
    assert w.expansions == s.expansions + [w.expansions[|w.expansions| - 1]];
    forall c | Covered(s, c)
      ensures Covered(w, c)
    {
    }
  }

  // ----- Whole runs

  lemma RoundKeepsGoing(chart: Chart, script: Script, tick: nat, initial: seq<Expansion>, bound: nat, s: State)
    requires Plain(script) && LoopsAreChecked(chart)
    requires Going(chart, script, tick, initial, bound, s) && s.stack != []
    ensures var r := Round(chart, script, tick, s).(steps := s.steps + 1);
            Going(chart, script, tick, initial, bound, r)
  {
    var n := Top(s);
    PopKeepsLinks(s);
    hide Going, Round, Lists;
    if s.nodes[n].status == Running {
      PoppingKeepsGoing(chart, script, tick, initial, bound, s);
    } else if s.nodes[n].runFlag {
      ParkingKeepsGoing(chart, script, tick, initial, bound, s);
    } else {
      CallingKeepsGoing(chart, script, tick, initial, bound, s);
    }
  }

  lemma {:induction false} DrainOnlyDrains(chart: Chart, s: State)
    requires Fits(chart, s)
    ensures var r := Drain(chart, s); r.calls == s.calls && r.expansions == s.expansions && r.steps == s.steps
    decreases |s.stack|
  {
    hide Lists, WellFormed;
    if s.stack != [] {
      PopKeepsLinks(s);
      var n := Top(s);
      var t := Pop(s);
      UpdateKeepsLinks(t, n, t.nodes[n].(status := EndRun));
      DrainOnlyDrains(chart, Update(t, n, t.nodes[n].(status := EndRun)));
    }
  }

  lemma {:induction false} LoopKeepsGoing(chart: Chart, script: Script, tick: nat,
                                          initial: seq<Expansion>, bound: nat, s: State, cap: nat)
    requires Plain(script) && LoopsAreChecked(chart)
    requires Going(chart, script, tick, initial, bound, s) && s.steps <= cap
    ensures var r := Loop(chart, script, tick, s, cap);
            && Distinct(r.calls) && InChart(r.calls, |chart|)
            && r.expansions == initial + Taken(script, r.calls)
            && (!r.capped ==> Going(chart, script, tick, initial, bound, r) && r.stack == [])
            && (bound <= cap ==> !r.capped)
    decreases cap - s.steps
  {
    hide Round, Drain, Lists, WellFormed;
    if s.stack != [] {
      if s.steps == cap {
        DrainOnlyDrains(chart, s);
      } else {
        RoundKeepsGoing(chart, script, tick, initial, bound, s);
        LoopKeepsGoing(chart, script, tick, initial, bound, Round(chart, script, tick, s).(steps := s.steps + 1), cap);
      }
    }
  }

  // ----- Nothing else is visited

  /** A set that the selected edges do not leave. */
  predicate Closed(chart: Chart, expansions: seq<Expansion>, S: set<nat>) {
    forall x | x in expansions && x.node in S && x.node < |chart| :: AllIn(chart[x.node].Subsequence(x.taken), S)
  }

  predicate AllIn(ids: seq<nat>, S: set<nat>) {
    forall i | 0 <= i < |ids| :: ids[i] in S
  }

  predicate Within(s: State, S: set<nat>) {
    AllIn(s.stack, S) && AllIn(s.calls, S)
  }

  lemma {:induction false} PushAllStaysIn(chart: Chart, s: State, ids: seq<nat>, S: set<nat>)
    requires InChart(ids, |chart|) && Fits(chart, s) && AllIn(s.stack, S) && AllIn(ids, S)
    ensures AllIn(PushAll(chart, s, ids).stack, S)
    decreases |ids|
  {
    hide Lists, WellFormed;
    if ids != [] {
      var last := ids[|ids| - 1];
      PushKeepsLinks(s, last);
      PushStaysIn(s, last, S);
      PushAllStaysIn(chart, Push(s, last), ids[..|ids| - 1], S);
    }
  }

  lemma PushStaysIn(s: State, n: nat, S: set<nat>)
    requires n < |s.nodes| && Linked(s) && AllIn(s.stack, S) && n in S
    ensures AllIn(Push(s, n).stack, S)
  {
    hide Lists, Detach;
    DetachMoves(s, n);
    WithoutStaysIn(s.stack, n, S);
  }

  lemma WithoutStaysIn(q: seq<nat>, n: nat, S: set<nat>)
    requires AllIn(q, S)
    ensures AllIn(Without(q, {n}), S)
  {
    var r := Without(q, {n});
    forall i | 0 <= i < |r|
      ensures r[i] in S
    {
      assert r[i] in r;
    }
  }

  lemma RoundStaysIn(chart: Chart, script: Script, tick: nat, initial: seq<Expansion>, bound: nat, s: State, S: set<nat>)
    requires Plain(script) && LoopsAreChecked(chart)
    requires Going(chart, script, tick, initial, bound, s) && s.stack != []
    ensures s.calls <= Round(chart, script, tick, s).calls
    ensures Within(s, S) && Closed(chart, Taken(script, Round(chart, script, tick, s).calls), S) ==> Within(Round(chart, script, tick, s), S)
  {
    hide Lists, WellFormed, PushAll, Detach, Taken, Pending, Closed;
    PopKeepsLinks(s);
    var n := Top(s);
    assert Stands(s.nodes[n], n in s.calls, multiset(s.revisits)[n], tick, n in s.history);
    DetachMoves(s, n);
    if s.nodes[n].status == Running {
    } else if s.nodes[n].runFlag && !chart[n].noLoopCheck {
      if Within(s, S) {
        WithoutStaysIn(s.stack, n, S);
      }
    } else {
      CallingStaysIn(chart, script, tick, s, S);
    }
  }

  lemma CallingStaysIn(chart: Chart, script: Script, tick: nat, s: State, S: set<nat>)
    requires Plain(script) && Fits(chart, s) && s.stack != [] && Top(s) < |s.nodes|
    requires var node := s.nodes[Top(s)]; node.status != Running && !node.runFlag && !node.skip
    ensures s.calls <= Round(chart, script, tick, s).calls
    ensures Within(s, S) && Closed(chart, Taken(script, Round(chart, script, tick, s).calls), S) ==> Within(Round(chart, script, tick, s), S)
  {
    hide Lists, PushAll, Round;
    CallingRound(chart, script, tick, s);
    var n, answer := Top(s), script(s.calls, Top(s)).answer;
    var w, ids := Called(s, answer), chart[n].Subsequence(answer);
    PushAllCovers(chart, w, ids);
    TakenGrows(script, s.calls, n);
    assert Taken(script, w.calls)[|Taken(script, s.calls)|] == Expansion(n, answer);
    if Within(s, S) && Closed(chart, Taken(script, w.calls), S) {
      PushAllStaysIn(chart, w, ids, S);
    }
  }

  lemma {:induction false} LoopGrows(chart: Chart, script: Script, tick: nat,
                                     initial: seq<Expansion>, bound: nat, s: State, cap: nat)
    requires Plain(script) && LoopsAreChecked(chart)
    requires Going(chart, script, tick, initial, bound, s) && s.steps <= cap
    ensures s.calls <= Loop(chart, script, tick, s, cap).calls
    decreases cap - s.steps
  {
    hide Round, Drain, Lists, WellFormed;
    if s.stack != [] {
      if s.steps == cap {
        DrainOnlyDrains(chart, s);
      } else {
        RoundKeepsGoing(chart, script, tick, initial, bound, s);
        RoundStaysIn(chart, script, tick, initial, bound, s, {});
        LoopGrows(chart, script, tick, initial, bound, Round(chart, script, tick, s).(steps := s.steps + 1), cap);
      }
    }
  }

  lemma {:induction false} LoopStaysIn(chart: Chart, script: Script, tick: nat,
                                       initial: seq<Expansion>, bound: nat, s: State, cap: nat, S: set<nat>)
    requires Plain(script) && LoopsAreChecked(chart)
    requires Going(chart, script, tick, initial, bound, s) && s.steps <= cap
    requires Within(s, S) && Closed(chart, Taken(script, Loop(chart, script, tick, s, cap).calls), S)
    ensures AllIn(Loop(chart, script, tick, s, cap).calls, S)
    decreases cap - s.steps
  {
    hide Round, Drain, Lists, WellFormed, Closed;
    if s.stack != [] {
      if s.steps == cap {
        DrainOnlyDrains(chart, s);
      } else {
        RoundKeepsGoing(chart, script, tick, initial, bound, s);
        RoundStaysIn(chart, script, tick, initial, bound, s, S);
        var t := Round(chart, script, tick, s).(steps := s.steps + 1);
        LoopGrows(chart, script, tick, initial, bound, t, cap);
        ClosedBefore(chart, script, t.calls, Loop(chart, script, tick, s, cap).calls, S);
        LoopStaysIn(chart, script, tick, initial, bound, t, cap, S);
      }
    }
  }

  lemma ClosedBefore(chart: Chart, script: Script, before: seq<nat>, after: seq<nat>, S: set<nat>)
    requires before <= after && Closed(chart, Taken(script, after), S)
    ensures Closed(chart, Taken(script, before), S)
  {
    TakenCounts(script, before);
    TakenCounts(script, after);
    forall x | x in Taken(script, before)
      ensures x in Taken(script, after)
    {
      var i :| 0 <= i < |before| && Taken(script, before)[i] == x;
      assert before[..i] == after[..i];
      assert Taken(script, after)[i] == x;
    }
  }

  // ----- The first round

  /** A start node that skips its function still selects edges, by the result it was given. */
  function Initial(s: State, start: nat): seq<Expansion>
    requires start < |s.nodes|
  {
    if s.nodes[start].skip then [Expansion(start, s.nodes[start].result == rTRUE)] else []
  }

  /** The nodes from which the calls of a run begin. */
  function Roots(chart: Chart, s: State, start: nat): seq<nat>
    requires start < |chart| == |s.nodes|
  {
    if s.nodes[start].skip then chart[start].Subsequence(s.nodes[start].result == rTRUE) else [start]
  }

  /** A bound on the rounds of a run. */
  function Bound(chart: Chart, s: State, start: nat): nat
    requires start < |chart| == |s.nodes|
  {
    1 + Pending(chart, [], |chart|)
    + if s.nodes[start].skip then |chart[start].Subsequence(s.nodes[start].result == rTRUE)| else 0
  }

  lemma StartedStands(chart: Chart, s: State, start: nat, tick: nat)
    requires Fits(chart, s) && Clean(s, start)
    ensures var t := Started(chart, s, start);
            && t.stack == [start]
            && t.nodes == s.nodes[start := s.nodes[start].(status := Idle, place := OnStack)]
            && t == s.(nodes := t.nodes, stack := t.stack, busy := false, steps := 0, capped := false,
                       calls := [], expansions := [], revisits := [])
  {
    hide Lists, WellFormed, Without;
    UpdateKeepsLinks(s, start, s.nodes[start].(status := Idle));
    var t := Update(s, start, s.nodes[start].(status := Idle)).(busy := false, steps := 0, capped := false,
              calls := [], expansions := [], revisits := []);
    DetachMoves(t, start);
  }

  /** The answer by which the start node selects edges in the first round. */
  ghost function FirstAnswer(script: Script, s: State, start: nat): bool
    requires start < |s.nodes|
  {
    if s.nodes[start].skip then s.nodes[start].result == rTRUE else script([], start).answer
  }

  /** The first round before it pushes children. */
  function Begun(s: State, start: nat, answer: bool): State
    requires start < |s.nodes|
  {
    var node := s.nodes[start];
    s.(stack := [], history := [start], busy := false, steps := 0, capped := false,
    calls := if node.skip then [] else [start], expansions := [Expansion(start, answer)], revisits := [],
    nodes := s.nodes[start := node.(skip := false, runFlag := !node.skip, status := EndRun, result := ResultOf(answer))])
  }

  /** The first round pushes the children of the start node, whether or not it skips. */
  lemma FirstRound(chart: Chart, script: Script, tick: nat, s: State, start: nat)
    requires Plain(script) && Fits(chart, s) && Clean(s, start)
    ensures var answer := FirstAnswer(script, s, start);
            && Fits(chart, Begun(s, start, answer))
            && Round(chart, script, tick, Started(chart, s, start)) ==
               PushAll(chart, Begun(s, start, answer), chart[start].Subsequence(answer))
  {
    hide Lists, WellFormed, Without, PushAll, Leave;
    StartedStands(chart, s, start, tick);
    var t := Started(chart, s, start);
    var answer := FirstAnswer(script, s, start);
    if s.nodes[start].skip {
      var u := Update(t, start, t.nodes[start].(skip := false));
      UpdateKeepsLinks(t, start, u.nodes[start]);
      PlainLeave(chart, u, start);
      assert Round(chart, script, tick, t) == Leave(chart, u, start);
      assert Left(u, start) == Begun(s, start, answer);
    } else {
      CallingRound(chart, script, tick, t);
      assert Called(t, answer) == Begun(s, start, answer);
    }
  }

  lemma BegunStands(s: State, start: nat, tick: nat, answer: bool)
    requires Clean(s, start)
    ensures AllStand(Begun(s, start, answer), tick)
  {
  }

  lemma BoundSuffices(chart: Chart, script: Script, s: State, start: nat)
    requires Fits(chart, s) && Clean(s, start)
    ensures var answer := FirstAnswer(script, s, start);
            1 + |chart[start].Subsequence(answer)| + Pending(chart, Begun(s, start, answer).calls, |chart|) <= Bound(chart, s, start)
  {
    hide Lists, WellFormed, Pending;
    if !s.nodes[start].skip {
      PendingDrops(chart, [], start, |chart|);
      assert [] + [start] == [start];
    }
  }

  lemma SameCover(s: State, r: State, ids: seq<nat>)
    requires AllCovered(s, ids) && r.stack == s.stack && r.calls == s.calls
    ensures AllCovered(r, ids)
  {
    forall i | 0 <= i < |ids|
      ensures Covered(r, ids[i])
    {
      assert Covered(s, ids[i]);
    }
  }

  lemma BegunCloses(chart: Chart, r: State, start: nat, answer: bool)
    requires start < |chart| && r.expansions == [Expansion(start, answer)]
    requires AllCovered(r, chart[start].Subsequence(answer))
    ensures Closing(chart, r)
  {
  }

  lemma TakenBegins(script: Script, n: nat)
    ensures Taken(script, []) == [] && Taken(script, [n]) == [Expansion(n, script([], n).answer)]
  {
    TakenGrows(script, [], n);
    assert [] + [n] == [n];
  }

  lemma StartGoes(chart: Chart, script: Script, tick: nat, s: State, start: nat)
    requires Plain(script) && Fits(chart, s) && Clean(s, start) && tick < |s.waiting|
    ensures var t := Round(chart, script, tick, Started(chart, s, start)).(steps := 1);
            && Going(chart, script, tick, Initial(s, start), Bound(chart, s, start), t)
            && t.calls == (if s.nodes[start].skip then [] else [start])
  {
    hide Lists, PushAll, Round, Pending, Started, AllStand, Closing, AllCovered, Covered, Bound, Without, Taken;
    FirstRound(chart, script, tick, s, start);
    var answer := FirstAnswer(script, s, start);
    var w, ids := Begun(s, start, answer), chart[start].Subsequence(answer);
    PushAllMoves(chart, w, ids);
    PushAllCovers(chart, w, ids);
    var r := PushAll(chart, w, ids).(steps := 1);
    BegunStands(s, start, tick, answer);
    MovedStillStands(w, r, tick);
    SameCover(PushAll(chart, w, ids), r, ids);
    BegunCloses(chart, r, start, answer);
    BoundSuffices(chart, script, s, start);
    TakenBegins(script, start);
  }

  lemma StartStaysIn(chart: Chart, script: Script, tick: nat, s: State, start: nat, S: set<nat>)
    requires Plain(script) && Fits(chart, s) && Clean(s, start) && AllIn(Roots(chart, s, start), S)
    requires !s.nodes[start].skip ==> Closed(chart, Taken(script, [start]), S)
    ensures Within(Round(chart, script, tick, Started(chart, s, start)), S)
  {
    hide Lists, PushAll, Round, Started;
    FirstRound(chart, script, tick, s, start);
    var answer := FirstAnswer(script, s, start);
    var w, ids := Begun(s, start, answer), chart[start].Subsequence(answer);
    if !s.nodes[start].skip {
      TakenBegins(script, start);
      assert Expansion(start, answer) in Taken(script, [start]);
    }
    PushAllCovers(chart, w, ids);
    PushAllStaysIn(chart, w, ids, S);
  }

  // ----- Main results

  /** How a run leaves the chart: it is over exactly when no node was reached again after its
      call. A node reached again once waits for the next tick; one reached more often runs
      but is in no list, so that nothing will ever resume it. */
  predicate Settled(r: State, tick: nat) {
    && (r.running <==> r.revisits != [])
    && forall n | 0 <= n < |r.nodes| ::
         var node, again := r.nodes[n], multiset(r.revisits)[n];
         && (!r.running ==> node == STOPPED)
         && (again > 0 ==> n in r.calls)
         && (again == 0 ==> node.status == Idle && node.place == Nowhere)
         && (again == 1 ==> node.status == Running && node.place == Waiting(tick))
         && (again > 1 ==> node.status == Running && node.place == Nowhere)
  }

  lemma NoneOnStack(s: State)
    requires Linked(s) && s.stack == []
    ensures forall n | 0 <= n < |s.nodes| :: s.nodes[n].place != OnStack
  {
  }

  lemma EndsSettled(chart: Chart, script: Script, tick: nat, initial: seq<Expansion>, bound: nat, s: State)
    requires Going(chart, script, tick, initial, bound, s) && s.stack == []
    ensures var r := Conclude(chart, Settle(chart, s));
            && Settled(r, tick)
            && r == s.(nodes := r.nodes, stack := r.stack, waiting := r.waiting, batch := r.batch, history := [], running := r.running)
  {
    hide Lists, WellFormed, Without, Taken, Pending, Closing, Distinct, InChart;
    NoneOnStack(s);
    var v := Settle(chart, s);
    forall n | 0 <= n < |v.nodes|
      ensures var node, again := v.nodes[n], multiset(s.revisits)[n];
              && (again > 0 ==> n in s.calls)
              && (again == 0 ==> node.status == Idle && node.place == Nowhere)
              && (again == 1 ==> node.status == Running && node.place == Waiting(tick))
              && (again > 1 ==> node.status == Running && node.place == Nowhere)
    {
      assert Stands(s.nodes[n], n in s.calls, multiset(s.revisits)[n], tick, n in s.history);
    }
  }

  lemma FirstLoop(chart: Chart, script: Script, tick: nat, cap: nat, s: State, start: nat)
    requires Plain(script) && Fits(chart, s) && Clean(s, start) && 1 <= cap
    ensures Loop(chart, script, tick, Started(chart, s, start), cap) ==
            Loop(chart, script, tick, Round(chart, script, tick, Started(chart, s, start)).(steps := 1), cap)
  {
    hide Round, Lists, WellFormed;
    StartedStands(chart, s, start, tick);
  }

  /** One run calls each function at most once, and no node outside any set that has the
      roots and is closed under the selected edges. Unless the cap stops it, and it does not
      when it is at least the bound, the nodes called are such a set themselves, and the chart
      is left settled. */
  lemma PlainRunsAreExact(chart: Chart, script: Script, tick: nat, cap: nat, s: State, start: nat)
    requires Plain(script) && LoopsAreChecked(chart) && Fits(chart, s) && Clean(s, start)
    requires tick < |s.waiting| && 1 <= cap
    ensures var r := RunFlow(chart, script, tick, cap, s, start);
            && Distinct(r.calls) && InChart(r.calls, |chart|)
            && (s.nodes[start].skip || (r.calls != [] && r.calls[0] == start))
            && r.expansions == Initial(s, start) + Taken(script, r.calls)
            && (forall S | AllIn(Roots(chart, s, start), S) && Closed(chart, Taken(script, r.calls), S) :: AllIn(r.calls, S))
            && (Bound(chart, s, start) <= cap ==> !r.capped)
            && (!r.capped ==>
                  && r.steps <= Bound(chart, s, start)
                  && AllIn(Roots(chart, s, start), Members(r.calls))
                  && Closed(chart, Taken(script, r.calls), Members(r.calls))
                  && Settled(r, tick))
  {
    hide Loop, Round, Started, Conclude, Settle, Settled, Lists, WellFormed, Pending, AllStand, Closing, Distinct, InChart, Closed, AllIn, Roots;
    var t := Round(chart, script, tick, Started(chart, s, start)).(steps := 1);
    var initial, bound := Initial(s, start), Bound(chart, s, start);
    FirstLoop(chart, script, tick, cap, s, start);
    StartGoes(chart, script, tick, s, start);
    LoopKeepsGoing(chart, script, tick, initial, bound, t, cap);
    var u := Loop(chart, script, tick, t, cap);
    assert s.running;
    var r := RunFlow(chart, script, tick, cap, s, start);
    RecordIsKept(chart, u);
    LoopGrows(chart, script, tick, initial, bound, t, cap);
    forall S | AllIn(Roots(chart, s, start), S) && Closed(chart, Taken(script, r.calls), S)
      ensures AllIn(r.calls, S)
    {
      ClosedBefore(chart, script, t.calls, u.calls, S);
      StartStaysIn(chart, script, tick, s, start, S);
      LoopStaysIn(chart, script, tick, initial, bound, t, cap, S);
    }
    if !u.capped {
      EndsSettled(chart, script, tick, initial, bound, u);
      RootsAreCalled(chart, script, s, start, t.calls, u);
      CalledIsClosed(chart, script, initial, u);
    }
  }

  lemma {:induction false} TakenCounts(script: Script, calls: seq<nat>)
    ensures |Taken(script, calls)| == |calls|
    ensures forall i | 0 <= i < |calls| :: Taken(script, calls)[i] == Expansion(calls[i], script(calls[..i], calls[i]).answer)
    decreases |calls|
  {
    if calls != [] {
      var before := calls[..|calls| - 1];
      TakenCounts(script, before);
      assert forall i | 0 <= i < |before| :: before[..i] == calls[..i];
    }
  }

  lemma RecordIsKept(chart: Chart, s: State)
    requires Fits(chart, s)
    ensures var r := Conclude(chart, Settle(chart, s));
            r.calls == s.calls && r.expansions == s.expansions && r.capped == s.capped && r.steps == s.steps
  {
  }

  lemma RootsAreCalled(chart: Chart, script: Script, s: State, start: nat, first: seq<nat>, r: State)
    requires start < |chart| == |s.nodes| && Closing(chart, r) && r.stack == []
    requires r.expansions == Initial(s, start) + Taken(script, r.calls)
    requires s.nodes[start].skip || first == [start]
    requires first <= r.calls
    ensures AllIn(Roots(chart, s, start), Members(r.calls))
  {
    hide Taken;
    if s.nodes[start].skip {
      assert r.expansions[0] == Initial(s, start)[0];
      assert AllCovered(r, Roots(chart, s, start));
    } else {
      assert r.calls[0] == start;
    }
  }

  lemma CalledIsClosed(chart: Chart, script: Script, initial: seq<Expansion>, s: State)
    requires Closing(chart, s) && s.stack == [] && s.expansions == initial + Taken(script, s.calls)
    ensures Closed(chart, Taken(script, s.calls), Members(s.calls))
  {
    forall x | x in Taken(script, s.calls) && x.node in Members(s.calls) && x.node < |chart|
      ensures AllIn(chart[x.node].Subsequence(x.taken), Members(s.calls))
    {
      assert x in s.expansions;
      assert AllCovered(s, chart[x.node].Subsequence(x.taken));
    }
  }
}
