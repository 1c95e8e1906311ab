/** The smallest chart in which the executor loses a loop node. */
module FlowWitness {
  import opened Flowchart
  import opened FlowExecutor
  import opened FlowPlain
  import opened FlowLoops

  /** Node 0 leads back to itself and to node 1, and node 1 leads back to node 0. */
  const TWO_LOOPS: Chart := [NodeData([0, 1], [], false, false), NodeData([0], [], false, false)]

  function Always(calls: seq<nat>, n: nat): Reply {
    Reply([], true)
  }

  const FRESH := Node(Idle, rTRUE, false, false, false, Nowhere)
  const CALLED := Node(EndRun, rTRUE, true, false, false, Nowhere)
  const BEFORE := State([FRESH, FRESH], [], [], [[]], [], true, false, 0, false, [], [], [])

  /** The states after the four rounds of the run. */
  const STATES: seq<State> := [
    State([CALLED.(place := OnStack), FRESH.(place := OnStack)], [1, 0], [0], [[]], [], true, false, 1, false,
      [0], [Expansion(0, true)], []),
    State([CALLED.(status := Running, place := Waiting(0)), FRESH.(place := OnStack)], [1], [0], [[0]], [], true, true, 2, false,
      [0], [Expansion(0, true)], [0]),
    State([CALLED.(status := Running, place := OnStack), CALLED], [0], [0, 1], [[]], [], true, true, 3, false,
      [0, 1], [Expansion(0, true), Expansion(1, true)], [0]),
    State([CALLED.(status := Running), CALLED], [], [0, 1, 0], [[]], [], true, true, 4, false,
      [0, 1], [Expansion(0, true), Expansion(1, true)], [0, 0])]

  lemma PushesOne(s: State, n: nat)
    requires n < 2 && Fits(TWO_LOOPS, s)
    ensures Fits(TWO_LOOPS, Push(s, n)) && PushAll(TWO_LOOPS, s, [n]) == Push(s, n)
  {
    hide Lists;
    PushKeepsLinks(s, n);
    assert [n][..0] == [];
  }

  lemma PushesBoth(s: State)
    requires Fits(TWO_LOOPS, s)
    ensures Fits(TWO_LOOPS, Push(s, 1)) && Fits(TWO_LOOPS, Push(Push(s, 1), 0))
    ensures PushAll(TWO_LOOPS, s, [0, 1]) == Push(Push(s, 1), 0)
  {
    assert |Push(s, 1).nodes| == 2;
    hide Lists, Push;
    PushKeepsLinks(s, 1);
    PushKeepsLinks(Push(s, 1), 0);
    assert [0, 1][..1] == [0];
    PushesOne(Push(s, 1), 0);
  }

  lemma BeforeFits()
    ensures Fits(TWO_LOOPS, BEFORE) && Clean(BEFORE, 0)
  {
    assert ListOf([], BEFORE.nodes, OnStack) && ListOf([], BEFORE.nodes, InBatch) && ListOf([], BEFORE.nodes, Waiting(0));
    assert Lists(BEFORE.nodes, [], [], [[]]);
  }

  lemma PushUnlinked(s: State, n: nat)
    requires n < |s.nodes| && s.nodes[n].place == Nowhere
    ensures Push(s, n) == s.(stack := s.stack + [n], nodes := s.nodes[n := s.nodes[n].(place := OnStack)])
  {
    hide Without;
  }

  lemma Round0()
    requires Fits(TWO_LOOPS, BEFORE) && Clean(BEFORE, 0)
    ensures Round(TWO_LOOPS, Always, 0, Started(TWO_LOOPS, BEFORE, 0)).(steps := 1) == STATES[0]
  {
    hide Lists, WellFormed, Round, PushAll, Push, Started, Clean;
    FirstRound(TWO_LOOPS, Always, 0, BEFORE, 0);
    var w := Begun(BEFORE, 0, true);
    PushesBoth(w);
    PushUnlinked(w, 1);
    PushUnlinked(Push(w, 1), 0);
    assert Push(Push(w, 1), 0).nodes == STATES[0].nodes;
    assert [] + [1] + [0] == [1, 0];
  }

  lemma Round1()
    requires Fits(TWO_LOOPS, STATES[0])
    ensures Round(TWO_LOOPS, Always, 0, STATES[0]).(steps := 2) == STATES[1]
  {
    hide Lists, WellFormed;
    assert Without([1, 0], {0}) == [1];
    var t := Detach(STATES[0], 0);
    assert t == STATES[0].(stack := [1], nodes := [CALLED, FRESH.(place := OnStack)]);
    var u := WaitEvent(STATES[0], 0, 0);
    assert u.waiting[0] == [] + [0] == [0];
    assert u.waiting == [[0]];
    assert u.nodes == STATES[1].nodes;
  }

  lemma Round2()
    requires Fits(TWO_LOOPS, STATES[1])
    ensures Round(TWO_LOOPS, Always, 0, STATES[1]).(steps := 3) == STATES[2]
  {
    hide Lists, WellFormed, Round, PushAll;
    CallingRound(TWO_LOOPS, Always, 0, STATES[1]);
    var w := Called(STATES[1], true);
    PushesOne(w, 0);
    assert Without([0], {0}) == [];
    assert Detach(w, 0) == w.(waiting := [[]], nodes := [CALLED.(status := Running), CALLED]);
    assert w.stack + [0] == [0];
    assert Push(w, 0) == w.(stack := [0], waiting := [[]], nodes := STATES[2].nodes);
  }

  lemma Round3()
    requires Fits(TWO_LOOPS, STATES[2])
    ensures Round(TWO_LOOPS, Always, 0, STATES[2]).(steps := 4) == STATES[3]
  {
    hide Lists, WellFormed;
    assert Pop(STATES[2]).nodes == STATES[3].nodes;
  }

  /** How often a run can reach each of the two nodes. */
  lemma EdgesOfTwoLoops()
    ensures multiset([0])[0] + Sum(Selectable(TWO_LOOPS, 0), AllNodes(2), 2) == 3
    ensures multiset([0])[1] + Sum(Selectable(TWO_LOOPS, 1), AllNodes(2), 2) == 1
  {
    hide AllNodes;
    assert AllNodes(2) == {0, 1};
    forall n: nat
      ensures Sum(Selectable(TWO_LOOPS, n), AllNodes(2), 2) == Selectable(TWO_LOOPS, n)(0) + Selectable(TWO_LOOPS, n)(1)
    {
      assert Sum(Selectable(TWO_LOOPS, n), AllNodes(2), 1) == Selectable(TWO_LOOPS, n)(0);
    }
  }

  /** The loop node 0 is reached twice after its call: the first visit parks it, the second
      takes it out of the tick list again. The chart runs on, but node 0 waits for nothing.
      One edge less into node 0, and FewEdgesLoseNone would exclude this. */
  lemma LoopNodeCanBeLost()
    ensures Fits(TWO_LOOPS, BEFORE) && Clean(BEFORE, 0) && Roots(TWO_LOOPS, BEFORE, 0) == [0]
    ensures multiset([0])[0] + Sum(Selectable(TWO_LOOPS, 0), AllNodes(2), 2) == 3
    ensures multiset([0])[1] + Sum(Selectable(TWO_LOOPS, 1), AllNodes(2), 2) == 1
    ensures var r := RunFlow(TWO_LOOPS, Always, 0, 1024, BEFORE, 0);
            r.running && r.nodes[0].status == Running && r.nodes[0].place == Nowhere && r.waiting == [[]]
  {
    hide Round, Lists, WellFormed, Started;
    BeforeFits();
    EdgesOfTwoLoops();
    var t := Started(TWO_LOOPS, BEFORE, 0);
    Round0();
    Round1();
    Round2();
    Round3();
    assert Loop(TWO_LOOPS, Always, 0, STATES[3], 1024) == STATES[3];
    assert Loop(TWO_LOOPS, Always, 0, STATES[2], 1024) == STATES[3];
    assert Loop(TWO_LOOPS, Always, 0, STATES[1], 1024) == STATES[3];
    assert Loop(TWO_LOOPS, Always, 0, STATES[0], 1024) == STATES[3];
    FirstLoop(TWO_LOOPS, Always, 0, 1024, BEFORE, 0);
    StartedStands(TWO_LOOPS, BEFORE, 0, 0);
    assert Loop(TWO_LOOPS, Always, 0, t, 1024) == STATES[3];
    var v := Settle(TWO_LOOPS, STATES[3]);
    assert v.waiting[0] == [] && v.waiting == [[]];
    assert v.nodes[0].status == Running;
  }
}
