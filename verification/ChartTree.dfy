/** Charts own charts: a node that calls a subchart has it attached, and stopping a chart
    stops everything below it. */
module ChartTree {
  import Flowchart

  // ----- Objects

  /** An agent's list of waiting nodes, or an executor's stack. */
  class NodeList {
    var contents: seq<Node>

    method Remove(n: Node)
      modifies this, n`container
      ensures contents == Flowchart.Without(old(contents), {n}) && n.container == null
    {
      contents := Flowchart.Without(contents, {n});
      n.container := null;
    }
  }

  class NodeTimer {
    const node: Node
    var active: bool

    constructor (node: Node)
      ensures this.node == node && active
    {
      this.node := node;
      active := true;
    }

    method Stop(ghost w: World)
      requires this in w.timers
      modifies this
      ensures var v := old(w.See()); w.See() == v.(timers := v.timers[this := false])
    {
      active := false;
      assert w.Timers() == old(w.Timers())[this := false];
    }
  }

  /** A node that waits until each of some nodes has led to it. */
  class NodeWaitAll {
    const node: Node
    var arrived: map<nat, bool>

    constructor (node: Node, ids: seq<nat>)
      ensures this.node == node && arrived == map id | id in ids :: false
    {
      this.node := node;
      arrived := map id | id in ids :: false;
    }

    /** Marks an arrival; opens when all have arrived, and then starts anew. */
    method Run(id: nat) returns (open: bool)
      modifies this
      ensures (arrived, open) == Arrive(old(arrived), id)
    {
      if id !in arrived {
        return false;
      }
      arrived := arrived[id := true];
      var todo := arrived.Keys;
      while todo != {}
        invariant todo <= arrived.Keys && arrived == old(arrived)[id := true]
        invariant forall k | k in arrived && k !in todo :: arrived[k]
      {
        var k :| k in todo;
        if !arrived[k] {
          return false;
        }
        todo := todo - {k};
      }
      Clear();
      open := true;
    }

    method Stop(ghost w: World)
      requires this in w.waits
      modifies this
      ensures var v := old(w.See()); w.See() == v.(waits := v.waits[this := Cleared(v.waits[this])])
    {
      Clear();
      assert w.Waits() == old(w.Waits())[this := Cleared(old(arrived))];
    }

    method Clear()
      modifies this
      ensures arrived == Cleared(old(arrived))
    {
      var todo := arrived.Keys;
      while todo != {}
        invariant todo <= arrived.Keys == old(arrived.Keys)
        invariant forall k | k in arrived && k !in todo :: !arrived[k]
      {
        var k :| k in todo;
        arrived := arrived[k := false];
        todo := todo - {k};
      }
    }
  }

  datatype Attacher = Nothing | Timer(timer: NodeTimer) | Subchart(chart: Chart) | WaitAll(wait: NodeWaitAll)

  class Node {
    const chart: Chart
    var status: Flowchart.Status
    var result: Flowchart.NodeResult
    var runFlag: bool
    var skip: bool
    var attacher: Attacher
    var container: NodeList?

    constructor (chart: Chart)
      ensures this.chart == chart
      ensures Fields() == FRESH_NODE
    {
      this.chart := chart;
      status, result, runFlag, skip := Flowchart.Idle, Flowchart.rTRUE, false, false;
      attacher, container := Nothing, null;
    }

    ghost function Fields(): NodeView
      reads this
    {
      NodeView(status, result, runFlag, skip, attacher, container)
    }

    /** `Node::Stop` */
    method Stop(ghost w: World)
      requires this in w.nodes && Coherent(w.See())
      modifies w.nodes, w.charts, w.lists, w.timers, w.waits
      ensures var v := old(w.See());
              w.See() == StopAll(v, Below(v, this), ChartsBelow(v, this)) && Coherent(w.See())
      decreases Deeper(w.charts, chart.depth), 1
    {
      ghost var v := w.See();
      ResetIsCoherent(v, this);
      NodeIsStopped(v, this);
      StopKeepsCoherence(v, Below(v, this), ChartsBelow(v, this));
      ContainerStays(Reset(v, this), this);
      hide *;
      ResetFields(w);
      StopAttacher(w);
      ContainerSeen(w, this);
      Leave(w);
    }

    method ResetFields(ghost w: World)
      requires this in w.nodes
      modifies this
      ensures w.See() == Reset(old(w.See()), this)
    {
      hide World.Members, World.Running, World.Lists, World.Timers, World.Waits;
      status, result, runFlag, skip := Flowchart.Idle, Flowchart.rSTOP, false, false;
      assert w.Nodes() == old(w.Nodes())[this := StoppedNode(old(Fields())).(container := container)];
    }

    method StopAttacher(ghost w: World)
      requires this in w.nodes && Coherent(w.See()) && NodeFits(w.See(), this)
      modifies w.nodes, w.charts, w.lists, w.timers, w.waits
      ensures w.See() == StopAttached(old(w.See()), this)
      decreases Deeper(w.charts, chart.depth), 0
    {
      AttacherSeen(w, this);
      hide Coherent, StopAll, Tree, Charts, World.See, Deeper;
      match attacher {
        case Nothing =>
        case Timer(timer) => timer.Stop(w);
        case Subchart(sub) =>
          DeeperShrinks(w.charts, sub, chart.depth);
          sub.Stop(w);
        case WaitAll(wait) => wait.Stop(w);
      }
    }

    /** `Manager::Subchart`, up to the start of the chart: one that was called before is
        called again, otherwise a new one is made. */
    method CallSubchart(size: nat, ghost w: World) returns (c: Chart, ghost x: World)
      requires this in w.nodes && Coherent(w.See()) && (attacher.Nothing? || attacher.Subchart?)
      modifies this
      ensures status == Flowchart.Running && attacher == Subchart(c) && c.owner == this && Coherent(x.See())
      ensures old(attacher).Subchart? ==> c == old(attacher).chart && x == w
      ensures old(attacher).Nothing? ==> fresh(c) && |c.nodes| == size && x == w.Grown(c, c.nodes)
    {
      AttacherSeen(w, this);
      if attacher.Subchart? {
        c, x := attacher.chart, w;
        RunningKeepsCoherence(w.See(), this);
        hide *;
        Run(attacher, w);
      } else {
        c, x := NewSubchart(size, w);
      }
    }

    method MakeChart(size: nat) returns (c: Chart)
      ensures fresh(c) && c.owner == this && c.depth == chart.depth + 1 && !c.running && |c.nodes| == size
      ensures forall k | k in c.nodes :: fresh(k) && k.chart == c && k.Fields() == FRESH_NODE
    {
      c := new Chart(this);
      c.Init(size);
    }

    method NewSubchart(size: nat, ghost w: World) returns (c: Chart, ghost x: World)
      requires this in w.nodes && Coherent(w.See()) && attacher.Nothing?
      modifies this
      ensures status == Flowchart.Running && attacher == Subchart(c) && c.owner == this && Coherent(x.See())
      ensures fresh(c) && |c.nodes| == size && x == w.Grown(c, c.nodes)
    {
      AttacherSeen(w, this);
      KeysSeen(w);
      hide *;
      c := MakeChart(size);
      x := w.Grown(c, c.nodes);
      AdoptedIsCoherent(w, this, c);
      Run(Subchart(c), x);
    }

    /** The node runs, with the given attacher. */
    method Run(with: Attacher, ghost w: World)
      requires this in w.nodes
      modifies this
      ensures status == Flowchart.Running && attacher == with
      ensures var v := old(w.See());
              w.See() == v.(nodes := v.nodes[this := v.nodes[this].(status := Flowchart.Running, attacher := with)])
    {
      hide World.Members, World.Running, World.Lists, World.Timers, World.Waits;
      status, attacher := Flowchart.Running, with;
      assert w.Nodes() == old(w.Nodes())[this := old(Fields()).(status := Flowchart.Running, attacher := with)];
    }

    method Leave(ghost w: World)
      requires this in w.nodes && (container != null ==> container in w.lists)
      modifies this, container
      ensures w.See() == Detach(old(w.See()), this)
    {
      hide World.Members, World.Running, World.Timers, World.Waits;
      if container != null {
        container.Remove(this);
        assert w.Lists() == old(w.Lists())[old(container) := Flowchart.Without(old(container.contents), {this})];
      }
      assert w.Nodes() == old(w.Nodes())[this := old(Fields()).(container := null)];
    }
  }

  class Chart {
    const owner: Node?
    ghost const depth: nat
    var nodes: seq<Node>
    var running: bool

    constructor (owner: Node?)
      ensures this.owner == owner && nodes == [] && !running
      ensures depth == if owner == null then 0 else owner.chart.depth + 1
    {
      this.owner := owner;
      depth := if owner == null then 0 else owner.chart.depth + 1;
      nodes, running := [], false;
    }

    /** `Chart::Init` */
    method Init(size: nat)
      requires nodes == []
      modifies this
      ensures |nodes| == size && running == old(running)
      ensures forall k | k in nodes :: fresh(k) && k.chart == this && k.Fields() == FRESH_NODE
    {
      for i := 0 to size
        invariant |nodes| == i && running == old(running)
        invariant forall k | k in nodes :: fresh(k) && k.chart == this && k.Fields() == FRESH_NODE
      {
        var node := new Node(this);
        nodes := nodes + [node];
      }
    }

    /** `Chart::Stop` */
    method Stop(ghost w: World)
      requires this in w.charts && Coherent(w.See())
      modifies w.nodes, w.charts, w.lists, w.timers, w.waits
      ensures var v := old(w.See());
              w.See() == StopAll(v, Tree(v, this), Charts(v, this)) && Coherent(w.See())
      decreases Deeper(w.charts, depth), 3
    {
      ghost var v := w.See();
      ghost var gone: set<Node>, ended: set<Chart> := {}, {};
      StopNothing(v);
      MembersSeen(w, this);
      hide *;
      var i := 0;
      while i < |nodes|
        invariant i <= |nodes| && nodes == v.members[this]
        invariant w.See() == StopAll(v, gone, ended) && Coherent(w.See())
        invariant gone <= Tree(v, this) && ended <= Charts(v, this) && Covers(v, nodes[..i], gone, ended)
      {
        gone, ended := StopNext(w, v, gone, ended, i);
        i := i + 1;
      }
      assert nodes[..i] == nodes;
      ChartEnds(v, gone, ended, this);
      End(w);
    }

    method StopNext(ghost w: World, ghost v: View, ghost gone: set<Node>, ghost ended: set<Chart>, i: nat)
      returns (ghost wider: set<Node>, ghost longer: set<Chart>)
      requires this in w.charts && i < |nodes| && this in v.members && nodes == v.members[this]
      requires Coherent(v) && Coherent(w.See()) && w.See() == StopAll(v, gone, ended)
      requires gone <= Tree(v, this) && ended <= Charts(v, this) && Covers(v, nodes[..i], gone, ended)
      modifies w.nodes, w.charts, w.lists, w.timers, w.waits
      ensures w.See() == StopAll(v, wider, longer) && Coherent(w.See()) && nodes == old(nodes)
      ensures wider <= Tree(v, this) && longer <= Charts(v, this) && Covers(v, nodes[..i + 1], wider, longer)
      decreases Deeper(w.charts, depth), 2
    {
      var n := nodes[i];
      assert ChartFits(v, this) && n in nodes;
      MembersSeen(w, this);
      BelowIsInside(v, n);
      BelowStays(v, gone, ended, n);
      StopTwice(v, gone, ended, Below(v, n), ChartsBelow(v, n));
      wider, longer := gone + Below(v, n), ended + ChartsBelow(v, n);
      CoversNext(v, nodes, i, gone, ended);
      hide *;
      n.Stop(w);
      MembersSeen(w, this);
    }

    method End(ghost w: World)
      requires this in w.charts
      modifies this
      ensures var v := old(w.See()); w.See() == v.(running := v.running[this := false])
    {
      hide World.Nodes, World.Lists, World.Timers, World.Waits;
      running := false;
      assert w.Members() == old(w.Members());
      assert w.Running() == old(w.Running())[this := false];
    }
  }

  // ----- What can be seen of the objects

  datatype NodeView = NodeView(status: Flowchart.Status, result: Flowchart.NodeResult, runFlag: bool, skip: bool,
                               attacher: Attacher, container: NodeList?)

  ghost const FRESH_NODE := NodeView(Flowchart.Idle, Flowchart.rTRUE, false, false, Nothing, null)

  datatype View = View(nodes: map<Node, NodeView>, members: map<Chart, seq<Node>>, running: map<Chart, bool>,
                       lists: map<NodeList, seq<Node>>, timers: map<NodeTimer, bool>, waits: map<NodeWaitAll, map<nat, bool>>)

  /** The objects that the charts of an agent consist of. */
  datatype World = World(nodes: set<Node>, charts: set<Chart>, lists: set<NodeList>, timers: set<NodeTimer>, waits: set<NodeWaitAll>) {
    ghost function Nodes(): map<Node, NodeView>
      reads nodes
    {
      map n | n in nodes :: n.Fields()
    }

    ghost function Members(): map<Chart, seq<Node>>
      reads charts
    {
      map c | c in charts :: c.nodes
    }

    ghost function Running(): map<Chart, bool>
      reads charts
    {
      map c | c in charts :: c.running
    }

    ghost function Lists(): map<NodeList, seq<Node>>
      reads lists
    {
      map l | l in lists :: l.contents
    }

    ghost function Timers(): map<NodeTimer, bool>
      reads timers
    {
      map t | t in timers :: t.active
    }

    ghost function Waits(): map<NodeWaitAll, map<nat, bool>>
      reads waits
    {
      map x | x in waits :: x.arrived
    }

    ghost function Grown(c: Chart, kids: seq<Node>): World {
      this.(nodes := nodes + Elements(kids), charts := charts + {c})
    }

    ghost function See(): View
      reads nodes, charts, lists, timers, waits
    {
      View(Nodes(), Members(), Running(), Lists(), Timers(), Waits())
    }
  }

  /** Nodes, charts, attachers and lists point to each other consistently. */
  ghost predicate Coherent(v: View) {
    && v.members.Keys == v.running.Keys
    && (forall n | n in v.nodes :: NodeFits(v, n))
    && (forall c | c in v.members :: ChartFits(v, c))
    && ListsFit(v.lists, v.nodes)
    && TimersFit(v.timers, v.nodes)
    && WaitsFit(v.waits, v.nodes)
  }

  ghost predicate ListsFit(lists: map<NodeList, seq<Node>>, nodes: map<Node, NodeView>) {
    forall l | l in lists :: forall n | n in lists[l] :: n in nodes && nodes[n].container == l
  }

  ghost predicate TimersFit(timers: map<NodeTimer, bool>, nodes: map<Node, NodeView>) {
    forall t | t in timers :: t.node in nodes && nodes[t.node].attacher == Timer(t)
  }

  ghost predicate WaitsFit(waits: map<NodeWaitAll, map<nat, bool>>, nodes: map<Node, NodeView>) {
    forall x | x in waits :: x.node in nodes && nodes[x.node].attacher == WaitAll(x)
  }

  ghost predicate NodeFits(v: View, n: Node)
    requires n in v.nodes
  {
    && n.chart in v.members && n in v.members[n.chart]
    && (var l := v.nodes[n].container; l != null ==> l in v.lists && n in v.lists[l])
    && match v.nodes[n].attacher
       case Nothing => true
       case Timer(timer) => timer in v.timers && timer.node == n
       case Subchart(sub) => sub in v.members && sub.owner == n
       case WaitAll(wait) => wait in v.waits && wait.node == n
  }

  ghost predicate ChartFits(v: View, c: Chart)
    requires c in v.members
  {
    && (forall n | n in v.members[c] :: n in v.nodes && n.chart == c)
    && (c.owner != null ==>
          c.owner in v.nodes && v.nodes[c.owner].attacher == Subchart(c) && c.owner.chart.depth < c.depth)
  }

  // ----- The tree

  /** Chart d is c, or is owned by a node of a chart inside c. */
  ghost predicate Inside(d: Chart, c: Chart)
    decreases d.depth
  {
    d == c || (d.owner != null && d.owner.chart.depth < d.depth && Inside(d.owner.chart, c))
  }

  ghost function Charts(v: View, c: Chart): set<Chart> {
    set d | d in v.members && Inside(d, c)
  }

  ghost function Tree(v: View, c: Chart): set<Node> {
    set n | n in v.nodes && Inside(n.chart, c)
  }

  /** A node and everything that its subchart owns. */
  ghost function Below(v: View, n: Node): set<Node>
    requires n in v.nodes
  {
    {n} + if v.nodes[n].attacher.Subchart? then Tree(v, v.nodes[n].attacher.chart) else {}
  }

  ghost function ChartsBelow(v: View, n: Node): set<Chart>
    requires n in v.nodes
  {
    if v.nodes[n].attacher.Subchart? then Charts(v, v.nodes[n].attacher.chart) else {}
  }

  /** What is below the given nodes is in the given sets. */
  ghost predicate Covers(v: View, ns: seq<Node>, gone: set<Node>, ended: set<Chart>) {
    forall n | n in ns :: n in v.nodes && Below(v, n) <= gone && ChartsBelow(v, n) <= ended
  }

  lemma CoversNext(v: View, ns: seq<Node>, i: nat, gone: set<Node>, ended: set<Chart>)
    requires i < |ns| && ns[i] in v.nodes && Covers(v, ns[..i], gone, ended)
    ensures Covers(v, ns[..i + 1], gone + Below(v, ns[i]), ended + ChartsBelow(v, ns[i]))
  {
    assert ns[..i + 1] == ns[..i] + [ns[i]];
  }

  ghost function Deeper(charts: set<Chart>, depth: nat): set<Chart> {
    set c | c in charts && c.depth > depth
  }

  lemma DeeperShrinks(charts: set<Chart>, sub: Chart, depth: nat)
    requires sub in charts && sub.depth > depth
    ensures Deeper(charts, sub.depth) < Deeper(charts, depth)
  {
    assert sub in Deeper(charts, depth) && sub !in Deeper(charts, sub.depth);
  }

  lemma {:induction false} InsideSubchart(d: Chart, sub: Chart)
    requires Inside(d, sub) && sub.owner != null && sub.owner.chart.depth < sub.depth
    ensures Inside(d, sub.owner.chart)
    decreases d.depth
  {
    if d != sub {
      InsideSubchart(d.owner.chart, sub);
    }
  }

  lemma BelowIsInside(v: View, n: Node)
    requires Coherent(v) && n in v.nodes
    ensures Below(v, n) <= Tree(v, n.chart) && ChartsBelow(v, n) <= Charts(v, n.chart)
  {
    var attacher := v.nodes[n].attacher;
    if attacher.Subchart? {
      assert ChartFits(v, attacher.chart);
      forall d | (d in v.members || exists m :: m in v.nodes && m.chart == d) && Inside(d, attacher.chart)
        ensures Inside(d, n.chart)
      {
        InsideSubchart(d, attacher.chart);
      }
    }
  }

  /** A chart inside c other than c is inside a subchart that a node of c has attached. */
  lemma {:induction false} InsideIsBelow(v: View, d: Chart, c: Chart) returns (n: Node)
    requires Coherent(v) && d in v.members && c in v.members && Inside(d, c) && d != c
    ensures n in v.members[c] && n in v.nodes && v.nodes[n].attacher.Subchart? && Inside(d, v.nodes[n].attacher.chart)
    decreases d.depth
  {
    assert ChartFits(v, d) && NodeFits(v, d.owner);
    n := d.owner;
    if n.chart != c {
      n := InsideIsBelow(v, n.chart, c);
    }
  }

  lemma TreeIsCovered(v: View, c: Chart, gone: set<Node>, ended: set<Chart>)
    requires Coherent(v) && c in v.members && ChartFits(v, c)
    requires Covers(v, v.members[c], gone, ended)
    ensures Tree(v, c) <= gone && Charts(v, c) <= ended + {c} && c in Charts(v, c)
  {
    forall d | d in Charts(v, c) && d != c
      ensures d in ended
    {
      var n := InsideIsBelow(v, d, c);
      assert d in ChartsBelow(v, n);
    }
    forall m | m in Tree(v, c)
      ensures m in gone
    {
      assert NodeFits(v, m);
      if m.chart == c {
        assert m in Below(v, m);
      } else {
        var n := InsideIsBelow(v, m.chart, c);
        assert m in Below(v, n);
      }
    }
  }

  // ----- What stopping does

  function Cleared(arrived: map<nat, bool>): map<nat, bool> {
    map k | k in arrived :: false
  }

  function StoppedNode(node: NodeView): NodeView {
    NodeView(Flowchart.Idle, Flowchart.rSTOP, false, false, node.attacher, null)
  }

  ghost function StopNodes(nodes: map<Node, NodeView>, gone: set<Node>): map<Node, NodeView> {
    map n | n in nodes :: if n in gone then StoppedNode(nodes[n]) else nodes[n]
  }

  ghost function EndCharts(running: map<Chart, bool>, ended: set<Chart>): map<Chart, bool> {
    map c | c in running :: running[c] && c !in ended
  }

  ghost function Unlist(lists: map<NodeList, seq<Node>>, gone: set<Node>): map<NodeList, seq<Node>> {
    map l | l in lists :: Flowchart.Without(lists[l], gone)
  }

  ghost function Disarm(timers: map<NodeTimer, bool>, gone: set<Node>): map<NodeTimer, bool> {
    map t | t in timers :: timers[t] && t.node !in gone
  }

  ghost function ClearAll(waits: map<NodeWaitAll, map<nat, bool>>, gone: set<Node>): map<NodeWaitAll, map<nat, bool>> {
    map x | x in waits :: if x.node in gone then Cleared(waits[x]) else waits[x]
  }

  /** Stops exactly the given nodes and charts, and changes nothing else. */
  ghost function StopAll(v: View, gone: set<Node>, ended: set<Chart>): (r: View)
    ensures r.members == v.members && r.nodes.Keys == v.nodes.Keys
  {
    View(StopNodes(v.nodes, gone), v.members, EndCharts(v.running, ended), Unlist(v.lists, gone),
         Disarm(v.timers, gone), ClearAll(v.waits, gone))
  }

  lemma UnlistNone(lists: map<NodeList, seq<Node>>)
    ensures Unlist(lists, {}) == lists
  {
    forall l | l in lists
      ensures Flowchart.Without(lists[l], {}) == lists[l]
    {
      Flowchart.WithoutNone(lists[l], {});
    }
  }

  lemma StopNothing(v: View)
    ensures StopAll(v, {}, {}) == v
  {
    UnlistNone(v.lists);
    assert StopNodes(v.nodes, {}) == v.nodes;
    assert EndCharts(v.running, {}) == v.running;
    assert Disarm(v.timers, {}) == v.timers;
    assert ClearAll(v.waits, {}) == v.waits;
  }

  lemma UnlistTwice(lists: map<NodeList, seq<Node>>, a: set<Node>, b: set<Node>)
    ensures Unlist(Unlist(lists, a), b) == Unlist(lists, a + b)
  {
    forall l | l in lists
      ensures Flowchart.Without(Flowchart.Without(lists[l], a), b) == Flowchart.Without(lists[l], a + b)
    {
      Flowchart.WithoutTwice(lists[l], a, b);
    }
  }

  lemma ClearTwice(waits: map<NodeWaitAll, map<nat, bool>>, a: set<Node>, b: set<Node>)
    ensures ClearAll(ClearAll(waits, a), b) == ClearAll(waits, a + b)
  {
    assert forall x | x in waits :: Cleared(Cleared(waits[x])) == Cleared(waits[x]);
  }

  lemma StopTwice(v: View, gone: set<Node>, ended: set<Chart>, more: set<Node>, also: set<Chart>)
    ensures StopAll(StopAll(v, gone, ended), more, also) == StopAll(v, gone + more, ended + also)
  {
    UnlistTwice(v.lists, gone, more);
    ClearTwice(v.waits, gone, more);
    hide Unlist, ClearAll, Cleared, Flowchart.Without;
    assert StopNodes(StopNodes(v.nodes, gone), more) == StopNodes(v.nodes, gone + more);
    assert EndCharts(EndCharts(v.running, ended), also) == EndCharts(v.running, ended + also);
    assert Disarm(Disarm(v.timers, gone), more) == Disarm(v.timers, gone + more);
  }

  lemma StopKeepsCoherence(v: View, gone: set<Node>, ended: set<Chart>)
    requires Coherent(v)
    ensures Coherent(StopAll(v, gone, ended))
  {
    var u := StopAll(v, gone, ended);
    StopKeepsLists(v.lists, v.nodes, gone);
    StopKeepsAttachers(v.timers, v.waits, v.nodes, gone);
    forall n | n in u.nodes
      ensures NodeFits(u, n)
    {
      StopKeepsNode(v, n, gone, ended);
    }
    forall c | c in u.members
      ensures ChartFits(u, c)
    {
      assert ChartFits(v, c);
    }
    hide ListsFit, TimersFit, WaitsFit, NodeFits, ChartFits, Unlist;
  }

  lemma StopKeepsLists(lists: map<NodeList, seq<Node>>, nodes: map<Node, NodeView>, gone: set<Node>)
    requires ListsFit(lists, nodes)
    ensures ListsFit(Unlist(lists, gone), StopNodes(nodes, gone))
  {
  }

  lemma StopKeepsAttachers(timers: map<NodeTimer, bool>, waits: map<NodeWaitAll, map<nat, bool>>,
                           nodes: map<Node, NodeView>, gone: set<Node>)
    requires TimersFit(timers, nodes) && WaitsFit(waits, nodes)
    ensures TimersFit(Disarm(timers, gone), StopNodes(nodes, gone))
    ensures WaitsFit(ClearAll(waits, gone), StopNodes(nodes, gone))
  {
  }

  lemma StopKeepsNode(v: View, n: Node, gone: set<Node>, ended: set<Chart>)
    requires n in v.nodes && NodeFits(v, n)
    ensures NodeFits(StopAll(v, gone, ended), n)
  {
  }

  lemma MembersSeen(w: World, c: Chart)
    requires c in w.charts
    ensures c in w.See().members && c.nodes == w.See().members[c] && w.See().nodes.Keys == w.nodes
  {
  }

  lemma KeysSeen(w: World)
    ensures w.See().nodes.Keys == w.nodes && w.See().members.Keys == w.charts
  {
  }

  lemma AttacherSeen(w: World, n: Node)
    requires n in w.nodes && Coherent(w.See())
    ensures n in w.See().nodes && w.See().nodes[n].attacher == n.attacher
    ensures match n.attacher
            case Nothing => true
            case Timer(timer) => timer in w.timers
            case Subchart(sub) => sub in w.charts && sub.owner == n && n.chart.depth < sub.depth
            case WaitAll(wait) => wait in w.waits
  {
    assert NodeFits(w.See(), n);
    if n.attacher.Subchart? {
      assert ChartFits(w.See(), n.attacher.chart);
    }
  }

  lemma ContainerStays(v: View, n: Node)
    requires n in v.nodes && NodeFits(v, n)
    ensures var u := StopAttached(v, n); var l := u.nodes[n].container; l == null || l in u.lists
  {
  }

  lemma ContainerSeen(w: World, n: Node)
    requires n in w.nodes
    ensures n in w.See().nodes && w.See().nodes[n].container == n.container && w.See().lists.Keys == w.lists
  {
  }

  lemma BelowStays(v: View, gone: set<Node>, ended: set<Chart>, n: Node)
    requires n in v.nodes
    ensures Below(StopAll(v, gone, ended), n) == Below(v, n)
    ensures ChartsBelow(StopAll(v, gone, ended), n) == ChartsBelow(v, n)
  {
  }

  lemma ChartEnds(v: View, gone: set<Node>, ended: set<Chart>, c: Chart)
    requires Coherent(v) && c in v.members && Covers(v, v.members[c], gone, ended)
    requires gone <= Tree(v, c) && ended <= Charts(v, c)
    ensures var u, r := StopAll(v, gone, ended), StopAll(v, Tree(v, c), Charts(v, c));
            u.(running := u.running[c := false]) == r && Coherent(r)
  {
    assert ChartFits(v, c);
    TreeIsCovered(v, c, gone, ended);
    StopKeepsCoherence(v, Tree(v, c), Charts(v, c));
    assert c in v.running && ended + {c} == Charts(v, c) && gone == Tree(v, c);
    hide Coherent, Tree, Charts, Unlist, Disarm, ClearAll, StopNodes, Covers, ChartFits;
    assert EndCharts(v.running, ended)[c := false] == EndCharts(v.running, ended + {c});
  }

  // ----- The steps of stopping a node

  ghost function Reset(v: View, n: Node): View
    requires n in v.nodes
  {
    v.(nodes := v.nodes[n := StoppedNode(v.nodes[n]).(container := v.nodes[n].container)])
  }

  ghost function StopAttached(v: View, n: Node): View
    requires n in v.nodes && NodeFits(v, n)
  {
    match v.nodes[n].attacher
    case Nothing => v
    case Timer(timer) => v.(timers := v.timers[timer := false])
    case Subchart(sub) => StopAll(v, Tree(v, sub), Charts(v, sub))
    case WaitAll(wait) => v.(waits := v.waits[wait := Cleared(v.waits[wait])])
  }

  ghost function Detach(v: View, n: Node): View
    requires n in v.nodes
  {
    var l := v.nodes[n].container;
    v.(nodes := v.nodes[n := v.nodes[n].(container := null)],
    lists := if l != null && l in v.lists then v.lists[l := Flowchart.Without(v.lists[l], {n})] else v.lists)
  }

  lemma ResetIsCoherent(v: View, n: Node)
    requires Coherent(v) && n in v.nodes
    ensures Coherent(Reset(v, n))
  {
    var u := Reset(v, n);
    forall m | m in u.nodes
      ensures NodeFits(u, m)
    {
      assert NodeFits(v, m);
    }
    forall c | c in u.members
      ensures ChartFits(u, c)
    {
      assert ChartFits(v, c);
    }
  }

  lemma TimersAreStopped(v: View, n: Node)
    requires n in v.nodes && NodeFits(v, n) && TimersFit(v.timers, v.nodes)
    ensures StopAttached(v, n).timers == Disarm(v.timers, Below(v, n))
  {
    hide Unlist, StopNodes, EndCharts, ClearAll, Tree, Charts;
    assert forall t | t in v.timers :: t.node == n ==> v.nodes[n].attacher == Timer(t);
  }

  lemma WaitsAreStopped(v: View, n: Node)
    requires n in v.nodes && NodeFits(v, n) && WaitsFit(v.waits, v.nodes)
    ensures StopAttached(v, n).waits == ClearAll(v.waits, Below(v, n))
  {
    hide Unlist, StopNodes, EndCharts, Disarm, Tree, Charts;
    assert forall x | x in v.waits :: x.node == n ==> v.nodes[n].attacher == WaitAll(x);
  }

  /** Clearing a node, stopping what is attached to it and unlinking it stops everything
      below it. */
  lemma NodeIsStopped(v: View, n: Node)
    requires Coherent(v) && n in v.nodes
    ensures NodeFits(Reset(v, n), n)
    ensures Detach(StopAttached(Reset(v, n), n), n) == StopAll(v, Below(v, n), ChartsBelow(v, n))
  {
    ResetIsCoherent(v, n);
    var u := Reset(v, n);
    assert NodeFits(u, n);
    TimersAreStopped(u, n);
    WaitsAreStopped(u, n);
    NodesAreStopped(v, n);
    ListsAreStopped(v, n);
    ChartsAreStopped(v, n);
    assert Below(u, n) == Below(v, n);
  }

  lemma NodesAreStopped(v: View, n: Node)
    requires n in v.nodes && NodeFits(Reset(v, n), n) && NodeFits(v, n)
    ensures Detach(StopAttached(Reset(v, n), n), n).nodes == StopNodes(v.nodes, Below(v, n))
  {
    hide Unlist, EndCharts, Disarm, ClearAll, Charts;
    var u := Reset(v, n);
    if v.nodes[n].attacher.Subchart? {
      var sub := v.nodes[n].attacher.chart;
      assert Tree(u, sub) == Tree(v, sub);
    }
  }

  lemma ListsAreStopped(v: View, n: Node)
    requires n in v.nodes && NodeFits(Reset(v, n), n) && NodeFits(v, n) && ListsFit(v.lists, v.nodes)
    ensures Detach(StopAttached(Reset(v, n), n), n).lists == Unlist(v.lists, Below(v, n))
  {
    hide EndCharts, Disarm, ClearAll, Charts, NodeFits, Flowchart.Without, ListsFit;
    var u := StopAttached(Reset(v, n), n);
    var tree := if v.nodes[n].attacher.Subchart? then Tree(Reset(v, n), v.nodes[n].attacher.chart) else {};
    UnlistNone(v.lists);
    assert u.lists == Unlist(v.lists, tree);
    assert u.nodes[n].container == if n in tree then null else v.nodes[n].container;
    UnlistTwice(v.lists, tree, {n});
    assert Below(v, n) == tree + {n};
    NodeLeaves(v.lists, v.nodes, tree, n);
  }

  lemma NodeLeaves(lists: map<NodeList, seq<Node>>, nodes: map<Node, NodeView>, tree: set<Node>, n: Node)
    requires n in nodes && ListsFit(lists, nodes)
    ensures var rest, l := Unlist(lists, tree), if n in tree then null else nodes[n].container;
            Unlist(rest, {n}) == if l != null && l in lists then rest[l := Flowchart.Without(rest[l], {n})] else rest
  {
    var rest, c := Unlist(lists, tree), if n in tree then null else nodes[n].container;
    assert forall l | l in lists && l != c :: n !in rest[l];
    hide ListsFit;
    var less := if c != null && c in lists then rest[c := Flowchart.Without(rest[c], {n})] else rest;
    forall l | l in lists
      ensures Flowchart.Without(rest[l], {n}) == less[l]
    {
      if l != c {
        Flowchart.WithoutNone(rest[l], {n});
      }
    }
    assert Unlist(rest, {n}) == less;
  }

  lemma ChartsAreStopped(v: View, n: Node)
    requires n in v.nodes && NodeFits(Reset(v, n), n)
    ensures var r := Detach(StopAttached(Reset(v, n), n), n);
            r.members == v.members && r.running == EndCharts(v.running, ChartsBelow(v, n))
  {
    hide Unlist, StopNodes, Disarm, ClearAll, Tree;
    assert EndCharts(v.running, {}) == v.running;
    var u := Reset(v, n);
    if v.nodes[n].attacher.Subchart? {
      assert Charts(u, v.nodes[n].attacher.chart) == Charts(v, v.nodes[n].attacher.chart);
    }
  }

  // ----- Calling a subchart

  ghost function Elements(ns: seq<Node>): set<Node> {
    set n | n in ns
  }

  ghost function Grow(v: View, c: Chart, kids: seq<Node>): View {
    v.(nodes := v.nodes + map k | k in kids :: FRESH_NODE, members := v.members[c := kids], running := v.running[c := false])
  }

  ghost function Adopt(v: View, n: Node, c: Chart, kids: seq<Node>): (r: View)
    requires n in v.nodes
    ensures var u := Grow(v, c, kids);
            r == u.(nodes := u.nodes[n := v.nodes[n].(status := Flowchart.Running, attacher := Subchart(c))])
  {
    var u := Grow(v, c, kids);
    u.(nodes := u.nodes[n := v.nodes[n].(status := Flowchart.Running, attacher := Subchart(c))])
  }

  lemma GrownSeen(w: World, c: Chart)
    requires c !in w.charts && !c.running
    requires forall k | k in c.nodes :: k !in w.nodes && k.Fields() == FRESH_NODE
    ensures w.Grown(c, c.nodes).See() == Grow(w.See(), c, c.nodes)
  {
    var x := w.Grown(c, c.nodes);
    assert x.Nodes() == Grow(w.See(), c, c.nodes).nodes;
    assert x.Members() == w.Members()[c := c.nodes];
    assert x.Running() == w.Running()[c := false];
  }

  lemma AdoptKeepsCoherence(v: View, n: Node, c: Chart, kids: seq<Node>)
    requires Coherent(v) && n in v.nodes && v.nodes[n].attacher.Nothing?
    requires c !in v.members && c.owner == n && c.depth > n.chart.depth
    requires forall k | k in kids :: k !in v.nodes && k.chart == c
    ensures Coherent(Adopt(v, n, c, kids))
  {
    var u := Adopt(v, n, c, kids);
    AdoptKeepsAttachers(v, n, c, kids);
    assert forall m | m in v.nodes :: NodeFits(v, m);
    assert forall d | d in v.members :: ChartFits(v, d);
    hide ListsFit, TimersFit, WaitsFit, NodeFits, ChartFits;
    forall m | m in u.nodes
      ensures NodeFits(u, m)
    {
      AdoptKeepsNode(v, n, c, kids, m);
    }
    forall d | d in u.members
      ensures ChartFits(u, d)
    {
      AdoptKeepsChart(v, n, c, kids, d);
    }
  }

  lemma AdoptedIsCoherent(w: World, n: Node, c: Chart)
    requires Coherent(w.See()) && n in w.nodes && n.attacher == Nothing
    requires c !in w.charts && !c.running && c.owner == n && c.depth > n.chart.depth
    requires forall k | k in c.nodes :: k !in w.nodes && k.chart == c && k.Fields() == FRESH_NODE
    ensures var x := w.Grown(c, c.nodes); var u := x.See();
            && n in x.nodes && n in u.nodes
            && Coherent(u.(nodes := u.nodes[n := u.nodes[n].(status := Flowchart.Running, attacher := Subchart(c))]))
  {
    GrownSeen(w, c);
    KeysSeen(w);
    AttacherSeen(w, n);
    AdoptKeepsCoherence(w.See(), n, c, c.nodes);
    hide Coherent;
  }

  lemma AdoptKeepsAttachers(v: View, n: Node, c: Chart, kids: seq<Node>)
    requires n in v.nodes && v.nodes[n].attacher.Nothing? && forall k | k in kids :: k !in v.nodes
    requires ListsFit(v.lists, v.nodes) && TimersFit(v.timers, v.nodes) && WaitsFit(v.waits, v.nodes)
    ensures var u := Adopt(v, n, c, kids);
            ListsFit(u.lists, u.nodes) && TimersFit(u.timers, u.nodes) && WaitsFit(u.waits, u.nodes)
  {
  }

  lemma AdoptKeepsNode(v: View, n: Node, c: Chart, kids: seq<Node>, m: Node)
    requires n in v.nodes && c !in v.members && c.owner == n
    requires forall k | k in kids :: k !in v.nodes && k.chart == c
    requires m in Adopt(v, n, c, kids).nodes && (m in v.nodes ==> NodeFits(v, m))
    ensures NodeFits(Adopt(v, n, c, kids), m)
  {
  }

  lemma AdoptKeepsChart(v: View, n: Node, c: Chart, kids: seq<Node>, d: Chart)
    requires n in v.nodes && v.nodes[n].attacher.Nothing? && c.owner == n && c.depth > n.chart.depth
    requires forall k | k in kids :: k !in v.nodes && k.chart == c
    requires d in Adopt(v, n, c, kids).members && (d != c ==> ChartFits(v, d))
    ensures ChartFits(Adopt(v, n, c, kids), d)
  {
  }

  lemma RunningKeepsCoherence(v: View, n: Node)
    requires Coherent(v) && n in v.nodes
    ensures Coherent(v.(nodes := v.nodes[n := v.nodes[n].(status := Flowchart.Running)]))
  {
    var u := v.(nodes := v.nodes[n := v.nodes[n].(status := Flowchart.Running)]);
    hide NodeFits, ChartFits;
    forall m | m in u.nodes
      ensures NodeFits(u, m)
    {
      RunningNodeFits(v, u, n, m);
    }
    forall d | d in u.members
      ensures ChartFits(u, d)
    {
      RunningChartFits(v, u, n, d);
    }
  }

  lemma RunningNodeFits(v: View, u: View, n: Node, m: Node)
    requires n in v.nodes && u == v.(nodes := v.nodes[n := v.nodes[n].(status := Flowchart.Running)])
    requires m in v.nodes && NodeFits(v, m)
    ensures NodeFits(u, m)
  {
  }

  lemma RunningChartFits(v: View, u: View, n: Node, d: Chart)
    requires n in v.nodes && u == v.(nodes := v.nodes[n := v.nodes[n].(status := Flowchart.Running)])
    requires d in v.members && ChartFits(v, d)
    ensures ChartFits(u, d)
  {
  }

  // ----- Stopping an agent

  ghost function Forest(v: View, cs: seq<Chart>): set<Node> {
    if cs == [] then {} else Forest(v, cs[..|cs| - 1]) + Tree(v, cs[|cs| - 1])
  }

  ghost function ForestCharts(v: View, cs: seq<Chart>): set<Chart> {
    if cs == [] then {} else ForestCharts(v, cs[..|cs| - 1]) + Charts(v, cs[|cs| - 1])
  }

  /** `Agent::Stop` */
  method StopCharts(cs: seq<Chart>, ghost w: World)
    requires Coherent(w.See()) && forall c | c in cs :: c in w.charts
    modifies w.nodes, w.charts, w.lists, w.timers, w.waits
    ensures var v := old(w.See());
            w.See() == StopAll(v, Forest(v, cs), ForestCharts(v, cs)) && Coherent(w.See())
  {
    ghost var v := w.See();
    StopNothing(v);
    for i := 0 to |cs|
      invariant w.See() == StopAll(v, Forest(v, cs[..i]), ForestCharts(v, cs[..i])) && Coherent(w.See())
    {
      ghost var gone, ended := Forest(v, cs[..i]), ForestCharts(v, cs[..i]);
      assert cs[..i + 1][..i] == cs[..i];
      TreeStays(v, gone, ended, cs[i]);
      StopTwice(v, gone, ended, Tree(v, cs[i]), Charts(v, cs[i]));
      hide Coherent, StopAll, Tree, Charts, World.See;
      cs[i].Stop(w);
    }
    assert cs[..|cs|] == cs;
  }

  lemma TreeStays(v: View, gone: set<Node>, ended: set<Chart>, c: Chart)
    ensures var u := StopAll(v, gone, ended); Tree(u, c) == Tree(v, c) && Charts(u, c) == Charts(v, c)
  {
  }

  // ----- Main result

  /** The given charts have ended, and the given nodes are idle, stopped, in no list, and have
      no timer running and no arrival marked. */
  ghost predicate Halted(v: View, gone: set<Node>, ended: set<Chart>) {
    && (forall d | d in ended && d in v.running :: !v.running[d])
    && (forall n | n in gone && n in v.nodes :: IsStopped(v.nodes[n]))
    && (forall n, l | n in gone && l in v.lists :: n !in v.lists[l])
    && (forall t | t in v.timers && t.node in gone :: !v.timers[t])
    && (forall x | x in v.waits && x.node in gone :: forall k | k in v.waits[x] :: !v.waits[x][k])
  }

  predicate IsStopped(node: NodeView) {
    && node.status == Flowchart.Idle
    && node.result == Flowchart.rSTOP
    && !node.runFlag
    && !node.skip
    && node.container == null
  }

  /** From v to u nothing has changed but the given nodes and charts; lists have kept their order,
      and every node its attacher, every wait-all node the nodes it waits for. */
  ghost predicate OthersUnchanged(v: View, u: View, gone: set<Node>, ended: set<Chart>) {
    && u.members == v.members && u.nodes.Keys == v.nodes.Keys && u.running.Keys == v.running.Keys
    && u.lists.Keys == v.lists.Keys && u.timers.Keys == v.timers.Keys && u.waits.Keys == v.waits.Keys
    && (forall d | d in v.running && d !in ended :: u.running[d] == v.running[d])
    && (forall n | n in v.nodes :: u.nodes[n].attacher == v.nodes[n].attacher && (n !in gone ==> u.nodes[n] == v.nodes[n]))
    && (forall l | l in v.lists :: u.lists[l] == Flowchart.Without(v.lists[l], gone))
    && (forall t | t in v.timers && t.node !in gone :: u.timers[t] == v.timers[t])
    && (forall x | x in v.waits :: u.waits[x].Keys == v.waits[x].Keys && (x.node !in gone ==> u.waits[x] == v.waits[x]))
  }

  /** Stopping a chart is complete over its ownership tree and exact. */
  lemma StoppingIsComplete(v: View, c: Chart)
    requires Coherent(v) && c in v.members
    ensures var u := StopAll(v, Tree(v, c), Charts(v, c));
            Coherent(u) && Halted(u, Tree(v, c), Charts(v, c)) && OthersUnchanged(v, u, Tree(v, c), Charts(v, c))
  {
    StopKeepsCoherence(v, Tree(v, c), Charts(v, c));
    hide *;
    StopAllIsExact(v, Tree(v, c), Charts(v, c));
  }

  /** So is stopping a node, with everything that its subchart owns. */
  lemma NodeStopIsComplete(v: View, n: Node)
    requires Coherent(v) && n in v.nodes
    ensures var u := StopAll(v, Below(v, n), ChartsBelow(v, n));
            && Coherent(u) && Halted(u, Below(v, n), ChartsBelow(v, n))
            && OthersUnchanged(v, u, Below(v, n), ChartsBelow(v, n))
            && n in u.nodes && IsStopped(u.nodes[n])
  {
    StopKeepsCoherence(v, Below(v, n), ChartsBelow(v, n));
    hide Coherent, StopAll, Tree, Charts, OthersUnchanged, IsStopped;
    StopAllIsExact(v, Below(v, n), ChartsBelow(v, n));
  }

  lemma StopAllIsExact(v: View, gone: set<Node>, ended: set<Chart>)
    ensures var u := StopAll(v, gone, ended); Halted(u, gone, ended) && OthersUnchanged(v, u, gone, ended)
  {
    StoppedDoNotRun(v, gone, ended);
    StoppedAreUnlisted(v, gone, ended);
    OthersStay(v, gone, ended);
    hide OthersUnchanged, StopAll, IsStopped;
  }

  lemma OthersStay(v: View, gone: set<Node>, ended: set<Chart>)
    ensures OthersUnchanged(v, StopAll(v, gone, ended), gone, ended)
  {
    hide Flowchart.Without;
  }

  lemma StoppedDoNotRun(v: View, gone: set<Node>, ended: set<Chart>)
    ensures var u := StopAll(v, gone, ended);
            && (forall d | d in ended && d in u.running :: !u.running[d])
            && (forall n | n in gone && n in u.nodes :: IsStopped(u.nodes[n]))
            && (forall t | t in u.timers && t.node in gone :: !u.timers[t])
            && (forall x | x in u.waits && x.node in gone :: forall k | k in u.waits[x] :: !u.waits[x][k])
  {
    hide Unlist, Flowchart.Without;
  }

  lemma StoppedAreUnlisted(v: View, gone: set<Node>, ended: set<Chart>)
    ensures var u := StopAll(v, gone, ended);
            forall n, l | n in gone && l in u.lists :: n !in u.lists[l]
  {
    hide StopNodes, EndCharts, Disarm, ClearAll;
  }

  // ----- Waiting for all

  function Arrive(arrived: map<nat, bool>, id: nat): (map<nat, bool>, bool) {
    if id !in arrived then (arrived, false)
    else
      var next := arrived[id := true];
      if forall k | k in next :: next[k] then (Cleared(next), true) else (next, false)
  }

  function After(arrived: map<nat, bool>, ids: seq<nat>): map<nat, bool> {
    if ids == [] then arrived else Arrive(After(arrived, ids[..|ids| - 1]), ids[|ids| - 1]).0
  }

  predicate Opens(arrived: map<nat, bool>, ids: seq<nat>, i: nat)
    requires i < |ids|
  {
    Arrive(After(arrived, ids[..i]), ids[i]).1
  }

  predicate HaveAllArrived(arrived: map<nat, bool>, ids: seq<nat>) {
    arrived != map[] && forall k | k in arrived :: k in ids
  }

  function Marked(arrived: map<nat, bool>, ids: seq<nat>): map<nat, bool> {
    map k | k in arrived :: k in ids
  }

  lemma MarksOneMore(arrived: map<nat, bool>, most: seq<nat>, id: nat)
    ensures var (next, open) := Arrive(Marked(arrived, most), id);
            && (open <==> id in arrived && HaveAllArrived(arrived, most + [id]))
            && (if open then next == Cleared(arrived) else next == Marked(arrived, most + [id]))
  {
    var ids := most + [id];
    assert forall k :: k in ids <==> k in most || k == id;
    if id in arrived {
      assert Marked(arrived, most)[id := true] == Marked(arrived, ids);
      assert Cleared(Marked(arrived, ids)) == Cleared(arrived);
      assert forall k | k in arrived :: Marked(arrived, ids)[k] == (k in ids);
    } else {
      assert Marked(arrived, most) == Marked(arrived, ids);
    }
  }

  lemma {:induction false} MarksArrivals(arrived: map<nat, bool>, ids: seq<nat>)
    requires Cleared(arrived) == arrived
    requires forall i | 0 <= i < |ids| :: !Opens(arrived, ids, i)
    ensures After(arrived, ids) == Marked(arrived, ids) && !HaveAllArrived(arrived, ids)
  {
    if ids == [] {
      assert Marked(arrived, []) == Cleared(arrived);
    } else {
      var most, id := ids[..|ids| - 1], ids[|ids| - 1];
      forall i | 0 <= i < |most|
        ensures !Opens(arrived, most, i)
      {
        assert most[..i] == ids[..i] && !Opens(arrived, ids, i);
      }
      MarksArrivals(arrived, most);
      MarksOneMore(arrived, most, id);
      assert !Opens(arrived, ids, |most|);
      assert ids == most + [id];
      hide Arrive, Marked, Cleared;
    }
  }

  /** A node that waits for all opens at the first arrival with which every node it waits for
      has arrived, at no earlier one, and is then as it was in the beginning. Arrivals of
      other nodes do not count. */
  lemma OpensWhenAllArrived(arrived: map<nat, bool>, ids: seq<nat>, i: nat)
    requires i < |ids| && (forall k | k in arrived :: !arrived[k])
    requires forall j | 0 <= j < i :: !Opens(arrived, ids, j)
    ensures Opens(arrived, ids, i) <==> HaveAllArrived(arrived, ids[..i + 1])
    ensures Opens(arrived, ids, i) ==> After(arrived, ids[..i + 1]) == arrived
  {
    assert Cleared(arrived) == arrived;
    var before := ids[..i];
    forall j | 0 <= j < |before|
      ensures !Opens(arrived, before, j)
    {
      assert before[..j] == ids[..j] && !Opens(arrived, ids, j);
    }
    MarksArrivals(arrived, before);
    MarksOneMore(arrived, before, ids[i]);
    assert ids[..i + 1] == before + [ids[i]] && ids[..i + 1][..i] == before;
    hide Arrive, Marked, Cleared;
  }
}
