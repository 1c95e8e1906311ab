/** The timer wheel as it is in memory: events linked into the doubly linked lists of their
    slots, and an array of clocks. Every method is proved to act on the ghost field `model`
    like the function of the same purpose in TimerModel, and `Valid` ties the model to the
    real fields. */
module TimerWheels {
  import opened FlatTimers
  import opened TimerArith
  import M = TimerModel

  /** `id` stands for the event's address. */
  class TimerEvent {
    const id: EventId
    var scheduledAt: Tick
    var slot: TimerWheelSlot?
    var next: TimerEvent?
    var prev: TimerEvent?

    constructor (id: EventId)
      ensures this.id == id && scheduledAt == 0 && slot == null
    {
      this.id := id;
      scheduledAt := 0;
      slot, next, prev := null, null, null;
    }
  }

  /** The head of a list of events. */
  class TimerWheelSlot {
    var events: TimerEvent?

    constructor ()
      ensures events == null
    {
      events := null;
    }
  }

  ghost function IdsOf(pool: seq<TimerEvent>): set<EventId> {
    set i {:trigger pool[i]} | 0 <= i < |pool|
  }

  method NewSlots() returns (slots: seq<seq<TimerWheelSlot>>)
    ensures |slots| == 8 && forall l :: 0 <= l < 8 ==> |slots[l]| == 256
    ensures forall l, i :: 0 <= l < 8 && 0 <= i < 256 ==> fresh(slots[l][i]) && slots[l][i].events == null
    ensures forall s, t :: M.ValidSlot(s) && M.ValidSlot(t) && s != t ==>
                             slots[s.level][s.index] != slots[t.level][t.index]
  {
    slots := [];
    while |slots| < 8
      invariant |slots| <= 8 && forall l :: 0 <= l < |slots| ==> |slots[l]| == 256
      invariant forall l, i :: 0 <= l < |slots| && 0 <= i < 256 ==> fresh(slots[l][i]) && slots[l][i].events == null
      invariant forall s, t :: M.ValidSlot(s) && M.ValidSlot(t) && s != t && s.level < |slots| && t.level < |slots| ==>
                                 slots[s.level][s.index] != slots[t.level][t.index]
    {
      var row := NewRow();
      slots := slots + [row];
    }
  }

  method NewRow() returns (row: seq<TimerWheelSlot>)
    ensures |row| == 256 && forall i :: 0 <= i < 256 ==> fresh(row[i]) && row[i].events == null
    ensures forall i, j :: 0 <= i < j < 256 ==> row[i] != row[j]
  {
    row := [];
    while |row| < 256
      invariant |row| <= 256 && forall i :: 0 <= i < |row| ==> fresh(row[i]) && row[i].events == null
      invariant forall i, j :: 0 <= i < j < |row| ==> row[i] != row[j]
    {
      var slot := new TimerWheelSlot();
      row := row + [slot];
    }
  }

  // ----- Linked lists, on snapshots of the link fields

  /** The link fields of all events of a pool, by event id, and the heads of all slots. */
  datatype Memory = Memory(next: seq<TimerEvent?>, prev: seq<TimerEvent?>, heads: seq<seq<TimerEvent?>>)

  ghost predicate Sized(pool: seq<TimerEvent>, m: Memory) {
    |m.next| == |m.prev| == |pool| && |m.heads| == 8 && forall l :: 0 <= l < 8 ==> |m.heads[l]| == 256
  }

  /** The k-th event of list l is linked to its neighbours. */
  ghost predicate Cell(pool: seq<TimerEvent>, l: seq<EventId>, m: Memory, k: int)
    requires Sized(pool, m) && 0 <= k < |l|
    requires forall i :: 0 <= i < |l| ==> l[i] < |pool|
  {
    && m.next[l[k]] == (if k + 1 < |l| then pool[l[k + 1]] else null)
    && m.prev[l[k]] == (if k > 0 then pool[l[k - 1]] else null)
  }

  ghost predicate Chain(pool: seq<TimerEvent>, l: seq<EventId>, s: M.Slot, m: Memory)
    requires Sized(pool, m) && M.ValidSlot(s)
  {
    && (forall i :: 0 <= i < |l| ==> l[i] < |pool|)
    && m.heads[s.level][s.index] == (if l == [] then null else pool[l[0]])
    && (forall k {:trigger Cell(pool, l, m, k)} :: 0 <= k < |l| ==> Cell(pool, l, m, k))
  }

  ghost predicate SlotChain(pool: seq<TimerEvent>, lists: map<M.Slot, seq<EventId>>, m: Memory, s: M.Slot)
    requires Sized(pool, m) && M.ValidSlot(s)
  {
    s in lists && Chain(pool, lists[s], s, m)
  }

  /** Memory links the events exactly as the lists of the model say. */
  ghost predicate Represents(pool: seq<TimerEvent>, m: Memory, lists: map<M.Slot, seq<EventId>>) {
    && Sized(pool, m)
    && forall s {:trigger SlotChain(pool, lists, m, s)} :: M.ValidSlot(s) ==> SlotChain(pool, lists, m, s)
  }

  /** The memory after the k-th event of the list of slot s has been bridged over. */
  ghost predicate Bridged(pool: seq<TimerEvent>, l: seq<EventId>, k: nat, s: M.Slot, m: Memory, m': Memory)
    requires Sized(pool, m) && M.ValidSlot(s) && k < |l|
    requires forall i :: 0 <= i < |l| ==> l[i] < |pool|
  {
    && Sized(pool, m')
    && (forall i :: 0 <= i < |pool| ==> m'.next[i] == if k > 0 && i == l[k - 1] then m.next[l[k]] else m.next[i])
    && (forall i :: 0 <= i < |pool| ==> m'.prev[i] == if k + 1 < |l| && i == l[k + 1] then m.prev[l[k]] else m.prev[i])
    && (forall t :: M.ValidSlot(t) ==>
                      m'.heads[t.level][t.index] == if t == s && k == 0 then m.next[l[k]] else m.heads[t.level][t.index])
  }

  lemma BridgedRepresents(pool: seq<TimerEvent>, w: M.Wheel, e: EventId, k: nat, m: Memory, m': Memory)
    requires M.Shape(w) && Represents(pool, m, w.lists) && e in w.slotOf
    requires k < |w.lists[w.slotOf[e]]| && w.lists[w.slotOf[e]][k] == e
    requires SlotChain(pool, w.lists, m, w.slotOf[e])
    requires Bridged(pool, w.lists[w.slotOf[e]], k, w.slotOf[e], m, m')
    ensures Represents(pool, m', M.Unlink(w, e).lists)
  {
    var s, w' := w.slotOf[e], M.Unlink(w, e);
    var l := w.lists[s];
    assert M.SlotLinked(l, s, w.slotOf);
    M.WithoutAt(l, k);
    forall t | M.ValidSlot(t)
      ensures SlotChain(pool, w'.lists, m', t)
    {
      if t == s {
        BridgedChain(pool, l, k, s, m, m');
      } else {
        assert SlotChain(pool, w.lists, m, t);
        DisjointLists(w, s, t);
        KeptChain(pool, w.lists[t], t, m, m');
      }
    }
  }

  lemma DisjointLists(w: M.Wheel, s: M.Slot, t: M.Slot)
    requires M.Shape(w) && M.ValidSlot(s) && M.ValidSlot(t) && s != t
    ensures forall i, j :: 0 <= i < |w.lists[s]| && 0 <= j < |w.lists[t]| ==> w.lists[s][i] != w.lists[t][j]
  {
    assert M.SlotLinked(w.lists[s], s, w.slotOf);
    assert M.SlotLinked(w.lists[t], t, w.slotOf);
    forall i, j | 0 <= i < |w.lists[s]| && 0 <= j < |w.lists[t]|
      ensures w.lists[s][i] != w.lists[t][j]
    {
      assert w.lists[s][i] in w.lists[s] && w.lists[t][j] in w.lists[t];
    }
  }

  /** Lists whose events were not touched stay linked. */
  lemma KeptChain(pool: seq<TimerEvent>, l: seq<EventId>, s: M.Slot, m: Memory, m': Memory)
    requires Sized(pool, m) && Sized(pool, m') && M.ValidSlot(s)
    requires Chain(pool, l, s, m)
    requires forall k :: 0 <= k < |l| ==> m'.next[l[k]] == m.next[l[k]]
    requires forall k :: 0 <= k < |l| ==> m'.prev[l[k]] == m.prev[l[k]]
    requires m'.heads[s.level][s.index] == m.heads[s.level][s.index]
    ensures Chain(pool, l, s, m')
  {
    forall k | 0 <= k < |l|
      ensures Cell(pool, l, m', k)
    {
      assert Cell(pool, l, m, k);
    }
  }

  lemma BridgedChain(pool: seq<TimerEvent>, l: seq<EventId>, k: nat, s: M.Slot, m: Memory, m': Memory)
    requires Sized(pool, m) && M.ValidSlot(s)
    requires Chain(pool, l, s, m) && M.NoDuplicates(l) && k < |l|
    requires Bridged(pool, l, k, s, m, m')
    ensures Chain(pool, l[..k] + l[k + 1..], s, m')
  {
    var r := l[..k] + l[k + 1..];
    assert Cell(pool, l, m, k);
    forall j | 0 <= j < |r|
      ensures Cell(pool, r, m', j)
    {
      assert Cell(pool, l, m, if j < k then j else j + 1);
    }
  }

  /** The memory after event e has been linked in front of the list of slot s. */
  ghost predicate Pushed(pool: seq<TimerEvent>, l: seq<EventId>, e: EventId, s: M.Slot, m: Memory, m': Memory)
    requires Sized(pool, m) && M.ValidSlot(s) && e < |pool|
    requires forall i :: 0 <= i < |l| ==> l[i] < |pool|
  {
    && Sized(pool, m')
    && (forall i :: 0 <= i < |pool| ==> m'.next[i] == if i == e then m.heads[s.level][s.index] else m.next[i])
    && (forall i :: 0 <= i < |pool| ==>
                      m'.prev[i] == if i == e then null else if l != [] && i == l[0] then pool[e] else m.prev[i])
    && (forall t :: M.ValidSlot(t) ==>
                      m'.heads[t.level][t.index] == if t == s then pool[e] else m.heads[t.level][t.index])
  }

  lemma PushedRepresents(pool: seq<TimerEvent>, w: M.Wheel, e: EventId, s: M.Slot, m: Memory, m': Memory)
    requires M.Shape(w) && Represents(pool, m, w.lists) && e !in w.slotOf && e in w.at && e < |pool| && M.ValidSlot(s)
    requires SlotChain(pool, w.lists, m, s)
    requires Pushed(pool, w.lists[s], e, s, m, m')
    ensures Represents(pool, m', M.PushFront(w, e, s).lists)
  {
    var w' := M.PushFront(w, e, s);
    forall t | M.ValidSlot(t)
      ensures SlotChain(pool, w'.lists, m', t)
    {
      assert SlotChain(pool, w.lists, m, t);
      assert M.SlotLinked(w.lists[t], t, w.slotOf);
      if t == s {
        PushedChain(pool, w.lists[s], e, s, m, m');
      } else {
        DisjointLists(w, s, t);
        KeptChain(pool, w.lists[t], t, m, m');
      }
    }
  }

  lemma PushedChain(pool: seq<TimerEvent>, l: seq<EventId>, e: EventId, s: M.Slot, m: Memory, m': Memory)
    requires Sized(pool, m) && M.ValidSlot(s)
    requires Chain(pool, l, s, m) && M.NoDuplicates(l) && e !in l && e < |pool|
    requires Pushed(pool, l, e, s, m, m')
    ensures Chain(pool, [e] + l, s, m')
  {
    var r := [e] + l;
    forall j | 0 <= j < |r|
      ensures Cell(pool, r, m', j)
    {
      if j > 0 {
        assert Cell(pool, l, m, j - 1);
      }
    }
  }

  /** The links of an event that is in no list do not matter. */
  lemma LooseRepresents(pool: seq<TimerEvent>, w: M.Wheel, e: EventId, m: Memory, m': Memory)
    requires M.Shape(w) && Represents(pool, m, w.lists) && e !in w.slotOf && e < |pool|
    requires Sized(pool, m')
    requires forall t :: M.ValidSlot(t) ==> m'.heads[t.level][t.index] == m.heads[t.level][t.index]
    requires forall i :: 0 <= i < |pool| && i != e ==> m'.next[i] == m.next[i] && m'.prev[i] == m.prev[i]
    ensures Represents(pool, m', w.lists)
  {
    forall t | M.ValidSlot(t)
      ensures SlotChain(pool, w.lists, m', t)
    {
      assert SlotChain(pool, w.lists, m, t);
      assert M.SlotLinked(w.lists[t], t, w.slotOf);
      KeptChain(pool, w.lists[t], t, m, m');
    }
  }

  lemma SameMemory(pool: seq<TimerEvent>, m: Memory, m': Memory)
    requires Sized(pool, m) && Sized(pool, m')
    requires forall i :: 0 <= i < |pool| ==> m'.next[i] == m.next[i] && m'.prev[i] == m.prev[i]
    requires forall t :: M.ValidSlot(t) ==> m'.heads[t.level][t.index] == m.heads[t.level][t.index]
    ensures m' == m
  {
    assert m'.next == m.next && m'.prev == m.prev;
    forall l | 0 <= l < 8
      ensures m'.heads[l] == m.heads[l]
    {
      forall i | 0 <= i < 256
        ensures m'.heads[l][i] == m.heads[l][i]
      {
        assert M.ValidSlot(M.Slot(l, i));
      }
    }
  }

  class TimerWheel {
    const pool: seq<TimerEvent>
    const slots: seq<seq<TimerWheelSlot>>
    const now: array<nat>
    const callbacks: M.Callbacks
    var ticksPending: nat
    var history: seq<Action>
    ghost var model: M.Wheel

    /** A wheel at tick `start` for events that are not scheduled anywhere. */
    constructor (start: Tick, pool: seq<TimerEvent>, callbacks: M.Callbacks)
      requires start < HORIZON
      requires forall i :: 0 <= i < |pool| ==> pool[i].id == i && pool[i].slot == null && pool[i].scheduledAt == 0
      ensures Valid() && ticksPending == 0 && this.callbacks == callbacks && this.pool == pool
      ensures model == M.NewWheel(start, IdsOf(pool))
      ensures M.Resting(model, 0)
    {
      hide M.Inv, Agrees, M.NewWheel;
      var slots := NewSlots();
      var clocks := new nat[8](i requires 0 <= i < 8 => Shr(start, i));
      this.pool, this.callbacks, this.slots, this.now := pool, callbacks, slots, clocks;
      ticksPending, history := 0, [];
      model := M.NewWheel(start, IdsOf(pool));
      new;
      FreshLinkage(start);
    }

    lemma FreshLinkage(start: Tick)
      requires Built() && start < HORIZON && model == M.NewWheel(start, IdsOf(pool)) && history == []
      requires forall i :: 0 <= i < |pool| ==> pool[i].slot == null && pool[i].scheduledAt == 0
      requires forall s :: M.ValidSlot(s) ==> SlotAt(s).events == null
      requires forall j :: 0 <= j < 8 ==> now[j] == Shr(start, j)
      ensures Agrees()
    {
      hide M.Recorded, M.Placed;
      forall s | M.ValidSlot(s)
        ensures SlotChain(pool, model.lists, Snapshot(), s)
      {
        assert model.lists[s] == [];
      }
      forall i | 0 <= i < |pool|
        ensures EventHome(i)
      {
      }
    }

    // ----- Ownership

    ghost function Events(): set<TimerEvent> {
      set e | e in pool
    }

    ghost function Slots(): set<TimerWheelSlot>
      requires Built()
    {
      set l, i | 0 <= l < 8 && 0 <= i < 256 :: slots[l][i]
    }

    ghost function Ids(): set<EventId> {
      IdsOf(pool)
    }

    /** The parts that never change. */
    ghost predicate Built() {
      && |slots| == 8
      && (forall l :: 0 <= l < 8 ==> |slots[l]| == 256)
      && (forall s, t :: M.ValidSlot(s) && M.ValidSlot(t) && s != t ==>
                           slots[s.level][s.index] != slots[t.level][t.index])
      && (forall i :: 0 <= i < |pool| ==> pool[i].id == i)
      && now.Length == 8
    }

    function SlotAt(s: M.Slot): TimerWheelSlot
      requires Built() && M.ValidSlot(s)
    {
      slots[s.level][s.index]
    }

    ghost function Snapshot(): (m: Memory)
      requires Built()
      reads Events(), Slots()
      ensures Sized(pool, m)
      ensures forall i :: 0 <= i < |pool| ==> m.next[i] == pool[i].next && m.prev[i] == pool[i].prev
      ensures forall s :: M.ValidSlot(s) ==> m.heads[s.level][s.index] == SlotAt(s).events
    {
      Memory(seq(|pool|, i requires 0 <= i < |pool| reads Events() => pool[i].next),
             seq(|pool|, i requires 0 <= i < |pool| reads Events() => pool[i].prev),
             seq(8, l requires 0 <= l < 8 reads Slots() =>
                   seq(256, i requires 0 <= i < 256 reads Slots() => slots[l][i].events)))
    }

    // ----- The lists in memory

    ghost predicate EventHome(i: int)
      requires Built() && 0 <= i < |pool|
      reads `model, Events()
    {
      pool[i].slot ==
      if i in model.slotOf && M.ValidSlot(model.slotOf[i]) then SlotAt(model.slotOf[i]) else null
    }

    ghost predicate Linkage()
      reads `model, if Built() then Slots() else {}, Events()
    {
      && Built() && M.Shape(model)
      && model.at.Keys == Ids()
      && Represents(pool, Snapshot(), model.lists)
      && (forall i {:trigger EventHome(i)} :: 0 <= i < |pool| ==> EventHome(i))
    }

    predicate Owns(e: TimerEvent) {
      e.id < |pool| && pool[e.id] == e
    }

    lemma HomeOf(e: TimerEvent)
      requires Linkage() && Owns(e)
      ensures e.slot == null <==> e.id !in model.slotOf
      ensures e.slot != null ==> M.ValidSlot(model.slotOf[e.id]) && e.slot == SlotAt(model.slotOf[e.id])
    {
      assert EventHome(e.id);
    }

    /** The position of an active event in its list. */
    lemma Position(e: TimerEvent) returns (s: M.Slot, k: nat)
      requires Linkage() && Owns(e) && e.slot != null
      ensures M.ValidSlot(s) && e.id in model.slotOf && model.slotOf[e.id] == s && SlotAt(s) == e.slot
      ensures k < |model.lists[s]| && model.lists[s][k] == e.id
      ensures SlotChain(pool, model.lists, Snapshot(), s) && M.SlotLinked(model.lists[s], s, model.slotOf)
      ensures Cell(pool, model.lists[s], Snapshot(), k)
    {
      assert EventHome(e.id);
      s := model.slotOf[e.id];
      assert M.EventLinked(model.lists, model.slotOf, e.id);
      assert SlotChain(pool, model.lists, Snapshot(), s);
      k :| 0 <= k < |model.lists[s]| && model.lists[s][k] == e.id;
    }

    /** The first block of `relink`: bridge over the event in the list it is in. */
    method Bridge(e: TimerEvent, ghost l: seq<EventId>, ghost k: nat, ghost s: M.Slot)
      requires Built() && Owns(e) && M.ValidSlot(s) && e.slot == SlotAt(s)
      requires Chain(pool, l, s, Snapshot()) && M.NoDuplicates(l) && k < |l| && l[k] == e.id
      modifies Events()`next, Events()`prev, Slots()`events
      ensures Bridged(pool, l, k, s, old(Snapshot()), Snapshot())
    {
      ghost var m := Snapshot();
      assert Cell(pool, l, m, k);
      var prev, next := e.prev, e.next;
      if next != null {
        next.prev := prev;
      }
      if prev != null {
        prev.next := next;
      } else {
        e.slot.events := next;
      }
    }

    /** The second block of `relink`: link the event in front of a list. */
    method LinkFront(e: TimerEvent, newSlot: TimerWheelSlot, ghost l: seq<EventId>, ghost s: M.Slot)
      requires Built() && Owns(e) && M.ValidSlot(s) && newSlot == SlotAt(s)
      requires Chain(pool, l, s, Snapshot()) && e.id !in l
      modifies Events()`next, Events()`prev, Slots()`events
      ensures Pushed(pool, l, e.id, s, old(Snapshot()), Snapshot())
    {
      var was := newSlot.events;
      e.next := was;
      if was != null {
        was.prev := e;
      }
      newSlot.events := e;
      e.prev := null;
    }

    /** The lists in memory are those of the model; the `slot` fields are not considered. */
    ghost predicate Listed()
      reads `model, if Built() then Slots() else {}, Events()
    {
      Built() && M.Shape(model) && model.at.Keys == Ids() && Represents(pool, Snapshot(), model.lists)
    }

    ghost predicate OtherHomes(e: TimerEvent)
      requires Built()
      reads `model, Events()
    {
      forall i {:trigger EventHome(i)} :: 0 <= i < |pool| && i != e.id ==> EventHome(i)
    }

    lemma InactiveUnlink(e: TimerEvent, home: TimerWheelSlot?)
      requires M.Shape(model) && (home == null <==> e.id !in model.slotOf)
      ensures home == null ==> M.Unlink(model, e.id) == model
    {
    }

    lemma UnlinkKeepsShape(e: TimerEvent)
      requires M.Shape(model)
      ensures var w := M.Unlink(model, e.id);
              M.Shape(w) && w.at == model.at && w.now == model.now && w.log == model.log && w.start == model.start
    {
    }

    lemma UnlinkAgrees(e: TimerEvent)
      requires Linkage() && Owns(e)
      ensures e.slot == null ==> M.Unlink(model, e.id) == model
      ensures var w := M.Unlink(model, e.id);
              M.Shape(w) && w.at == model.at && w.now == model.now && w.log == model.log && w.start == model.start
    {
      HomeOf(e);
      InactiveUnlink(e, e.slot);
      UnlinkKeepsShape(e);
    }

    lemma TargetChain(e: TimerEvent, s: M.Slot)
      requires Listed() && M.ValidSlot(s) && e.id !in model.slotOf
      ensures s in model.lists && Chain(pool, model.lists[s], s, Snapshot())
      ensures SlotChain(pool, model.lists, Snapshot(), s) && e.id !in model.lists[s]
    {
      assert SlotChain(pool, model.lists, Snapshot(), s);
      assert M.SlotLinked(model.lists[s], s, model.slotOf);
    }

    method BridgeOver(e: TimerEvent)
      requires Linkage() && Owns(e) && e.slot != null
      modifies Events()`next, Events()`prev, Slots()`events
      ensures var w := M.Unlink(model, e.id);
              M.Shape(w) && w.at.Keys == Ids() && Represents(pool, Snapshot(), w.lists)
    {
      hide M.Shape, Represents, M.Unlink, M.Placed, M.Recorded;
      ghost var s, k := Position(e);
      ghost var m := Snapshot();
      Bridge(e, model.lists[s], k, s);
      BridgedRepresents(pool, model, e.id, k, m, Snapshot());
    }

    /** Take the event out of its list, if it is in one; its `slot` field is left stale. */
    method TakeOut(e: TimerEvent)
      requires Linkage() && Owns(e)
      modifies `model, Events()`next, Events()`prev, Slots()`events
      ensures Listed() && OtherHomes(e)
      ensures e.id !in model.slotOf && model == M.Unlink(old(model), e.id)
    {
      hide M.Shape, Represents, M.Unlink, M.Placed, M.Recorded;
      HomeOf(e);
      if e.slot != null {
        BridgeOver(e);
      }
      InactiveUnlink(e, old(e.slot));
      model := M.Unlink(model, e.id);
      KeepsHomes(e);
    }

    /** Changing only where e is keeps the homes of all others. */
    twostate lemma KeepsHomes(e: TimerEvent)
      requires Built()
      requires forall i {:trigger old(EventHome(i))} :: 0 <= i < |pool| && i != e.id ==> old(EventHome(i))
      requires forall i :: i != e.id ==> (i in model.slotOf <==> i in old(model).slotOf)
      requires forall i :: i != e.id && i in model.slotOf ==> model.slotOf[i] == old(model).slotOf[i]
      requires forall i :: 0 <= i < |pool| ==> pool[i].slot == old(pool[i].slot)
      ensures OtherHomes(e)
    {
      forall i | 0 <= i < |pool| && i != e.id
        ensures EventHome(i)
      {
        assert old(EventHome(i));
      }
    }

    method PutIn(e: TimerEvent, newSlot: TimerWheelSlot, ghost target: M.Slot)
      requires Listed() && Owns(e) && OtherHomes(e) && e.id !in model.slotOf
      requires M.ValidSlot(target) && newSlot == SlotAt(target)
      modifies `model, Events()`next, Events()`prev, Slots()`events
      ensures Listed() && OtherHomes(e) && model == M.PushFront(old(model), e.id, target)
    {
      hide M.Shape, Represents, M.PushFront;
      ghost var m, w := Snapshot(), model;
      TargetChain(e, target);
      LinkFront(e, newSlot, w.lists[target], target);
      PushedRepresents(pool, w, e.id, target, m, Snapshot());
      model := M.PushFront(w, e.id, target);
      KeepsHomes(e);
    }

    method Loosen(e: TimerEvent)
      requires Listed() && Owns(e) && OtherHomes(e) && e.id !in model.slotOf
      modifies e`next, e`prev
      ensures Listed() && OtherHomes(e)
    {
      ghost var m := Snapshot();
      e.next := null;
      e.prev := null;
      LooseRepresents(pool, model, e.id, m, Snapshot());
      hide M.Shape, Represents;
      KeepsHomes(e);
    }

    /** Writing the `slot` field of an event restores the full linkage. */
    method Rehome(e: TimerEvent, newSlot: TimerWheelSlot?)
      requires Listed() && Owns(e) && OtherHomes(e)
      requires newSlot == if e.id in model.slotOf && M.ValidSlot(model.slotOf[e.id]) then SlotAt(model.slotOf[e.id]) else null
      modifies e`slot
      ensures Linkage()
    {
      ghost var m := Snapshot();
      e.slot := newSlot;
      SameMemory(pool, m, Snapshot());
      forall i | 0 <= i < |pool|
        ensures EventHome(i)
      {
        assert i != e.id ==> old(EventHome(i));
      }
    }

    /** Put an event that is in no list into one. */
    method Attach(e: TimerEvent, newSlot: TimerWheelSlot, ghost target: M.Slot)
      requires Listed() && Owns(e) && OtherHomes(e) && e.id !in model.slotOf
      requires M.ValidSlot(target) && newSlot == SlotAt(target)
      modifies `model, Events()`next, Events()`prev, e`slot, Slots()`events
      ensures Linkage() && model == M.PushFront(old(model), e.id, target)
    {
      hide M.Shape, Represents, Listed, OtherHomes, Linkage;
      PutIn(e, newSlot, target);
      Rehome(e, newSlot);
    }

    /** Leave an event that is in no list inactive. */
    method Abandon(e: TimerEvent)
      requires Listed() && Owns(e) && OtherHomes(e) && e.id !in model.slotOf
      modifies e`next, e`prev, e`slot
      ensures Linkage() && model == old(model)
    {
      hide M.Shape, Represents, Listed, OtherHomes, Linkage;
      Loosen(e);
      Rehome(e, null);
    }

    /** `relink`: move the event to a slot, or to none. */
    method Relink(e: TimerEvent, newSlot: TimerWheelSlot?, ghost target: M.Slot)
      requires Linkage() && Owns(e)
      requires newSlot != null ==> M.ValidSlot(target) && newSlot == SlotAt(target)
      modifies `model, Events()`next, Events()`prev, Events()`slot, Slots()`events
      ensures Linkage()
      ensures model == if newSlot == null then M.Unlink(old(model), e.id) else M.Relink(old(model), e.id, target)
    {
      HomeOf(e);
      hide Represents, Listed, M.Shape, M.Unlink, M.PushFront, EventHome;
      if newSlot == e.slot {
        return;
      }
      TakeOut(e);
      if newSlot != null {
        Attach(e, newSlot, target);
      } else {
        Abandon(e);
      }
    }

    /** `pop_event`: take the first event from a slot. */
    method PopEvent(from: TimerWheelSlot, ghost s: M.Slot) returns (e: TimerEvent)
      requires Linkage() && M.ValidSlot(s) && from == SlotAt(s) && from.events != null
      modifies `model, Events()`next, Events()`prev, Events()`slot, Slots()`events
      ensures Linkage() && old(model).lists[s] != []
      ensures Owns(e) && e.id == old(model).lists[s][0]
      ensures model == M.PopFront(old(model), s)
    {
      hide M.Shape, Represents, M.Unlink, M.PopFront;
      e := from.events;
      FirstEvent(from, s);
      ghost var m, w := Snapshot(), model;
      Behead(from, w.lists[s], s);
      BridgedRepresents(pool, w, e.id, 0, m, Snapshot());
      model := M.PopFront(w, s);
      KeepsHomes(e);
      Abandon(e);
    }

    lemma FirstEvent(from: TimerWheelSlot, s: M.Slot)
      requires Linkage() && M.ValidSlot(s) && from == SlotAt(s) && from.events != null
      ensures SlotChain(pool, model.lists, Snapshot(), s) && M.NoDuplicates(model.lists[s])
      ensures var l := model.lists[s];
              l != [] && from.events.id == l[0] && Owns(from.events)
              && l[0] in model.slotOf && model.slotOf[l[0]] == s && M.Unlink(model, l[0]) == M.PopFront(model, s)
    {
      assert SlotChain(pool, model.lists, Snapshot(), s);
      assert M.SlotLinked(model.lists[s], s, model.slotOf);
    }

    method Behead(from: TimerWheelSlot, ghost l: seq<EventId>, ghost s: M.Slot)
      requires Built() && M.ValidSlot(s) && from == SlotAt(s) && from.events != null
      requires Chain(pool, l, s, Snapshot()) && M.NoDuplicates(l)
      modifies Events()`prev, from`events
      ensures l != [] && Bridged(pool, l, 0, s, old(Snapshot()), Snapshot())
    {
      assert Cell(pool, l, Snapshot(), 0);
      from.events := from.events.next;
      if from.events != null {
        from.events.prev := null;
      }
    }

    // ----- Scheduling

    ghost predicate Times()
      reads `model, Events()
    {
      forall i :: 0 <= i < |pool| ==> i in model.at && pool[i].scheduledAt == model.at[i]
    }

    /** All real fields agree with the model. */
    ghost predicate Agrees()
      reads `model, `history, now, if Built() then Slots() else {}, Events()
    {
      && Built() && Linkage() && Times() && M.Shape(model) && model.at.Keys == Ids()
      && now[..] == model.now && history == model.log
    }

    ghost predicate Valid()
      reads `model, `history, now, if Built() then Slots() else {}, Events()
    {
      Agrees() && M.Inv(model)
    }

    /** The first half of `schedule`: the level loop and the slot index. */
    method FindSlot(delta: nat) returns (level: nat, slotIndex: nat)
      requires Built() && Coherent(now[..]) && now[0] + delta < HORIZON && delta > 0
      ensures M.Slot(level, slotIndex) == M.TargetSlot(now[..], delta)
    {
      var d := delta;
      ghost var at := now[0] + delta;
      level := 0;
      while d >= 256
        invariant 0 <= level < 8
        invariant now[level] + d == Shr(at, level)
        invariant M.LevelFor(now[..], d, level, at) == M.LevelFor(now[..], delta, 0, at)
        decreases 8 - level
      {
        ShrTop(at);
        assert Agree(now[..], level);
        d := (d + now[level] % 256) / 256;
        level := level + 1;
      }
      slotIndex := (now[level] + d) % 256;
    }

    /** The body of `schedule`, without the entry in the history: promotions use it too. */
    method Place(e: TimerEvent, delta: nat)
      requires Agrees() && Owns(e) && Coherent(model.now)
      requires delta > 0 && model.now[0] + delta < HORIZON
      modifies `model, Events()`next, Events()`prev, Events()`slot, Events()`scheduledAt, Slots()`events
      ensures Agrees() && model == M.Insert(old(model), e.id, delta)
    {
      hide Linkage, M.Linked, M.Relink, M.TargetSlot, M.Fits;
      SetScheduledAt(e, now[0] + delta);
      var level, slotIndex := FindSlot(delta);
      Relink(e, slots[level][slotIndex], M.Slot(level, slotIndex));
    }

    method SetScheduledAt(e: TimerEvent, at: Tick)
      requires Agrees() && Owns(e)
      modifies `model, e`scheduledAt
      ensures Agrees() && model == old(model).(at := old(model).at[e.id := at])
    {
      hide Represents, M.Linked;
      ghost var m := Snapshot();
      e.scheduledAt := at;
      model := model.(at := model.at[e.id := at]);
      SameMemory(pool, m, Snapshot());
      forall i | 0 <= i < |pool|
        ensures EventHome(i)
      {
        assert old(EventHome(i));
      }
    }

    /** `schedule`, as called from outside and from callbacks. */
    method Schedule(e: TimerEvent, delta: nat)
      requires Valid() && Owns(e) && delta > 0 && model.now[0] + delta < HORIZON
      modifies `model, `history, Events()`next, Events()`prev, Events()`slot, Events()`scheduledAt, Slots()`events
      ensures Valid() && model == M.ScheduleEvent(old(model), e.id, delta)
    {
      hide Linkage, M.Insert, M.Recorded, M.Placed, M.Linked;
      Place(e, delta);
      Record(Scheduled(e.id, now[0] + delta));
      assert model == M.ScheduleEvent(old(model), e.id, delta);
    }

    method Record(a: Action)
      requires Agrees()
      modifies `model, `history
      ensures Agrees() && model == old(model).(log := old(model).log + [a])
    {
      hide Represents, M.Linked;
      ghost var m := Snapshot();
      history := history + [a];
      model := model.(log := model.log + [a]);
      SameMemory(pool, m, Snapshot());
      forall i | 0 <= i < |pool|
        ensures EventHome(i)
      {
        assert old(EventHome(i));
      }
    }

    /** `cancel`: safe for an inactive event. */
    method Cancel(e: TimerEvent)
      requires Valid() && Owns(e)
      modifies `model, `history, Events()`next, Events()`prev, Events()`slot, Slots()`events
      ensures Valid() && model == M.CancelEvent(old(model), e.id)
    {
      hide Linkage, M.Unlink, M.Recorded, M.Placed, M.Linked;
      Unschedule(e);
      Record(Cancelled(e.id));
      assert model == M.CancelEvent(old(model), e.id);
    }

    method Unschedule(e: TimerEvent)
      requires Agrees() && Owns(e)
      modifies `model, Events()`next, Events()`prev, Events()`slot, Slots()`events
      ensures Agrees() && model == M.Unlink(old(model), e.id)
    {
      hide Linkage, M.Unlink, M.Linked, M.Shape, Represents;
      UnlinkAgrees(e);
      if e.slot != null {
        Relink(e, null, M.Slot(0, 0));
      }
    }

    /** `schedule_in_range`; `bytes` counts the low bytes that the mask has cleared so far. */
    method ScheduleInRange(e: TimerEvent, first: nat, last: nat)
      requires Valid() && Owns(e) && first < last < HORIZON && RangeDelta(first, last) > 0 && model.now[0] + last < HORIZON
      modifies `model, `history, Events()`next, Events()`prev, Events()`slot, Events()`scheduledAt, Slots()`events
      ensures Valid() && model == M.ScheduleEventInRange(old(model), e.id, first, last)
    {
      HomeOf(e);
      hide Linkage, M.Recorded, M.Linked;
      if e.slot != null {
        var current := e.scheduledAt - now[0];
        if first <= current <= last {
          return;
        }
      }
      var delta := FindRangeDelta(first, last);
      RangeDeltaAtMost(first, last);
      Schedule(e, delta);
    }

    // ----- Callbacks

    /** Carrying out one request of a callback or of another caller. */
    method Perform(c: M.Command)
      requires Valid() && M.CommandOk(c, model.now[0], model.at.Keys)
      modifies `model, `history, Events()`next, Events()`prev, Events()`slot, Events()`scheduledAt, Slots()`events
      ensures Valid() && model == M.Perform(old(model), c)
    {
      hide Linkage, M.Inv, M.Linked, M.ScheduleEvent, M.ScheduleEventInRange, M.CancelEvent;
      match c
      case Schedule(e, delta) => Schedule(pool[e], delta);
      case ScheduleInRange(e, first, last) => ScheduleInRange(pool[e], first, last);
      case Cancel(e) => Cancel(pool[e]);
    }

    /** `execute` of the event that has just been popped from under the hand of a level. */
    method Execute(e: TimerEvent, ghost before: M.Wheel, ghost level: nat)
      requires Agrees() && M.WellBehaved(callbacks, model.start, model.at.Keys, model.now[0])
      requires M.Inv(before) && level < 8 && ZeroBelow(before.now, level)
      requires before.lists[M.Hand(before, level)] != [] && before.lists[M.Hand(before, level)][0] == e.id
      requires e.id in before.at && before.at[e.id] <= before.now[0]
      requires model == M.PopFront(before, M.Hand(before, level))
      modifies `model, `history, Events()`next, Events()`prev, Events()`slot, Events()`scheduledAt, Slots()`events
      ensures Valid() && model == M.FireHand(before, callbacks, level)
    {
      Record(Fired(e.id));
      var cmds := callbacks(history);
      ghost var popped := model;
      M.FiredKeeps(before, level);
      PerformEach(cmds);
    }

    method PerformEach(cmds: seq<M.Command>)
      requires Valid() && M.CommandsOk(cmds, model.now[0], model.at.Keys)
      modifies `model, `history, Events()`next, Events()`prev, Events()`slot, Events()`scheduledAt, Slots()`events
      ensures Valid() && model == M.PerformAll(old(model), cmds)
    {
      hide Linkage, M.Inv, M.Linked, M.Perform;
      for i := 0 to |cmds|
        invariant Valid() && M.CommandsOk(cmds[i..], model.now[0], model.at.Keys)
        invariant M.PerformAll(model, cmds[i..]) == M.PerformAll(old(model), cmds)
      {
        Perform(cmds[i]);
        assert cmds[i..][1..] == cmds[i + 1..];
      }
    }

    // ----- Advancing

    /** The drain loop of `process_current_slot`. */
    method DrainSlot(slot: TimerWheelSlot, limit: nat, level: nat) returns (done: bool)
      requires Valid() && level < 8 && ZeroBelow(model.now, level) && M.Placed(model, level + 1)
      requires slot == SlotAt(M.Hand(model, level))
      requires M.WellBehaved(callbacks, model.start, model.at.Keys, model.now[0])
      modifies `model, `history, Events()`next, Events()`prev, Events()`slot, Events()`scheduledAt, Slots()`events
      ensures Valid() && (model, done) == M.Drain(old(model), callbacks, limit, level)
    {
      hide Linkage, M.Inv, M.Placed, M.FireHand, M.Promote, M.WellBehaved, M.Linked;
      var left := limit;
      ghost var s := M.Hand(model, level);
      HandHead(s);
      while slot.events != null
        invariant Valid() && ZeroBelow(model.now, level) && M.Placed(model, level + 1) && M.Hand(model, level) == s
        invariant M.WellBehaved(callbacks, model.start, model.at.Keys, model.now[0])
        invariant s in model.lists && (slot.events == null <==> model.lists[s] == [])
        invariant M.Drain(model, callbacks, left, level) == M.Drain(old(model), callbacks, limit, level)
        decreases |model.lists[s]|
      {
        M.DrainRound(model, callbacks, left, level);
        M.UnderHand(model, level);
        FirstEvent(slot, s);
        if level > 0 && now[0] < slot.events.scheduledAt {
          PromoteFirst(slot, level);
        } else {
          FireFirst(slot, level);
          left := M.Decrement(left);
          if left == 0 {
            return false;
          }
        }
        HandHead(s);
      }
      return true;
    }

    method PromoteFirst(slot: TimerWheelSlot, level: nat)
      requires Valid() && level < 8 && ZeroBelow(model.now, level)
      requires slot == SlotAt(M.Hand(model, level)) && slot.events != null
      requires var l := model.lists[M.Hand(model, level)]; l != [] && l[0] in model.at && model.now[0] < model.at[l[0]]
      modifies `model, Events()`next, Events()`prev, Events()`slot, Events()`scheduledAt, Slots()`events
      ensures Valid() && model == M.Promote(old(model), level)
    {
      hide Linkage, M.Placed, M.WellBehaved, M.Linked, M.PopFront, M.Insert, M.Recorded, M.Shape;
      M.UnderHand(model, level);
      var e := PopEvent(slot, M.Hand(model, level));
      Place(e, e.scheduledAt - now[0]);
      assert model == M.Promote(old(model), level);
    }

    method FireFirst(slot: TimerWheelSlot, level: nat)
      requires Valid() && level < 8 && ZeroBelow(model.now, level)
      requires slot == SlotAt(M.Hand(model, level)) && slot.events != null
      requires var l := model.lists[M.Hand(model, level)]; l != [] && l[0] in model.at && model.at[l[0]] <= model.now[0]
      requires M.WellBehaved(callbacks, model.start, model.at.Keys, model.now[0])
      modifies `model, `history, Events()`next, Events()`prev, Events()`slot, Events()`scheduledAt, Slots()`events
      ensures Valid() && model == M.FireHand(old(model), callbacks, level)
    {
      hide Linkage, M.Placed, M.WellBehaved, M.Linked, M.PopFront, M.FireHand;
      ghost var before := model;
      var e := PopEvent(slot, M.Hand(model, level));
      Execute(e, before, level);
    }

    lemma HandHead(s: M.Slot)
      requires Linkage() && M.ValidSlot(s)
      ensures s in model.lists && (SlotAt(s).events == null <==> model.lists[s] == [])
    {
      assert SlotChain(pool, model.lists, Snapshot(), s);
    }

    /** `++now_[level]`; only the innermost wheel's tick is part of the history. */
    method Tick(level: nat)
      requires Agrees() && level < 8
      requires level == 0 ==> M.Inv(model) && M.Placed(model, 0) && model.now[0] + 1 < HORIZON
      requires level > 0 ==> M.HalfTicked(model, level - 1) && model.now[level - 1] % 256 == 0
      modifies `model, `history, now
      ensures Agrees() && model == if level == 0 then M.TickInner(old(model)) else M.TickOuter(old(model), level)
    {
      hide Represents, M.Recorded, M.Placed;
      ghost var m := Snapshot();
      now[level] := now[level] + 1;
      if level == 0 {
        history := history + [Ticked];
      }
      ghost var w := model;
      model := if level == 0 then M.TickInner(w) else M.TickOuter(w, level);
      assert now[..] == w.now[level := w.now[level] + 1];
      SameMemory(pool, m, Snapshot());
      forall i | 0 <= i < |pool|
        ensures EventHome(i)
      {
        assert old(EventHome(i));
      }
    }

    /** `process_current_slot`, called with the tick that the hand of the level shows. */
    method ProcessCurrentSlot(tick: Tick, limit: nat, level: nat) returns (done: bool)
      requires Agrees() && M.Processable(model, level, ticksPending != 0) && tick == now[level]
      requires M.WellBehaved(callbacks, model.start, model.at.Keys, model.now[0])
      modifies `model, `history, `ticksPending, now
      modifies Events()`next, Events()`prev, Events()`slot, Events()`scheduledAt, Slots()`events
      ensures Valid() && (model, done) == M.Process(old(model), callbacks, limit, level, old(ticksPending) != 0)
      ensures old(ticksPending) != 0 || done ==> ticksPending == old(ticksPending)
      decreases 8 - level, 1
    {
      hide Linkage, M.Inv, M.Recorded, M.Linked, M.WellBehaved, M.Drain, M.Placed, M.HalfTicked, M.TickOuter;
      ghost var resuming := ticksPending != 0;
      M.ProcessRound(model, callbacks, limit, level, resuming);
      var slotIndex := tick % 256;
      if slotIndex == 0 && level < 7 {
        var outerDone := AdvanceOuter(limit, level + 1);
        if !outerDone {
          return false;
        }
      }
      done := DrainSlot(slots[level][slotIndex], limit, level);
    }

    /** `advance` of an outer wheel, which is only ever called by `process_current_slot` and with
        a delta of 1. */
    method AdvanceOuter(limit: nat, level: nat) returns (done: bool)
      requires Agrees() && 0 < level < 8
      requires M.Processable(model, level - 1, ticksPending != 0) && model.now[level - 1] % 256 == 0
      requires M.WellBehaved(callbacks, model.start, model.at.Keys, model.now[0])
      modifies `model, `history, `ticksPending, now
      modifies Events()`next, Events()`prev, Events()`slot, Events()`scheduledAt, Slots()`events
      ensures Valid() && (model, done) == M.Outer(old(model), callbacks, limit, level, old(ticksPending) != 0)
      ensures old(ticksPending) != 0 || done ==> ticksPending == old(ticksPending)
      decreases 8 - level, 2
    {
      hide Linkage, M.Inv, M.Recorded, M.Linked, M.WellBehaved, M.Placed, M.HalfTicked, M.TickOuter, M.Process;
      if ticksPending != 0 {
        done := ProcessCurrentSlot(now[level], limit, level);
      } else {
        Tick(level);
        done := ProcessCurrentSlot(now[level], limit, level);
        if !done {
          ticksPending := 1;
        }
      }
    }

    /** `advance`. False means that the limit was reached and ticks are pending. */
    method Advance(delta: nat, limit: nat) returns (done: bool)
      requires Built() && Valid() && M.Resting(model, ticksPending) && M.Target(model, ticksPending) + delta < HORIZON
      requires M.WellBehaved(callbacks, model.start, model.at.Keys, M.Target(model, ticksPending) + delta)
      requires ticksPending == 0 ==> delta > 0
      modifies `model, `history, `ticksPending, now
      modifies Events()`next, Events()`prev, Events()`slot, Events()`scheduledAt, Slots()`events
      ensures Valid() && M.Resting(model, ticksPending) && done == (ticksPending == 0)
      ensures (model, ticksPending) == M.Advance(old(model), old(ticksPending), callbacks, delta, limit)
      ensures done ==> M.Quiet(model)
    {
      hide Agrees, M.Recorded, M.Linked, M.WellBehaved, M.Placed, M.TickInner, M.Process, M.Ticks, M.Advance, M.Quiet;
      var left := delta;
      ghost var end := M.Target(model, ticksPending) + delta;
      M.BehavedEarlier(callbacks, model.start, model.at.Keys, end, model.now[0]);
      if ticksPending != 0 {
        ticksPending := ticksPending + delta;
        M.AdvanceResumed(model, old(ticksPending), callbacks, delta, limit);
        done := ProcessCurrentSlot(now[0], limit, 0);
        if !done {
          return false;
        }
        left := ticksPending - 1;
        ticksPending := 0;
      } else {
        M.AdvanceFresh(model, callbacks, delta, limit);
      }
      ghost var w, total := model, left;
      while left > 0
        invariant 0 <= left && Valid() && M.Placed(model, 0) && ticksPending == 0 && model.now[0] + left == end
        invariant M.WellBehaved(callbacks, model.start, model.at.Keys, end)
        invariant M.Ticks(model, callbacks, left, limit) == M.Ticks(w, callbacks, total, limit)
      {
        left := left - 1;
        M.TicksRound(model, callbacks, left + 1, limit);
        M.BehavedEarlier(callbacks, model.start, model.at.Keys, end, model.now[0] + 1);
        Tick(0);
        done := ProcessCurrentSlot(now[0], limit, 0);
        if !done {
          ticksPending := left + 1;
          return false;
        }
      }
      M.TicksRound(model, callbacks, 0, limit);
      return true;
    }
  }

  /** The mask loop: `bytes` low bytes of the mask are zero. */
  method FindRangeDelta(first: nat, last: nat) returns (delta: nat)
    requires first < last < HORIZON
    ensures delta == RangeDelta(first, last)
  {
    var bytes := 0;
    while Shr(first, bytes) != Shr(last, bytes)
      invariant bytes <= 8
      invariant AgreeingBytes(first, last, bytes) == AgreeingBytes(first, last, 0)
      decreases 8 - bytes
    {
      ShrTop(first);
      ShrTop(last);
      assert Shr(first, 8) == Shr(first, 7) / 256 && Shr(last, 8) == Shr(last, 7) / 256;
      bytes := bytes + 1;
    }
    delta := RoundDown(last % RANGE_HORIZON, bytes - 1);
  }
}
