/** The intrusive list: a ring of links through a sentinel that the list object owns. Links
    are inserted and removed by rewriting their neighbours only, whichever list object owns
    the ring at that moment. */
module RingLists {
  class LinkedNode {
    var prev: LinkedNode?
    var next: LinkedNode?

    constructor ()
      ensures prev == null && next == null
    {
      prev, next := null, null;
    }
  }

  /** The index behind i on a ring of n links. */
  function Behind(i: nat, n: nat): nat
    requires i < n
  {
    if i + 1 == n then 0 else i + 1
  }

  predicate Distinct(c: seq<LinkedNode>) {
    forall i, j | 0 <= i < j < |c| :: c[i] != c[j]
  }

  ghost predicate Joined(a: LinkedNode, b: LinkedNode)
    reads a, b
  {
    a.next == b && b.prev == a
  }

  /** The links form a ring in this order. */
  ghost predicate Ring(c: seq<LinkedNode>)
    reads c
  {
    && c != []
    && Distinct(c)
    && forall i | 0 <= i < |c| :: Joined(c[i], c[Behind(i, |c|)])
  }

  /** `LinkedList::insert`: between the i-th link and the one behind it. */
  method Insert(node: LinkedNode, prev: LinkedNode, next: LinkedNode, ghost c: seq<LinkedNode>, ghost i: nat)
    requires Ring(c) && i < |c| && prev == c[i] && next == c[Behind(i, |c|)] && node !in c
    modifies node, prev, next
    ensures Ring(c[..i + 1] + [node] + c[i + 1..])
  {
    next.prev := node;
    node.next := next;
    node.prev := prev;
    prev.next := node;
    ghost var d := c[..i + 1] + [node] + c[i + 1..];
    forall j | 0 <= j < |d|
      ensures Joined(d[j], d[Behind(j, |d|)])
    {
      if j < i {
        assert Joined(c[j], c[Behind(j, |c|)]);
      } else if j > i + 1 {
        assert Joined(c[j - 1], c[Behind(j - 1, |c|)]);
      }
    }
  }

  /** `LinkedList::remove`: a link leaves its ring by its own pointers alone. */
  method Remove(node: LinkedNode, ghost c: seq<LinkedNode>, ghost i: nat)
    requires Ring(c) && 0 < i < |c| && node == c[i]
    modifies c
    ensures Ring(c[..i] + c[i + 1..]) && node.prev == null && node.next == null
    ensures forall k | 0 <= k < |c| && k != i - 1 && k != i && k != Behind(i, |c|) :: unchanged(c[k])
  {
    ghost var b := Behind(i, |c|);
    assert Joined(c[i - 1], c[Behind(i - 1, |c|)]) && Joined(c[i], c[b]);
    node.next.prev := node.prev;
    node.prev.next := node.next;
    node.next := null;
    node.prev := null;
    ghost var d := c[..i] + c[i + 1..];
    forall j | 0 <= j < |d|
      ensures Joined(d[j], d[Behind(j, |d|)])
    {
      if j < i - 1 {
        assert Joined(c[j], c[Behind(j, |c|)]);
      } else if j >= i {
        assert Joined(c[j + 1], c[Behind(j + 1, |c|)]);
      }
    }
  }

  class LinkedList {
    var sentinel: LinkedNode
    ghost var contents: seq<LinkedNode>

    ghost function Links(): (r: seq<LinkedNode>)
      reads this
    {
      [sentinel] + contents
    }

    ghost predicate Valid()
      reads this, Links()
    {
      Ring(Links())
    }

    constructor ()
      ensures Valid() && contents == [] && fresh(sentinel)
    {
      var head := new LinkedNode();
      sentinel, contents := head, [];
      new;
      head.next := head;
      head.prev := head;
      assert Links() == [head];
    }

    /** The list objects exchange their rings; no link is touched. */
    method Swap(other: LinkedList)
      requires Valid() && other.Valid()
      modifies this, other
      ensures Valid() && other.Valid()
      ensures sentinel == old(other.sentinel) && contents == old(other.contents)
      ensures other.sentinel == old(sentinel) && other.contents == old(contents)
    {
      var tmp := sentinel;
      sentinel := other.sentinel;
      other.sentinel := tmp;
      if this != other {
        ghost var mine := contents;
        contents := other.contents;
        other.contents := mine;
      }
    }

    predicate Empty()
      requires Valid()
      reads this, Links()
      ensures Empty() <==> contents == []
    {
      assert Joined(Links()[0], Links()[Behind(0, |Links()|)]);
      sentinel.next == sentinel
    }

    method PushBack(node: LinkedNode)
      requires Valid() && node !in Links()
      modifies this, node, Links()
      ensures Valid() && contents == old(contents) + [node] && sentinel == old(sentinel)
    {
      ghost var c := Links();
      ghost var last := |c| - 1;
      assert Joined(c[last], c[Behind(last, |c|)]);
      Insert(node, sentinel.prev, sentinel, c, last);
      contents := contents + [node];
      assert Links() == c[..last + 1] + [node] + c[last + 1..];
    }

    method PopFront() returns (node: LinkedNode)
      requires Valid() && contents != []
      modifies this, Links()
      ensures Valid() && node == old(contents)[0] && contents == old(contents)[1..] && sentinel == old(sentinel)
      ensures node.prev == null && node.next == null
    {
      ghost var c := Links();
      assert Joined(c[0], c[Behind(0, |c|)]);
      node := sentinel.next;
      Remove(node, c, 1);
      contents := contents[1..];
      assert Links() == c[..1] + c[2..];
    }
  }

  /** Unlinks a node given by its link only. The list that owns the ring is needed for the
      specification alone: it may be another object than the one the node was pushed to. */
  method Unlink(node: LinkedNode, ghost owner: LinkedList, ghost i: nat)
    requires owner.Valid() && i < |owner.contents| && node == owner.contents[i]
    modifies owner`contents, owner.Links()
    ensures owner.Valid() && owner.sentinel == old(owner.sentinel)
    ensures owner.contents == old(owner.contents)[..i] + old(owner.contents)[i + 1..]
    ensures node.prev == null && node.next == null
  {
    ghost var c := owner.Links();
    Remove(node, c, i + 1);
    owner.contents := owner.contents[..i] + owner.contents[i + 1..];
    assert owner.Links() == c[..i + 1] + c[i + 2..];
  }

  /** What event handling relies on: after a waiting list was swapped away, a node of it is
      unlinked from the batch by its link alone, and what was pushed meanwhile to the waiting
      list stays as it is. */
  method RemoveAfterSwap(waiting: LinkedList, node: LinkedNode, later: LinkedNode, ghost i: nat) returns (batch: LinkedList)
    requires waiting.Valid() && i < |waiting.contents| && node == waiting.contents[i] && later !in waiting.Links()
    modifies waiting, waiting.Links(), later
    ensures fresh(batch) && batch.Valid() && waiting.Valid()
    ensures batch.contents == old(waiting.contents)[..i] + old(waiting.contents)[i + 1..]
    ensures waiting.contents == [later]
  {
    batch := new LinkedList();
    batch.Swap(waiting);
    waiting.PushBack(later);
    assert node in batch.Links() && forall k | 0 <= k < |waiting.Links()| :: waiting.Links()[k] !in batch.Links();
    Unlink(node, batch, i);
  }
}
