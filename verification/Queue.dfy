/** The intrusive circular list under every wait queue. A node is at once a list header and a list
    element; a node linked to itself is an empty list and, as an element, belongs to no list. */
module Queues {
  import opened Order

  class Queue {
    var prev: Queue
    var next: Queue
    ghost var items: seq<Queue>

    /** The i-th stop on the way round from the header h through s and back to h. */
    static ghost function Stop(h: Queue, s: seq<Queue>, i: int): Queue {
      if 1 <= i <= |s| then s[i - 1] else h
    }

    /** The i-th stop and the next one point at each other. */
    static ghost predicate Link(h: Queue, s: seq<Queue>, i: int)
      reads h, s
    {
      Stop(h, s, i).next == Stop(h, s, i + 1) && Stop(h, s, i + 1).prev == Stop(h, s, i)
    }

    static ghost predicate Linked(h: Queue, s: seq<Queue>)
      reads h, s
    {
      h !in s && NoDup(s) && forall i :: 0 <= i <= |s| ==> Link(h, s, i)
    }

    /** As a header, this node heads exactly the list `items`. */
    ghost predicate Valid()
      reads this, items
    {
      Linked(this, items)
    }

    constructor ()
      ensures Valid() && items == []
    {
      prev, next := this, this;
      items := [];
    }

    method Empty() returns (r: bool)
      requires Valid()
      ensures r <==> items == []
    {
      assert Link(this, items, 0);
      r := prev == this && next == this;
    }

    /** The emptiness test doubles as the membership test of an element: on a list it is not linked to
        itself, off every list it is. */
    static lemma ElementIsNotAlone(h: Queue, s: seq<Queue>, k: nat)
      requires Linked(h, s) && k < |s|
      ensures s[k].prev != s[k] && s[k].next != s[k]
    {
      assert Link(h, s, k) && Link(h, s, k + 1);
    }

    method PushFront(node: Queue)
      requires Valid() && node.Valid() && node.items == [] && node != this && node !in items
      modifies this, items, node
      ensures Valid() && items == [node] + old(items)
    {
      assert Link(this, items, 0);
      ListAdd(node, this, next, this, 0);
    }

    method PushBack(node: Queue)
      requires Valid() && node.Valid() && node.items == [] && node != this && node !in items
      modifies this, items, node
      ensures Valid() && items == old(items) + [node]
    {
      assert Link(this, items, |items|);
      ListAdd(node, prev, this, this, |items|);
    }

    /** Links `node` between two neighbours, the k-th stop of list h and the next. */
    static method ListAdd(node: Queue, before: Queue, after: Queue, ghost h: Queue, ghost k: nat)
      requires h.Valid() && k <= |h.items| && node != h && node !in h.items
      requires before == Stop(h, h.items, k) && after == Stop(h, h.items, k + 1)
      modifies h, h.items, node
      ensures h.Valid() && h.items == old(h.items[..k]) + [node] + old(h.items[k..])
    {
      ghost var s := h.items;
      assert Link(h, s, k);
      assert before.next != node && after.prev != node;
      before.next := node;
      after.prev := node;
      node.next := after;
      node.prev := before;
      h.items := s[..k] + [node] + s[k..];
      forall i | 0 <= i <= |h.items| ensures Link(h, h.items, i) {
        assert i < k ==> old(Link(h, s, i));
        assert i > k + 1 ==> old(Link(h, s, i - 1));
      }
    }

    /** Unlinks `node` from the list h it is in, wherever it stands, and leaves it linked to itself. */
    static method Erase(node: Queue, ghost h: Queue, ghost k: nat) returns (r: Queue)
      requires h.Valid() && k < |h.items| && node == h.items[k]
      modifies h, h.items
      ensures r == node && node.Valid() && node.items == []
      ensures h.Valid() && h.items == old(h.items[..k]) + old(h.items[k + 1..])
    {
      ghost var s := h.items;
      assert Link(h, s, k) && Link(h, s, k + 1);
      node.next.prev := node.prev;
      node.prev.next := node.next;
      node.next := node;
      node.prev := node;
      node.items := [];
      h.items := s[..k] + s[k + 1..];
      forall i | 0 <= i <= |h.items| ensures Link(h, h.items, i) {
        assert i < k ==> old(Link(h, s, i));
        assert i > k ==> old(Link(h, s, i + 1));
      }
      r := node;
    }

    method PopFront() returns (r: Queue?)
      requires Valid()
      modifies this, items
      ensures Valid()
      ensures old(items) == [] ==> r == null && items == []
      ensures old(items) != [] ==> r == old(items)[0] && items == old(items)[1..] && r.Valid() && r.items == []
    {
      var empty := Empty();
      if empty {
        return null;
      }
      assert Link(this, items, 0);
      r := Erase(next, this, 0);
    }

    method PopBack() returns (r: Queue?)
      requires Valid()
      modifies this, items
      ensures Valid()
      ensures old(items) == [] ==> r == null && items == []
      ensures old(items) != [] ==> var n := |old(items)| - 1;
                                   r == old(items)[n] && items == old(items)[..n] && r.Valid() && r.items == []
    {
      var empty := Empty();
      if empty {
        return null;
      }
      assert Link(this, items, |items|);
      r := Erase(prev, this, |items| - 1);
    }

    /** Hands the whole list over to an empty header, in order; otherwise does nothing. */
    method MoveTo(target: Queue) returns (moved: bool)
      requires Valid() && target.Valid() && target != this && target !in items
      modifies this, items, target
      ensures Valid() && target.Valid()
      ensures moved <==> old(items) != [] && old(target.items) == []
      ensures moved ==> items == [] && target.items == old(items)
      ensures !moved ==> items == old(items) && target.items == old(target.items)
    {
      var empty := Empty();
      if empty {
        return false;
      }
      empty := target.Empty();
      if !empty {
        return false;
      }
      assert Link(this, items, 0);
      assert Link(this, items, |items|);
      prev.next := target;
      next.prev := target;
      target.next := next;
      target.prev := prev;
      target.items := items;
      next := this;
      prev := this;
      items := [];
      forall i | 0 <= i <= |target.items| ensures Link(target, target.items, i) {
        assert old(Link(this, items, i));
      }
      moved := true;
    }
  }
}
