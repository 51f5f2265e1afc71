/**
 Intrusive doubly linked lists (lib/kernel/list.c), refining a sequence.
 */
module Lists {

  /** struct list_elem */
  class Elem {
    var prev: Elem?
    var next: Elem?

    constructor ()
      ensures prev == null && next == null
    {
      prev, next := null, null;
    }
  }

  /** struct list: the elements lie between two guards. */
  class List {
    const head: Elem
    const tail: Elem
    ghost var nodes: seq<Elem>

    /** The guards and the elements are linked both ways, each once. */
    ghost predicate Valid()
      reads this, nodes
    {
      && |nodes| >= 2 && nodes[0] == head && nodes[|nodes| - 1] == tail
      && (forall i, j :: 0 <= i < j < |nodes| ==> nodes[i] != nodes[j])
      && (forall i :: 0 <= i < |nodes| - 1 ==> nodes[i].next == nodes[i + 1])
      && (forall i :: 0 < i < |nodes| ==> nodes[i].prev == nodes[i - 1])
    }

    /** The elements in order. */
    ghost function Elems(): (s: seq<Elem>)
      requires |nodes| >= 2
      reads this
    {
      nodes[1..|nodes| - 1]
    }

    /** list_init */
    constructor ()
      ensures Valid() && Elems() == [] && fresh(nodes)
    {
      head := new Elem();
      tail := new Elem();
      new;
      head.next := tail;
      tail.prev := head;
      nodes := [head, tail];
    }

    /** list_insert_before, `before` being at place `i`. */
    method InsertBefore(before: Elem, elem: Elem, ghost i: nat)
      requires Valid() && 0 < i < |nodes| && nodes[i] == before && elem !in nodes
      modifies this, nodes[i - 1], before, elem
      ensures Valid() && nodes == old(nodes)[..i] + [elem] + old(nodes)[i..]
    {
      ghost var p := nodes[i - 1];
      before.prev.next := elem;
      elem.prev := before.prev;
      elem.next := before;
      before.prev := elem;
      nodes := nodes[..i] + [elem] + nodes[i..];
    }

    /** list_push */
    method Push(elem: Elem)
      requires Valid() && elem !in nodes
      modifies this, head, nodes[1], elem
      ensures Valid() && Elems() == [elem] + old(Elems())
    {
      assert nodes[0].next == nodes[1];
      InsertBefore(head.next, elem, 1);
    }

    /** list_append */
    method Append(elem: Elem)
      requires Valid() && elem !in nodes
      modifies this, nodes[|nodes| - 2], tail, elem
      ensures Valid() && Elems() == old(Elems()) + [elem]
    {
      InsertBefore(tail, elem, |nodes| - 1);
    }

    /** list_remove, the element being at place `i`. */
    method Remove(elem: Elem, ghost i: nat)
      requires Valid() && 0 < i < |nodes| - 1 && nodes[i] == elem
      modifies this, nodes[i - 1], nodes[i + 1]
      ensures Valid() && nodes == old(nodes)[..i] + old(nodes)[i + 1..] && elem !in nodes
    {
      elem.prev.next := elem.next;
      elem.next.prev := elem.prev;
      nodes := nodes[..i] + nodes[i + 1..];
    }

    /** list_pop */
    method Pop() returns (elem: Elem)
      requires Valid() && Elems() != []
      modifies this, nodes[0], nodes[2]
      ensures Valid() && old(Elems()) == [elem] + Elems()
    {
      assert nodes[0].next == nodes[1];
      elem := head.next;
      Remove(elem, 1);
    }

    /** elem_find */
    method Find(elem: Elem) returns (found: bool)
      requires Valid()
      ensures found <==> elem in Elems()
    {
      var e := head.next;
      ghost var i := 1;
      while e != tail
        invariant 1 <= i < |nodes| && e == nodes[i]
        invariant forall j :: 1 <= j < i ==> nodes[j] != elem
        decreases |nodes| - i
      {
        if e == elem {
          assert Elems()[i - 1] == elem;
          return true;
        }
        e := e.next;
        i := i + 1;
      }
      assert i == |nodes| - 1;
      found := false;
    }

    /** list_len */
    method Length() returns (n: nat)
      requires Valid()
      ensures n == |Elems()|
    {
      var e := head.next;
      n := 0;
      while e != tail
        invariant n + 1 < |nodes| && e == nodes[n + 1]
        decreases |nodes| - n
      {
        n := n + 1;
        e := e.next;
      }
    }

    /** list_empty */
    method Empty() returns (r: bool)
      requires Valid()
      ensures r <==> Elems() == []
    {
      assert nodes[0].next == nodes[1] && (|nodes| > 2 ==> nodes[1] != nodes[|nodes| - 1]);
      r := head.next == tail;
    }
  }
}
