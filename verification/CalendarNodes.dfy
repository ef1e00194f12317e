/**
 One bucket of the calendar as calqueue.c keeps it: a linked list of nodes, spliced in place. The buckets
 of `CalQueue` are the sequences of events that these lists hold.
 */
module CalendarNodes {
  import opened Calendar

  /** `calqueue_node`. */
  class Node<T> {
    const priority: real
    const payload: T
    var next: Node?<T>

    constructor (priority: real, payload: T)
      ensures this.priority == priority && this.payload == payload && this.next == null
    {
      this.priority, this.payload, this.next := priority, payload, null;
    }
  }

  ghost predicate Chained<T>(head: Node?<T>, nodes: seq<Node<T>>)
    reads nodes
  {
    && (head == null <==> nodes == [])
    && (nodes != [] ==> head == nodes[0] && nodes[|nodes| - 1].next == null)
    && (forall i :: 0 <= i < |nodes| - 1 ==> nodes[i].next == nodes[i + 1])
    && (forall i, j :: 0 <= i < j < |nodes| ==> nodes[i] != nodes[j])
  }

  function Events<T>(nodes: seq<Node<T>>): (b: Bucket<T>)
    ensures |b| == |nodes|
    ensures forall i :: 0 <= i < |b| ==> b[i] == Event(nodes[i].priority, nodes[i].payload)
  {
    seq(|nodes|, i requires 0 <= i < |nodes| => Event(nodes[i].priority, nodes[i].payload))
  }

  /** One slot of the calendar array. */
  class BucketList<T> {
    var head: Node?<T>
    ghost var nodes: seq<Node<T>>

    ghost predicate Valid()
      reads this, nodes
    {
      Chained(head, nodes)
    }

    constructor ()
      ensures Valid() && nodes == []
    {
      head, nodes := null, [];
    }

    /** The walk of `calqueue_put`: the last node of those at the front that are not later, if any. */
    method Find(priority: real) returns (traverse: Node?<T>, ghost t: int)
      requires Valid()
      ensures 0 <= t <= |nodes| && traverse == (if t == 0 then null else nodes[t - 1])
      ensures forall j :: 0 <= j < t ==> nodes[j].priority <= priority
      ensures t == |nodes| || nodes[t].priority > priority
    {
      if head == null || head.priority > priority {
        return null, 0;
      }
      traverse, t := head, 1;
      while traverse.next != null && traverse.next.priority <= priority
        invariant 1 <= t <= |nodes| && traverse == nodes[t - 1]
        invariant forall j :: 0 <= j < t ==> nodes[j].priority <= priority
        decreases |nodes| - t
      {
        traverse := traverse.next;
        t := t + 1;
      }
    }

    method Splice(node: Node<T>, traverse: Node?<T>, ghost t: int)
      requires Valid() && 0 <= t <= |nodes| && traverse == (if t == 0 then null else nodes[t - 1]) && node !in nodes
      modifies this, nodes, node
      ensures Valid() && nodes == old(nodes)[..t] + [node] + old(nodes)[t..]
    {
      assert t < |nodes| ==> nodes[t] == if t == 0 then head else traverse.next;
      if traverse == null {
        node.next := head;
        head := node;
      } else {
        node.next := traverse.next;
        traverse.next := node;
      }
      nodes := nodes[..t] + [node] + nodes[t..];
    }

    /** The part of `calqueue_put` that links a new node in: at the head, or behind the last node of those
        at the front that are not later. */
    method Link(priority: real, payload: T)
      requires Valid()
      modifies this, nodes
      ensures Valid() && Events(nodes) == InsertSorted(old(Events(nodes)), Event(priority, payload))
    {
      hide Chained, InsertSorted;
      ghost var was, b := nodes, Events(nodes);
      var node := new Node(priority, payload);
      var traverse, t := Find(priority);
      InsertSortedAt(b, Event(priority, payload), t);
      Splice(node, traverse, t);
      assert Events(nodes) == b[..t] + [Event(priority, payload)] + b[t..];
    }

    /** The part of `calqueue_deq` that takes the first node out. */
    method Unlink() returns (e: Node<T>)
      requires Valid() && nodes != []
      modifies this
      ensures Valid() && e == old(nodes[0]) && nodes == old(nodes)[1..]
      ensures Events(nodes) == old(Events(nodes))[1..]
    {
      e := head;
      assert |nodes| > 1 ==> e.next == nodes[1];
      assert |nodes| == 1 ==> e == nodes[|nodes| - 1];
      head := e.next;
      nodes := nodes[1..];
    }
  }
}
