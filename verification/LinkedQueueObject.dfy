/**
 `SafeQueueEnhance` as linked objects: the bodies of `push` and of a pop, run one
 at a time on the real heap.
 */
module LinkedQueueObject {
  import opened Values
  import opened Options

  class QueueNode {
    var data: Option<Value>
    var next: QueueNode?

    constructor ()
      ensures data == None && next == null
    {
      data, next := None, null;
    }
  }

  class SafeQueueEnhance {
    var head: QueueNode
    var tail: QueueNode
    ghost var nodes: seq<QueueNode>
    ghost var contents: seq<Value>

    /** The chain: one node per element and an empty one behind them. */
    ghost predicate Valid()
      reads this, nodes
    {
      && |nodes| == |contents| + 1 && head == nodes[0] && tail == nodes[|contents|]
      && (forall i, j :: 0 <= i < j < |nodes| ==> nodes[i] != nodes[j])
      && (forall i :: 0 <= i < |contents| ==>
            nodes[i].data == Some(contents[i]) && nodes[i].next == nodes[i + 1])
      && tail.data == None && tail.next == null
    }

    constructor ()
      ensures Valid() && contents == [] && fresh(nodes)
    {
      var node := new QueueNode();
      head, tail := node, node;
      nodes, contents := [node], [];
    }

    method Push(v: Value)
      requires Valid()
      modifies this, tail
      ensures Valid() && contents == old(contents) + [v]
      ensures nodes[..|old(nodes)|] == old(nodes) && fresh(nodes[|old(nodes)|..])
    {
      var node := new QueueNode();
      tail.data := Some(v);
      tail.next := node;
      tail := node;
      nodes, contents := nodes + [node], contents + [v];
    }

    /** `try_pop`: nothing exactly when the queue is empty, else its first element. */
    method TryPop() returns (x: Option<Value>)
      requires Valid()
      modifies this
      ensures Valid() && (x == None <==> old(contents) == [])
      ensures x == None ==> contents == [] && nodes == old(nodes)
      ensures x.Some? ==> [x.value] + contents == old(contents) && nodes == old(nodes)[1..]
    {
      if head == tail {
        return None;
      }
      assert head.next == nodes[1];
      x := head.data;
      head := head.next;
      nodes, contents := nodes[1..], contents[1..];
    }
  }
}
