/**
 * The circular doubly linked lists that hold the proxy's connections, client ids and control messages
 * (fibocom-dial/src/fibo_qmimsg_server.c:363-384, 419-437). A list is its head node and the nodes after
 * it; each operation below keeps a ring in step with the sequence it stands for.
 */
module QList {

  class Node {
    var next: Node
    var prev: Node

    // qlist_init: a node alone is an empty list.
    constructor ()
      ensures next == this && prev == this
    {
      next := this;
      prev := this;
    }
  }

  // The nodes in order, head first, each linked to the one after it in both directions and the last to
  // the head.
  ghost predicate Ring(nodes: seq<Node>)
    reads nodes
  {
    && nodes != []
    && (forall i, j :: 0 <= i < j < |nodes| ==> nodes[i] != nodes[j])
    && (forall i, j :: 0 <= i && j == i + 1 && j < |nodes| ==> nodes[i].next == nodes[j] && nodes[j].prev == nodes[i])
    && nodes[|nodes| - 1].next == nodes[0] && nodes[0].prev == nodes[|nodes| - 1]
  }

  // qlist_empty says so exactly when there is nothing but the head.
  lemma EmptyMeansAlone(nodes: seq<Node>)
    requires Ring(nodes)
    ensures nodes[0].next == nodes[0] <==> |nodes| == 1
  {
    if |nodes| > 1 { assert nodes[0].next == nodes[1]; }
  }

  method AddTail(head: Node, item: Node, ghost nodes: seq<Node>)
    requires Ring(nodes) && nodes[0] == head && item !in nodes
    modifies nodes, item
    ensures Ring(nodes + [item])
  {
    ghost var all, n := nodes + [item], |nodes|;
    item.next := head;
    item.prev := head.prev;
    head.prev.next := item;
    head.prev := item;
    forall i, j | 0 <= i && j == i + 1 && j < |all| ensures all[i].next == all[j] && all[j].prev == all[i] {
      if j < n { assert nodes[i].next == nodes[j]; }
    }
  }

  method Remove(item: Node, ghost nodes: seq<Node>, ghost k: nat)
    requires Ring(nodes) && 0 < k < |nodes| && nodes[k] == item
    modifies nodes
    ensures Ring(nodes[..k] + nodes[k + 1..])
  {
    ghost var rest, n := nodes[..k] + nodes[k + 1..], |nodes|;
    ghost var before, after := nodes[k - 1], if k + 1 < n then nodes[k + 1] else nodes[0];
    assert item.prev == before && item.next == after;
    item.next.prev := item.prev;
    item.prev.next := item.next;
    assert forall i :: 0 <= i < |rest| ==> rest[i] == nodes[if i < k then i else i + 1];
    forall i, j | 0 <= i && j == i + 1 && j < |rest| ensures rest[i].next == rest[j] && rest[j].prev == rest[i] {
      if j == k {
        assert rest[i] == before && rest[j] == after;
      } else {
        var a := if i < k then i else i + 1;
        assert nodes[a] != before && nodes[a + 1] != after;
      }
    }
  }

  // qlist_for_each visits every node behind the head once, in order.
  method ForEach(head: Node, ghost nodes: seq<Node>) returns (visited: seq<Node>)
    requires Ring(nodes) && nodes[0] == head
    ensures visited == nodes[1..]
  {
    visited := [];
    var node := head.next;
    ghost var i := 1;
    if |nodes| > 1 { assert head.next == nodes[1]; }
    while node != head
      invariant 1 <= i <= |nodes| && visited == nodes[1..i]
      invariant node == if i < |nodes| then nodes[i] else head
      decreases |nodes| - i
    {
      assert i < |nodes| && nodes[1..i + 1] == nodes[1..i] + [nodes[i]];
      visited := visited + [node];
      if i + 1 < |nodes| { assert nodes[i].next == nodes[i + 1]; }
      node := node.next;
      i := i + 1;
    }
  }
}
