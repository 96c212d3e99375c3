/** The arena that owns the nodes (src/node.rs): ids are handed out once and never again. */
module NodeArenas {
  import opened Wrappers
  import opened NodeTree

  class NodeArena {
    var nodes: Arena
    var nextId: NodeId
    var statNodes: nat

    /** The statistic is the size of the arena, and no id that is still to be issued is in use. */
    ghost predicate Valid()
      reads this
    {
      statNodes == |nodes| && forall id :: id in nodes ==> id < nextId
    }

    constructor ()
      ensures Valid() && nodes == map[] && nextId == 1
    {
      nodes := map[];
      nextId := 1;
      statNodes := 0;
    }

    method Insert(node: Node) returns (id: NodeId)
      requires Valid()
      modifies this
      ensures Valid()
      ensures id == old(nextId) && id !in old(nodes) && nextId == id + 1
      ensures nodes == old(nodes)[id := node]
    {
      id := nextId;
      nextId := nextId + 1;
      statNodes := statNodes + 1;
      nodes := nodes[id := node];
    }

    /** Writing through `get_mut`. */
    method Update(id: NodeId, node: Node)
      requires Valid() && id in nodes
      modifies this`nodes
      ensures Valid() && nodes == old(nodes)[id := node]
    {
      assert nodes[id := node].Keys == nodes.Keys;
      SameKeysSameSize(nodes, nodes[id := node]);
      nodes := nodes[id := node];
    }

    method Remove(id: NodeId) returns (node: Option<Node>)
      requires Valid()
      modifies this`nodes, this`statNodes
      ensures Valid() && nodes == old(nodes) - {id}
      ensures node == if id in old(nodes) then Some(old(nodes)[id]) else None
    {
      if id in nodes {
        node := Some(nodes[id]);
        assert (nodes - {id}).Keys == nodes.Keys - {id};
        SizeIsKeys(nodes);
        SizeIsKeys(nodes - {id});
        statNodes := statNodes - 1;
      } else {
        node := None;
        assert nodes - {id} == nodes;
      }
      nodes := nodes - {id};
    }
  }

  lemma SizeIsKeys(m: Arena)
    ensures |m| == |m.Keys|
  {}

  lemma SameKeysSameSize(m: Arena, n: Arena)
    requires m.Keys == n.Keys
    ensures |m| == |n|
  {
    SizeIsKeys(m);
    SizeIsKeys(n);
  }
}
