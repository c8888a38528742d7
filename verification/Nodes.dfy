/** Nodes of the distributed hash table, in order of distance to a target. */
module Nodes {
  import opened XorMetric
  import PieceSpec

  type Addr = PieceSpec.SocketAddr

  datatype Node = Node(id: NodeId, addr: Addr)

  // How far a node is from the target.
  function Rank(target: NodeId): Node -> nat {
    (n: Node) => Gap(target, n.id)
  }

  lemma RankIsInjective(target: NodeId, a: Node, b: Node)
    ensures Rank(target)(a) == Rank(target)(b) <==> a.id == b.id
  {
    DistanceWF(target, a.id);
    DistanceWF(target, b.id);
    LessIsNumeric(DistanceOf(target, a.id), DistanceOf(target, b.id));
    DistanceIsInjective(target, a.id, b.id);
  }
}
