/** The vertex node stored at the start of every half-edge (2D) and at every
    corner of a tetrahedron (3D). */
module Node {
  import opened Base

  /** A node is an index into the vertex list, the single point at infinity,
      or a tombstone left behind by a flip that removed its triangle. */
  datatype VertexNode = Casual(index: nat) | Conceptual | Deleted

  /** The vertex index of a node, if it has one. */
  function Idx(n: VertexNode): (r: Option<nat>)
    ensures r.Some? <==> n.Casual?
    ensures forall i: nat :: r == Some(i) <==> n == Casual(i)
  {
    match n
    case Casual(i) => Some(i)
    case _ => None
  }

  predicate IsConceptual(n: VertexNode) {
    n.Conceptual?
  }

  predicate IsDeleted(n: VertexNode) {
    n.Deleted?
  }

  /** Under the three accessors every node falls in exactly one class. */
  lemma ExactlyOneClass(n: VertexNode)
    ensures Idx(n).Some? || IsConceptual(n) || IsDeleted(n)
    ensures !(Idx(n).Some? && IsConceptual(n))
    ensures !(Idx(n).Some? && IsDeleted(n))
    ensures !(IsConceptual(n) && IsDeleted(n))
  {
  }

  /** Two nodes with the same index are the same node: `idx` loses nothing. */
  lemma IdxInjective(m: VertexNode, n: VertexNode)
    requires Idx(m).Some? && Idx(m) == Idx(n)
    ensures m == n
  {
  }

  /** Every vertex index among the nodes names one of `n` vertices. */
  predicate IndicesIn(ns: seq<VertexNode>, n: nat) {
    forall k :: 0 <= k < |ns| && ns[k].Casual? ==> ns[k].index < n
  }
}
