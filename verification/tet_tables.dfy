/** The two constant tables that fix the local topology of a tetrahedron
    with corners 0..3. Face `j` is the triangle opposite corner `j`, listed
    by `TRIANGLE_SUBINDICES[j]`; half-edge `k` of face `j` runs from corner
    `SUB[j][k]` to corner `SUB[j][(k + 1) % 3]`, and `NEIGHBOR_HALFEDGE`
    names the half-edge of another face of the same tetrahedron that runs
    along the same edge the other way. */
module TetTables {

  /** `TRIANGLE_SUBINDICES`. */
  const SUB: seq<seq<nat>> := [[1, 3, 2], [0, 2, 3], [0, 3, 1], [0, 1, 2]]

  /** `NEIGHBOR_HALFEDGE`: (face, half-edge) pairs. */
  const NEIGHBOR: seq<seq<(nat, nat)>> := [
    [(2, 1), (1, 1), (3, 1)],
    [(3, 2), (0, 1), (2, 0)],
    [(1, 2), (0, 0), (3, 0)],
    [(2, 2), (0, 2), (1, 0)]
  ]

  /** The local corner at position `k` of face `j`: never the corner `j`
      the face is opposite to. */
  function Sub(j: nat, k: nat): (r: nat)
    requires j < 4 && k < 3
    ensures r < 4 && r != j
  {
    if j == 0 then (if k == 0 then 1 else if k == 1 then 3 else 2)
    else if j == 1 then (if k == 0 then 0 else if k == 1 then 2 else 3)
    else if j == 2 then (if k == 0 then 0 else if k == 1 then 3 else 1)
    else (if k == 0 then 0 else if k == 1 then 1 else 2)
  }

  /** The local half-edge along the same edge as half-edge `k` of face `j`:
      always on another face. */
  function Neighbor(j: nat, k: nat): (r: (nat, nat))
    requires j < 4 && k < 3
    ensures r.0 < 4 && r.1 < 3 && r.0 != j
  {
    if j == 0 then (if k == 0 then (2, 1) else if k == 1 then (1, 1) else (3, 1))
    else if j == 1 then (if k == 0 then (3, 2) else if k == 1 then (0, 1) else (2, 0))
    else if j == 2 then (if k == 0 then (1, 2) else if k == 1 then (0, 0) else (3, 0))
    else (if k == 0 then (2, 2) else if k == 1 then (0, 2) else (1, 0))
  }

  /** `Sub` and `Neighbor` read the two tables of the source. */
  lemma TablesAgree(j: nat, k: nat)
    requires j < 4 && k < 3
    ensures Sub(j, k) == SUB[j][k] && Neighbor(j, k) == NEIGHBOR[j][k]
  {
  }

  /** Face `j` lists the three corners other than `j`, each once. */
  lemma {:induction false} SubListsOtherCorners(j: nat)
    requires j < 4
    ensures Sub(j, 0) != Sub(j, 1) && Sub(j, 1) != Sub(j, 2) && Sub(j, 0) != Sub(j, 2)
    ensures {Sub(j, 0), Sub(j, 1), Sub(j, 2), j} == {0, 1, 2, 3}
  {
    if j == 0 {} else if j == 1 {} else if j == 2 {} else {}
  }

  /** `NEIGHBOR_HALFEDGE` is an involution on the twelve local half-edges,
      and the partner runs along the same edge in the opposite direction. */
  lemma {:induction false} NeighborInvolution(j: nat, k: nat)
    requires j < 4 && k < 3
    ensures var (j', k') := Neighbor(j, k);
      Neighbor(j', k') == (j, k) &&
      Sub(j', k') == Sub(j, (k + 1) % 3) && Sub(j', (k' + 1) % 3) == Sub(j, k)
  {
    if j == 0 {
      if k == 0 {} else if k == 1 {} else {}
    } else if j == 1 {
      if k == 0 {} else if k == 1 {} else {}
    } else if j == 2 {
      if k == 0 {} else if k == 1 {} else {}
    } else {
      if k == 0 {} else if k == 1 {} else {}
    }
  }

  /** The local half-edge running from corner `a` to corner `b`. */
  function EdgeHalf(a: nat, b: nat): (r: (nat, nat))
    requires a < 4 && b < 4 && a != b
    ensures r.0 < 4 && r.1 < 3 && Sub(r.0, r.1) == a && Sub(r.0, (r.1 + 1) % 3) == b
  {
    if a == 0 && b == 1 then (3, 0) else if a == 1 && b == 0 then (2, 2)
    else if a == 0 && b == 2 then (1, 0) else if a == 2 && b == 0 then (3, 2)
    else if a == 0 && b == 3 then (2, 0) else if a == 3 && b == 0 then (1, 2)
    else if a == 1 && b == 2 then (3, 1) else if a == 2 && b == 1 then (0, 2)
    else if a == 1 && b == 3 then (0, 0) else if a == 3 && b == 1 then (2, 1)
    else if a == 2 && b == 3 then (1, 1) else (0, 1)
  }

  /** Each directed edge of the tetrahedron is carried by exactly one local
      half-edge, so every edge lies on exactly two faces. */
  lemma {:induction false} EdgeHalfUnique(j: nat, k: nat)
    requires j < 4 && k < 3
    ensures EdgeHalf(Sub(j, k), Sub(j, (k + 1) % 3)) == (j, k)
  {
    if j == 0 {
      if k == 0 {} else if k == 1 {} else {}
    } else if j == 1 {
      if k == 0 {} else if k == 1 {} else {}
    } else if j == 2 {
      if k == 0 {} else if k == 1 {} else {}
    } else {
      if k == 0 {} else if k == 1 {} else {}
    }
  }

  /** The partner of a half-edge is the half-edge carrying the reversed
      edge. */
  lemma NeighborIsReverse(j: nat, k: nat)
    requires j < 4 && k < 3
    ensures Neighbor(j, k) == EdgeHalf(Sub(j, (k + 1) % 3), Sub(j, k))
  {
    NeighborInvolution(j, k);
    var (j', k') := Neighbor(j, k);
    EdgeHalfUnique(j', k');
  }
}
