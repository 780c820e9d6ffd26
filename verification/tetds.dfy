/** The 3D half-triangle data structure: tetrahedron `t` owns the four
    corner nodes `4t..4t+3` and the four half-triangles `4t..4t+3`, where
    half-triangle `4t + j` is the face opposite corner `j`. Each
    half-triangle records the half-triangle of the neighbouring tetrahedron
    glued to it (`half_tri_opposite`); half-edges are (half-triangle, k)
    pairs read through the local tables. This module holds the read-only
    views of the source (its three iterators) and the soundness check. */
module TetDs {
  import opened Base
  import opened Node
  import opened TetTables

  /** `tet_nodes`, `half_tri_opposite`, `num_tets`, the Bowyer-Watson flags
      `should_del_tet` / `should_keep_tet` and the work lists `tets_to_del`,
      `tets_to_keep`, `tets_to_check`. */
  datatype TetDs = TetDs(
    nodes: seq<VertexNode>, opp: seq<nat>, numTets: nat,
    del: seq<bool>, keep: seq<bool>,
    toDel: seq<nat>, toKeep: seq<nat>, toCheck: seq<nat>)

  /** The empty structure of `TetDataStructure::new`. */
  function Empty(): TetDs {
    TetDs([], [], 0, [], [], [], [], [])
  }

  /** The array shape the mutators keep: four nodes, four opposites and one
      flag of each kind per tetrahedron. */
  predicate Sized(ds: TetDs) {
    |ds.nodes| == 4 * ds.numTets && |ds.opp| == |ds.nodes| &&
    |ds.del| == ds.numTets && |ds.keep| == ds.numTets
  }

  /** The nodes of the tetrahedron owning half-triangle `ht` can be read. */
  predicate Readable(ds: TetDs, ht: nat) {
    4 * (ht / 4) + 3 < |ds.nodes|
  }

  /** Half-triangle `4t + j` belongs to tetrahedron `t` and is its face `j`. */
  lemma Split4(t: nat, j: nat)
    requires j < 4
    ensures (4 * t + j) / 4 == t && (4 * t + j) % 4 == j
  {
  }

  /** Every face of a stored tetrahedron can be read. */
  lemma FacesReadable(ds: TetDs, t: nat)
    requires 4 * t + 3 < |ds.nodes|
    ensures Readable(ds, 4 * t) && Readable(ds, 4 * t + 1) && Readable(ds, 4 * t + 2) && Readable(ds, 4 * t + 3)
  {
    Split4(t, 0);
    Split4(t, 1);
    Split4(t, 2);
    Split4(t, 3);
  }

  // ---------------------------------------------------------------------
  // HedgeIterator

  /** A half-edge: half-triangle `tri`, local half-edge `k` in 0..2. */
  datatype Hedge = Hedge(tri: nat, k: nat)

  /** `next`: the following half-edge of the same half-triangle. */
  function NextE(e: Hedge): (r: Hedge)
    requires e.k < 3
    ensures r.tri == e.tri && r.k < 3 && r.k != e.k
  {
    Hedge(e.tri, (e.k + 1) % 3)
  }

  /** `prev`: the preceding half-edge of the same half-triangle. */
  function PrevE(e: Hedge): (r: Hedge)
    requires e.k < 3
    ensures r.tri == e.tri && r.k < 3 && r.k != e.k
  {
    Hedge(e.tri, (e.k + 2) % 3)
  }

  /** `next` cycles through the three half-edges and `prev` undoes it. */
  lemma NextPrevCycle(e: Hedge)
    requires e.k < 3
    ensures NextE(NextE(NextE(e))) == e
    ensures PrevE(NextE(e)) == e && NextE(PrevE(e)) == e
  {
  }

  /** `first_node`: the corner the half-edge leaves. */
  function FirstNode(ds: TetDs, e: Hedge): VertexNode
    requires e.k < 3 && Readable(ds, e.tri)
  {
    ds.nodes[4 * (e.tri / 4) + Sub(e.tri % 4, e.k)]
  }

  /** `last_node`: the corner the half-edge reaches, which is where the next
      half-edge starts. */
  function LastNode(ds: TetDs, e: Hedge): (r: VertexNode)
    requires e.k < 3 && Readable(ds, e.tri)
    ensures r == FirstNode(ds, NextE(e))
  {
    ds.nodes[4 * (e.tri / 4) + Sub(e.tri % 4, (e.k + 1) % 3)]
  }

  /** `neighbor`: the half-edge of another face of the same tetrahedron
      running along the same edge, read from `NEIGHBOR_HALFEDGE`. */
  function NeighborE(e: Hedge): (r: Hedge)
    requires e.k < 3
    ensures r.k < 3 && r.tri / 4 == e.tri / 4 && r.tri != e.tri
  {
    var (j, k) := Neighbor(e.tri % 4, e.k);
    Hedge(e.tri - e.tri % 4 + j, k)
  }

  /** `neighbor` is an involution on the half-edges of a tetrahedron. */
  lemma NeighborEInvolution(e: Hedge)
    requires e.k < 3
    ensures NeighborE(NeighborE(e)) == e
  {
    NeighborInvolution(e.tri % 4, e.k);
  }

  /** `neighbor` reverses the edge in every structure: the neighbour check
      of `is_sound` cannot fail. */
  lemma NeighborEReverses(ds: TetDs, e: Hedge)
    requires e.k < 3 && Readable(ds, e.tri)
    ensures Readable(ds, NeighborE(e).tri)
    ensures FirstNode(ds, NeighborE(e)) == LastNode(ds, e)
    ensures LastNode(ds, NeighborE(e)) == FirstNode(ds, e)
  {
    NeighborInvolution(e.tri % 4, e.k);
  }

  /** `opposite`: the half-edge of the glued half-triangle that starts where
      this one ends; when none does, the source falls back to half-edge 2.
      Reading an opposite outside the arrays panics. */
  function OppositeE(ds: TetDs, e: Hedge): (r: Result<Hedge>)
    requires e.k < 3 && Readable(ds, e.tri)
    ensures r.Ok? <==> e.tri < |ds.opp| && Readable(ds, ds.opp[e.tri])
    ensures r.Err? ==> r.IsPanic()
    ensures r.Ok? ==> r.value.tri == ds.opp[e.tri] && r.value.k < 3
  {
    if e.tri >= |ds.opp| then Crash("index out of bounds: half_tri_opposite")
    else
      var o := ds.opp[e.tri];
      if !Readable(ds, o) then Crash("index out of bounds: tet_nodes")
      else
        var last := LastNode(ds, e);
        if FirstNode(ds, Hedge(o, 0)) == last then Ok(Hedge(o, 0))
        else if FirstNode(ds, Hedge(o, 1)) == last then Ok(Hedge(o, 1))
        else Ok(Hedge(o, 2))
  }

  /** `opposite` picks the first half-edge of the glued face that starts
      where this one ends, and half-edge 2 when there is none. */
  lemma OppositeEMatches(ds: TetDs, e: Hedge)
    requires e.k < 3 && Readable(ds, e.tri) && OppositeE(ds, e).Ok?
    ensures var o := OppositeE(ds, e).value;
      (FirstNode(ds, o) == LastNode(ds, e) || o.k == 2) &&
      forall k :: 0 <= k < o.k ==> FirstNode(ds, Hedge(o.tri, k)) != LastNode(ds, e)
  {
  }

  /** `HedgeIterator::is_sound`: the next, prev, opposite and neighbour
      endpoint checks. The next, prev and neighbour checks hold in every
      structure, so the verdict is the opposite check alone. */
  function HedgeIsSound(ds: TetDs, e: Hedge): (r: Result<bool>)
    requires e.k < 3 && Readable(ds, e.tri)
    ensures r.Err? <==> OppositeE(ds, e).Err?
  {
    var first, last := FirstNode(ds, e), LastNode(ds, e);
    var o :- OppositeE(ds, e);
    var nb := NeighborE(e);
    NeighborEReverses(ds, e);
    Ok(FirstNode(ds, NextE(e)) == last &&
       LastNode(ds, PrevE(e)) == first &&
       FirstNode(ds, o) == last && LastNode(ds, o) == first &&
       FirstNode(ds, nb) == last && LastNode(ds, nb) == first)
  }

  /** The next, prev and neighbour checks of `is_sound` hold in every
      structure, so a half-edge passes exactly when its opposite runs along
      the same edge the other way. */
  lemma HedgeIsSoundMeans(ds: TetDs, e: Hedge)
    requires e.k < 3 && Readable(ds, e.tri) && HedgeIsSound(ds, e).Ok?
    ensures HedgeIsSound(ds, e).value <==>
      var o := OppositeE(ds, e).value;
      FirstNode(ds, o) == LastNode(ds, e) && LastNode(ds, o) == FirstNode(ds, e)
  {
  }

  // ---------------------------------------------------------------------
  // HalfTriIterator

  /** `hedges`: half-edges 0, 1, 2 of the half-triangle. */
  function HalfTriHedges(ht: nat): (r: seq<Hedge>)
    ensures |r| == 3 && forall e :: e in r ==> e.tri == ht && e.k < 3
    ensures r[1] == NextE(r[0]) && r[2] == NextE(r[1]) && r[0] == NextE(r[2])
  {
    [Hedge(ht, 0), Hedge(ht, 1), Hedge(ht, 2)]
  }

  /** The four nodes of tetrahedron `t`, in corner order. */
  function TetNodes(ds: TetDs, t: nat): (r: seq<VertexNode>)
    requires 4 * t + 3 < |ds.nodes|
    ensures r == ds.nodes[4 * t .. 4 * t + 4]
    ensures r == [ds.nodes[4 * t], ds.nodes[4 * t + 1], ds.nodes[4 * t + 2], ds.nodes[4 * t + 3]]
  {
    ds.nodes[4 * t .. 4 * t + 4]
  }

  /** `nodes`: the corners of the face, in the order of
      `TRIANGLE_SUBINDICES`, which are the start nodes of its half-edges. */
  function HalfTriNodes(ds: TetDs, ht: nat): (r: seq<VertexNode>)
    requires Readable(ds, ht)
    ensures |r| == 3
  {
    [FirstNode(ds, Hedge(ht, 0)), FirstNode(ds, Hedge(ht, 1)), FirstNode(ds, Hedge(ht, 2))]
  }

  /** `opposite_node`: the corner of the tetrahedron the face is opposite
      to. */
  function OppositeNode(ds: TetDs, ht: nat): (r: VertexNode)
    requires Readable(ds, ht)
    ensures r == TetNodes(ds, ht / 4)[ht % 4]
  {
    ds.nodes[ht]
  }

  /** A face lists the corners of its tetrahedron at the three positions
      other than the one it is opposite to, each once. */
  lemma HalfTriNodesOmitCorner(ds: TetDs, ht: nat)
    requires Readable(ds, ht)
    ensures var j := ht % 4; {Sub(j, 0), Sub(j, 1), Sub(j, 2), j} == {0, 1, 2, 3}
    ensures var j := ht % 4;
      HalfTriNodes(ds, ht) == [TetNodes(ds, ht / 4)[Sub(j, 0)], TetNodes(ds, ht / 4)[Sub(j, 1)], TetNodes(ds, ht / 4)[Sub(j, 2)]]
  {
    SubListsOtherCorners(ht % 4);
  }

  /** The corners of face `j` of a tetrahedron with corners `ns`. */
  function FaceOf(ns: seq<VertexNode>, j: nat): (r: seq<VertexNode>)
    requires |ns| == 4 && j < 4
    ensures |r| == 3
  {
    [ns[Sub(j, 0)], ns[Sub(j, 1)], ns[Sub(j, 2)]]
  }

  /** Face `j` of tetrahedron `t` lists the corners `FaceOf` names. */
  lemma HalfTriNodesOfTet(ds: TetDs, t: nat, j: nat)
    requires 4 * t + 3 < |ds.nodes| && j < 4
    ensures Readable(ds, 4 * t + j)
    ensures HalfTriNodes(ds, 4 * t + j) == FaceOf(TetNodes(ds, t), j)
  {
    Split4(t, j);
  }

  /** `tet`: the tetrahedron owning a half-triangle (`>> 2`). */
  function TetOf(ht: nat): (r: nat)
    ensures 4 * r <= ht < 4 * r + 4
  {
    ht / 4
  }

  /** `opposite`: the glued half-triangle; out of range reads panic. */
  function OppositeHalfTri(ds: TetDs, ht: nat): (r: Result<nat>)
    ensures r.Ok? <==> ht < |ds.opp|
    ensures r.Ok? ==> r.value == ds.opp[ht]
    ensures r.Err? ==> r.IsPanic()
  {
    if ht < |ds.opp| then Ok(ds.opp[ht]) else Crash("index out of bounds: half_tri_opposite")
  }

  /** A face is conceptual when one of its corners is the point at
      infinity. */
  predicate HalfTriIsConceptual(ds: TetDs, ht: nat)
    requires Readable(ds, ht)
  {
    exists k :: 0 <= k < 3 && IsConceptual(HalfTriNodes(ds, ht)[k])
  }

  /** The face order of the glued half-triangle seen from the other side:
      the same corners, the last two swapped. */
  function Reversed(s: seq<VertexNode>): (r: seq<VertexNode>)
    requires |s| == 3
    ensures |r| == 3 && r[0] == s[0] && r[1] == s[2] && r[2] == s[1]
  {
    [s[0], s[2], s[1]]
  }

  /** The cyclic rotation of a triple starting at position `i`. */
  function Rotated(s: seq<VertexNode>, i: nat): (r: seq<VertexNode>)
    requires |s| == 3 && i < 3
    ensures |r| == 3 && forall k :: 0 <= k < 3 ==> r[k] == s[(i + k) % 3]
  {
    [s[i], s[(i + 1) % 3], s[(i + 2) % 3]]
  }

  /** `m` lists the corners of `n` read backwards, starting anywhere. */
  predicate IsReversedCycle(n: seq<VertexNode>, m: seq<VertexNode>)
    requires |n| == 3
  {
    m == Rotated(Reversed(n), 0) || m == Rotated(Reversed(n), 1) || m == Rotated(Reversed(n), 2)
  }

  /** The three-way test of `HalfTriIterator::is_sound` says that `m` is a
      cyclic rotation of `n` read backwards. */
  lemma ReversedCycle(n: seq<VertexNode>, m: seq<VertexNode>)
    requires |n| == 3 && |m| == 3
    ensures ((n[0] == m[0] && n[1] == m[2] && n[2] == m[1]) ||
             (n[0] == m[2] && n[1] == m[1] && n[2] == m[0]) ||
             (n[0] == m[1] && n[1] == m[0] && n[2] == m[2]))
      <==> IsReversedCycle(n, m)
  {
    var rev := Reversed(n);
    assert Rotated(rev, 0) == [n[0], n[2], n[1]];
    assert Rotated(rev, 1) == [n[2], n[1], n[0]];
    assert Rotated(rev, 2) == [n[1], n[0], n[2]];
    assert m == [m[0], m[1], m[2]];
  }

  /** `HalfTriIterator::is_sound`: the glued half-triangle lists the same
      three nodes in reversed cyclic order. */
  function HalfTriIsSound(ds: TetDs, ht: nat): (r: Result<bool>)
    requires Readable(ds, ht)
    ensures r.Ok? <==> ht < |ds.opp| && Readable(ds, ds.opp[ht])
    ensures r.Err? ==> r.IsPanic()
    ensures r.Ok? ==> (r.value <==>
      IsReversedCycle(HalfTriNodes(ds, ht), HalfTriNodes(ds, ds.opp[ht])))
  {
    var o :- OppositeHalfTri(ds, ht);
    if !Readable(ds, o) then Crash("index out of bounds: tet_nodes")
    else
      var n, m := HalfTriNodes(ds, ht), HalfTriNodes(ds, o);
      ReversedCycle(n, m);
      Ok((n[0] == m[0] && n[1] == m[2] && n[2] == m[1]) ||
         (n[0] == m[2] && n[1] == m[1] && n[2] == m[0]) ||
         (n[0] == m[1] && n[1] == m[0] && n[2] == m[2]))
  }

  // ---------------------------------------------------------------------
  // TetIterator

  /** `half_triangles`: half-triangles `4t..4t+3`. */
  function TetHalfTris(t: nat): (r: seq<nat>)
    ensures |r| == 4 && forall j :: 0 <= j < 4 ==> TetOf(r[j]) == t && r[j] % 4 == j
  {
    [4 * t, 4 * t + 1, 4 * t + 2, 4 * t + 3]
  }

  /** A tetrahedron is conceptual when one of its nodes is the point at
      infinity. */
  predicate TetIsConceptual(ds: TetDs, t: nat)
    requires 4 * t + 3 < |ds.nodes|
  {
    exists c :: 0 <= c < 4 && IsConceptual(TetNodes(ds, t)[c])
  }

  predicate TetIsCasual(ds: TetDs, t: nat)
    requires 4 * t + 3 < |ds.nodes|
  {
    !TetIsConceptual(ds, t)
  }

  /** `TetIterator::is_sound`: the Bowyer-Watson flags are clear and the
      four nodes are pairwise different. */
  function TetIsSound(ds: TetDs, t: nat): bool
    requires 4 * t + 3 < |ds.nodes| && t < |ds.del| && t < |ds.keep|
  {
    var ns := TetNodes(ds, t);
    var (n0, n1, n2, n3) := (ns[0], ns[1], ns[2], ns[3]);
    if ds.del[t] || ds.keep[t] then false
    else !(n0 == n1 || n0 == n2 || n0 == n3 || n1 == n2 || n1 == n3 || n2 == n3)
  }

  /** A tetrahedron passes its own check exactly when neither flag is set
      and its four nodes are pairwise different. */
  lemma TetIsSoundMeans(ds: TetDs, t: nat)
    requires 4 * t + 3 < |ds.nodes| && t < |ds.del| && t < |ds.keep|
    ensures TetIsSound(ds, t) <==> (!ds.del[t] && !ds.keep[t] &&
      forall c, c' :: 0 <= c < c' < 4 ==> TetNodes(ds, t)[c] != TetNodes(ds, t)[c'])
  {
  }

  // ---------------------------------------------------------------------
  // TetDataStructure: lookups and the soundness check

  /** `get_half_tri`. */
  function GetHalfTri(ds: TetDs, ht: nat): (r: Result<nat>)
    ensures r.Ok? <==> ht < |ds.opp|
    ensures r.Ok? ==> r.value == ht
    ensures r.Err? ==> r.IsError()
  {
    if ht < |ds.opp| then Ok(ht) else Fail("Halftriangle value not in tetrahedron data structure")
  }

  /** `get_tet`. */
  function GetTet(ds: TetDs, t: nat): (r: Result<nat>)
    ensures r.Ok? <==> t < ds.numTets
    ensures r.Ok? ==> r.value == t
    ensures r.Err? ==> r.IsError()
  {
    if t < ds.numTets then Ok(t) else Fail("Tetrahedron value not in simplicial")
  }

  predicate AllCasual(ds: TetDs, t: nat)
    requires 4 * t + 3 < |ds.nodes|
  {
    forall c :: 0 <= c < 4 ==> TetNodes(ds, t)[c].Casual?
  }

  function CasualTets(ds: TetDs, n: nat): set<nat>
    requires 4 * n <= |ds.nodes|
  {
    set t | 0 <= t < n && AllCasual(ds, t)
  }

  /** `num_casual_tets` over the first `n` tetrahedra: the source tests
      "not conceptual and every node has an index", which is "every node
      casual". */
  function CountCasualTets(ds: TetDs, n: nat): (r: nat)
    requires 4 * n <= |ds.nodes|
    ensures r == |CasualTets(ds, n)| && r <= n
  {
    if n == 0 then 0
    else
      var t := n - 1;
      var ns := TetNodes(ds, t);
      var casual := !TetIsConceptual(ds, t) && Idx(ns[0]).Some? && Idx(ns[1]).Some? &&
        Idx(ns[2]).Some? && Idx(ns[3]).Some?;
      assert casual <==> AllCasual(ds, t) by {
        if AllCasual(ds, t) {
          assert ns[0].Casual? && ns[1].Casual? && ns[2].Casual? && ns[3].Casual?;
        }
      }
      assert CasualTets(ds, n) == CasualTets(ds, t) + (if casual then {t} else {});
      CountCasualTets(ds, t) + (if casual then 1 else 0)
  }

  function NumCasualTets(ds: TetDs): (r: nat)
    requires Sized(ds)
    ensures r == |CasualTets(ds, ds.numTets)| && r <= ds.numTets
  {
    CountCasualTets(ds, ds.numTets)
  }

  /** All checks of one face, in source order, stopping at the first that
      fails: the face check, then its three half-edges. */
  function FaceSound(ds: TetDs, ht: nat): (r: Result<bool>)
    requires Readable(ds, ht)
    ensures r.Err? <==> HalfTriIsSound(ds, ht).Err?
  {
    // Once the face check has read the glued half-triangle, the half-edge
    // checks read the same entry and cannot panic.
    var f :- HalfTriIsSound(ds, ht);
    if !f then Ok(false)
    else if !HedgeIsSound(ds, Hedge(ht, 0)).value then Ok(false)
    else if !HedgeIsSound(ds, Hedge(ht, 1)).value then Ok(false)
    else HedgeIsSound(ds, Hedge(ht, 2))
  }

  /** A face passes when its own check and its three half-edge checks do. */
  lemma FaceSoundMeans(ds: TetDs, ht: nat)
    requires Readable(ds, ht)
    ensures FaceSound(ds, ht) == Ok(true) <==> (HalfTriIsSound(ds, ht) == Ok(true) &&
      HedgeIsSound(ds, Hedge(ht, 0)) == Ok(true) && HedgeIsSound(ds, Hedge(ht, 1)) == Ok(true) &&
      HedgeIsSound(ds, Hedge(ht, 2)) == Ok(true))
  {
  }

  /** Three pairwise different nodes. */
  predicate Distinct3(n: seq<VertexNode>)
    requires |n| == 3
  {
    n[0] != n[1] && n[1] != n[2] && n[0] != n[2]
  }

  /** In a reversed cycle of three different nodes, the node that follows
      `n[k]` in `n` is followed by `n[k]` in `m`. */
  lemma ReversedCycleStep(n: seq<VertexNode>, m: seq<VertexNode>, k: nat, k': nat)
    requires |n| == 3 && |m| == 3 && Distinct3(n) && IsReversedCycle(n, m) && k < 3 && k' < 3
    requires m[k'] == n[(k + 1) % 3]
    ensures m[(k' + 1) % 3] == n[k]
  {
    ReversedCycle(n, m);
    var k1, k1' := (k + 1) % 3, (k' + 1) % 3;
    assert k1 == if k == 2 then 0 else k + 1;
    assert k1' == if k' == 2 then 0 else k' + 1;
  }

  /** A reversed cycle lists every node of the original. */
  lemma ReversedCycleHas(n: seq<VertexNode>, m: seq<VertexNode>, k: nat)
    requires |n| == 3 && |m| == 3 && IsReversedCycle(n, m) && k < 3
    ensures m[0] == n[k] || m[1] == n[k] || m[2] == n[k]
  {
    var rev := Reversed(n);
    assert Rotated(rev, 0) == [n[0], n[2], n[1]];
    assert Rotated(rev, 1) == [n[2], n[1], n[0]];
    assert Rotated(rev, 2) == [n[1], n[0], n[2]];
  }

  /** A half-edge of a face glued to a face listing the same three
      different corners backwards passes its check. */
  lemma ReversedHedgeSound(ds: TetDs, ht: nat, k: nat)
    requires Readable(ds, ht) && ht < |ds.opp| && Readable(ds, ds.opp[ht]) && k < 3
    requires Distinct3(HalfTriNodes(ds, ht))
    requires IsReversedCycle(HalfTriNodes(ds, ht), HalfTriNodes(ds, ds.opp[ht]))
    ensures HedgeIsSound(ds, Hedge(ht, k)) == Ok(true)
  {
    var e := Hedge(ht, k);
    var n, m := HalfTriNodes(ds, ht), HalfTriNodes(ds, ds.opp[ht]);
    var o := OppositeE(ds, e).value;
    assert LastNode(ds, e) == n[(k + 1) % 3];
    OppositeEMatches(ds, e);
    ReversedCycleHas(n, m, (k + 1) % 3);
    assert FirstNode(ds, o) == m[o.k];
    assert FirstNode(ds, o) == LastNode(ds, e);
    ReversedCycleStep(n, m, k, o.k);
    assert LastNode(ds, o) == m[(o.k + 1) % 3];
    HedgeIsSoundMeans(ds, e);
  }

  /** A face glued to a face listing the same three different corners
      backwards passes its own check and those of its half-edges. */
  lemma ReversedFaceSound(ds: TetDs, ht: nat)
    requires Readable(ds, ht) && ht < |ds.opp| && Readable(ds, ds.opp[ht])
    requires Distinct3(HalfTriNodes(ds, ht))
    requires IsReversedCycle(HalfTriNodes(ds, ht), HalfTriNodes(ds, ds.opp[ht]))
    ensures FaceSound(ds, ht) == Ok(true)
  {
    ReversedHedgeSound(ds, ht, 0);
    ReversedHedgeSound(ds, ht, 1);
    ReversedHedgeSound(ds, ht, 2);
    FaceSoundMeans(ds, ht);
  }

  /** The checks of face `j` of tetrahedron `t`. */
  function TetFaceSound(ds: TetDs, t: nat, j: nat): (r: Result<bool>)
    requires 4 * t + 3 < |ds.nodes| && j < 4
  {
    Split4(t, j);
    FaceSound(ds, 4 * t + j)
  }

  /** Every check of tetrahedron `t`, stopping at the first that fails. */
  function TetAllSound(ds: TetDs, t: nat): Result<bool>
    requires Sized(ds) && t < ds.numTets
  {
    if !TetIsSound(ds, t) then Ok(false)
    else
      var f0 :- TetFaceSound(ds, t, 0);
      if !f0 then Ok(false)
      else
        var f1 :- TetFaceSound(ds, t, 1);
        if !f1 then Ok(false)
        else
          var f2 :- TetFaceSound(ds, t, 2);
          if !f2 then Ok(false)
          else TetFaceSound(ds, t, 3)
  }

  /** A tetrahedron passes when its flags are clear, its nodes differ, and
      each of its faces passes. */
  lemma TetAllSoundMeans(ds: TetDs, t: nat)
    requires Sized(ds) && t < ds.numTets
    ensures TetAllSound(ds, t) == Ok(true) <==> (TetIsSound(ds, t) &&
      TetFaceSound(ds, t, 0) == Ok(true) && TetFaceSound(ds, t, 1) == Ok(true) &&
      TetFaceSound(ds, t, 2) == Ok(true) && TetFaceSound(ds, t, 3) == Ok(true))
  {
  }

  /** The loop of `is_sound` from tetrahedron `t` on. */
  function SoundFrom(ds: TetDs, t: nat): (r: Result<bool>)
    requires Sized(ds) && t <= ds.numTets
    ensures r == Ok(true) <==> forall u :: t <= u < ds.numTets ==> TetAllSound(ds, u) == Ok(true)
    decreases ds.numTets - t
  {
    if t == ds.numTets then Ok(true)
    else
      var s :- TetAllSound(ds, t);
      if !s then Ok(false) else SoundFrom(ds, t + 1)
  }

  /** `is_sound`: every tetrahedron, face and half-edge passes its check. */
  function IsSound(ds: TetDs): (r: Result<bool>)
    requires Sized(ds)
    ensures r == Ok(true) <==> forall t :: 0 <= t < ds.numTets ==> TetAllSound(ds, t) == Ok(true)
  {
    SoundFrom(ds, 0)
  }
}
