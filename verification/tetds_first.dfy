/** `insert_first_tet`: the first tetrahedron of a 3D structure together
    with the four conceptual tetrahedra that close it off against the point
    at infinity, glued into a closed complex of five tetrahedra. */
module TetFirst {
  import opened Base
  import opened Node
  import opened TetTables
  import opened TetDs
  import opened TetOps

  /** The five tetrahedra of `insert_first_tet`, as corner lists: the
      finite one, then one conceptual tetrahedron per face of it. */
  function FirstTets(a: VertexNode, b: VertexNode, c: VertexNode, d: VertexNode): seq<seq<VertexNode>> {
    [[a, b, c, d], [b, c, d, Conceptual], [a, d, c, Conceptual], [a, b, d, Conceptual], [a, c, b, Conceptual]]
  }

  /** The glue table: half-triangle `k` of the five new tetrahedra sees
      half-triangle `FIRST_OPP[k]`, counted from the first new corner. */
  const FIRST_OPP: seq<nat> := [7, 11, 15, 19, 8, 12, 16, 0, 4, 18, 13, 1, 5, 10, 17, 2, 6, 14, 9, 3]

  /** The twenty opposites pushed by `insert_first_tet`, written with the
      first-corner indices `i0 .. i4` that the five `insert_tet` calls
      return. */
  function FirstGlue(i0: nat, i1: nat, i2: nat, i3: nat, i4: nat): seq<nat> {
    [i1 + 3, i2 + 3, i3 + 3, i4 + 3, i2, i3, i4, i0, i1, i4 + 2,
     i3 + 1, i0 + 1, i1 + 1, i2 + 2, i4 + 1, i0 + 2, i1 + 2, i3 + 2, i2 + 1, i0 + 3]
  }

  /** `insert_first_tet`: refused when the structure already holds
      tetrahedra; otherwise appends the five tetrahedra and their opposites
      and returns the first four tetrahedron indices. */
  function InsertFirstTet(ds: TetDs, idx: seq<nat>): (r: Result<(TetDs, seq<nat>)>)
    requires |idx| == 4
    ensures r.Err? <==> ds.numTets != 0
    ensures r.Err? ==> r.IsError()
    ensures r.Ok? ==> r.value.1 == [0, 1, 2, 3] && r.value.0.numTets == 5
    ensures r.Ok? ==> |r.value.0.nodes| == |ds.nodes| + 20 && |r.value.0.opp| == |ds.opp| + 20
    ensures r.Ok? ==> (r.value.0.toDel == ds.toDel && r.value.0.toKeep == ds.toKeep &&
      r.value.0.toCheck == ds.toCheck)
  {
    if ds.numTets != 0 then Fail("Already tetrahedra in simplicial")
    else
      var (n0, n1, n2, n3) := (Casual(idx[0]), Casual(idx[1]), Casual(idx[2]), Casual(idx[3]));
      var ts := FirstTets(n0, n1, n2, n3);
      // The five `insert_tet` calls append their corners and clear flags;
      // the k-th returns first corner `i + 4k`.
      var i := |ds.nodes|;
      var nodes := ds.nodes + ts[0] + ts[1] + ts[2] + ts[3] + ts[4];
      var flags := [false, false, false, false, false];
      Ok((ds.(nodes := nodes, del := ds.del + flags, keep := ds.keep + flags, numTets := 5,
              opp := ds.opp + FirstGlue(i, i + 4, i + 8, i + 12, i + 16)),
          [ds.numTets, ds.numTets + 1, ds.numTets + 2, ds.numTets + 3]))
  }

  /** On an empty structure the glue is exactly the table. */
  lemma FirstGlueIsTable()
    ensures FirstGlue(0, 4, 8, 12, 16) == FIRST_OPP
  {
  }

  /** The table is an involution without fixed points that never glues a
      tetrahedron to itself. */
  lemma FirstOppInvolution(k: nat)
    requires k < 20
    ensures FIRST_OPP[k] < 20 && FIRST_OPP[FIRST_OPP[k]] == k && TetOf(FIRST_OPP[k]) != TetOf(k)
  {
    if k < 10 {
      if k == 0 {} else if k == 1 {} else if k == 2 {} else if k == 3 {} else if k == 4 {}
      else if k == 5 {} else if k == 6 {} else if k == 7 {} else if k == 8 {} else {}
    } else {
      if k == 10 {} else if k == 11 {} else if k == 12 {} else if k == 13 {} else if k == 14 {}
      else if k == 15 {} else if k == 16 {} else if k == 17 {} else if k == 18 {} else {}
    }
  }

  /** The structure `insert_first_tet` builds from an empty one. */
  predicate IsFirst(ds: TetDs, a: VertexNode, b: VertexNode, c: VertexNode, d: VertexNode) {
    Sized(ds) && ds.numTets == 5 && Tets(ds) == FirstTets(a, b, c, d) &&
    ds.opp == FIRST_OPP &&
    ds.del == [false, false, false, false, false] && ds.keep == [false, false, false, false, false]
  }

  /** From a well-shaped empty structure, `insert_first_tet` succeeds and
      builds the five tetrahedra with the glue of the table. */
  lemma InsertFirstTetShape(ds: TetDs, idx: seq<nat>)
    requires |idx| == 4 && Sized(ds) && ds.numTets == 0
    ensures InsertFirstTet(ds, idx).Ok?
    ensures IsFirst(InsertFirstTet(ds, idx).value.0, Casual(idx[0]), Casual(idx[1]), Casual(idx[2]), Casual(idx[3]))
  {
    var r := InsertFirstTet(ds, idx).value.0;
    FirstGlueIsTable();
    var ts := FirstTets(Casual(idx[0]), Casual(idx[1]), Casual(idx[2]), Casual(idx[3]));
    assert r.nodes == ts[0] + ts[1] + ts[2] + ts[3] + ts[4];
    forall t | 0 <= t < 5 ensures Tets(r)[t] == ts[t] {
      assert TetNodes(r, t) == r.nodes[4 * t .. 4 * t + 4];
    }
  }

  /** Four pairwise different nodes, none of them the point at infinity. */
  predicate DistinctCasual(a: VertexNode, b: VertexNode, c: VertexNode, d: VertexNode) {
    a.Casual? && b.Casual? && c.Casual? && d.Casual? &&
    a != b && a != c && a != d && b != c && b != d && c != d
  }

  /** Face `j` of tetrahedron `t` of the first complex and the face the
      table glues it to list the same three different corners backwards. */
  predicate FirstFaceFits(a: VertexNode, b: VertexNode, c: VertexNode, d: VertexNode, t: nat, j: nat)
    requires t < 5 && j < 4
  {
    var o := FIRST_OPP[4 * t + j];
    var ts := FirstTets(a, b, c, d);
    o / 4 < 5 &&
    Distinct3(FaceOf(ts[t], j)) && IsReversedCycle(FaceOf(ts[t], j), FaceOf(ts[o / 4], o % 4))
  }

  lemma FirstFacesFit0(a: VertexNode, b: VertexNode, c: VertexNode, d: VertexNode, j: nat)
    requires DistinctCasual(a, b, c, d) && j < 4
    ensures FirstFaceFits(a, b, c, d, 0, j)
  {
    if j == 0 {} else if j == 1 {} else if j == 2 {} else {}
  }

  lemma FirstFacesFit1(a: VertexNode, b: VertexNode, c: VertexNode, d: VertexNode, j: nat)
    requires DistinctCasual(a, b, c, d) && j < 4
    ensures FirstFaceFits(a, b, c, d, 1, j)
  {
    if j == 0 {} else if j == 1 {} else if j == 2 {} else {}
  }

  lemma FirstFacesFit2(a: VertexNode, b: VertexNode, c: VertexNode, d: VertexNode, j: nat)
    requires DistinctCasual(a, b, c, d) && j < 4
    ensures FirstFaceFits(a, b, c, d, 2, j)
  {
    if j == 0 {} else if j == 1 {} else if j == 2 {} else {}
  }

  lemma FirstFacesFit3(a: VertexNode, b: VertexNode, c: VertexNode, d: VertexNode, j: nat)
    requires DistinctCasual(a, b, c, d) && j < 4
    ensures FirstFaceFits(a, b, c, d, 3, j)
  {
    if j == 0 {} else if j == 1 {} else if j == 2 {} else {}
  }

  lemma FirstFacesFit4(a: VertexNode, b: VertexNode, c: VertexNode, d: VertexNode, j: nat)
    requires DistinctCasual(a, b, c, d) && j < 4
    ensures FirstFaceFits(a, b, c, d, 4, j)
  {
    if j == 0 {} else if j == 1 {} else if j == 2 {} else {}
  }

  /** Every face of the first complex is glued to a face listing its three
      different corners backwards. */
  lemma FirstFacesFit(a: VertexNode, b: VertexNode, c: VertexNode, d: VertexNode, t: nat, j: nat)
    requires DistinctCasual(a, b, c, d) && t < 5 && j < 4
    ensures FirstFaceFits(a, b, c, d, t, j)
  {
    if t == 0 { FirstFacesFit0(a, b, c, d, j); }
    else if t == 1 { FirstFacesFit1(a, b, c, d, j); }
    else if t == 2 { FirstFacesFit2(a, b, c, d, j); }
    else if t == 3 { FirstFacesFit3(a, b, c, d, j); }
    else { FirstFacesFit4(a, b, c, d, j); }
  }

  /** Each face of the first complex passes its checks. */
  lemma FirstFaceSound(ds: TetDs, a: VertexNode, b: VertexNode, c: VertexNode, d: VertexNode, t: nat, j: nat)
    requires IsFirst(ds, a, b, c, d) && DistinctCasual(a, b, c, d) && t < 5 && j < 4
    ensures TetFaceSound(ds, t, j) == Ok(true)
  {
    var ht := 4 * t + j;
    FirstFacesFit(a, b, c, d, t, j);
    FirstOppInvolution(ht);
    var o := FIRST_OPP[ht];
    var ts := FirstTets(a, b, c, d);
    assert 4 * (o / 4) + o % 4 == o;
    HalfTriNodesOfTet(ds, t, j);
    HalfTriNodesOfTet(ds, o / 4, o % 4);
    assert TetNodes(ds, t) == Tets(ds)[t] == ts[t];
    assert TetNodes(ds, o / 4) == Tets(ds)[o / 4] == ts[o / 4];
    ReversedFaceSound(ds, ht);
  }

  /** Each tetrahedron of the first complex passes every check. */
  lemma FirstTetSound(ds: TetDs, a: VertexNode, b: VertexNode, c: VertexNode, d: VertexNode, t: nat)
    requires IsFirst(ds, a, b, c, d) && DistinctCasual(a, b, c, d) && t < 5
    ensures TetAllSound(ds, t) == Ok(true)
  {
    assert TetNodes(ds, t) == Tets(ds)[t] == FirstTets(a, b, c, d)[t];
    assert TetIsSound(ds, t) by {
      if t == 0 {} else if t == 1 {} else if t == 2 {} else if t == 3 {} else {}
    }
    FirstFaceSound(ds, a, b, c, d, t, 0);
    FirstFaceSound(ds, a, b, c, d, t, 1);
    FirstFaceSound(ds, a, b, c, d, t, 2);
    FirstFaceSound(ds, a, b, c, d, t, 3);
    TetAllSoundMeans(ds, t);
  }

  /** `insert_first_tet` on an empty structure with four different vertex
      indices builds a complex that passes `is_sound`. */
  lemma InsertFirstTetSound(ds: TetDs, idx: seq<nat>)
    requires |idx| == 4 && Sized(ds) && ds.numTets == 0
    requires idx[0] != idx[1] && idx[0] != idx[2] && idx[0] != idx[3]
    requires idx[1] != idx[2] && idx[1] != idx[3] && idx[2] != idx[3]
    ensures InsertFirstTet(ds, idx).Ok?
    ensures IsSound(InsertFirstTet(ds, idx).value.0) == Ok(true)
  {
    InsertFirstTetShape(ds, idx);
    var r := InsertFirstTet(ds, idx).value.0;
    var (a, b, c, d) := (Casual(idx[0]), Casual(idx[1]), Casual(idx[2]), Casual(idx[3]));
    forall t | 0 <= t < r.numTets ensures TetAllSound(r, t) == Ok(true) {
      FirstTetSound(r, a, b, c, d, t);
    }
  }
}
