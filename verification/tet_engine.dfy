/** The insertion engine of the 3D weighted Delaunay tetrahedralization
    (`Tetrahedralization`): reading a tetrahedron with the point at infinity
    as a hull triangle, the sphere tests, locating a vertex by a visibility
    walk or by a full scan, the epsilon and redundancy filters, Bowyer-Watson
    insertion through the cavity bookkeeping of `TetDs`, the first
    tetrahedron and the batch driver. The geometric predicates are foreign
    exact-arithmetic code and enter as sign functions. */
module TetEngine {
  import opened Base
  import opened Node
  import opened Geometry
  import opened WeightStore
  import opened TetTables
  import opened TetDs
  import opened TetOps
  import TetFirst
  import TetBw
  import Hilbert

  /** `in_sphere_3d_SOS(a, b, c, d, p)`. */
  type InSphere3 = (Pt3, Pt3, Pt3, Pt3, Pt3) -> Sign

  /** `orient_3dlifted_SOS(a, b, c, d, p, h_a, h_b, h_c, h_d, h_p)`: the
      power-sphere test on heights. */
  type Lifted3 = (Pt3, Pt3, Pt3, Pt3, Pt3, real, real, real, real, real) -> Sign

  datatype Preds3 = Preds3(orient: Orient3, inSphere: InSphere3, lifted: Lifted3)

  /** The fields of `Tetrahedralization`: epsilon, the data structure, the
      vertex list, the weight store and the used / ignored vertex lists. */
  datatype Tet3 = Tet3(eps: Option<real>, tds: TetDs, vertices: seq<Pt3>, weights: Weights,
                       used: seq<nat>, ignored: seq<nat>)

  /** `ExtendedTetrahedron`, holding vertex indices: a finite tetrahedron, or
      the hull triangle of a tetrahedron whose fourth corner is the point at
      infinity. */
  datatype TetExt = Tetrahedron(i0: nat, i1: nat, i2: nat, i3: nat) | Triangle(j0: nat, j1: nat, j2: nat)

  /** `new(epsilon)`: empty and unweighted, in the layout of either copy. */
  function New(eps: Option<real>, earlier: bool): Tet3 {
    Tet3(eps, Empty(), [], if earlier then Flagged([], false) else Optional(None), [], [])
  }

  predicate Weighted(st: Tet3) {
    WeightedStore(st.weights)
  }

  function SqNorm(p: Pt3): real {
    p.x * p.x + p.y * p.y + p.z * p.z
  }

  /** `height`: the squared norm minus the weight; indexing the vertices or
      the stored weights past their end panics. */
  function Height(st: Tet3, i: nat): (r: Result<real>)
    ensures r.Err? ==> r.IsPanic()
    ensures r.Ok? <==> i < |st.vertices| && WeightOf(st.weights, i).Ok?
    ensures r.Ok? ==> r.value == SqNorm(st.vertices[i]) - WeightOf(st.weights, i).value
  {
    if i >= |st.vertices| then Crash("index out of bounds: vertices")
    else
      var w :- WeightOf(st.weights, i);
      Ok(SqNorm(st.vertices[i]) - w)
  }

  /** Reading `vertices[i]`. */
  function PointAt(vs: seq<Pt3>, i: nat): (r: Result<Pt3>)
    ensures r.Ok? <==> i < |vs|
    ensures r.Ok? ==> r.value == vs[i]
    ensures r.Err? ==> r.IsPanic()
  {
    if i < |vs| then Ok(vs[i]) else Crash("index out of bounds: vertices")
  }

  // ---------------------------------------------------------------------
  // Reading a tetrahedron

  /** The tetrahedron exists and its four nodes can be read. */
  predicate TetOk(ds: TetDs, t: nat) {
    t < ds.numTets && 4 * t + 3 < |ds.nodes|
  }

  /** `get_tet(t)?.nodes()`: an error past the tetrahedron count, a panic
      when the node array is shorter than the count claims. */
  function NodesOf(ds: TetDs, t: nat): (r: Result<seq<VertexNode>>)
    ensures r.Ok? <==> TetOk(ds, t)
    ensures t >= ds.numTets ==> r.IsError()
    ensures t < ds.numTets && r.Err? ==> r.IsPanic()
    ensures r.Ok? ==> r.value == TetNodes(ds, t)
  {
    var _ :- GetTet(ds, t);
    if 4 * t + 3 < |ds.nodes| then Ok(TetNodes(ds, t)) else Crash("index out of bounds: tet_nodes")
  }

  predicate AllCasual4(ns: seq<VertexNode>)
    requires |ns| == 4
  {
    forall k :: 0 <= k < 4 ==> ns[k].Casual?
  }

  /** Corner `j` is the point at infinity and the other three are vertices. */
  predicate OnlyConceptualAt(ns: seq<VertexNode>, j: nat)
    requires |ns| == 4 && j < 4
  {
    ns[j].Conceptual? && forall k :: 0 <= k < 4 && k != j ==> ns[k].Casual?
  }

  /** The node patterns `get_tet_as_extended` matches. */
  predicate KnownShape(ns: seq<VertexNode>)
    requires |ns| == 4
  {
    AllCasual4(ns) || OnlyConceptualAt(ns, 0) || OnlyConceptualAt(ns, 1) ||
    OnlyConceptualAt(ns, 2) || OnlyConceptualAt(ns, 3)
  }

  /** Every vertex index of an extended tetrahedron names one of `n`
      vertices. */
  predicate ExtIn(x: TetExt, n: nat) {
    match x
    case Tetrahedron(a, b, c, d) => a < n && b < n && c < n && d < n
    case Triangle(a, b, c) => a < n && b < n && c < n
  }

  /** The hull triangle of a tetrahedron whose corner `j` is the point at
      infinity: its face `j`, in `TRIANGLE_SUBINDICES` order. */
  function HullFace(ns: seq<VertexNode>, j: nat, n: nat): (r: Result<TetExt>)
    requires |ns| == 4 && j < 4 && OnlyConceptualAt(ns, j)
    ensures r.Ok? <==> IndicesIn(ns, n)
    ensures r.Err? ==> r.IsPanic()
    ensures r.Ok? ==> ExtIn(r.value, n)
    ensures r.Ok? ==> r.value == Triangle(ns[Sub(j, 0)].index, ns[Sub(j, 1)].index, ns[Sub(j, 2)].index)
  {
    SubListsOtherCorners(j);
    var (a, b, c) := (ns[Sub(j, 0)], ns[Sub(j, 1)], ns[Sub(j, 2)]);
    assert forall k :: 0 <= k < 4 && k != j ==> k in {Sub(j, 0), Sub(j, 1), Sub(j, 2), j} - {j};
    if a.index < n && b.index < n && c.index < n then Ok(Triangle(a.index, b.index, c.index))
    else Crash("index out of bounds: vertices")
  }

  /** The match of `get_tet_as_extended` on four nodes: four vertices give a
      tetrahedron, the point at infinity at one corner gives the opposite
      face, and any other pattern is refused. */
  function ShapeOf(ns: seq<VertexNode>, n: nat): (r: Result<TetExt>)
    requires |ns| == 4
    ensures r.Ok? <==> KnownShape(ns) && IndicesIn(ns, n)
    ensures !KnownShape(ns) ==> r.IsError()
    ensures KnownShape(ns) && r.Err? ==> r.IsPanic()
    ensures r.Ok? ==> ExtIn(r.value, n)
    ensures r.Ok? ==> (r.value.Tetrahedron? <==> AllCasual4(ns))
    ensures r.Ok? && AllCasual4(ns) ==> r.value == Tetrahedron(ns[0].index, ns[1].index, ns[2].index, ns[3].index)
    ensures forall j :: 0 <= j < 4 && r.Ok? && OnlyConceptualAt(ns, j) ==>
      r.value == Triangle(ns[Sub(j, 0)].index, ns[Sub(j, 1)].index, ns[Sub(j, 2)].index)
  {
    if AllCasual4(ns) then
      if ns[0].index < n && ns[1].index < n && ns[2].index < n && ns[3].index < n then
        Ok(Tetrahedron(ns[0].index, ns[1].index, ns[2].index, ns[3].index))
      else Crash("index out of bounds: vertices")
    else if OnlyConceptualAt(ns, 0) then HullFace(ns, 0, n)
    else if OnlyConceptualAt(ns, 1) then HullFace(ns, 1, n)
    else if OnlyConceptualAt(ns, 2) then HullFace(ns, 2, n)
    else if OnlyConceptualAt(ns, 3) then HullFace(ns, 3, n)
    else Fail("Case should not happen")
  }

  /** `get_tet_as_extended`. */
  function GetTetAsExtended(st: Tet3, t: nat): (r: Result<TetExt>)
    ensures t >= st.tds.numTets ==> r.IsError()
    ensures r.Ok? ==> TetOk(st.tds, t) && IndicesIn(TetNodes(st.tds, t), |st.vertices|) && ExtIn(r.value, |st.vertices|)
    ensures TetOk(st.tds, t) ==> r == ShapeOf(TetNodes(st.tds, t), |st.vertices|)
  {
    var ns :- NodesOf(st.tds, t);
    ShapeOf(ns, |st.vertices|)
  }

  /** A tetrahedron reads as a hull triangle exactly when one of its corners
      is the point at infinity. */
  lemma ExtendedTriangleIffConceptual(st: Tet3, t: nat)
    requires GetTetAsExtended(st, t).Ok?
    ensures TetOk(st.tds, t)
    ensures GetTetAsExtended(st, t).value.Triangle? <==> TetIsConceptual(st.tds, t)
  {
    var ns := TetNodes(st.tds, t);
    if GetTetAsExtended(st, t).value.Triangle? {
      assert !AllCasual4(ns);
      var k :| 0 <= k < 4 && !ns[k].Casual?;
      assert KnownShape(ns);
      assert IsConceptual(ns[k]);
    }
  }

  // ---------------------------------------------------------------------
  // Sphere tests

  /** The verdict of a sign: strictly positive, or non-negative. */
  predicate Accepts(sign: int, strict: bool) {
    if strict then sign > 0 else sign >= 0
  }

  /** `is_v_in_sphere`: inside the circumsphere of a finite tetrahedron
      (the negated `in_sphere_3d_SOS`), or on the outer side of a hull
      triangle (the negated orientation). */
  function InSphere(st: Tet3, preds: Preds3, v: nat, t: nat, strict: bool): (r: Result<bool>)
    ensures v >= |st.vertices| ==> r.IsPanic()
    ensures v < |st.vertices| ==> (r.Ok? <==> GetTetAsExtended(st, t).Ok?)
    ensures v < |st.vertices| && r.Err? ==> r == GetTetAsExtended(st, t).PropagateFailure()
    ensures r.Ok? ==> v < |st.vertices| && (var x, vs := GetTetAsExtended(st, t).value, st.vertices;
      (x.Tetrahedron? ==> (r.value <==> Accepts(-preds.inSphere(vs[x.i0], vs[x.i1], vs[x.i2], vs[x.i3], vs[v]), strict))) &&
      (x.Triangle? ==> (r.value <==> Accepts(-preds.orient(vs[x.j0], vs[x.j1], vs[x.j2], vs[v]), strict))))
  {
    var p :- PointAt(st.vertices, v);
    var x :- GetTetAsExtended(st, t);
    var vs := st.vertices;
    match x
    case Tetrahedron(a, b, c, d) => Ok(Accepts(-preds.inSphere(vs[a], vs[b], vs[c], vs[d], p), strict))
    case Triangle(a, b, c) => Ok(Accepts(-preds.orient(vs[a], vs[b], vs[c], p), strict))
  }

  /** A strict acceptance is also a non-strict one. */
  lemma InSphereStrictImpliesLoose(st: Tet3, preds: Preds3, v: nat, t: nat)
    requires InSphere(st, preds, v, t, true) == Ok(true)
    ensures InSphere(st, preds, v, t, false) == Ok(true)
  {
  }

  /** The heights of the four corners of a finite tetrahedron can all be
      computed. */
  predicate CornersWeighed(st: Tet3, x: TetExt) {
    x.Tetrahedron? ==> Height(st, x.i0).Ok? && Height(st, x.i1).Ok? && Height(st, x.i2).Ok? && Height(st, x.i3).Ok?
  }

  /** The lifted test of a finite tetrahedron, with the corner heights read
      in corner order. */
  function PowerSign(st: Tet3, lifted: Lifted3, x: TetExt, p: Pt3, hp: real): (r: Result<int>)
    requires x.Tetrahedron? && ExtIn(x, |st.vertices|)
    ensures r.Ok? <==> CornersWeighed(st, x)
    ensures r.Err? ==> r.IsPanic()
    ensures r.Ok? ==> (var vs := st.vertices;
      r.value == lifted(vs[x.i0], vs[x.i1], vs[x.i2], vs[x.i3], p,
        Height(st, x.i0).value, Height(st, x.i1).value, Height(st, x.i2).value, Height(st, x.i3).value, hp))
  {
    var ha :- Height(st, x.i0);
    var hb :- Height(st, x.i1);
    var hc :- Height(st, x.i2);
    var hd :- Height(st, x.i3);
    var vs := st.vertices;
    Ok(lifted(vs[x.i0], vs[x.i1], vs[x.i2], vs[x.i3], p, ha, hb, hc, hd, hp))
  }

  /** `is_v_in_powersphere`: the lifted test on heights for a finite
      tetrahedron, the negated orientation for a hull triangle. The height of
      the vertex is computed before the tetrahedron is read. */
  function InPowerSphere(st: Tet3, preds: Preds3, v: nat, t: nat, strict: bool): (r: Result<bool>)
    ensures Height(st, v).Err? ==> r.IsPanic()
    ensures Height(st, v).Ok? ==> (r.Ok? <==> (GetTetAsExtended(st, t).Ok? &&
      CornersWeighed(st, GetTetAsExtended(st, t).value)))
    ensures Height(st, v).Ok? && GetTetAsExtended(st, t).Err? ==> r == GetTetAsExtended(st, t).PropagateFailure()
    ensures r.Ok? ==> Height(st, v).Ok? && (var x, vs := GetTetAsExtended(st, t).value, st.vertices;
      (x.Tetrahedron? ==> (r.value <==> Accepts(preds.lifted(vs[x.i0], vs[x.i1], vs[x.i2], vs[x.i3], vs[v],
        Height(st, x.i0).value, Height(st, x.i1).value, Height(st, x.i2).value, Height(st, x.i3).value,
        Height(st, v).value), strict))) &&
      (x.Triangle? ==> (r.value <==> Accepts(-preds.orient(vs[x.j0], vs[x.j1], vs[x.j2], vs[v]), strict))))
  {
    var p :- PointAt(st.vertices, v);
    var hp :- Height(st, v);
    var x :- GetTetAsExtended(st, t);
    var vs := st.vertices;
    match x
    case Tetrahedron(_, _, _, _) =>
      var s :- PowerSign(st, preds.lifted, x, p, hp);
      Ok(Accepts(s, strict))
    case Triangle(a, b, c) => Ok(Accepts(-preds.orient(vs[a], vs[b], vs[c], p), strict))
  }

  /** On a hull triangle, the power-sphere test and the sphere test agree:
      both are the orientation against the hull face. */
  lemma HullTestsAgree(st: Tet3, preds: Preds3, v: nat, t: nat, strict: bool)
    requires Height(st, v).Ok? && GetTetAsExtended(st, t).Ok? && TetIsConceptual(st.tds, t)
    ensures InPowerSphere(st, preds, v, t, strict) == InSphere(st, preds, v, t, strict)
  {
    ExtendedTriangleIffConceptual(st, t);
  }

  /** `is_v_in_eps_powersphere`: the lifted test with the height of the
      vertex raised by epsilon, strictly; it panics without an epsilon and
      refuses hull triangles. */
  function InEpsPowerSphere(st: Tet3, preds: Preds3, v: nat, t: nat): (r: Result<bool>)
    ensures v < |st.vertices| && st.eps.None? ==> r.IsPanic()
    ensures r.Ok? ==> (st.eps.Some? && Height(st, v).Ok? && GetTetAsExtended(st, t).Ok? &&
      GetTetAsExtended(st, t).value.Tetrahedron? && CornersWeighed(st, GetTetAsExtended(st, t).value))
    ensures r.Ok? ==> (var x, vs := GetTetAsExtended(st, t).value, st.vertices;
      r.value <==> preds.lifted(vs[x.i0], vs[x.i1], vs[x.i2], vs[x.i3], vs[v],
        Height(st, x.i0).value, Height(st, x.i1).value, Height(st, x.i2).value, Height(st, x.i3).value,
        Height(st, v).value + st.eps.value) > 0)
    ensures (st.eps.Some? && Height(st, v).Ok? && GetTetAsExtended(st, t).Ok? &&
      GetTetAsExtended(st, t).value.Triangle?) ==> r.IsError()
  {
    var p :- PointAt(st.vertices, v);
    if st.eps.None? then Crash("Epsilon not set!")
    else
      var h :- Height(st, v);
      var x :- GetTetAsExtended(st, t);
      match x
      case Tetrahedron(_, _, _, _) =>
        var s :- PowerSign(st, preds.lifted, x, p, h + st.eps.value);
        Ok(s > 0)
      case Triangle(_, _, _) => Fail("Epsilon power circle test not allowed for conceptual triangles yet!")
  }

  /** The epsilon test never accepts a tetrahedron with the point at
      infinity. */
  lemma EpsTestRefusesHull(st: Tet3, preds: Preds3, v: nat, t: nat)
    requires InEpsPowerSphere(st, preds, v, t).Ok?
    ensures TetOk(st.tds, t) && !TetIsConceptual(st.tds, t)
  {
    ExtendedTriangleIffConceptual(st, t);
  }

  /** `is_tet_flat`: a finite tetrahedron whose corners have orientation
      zero; hull triangles are never flat. */
  function IsTetFlat(st: Tet3, orient: Orient3, t: nat): (r: Result<bool>)
    ensures r.Ok? <==> GetTetAsExtended(st, t).Ok?
    ensures r.Err? ==> r == GetTetAsExtended(st, t).PropagateFailure()
    ensures r.Ok? ==> (var x, vs := GetTetAsExtended(st, t).value, st.vertices;
      r.value <==> x.Tetrahedron? && orient(vs[x.i0], vs[x.i1], vs[x.i2], vs[x.i3]) == 0)
  {
    var x :- GetTetAsExtended(st, t);
    var vs := st.vertices;
    match x
    case Tetrahedron(a, b, c, d) => Ok(orient(vs[a], vs[b], vs[c], vs[d]) == 0)
    case Triangle(_, _, _) => Ok(false)
  }

  /** A flat tetrahedron has four vertices as corners. */
  lemma FlatIsFinite(st: Tet3, orient: Orient3, t: nat)
    requires IsTetFlat(st, orient, t) == Ok(true)
    ensures TetOk(st.tds, t) && AllCasual(st.tds, t)
  {
    ExtendedTriangleIffConceptual(st, t);
    var ns := TetNodes(st.tds, t);
    assert AllCasual4(ns);
  }

  // ---------------------------------------------------------------------
  // Locating a vertex

  predicate CasualFace(ns: seq<VertexNode>)
    requires |ns| == 3
  {
    ns[0].Casual? && ns[1].Casual? && ns[2].Casual?
  }

  /** The test `choose_tri` applies to one face: a face of three vertices is
      chosen when `p` lies strictly on its outer side, or on its plane when
      the face belongs to a tetrahedron with the point at infinity. */
  function FaceVerdict(st: Tet3, orient: Orient3, ht: nat, p: Pt3): (r: Result<bool>)
    ensures r.Ok? <==> (Readable(st.tds, ht) &&
      (CasualFace(HalfTriNodes(st.tds, ht)) ==> IndicesIn(HalfTriNodes(st.tds, ht), |st.vertices|)))
    ensures r.Err? ==> r.IsPanic()
    ensures r == Ok(true) <==> (Readable(st.tds, ht) && CasualFace(HalfTriNodes(st.tds, ht)) &&
      IndicesIn(HalfTriNodes(st.tds, ht), |st.vertices|) &&
      (var f, vs := HalfTriNodes(st.tds, ht), st.vertices;
       var o := orient(vs[f[0].index], vs[f[1].index], vs[f[2].index], p);
       if TetIsConceptual(st.tds, ht / 4) then o >= 0 else o > 0))
  {
    if !Readable(st.tds, ht) then Crash("index out of bounds: tet_nodes")
    else
      var f, vs := HalfTriNodes(st.tds, ht), st.vertices;
      if !CasualFace(f) then Ok(false)
      else if !(f[0].index < |vs| && f[1].index < |vs| && f[2].index < |vs|) then Crash("index out of bounds: vertices")
      else
        var o := -orient(vs[f[0].index], vs[f[1].index], vs[f[2].index], p);
        if TetIsConceptual(st.tds, ht / 4) then Ok(o <= 0) else Ok(o < 0)
  }

  /** The scan of `choose_tri` from position `i`: the first face whose
      verdict is true. */
  function ChooseFrom(st: Tet3, orient: Orient3, tris: seq<nat>, p: Pt3, i: nat): (r: Result<Option<nat>>)
    requires i <= |tris|
    ensures r.Err? ==> r.IsPanic()
    ensures r == Ok(None) <==> forall k :: i <= k < |tris| ==> FaceVerdict(st, orient, tris[k], p) == Ok(false)
    ensures r.Ok? && r.value.Some? ==> exists k :: (i <= k < |tris| && tris[k] == r.value.value &&
      FaceVerdict(st, orient, tris[k], p) == Ok(true) &&
      forall m :: i <= m < k ==> FaceVerdict(st, orient, tris[m], p) == Ok(false))
    decreases |tris| - i
  {
    if i == |tris| then Ok(None)
    else
      var chosen :- FaceVerdict(st, orient, tris[i], p);
      if chosen then Ok(Some(tris[i])) else ChooseFrom(st, orient, tris, p, i + 1)
  }

  /** `choose_tri`. */
  function ChooseTri(st: Tet3, orient: Orient3, tris: seq<nat>, p: Pt3): (r: Result<Option<nat>>)
    ensures r.Err? ==> r.IsPanic()
    ensures r == Ok(None) <==> forall k :: 0 <= k < |tris| ==> FaceVerdict(st, orient, tris[k], p) == Ok(false)
    ensures r.Ok? && r.value.Some? ==> (r.value.value in tris && FaceVerdict(st, orient, r.value.value, p) == Ok(true))
  {
    ChooseFrom(st, orient, tris, p, 0)
  }

  /** `num_tets >> 2`: how many faces the walk may cross. */
  function Budget(ds: TetDs): nat {
    ds.numTets / 4
  }

  const NotFound: string := "Could not find sphere containing point"

  /** The loop of `locate_vis_walk` after `visited` crossings, standing in
      tetrahedron `cur` with the faces `tris` still to look at. A chosen face
      is crossed: the walk moves to the glued tetrahedron and looks next at
      the faces sharing an edge with the face it came through, starting at a
      rotating `side`. When no face is chosen the walk ends in `cur` if the
      non-strict sphere test accepts it. More than `num_tets >> 2`
      crossings end the walk with an error. Returns the tetrahedron and the
      number of crossings. */
  function WalkFrom(st: Tet3, preds: Preds3, v: nat, p: Pt3, cur: nat, tris: seq<nat>, side: nat, visited: nat)
    : (r: Result<(nat, nat)>)
    ensures visited > Budget(st.tds) ==> r == Fail(NotFound)
    ensures r.Ok? ==> r.value.0 < st.tds.numTets && InSphere(st, preds, v, r.value.0, false) == Ok(true)
    ensures r.Ok? ==> visited <= r.value.1 <= Budget(st.tds)
    decreases Budget(st.tds) + 1 - visited
  {
    if visited > Budget(st.tds) then Fail(NotFound)
    else
      var pick :- ChooseTri(st, preds.orient, tris, p);
      match pick
      case Some(ht) =>
        var o :- OppositeHalfTri(st.tds, ht);
        var hs := HalfTriHedges(o);
        var next := [NeighborE(hs[side % 3]).tri, NeighborE(hs[(1 + side) % 3]).tri, NeighborE(hs[(2 + side) % 3]).tri];
        WalkFrom(st, preds, v, p, TetOf(o), next, (side + 1) % 3, visited + 1)
      case None =>
        var inside :- InSphere(st, preds, v, cur, false);
        if inside then Ok((cur, visited)) else Fail(NotFound)
  }

  /** `locate_vis_walk`: a walk from tetrahedron `start` toward the vertex.
      The tetrahedron it ends in passes the non-strict sphere test. */
  function LocateVisWalk(st: Tet3, preds: Preds3, v: nat, start: nat): (r: Result<nat>)
    ensures v >= |st.vertices| ==> r.IsPanic()
    ensures v < |st.vertices| && start >= st.tds.numTets ==> r.IsError()
    ensures r.Ok? ==> r.value < st.tds.numTets && InSphere(st, preds, v, r.value, false) == Ok(true)
  {
    var p :- PointAt(st.vertices, v);
    var _ :- GetTet(st.tds, start);
    var found :- WalkFrom(st, preds, v, p, start, TetHalfTris(start), 0, 0);
    Ok(found.0)
  }

  /** The full scan passes over `t`: it is flat, or the vertex is outside
      its power sphere. */
  predicate Passes(st: Tet3, preds: Preds3, v: nat, t: nat) {
    IsTetFlat(st, preds.orient, t) == Ok(true) ||
    (IsTetFlat(st, preds.orient, t) == Ok(false) && InPowerSphere(st, preds, v, t, false) == Ok(false))
  }

  /** The full scan stops at `t`: it is not flat and the vertex is inside
      its power sphere. */
  predicate Hosts(st: Tet3, preds: Preds3, v: nat, t: nat) {
    IsTetFlat(st, preds.orient, t) == Ok(false) && InPowerSphere(st, preds, v, t, false) == Ok(true)
  }

  /** The loop of `walk_check_all` from tetrahedron `t` on. */
  function CheckAllFrom(st: Tet3, preds: Preds3, v: nat, t: nat): (r: Result<nat>)
    ensures r.Ok? ==> (t <= r.value < st.tds.numTets && Hosts(st, preds, v, r.value) &&
      forall u :: t <= u < r.value ==> Passes(st, preds, v, u))
    ensures (forall u :: t <= u < st.tds.numTets ==> Passes(st, preds, v, u)) ==> r == Fail(NotFound)
    decreases st.tds.numTets - t
  {
    if t >= st.tds.numTets then Fail(NotFound)
    else
      assert (forall u :: t <= u < st.tds.numTets ==> Passes(st, preds, v, u)) ==> Passes(st, preds, v, t);
      var flat :- IsTetFlat(st, preds.orient, t);
      if flat then CheckAllFrom(st, preds, v, t + 1)
      else
        var inside :- InPowerSphere(st, preds, v, t, false);
        if inside then Ok(t) else CheckAllFrom(st, preds, v, t + 1)
  }

  /** `walk_check_all`: the first tetrahedron, by index, that is not flat
      and whose power sphere contains the vertex; an error when every one
      is flat or leaves the vertex outside. */
  function WalkCheckAll(st: Tet3, preds: Preds3, v: nat): (r: Result<nat>)
    ensures r.Ok? ==> (r.value < st.tds.numTets && Hosts(st, preds, v, r.value) &&
      forall u :: 0 <= u < r.value ==> Passes(st, preds, v, u))
    ensures (forall u :: 0 <= u < st.tds.numTets ==> Passes(st, preds, v, u)) ==> r == Fail(NotFound)
  {
    CheckAllFrom(st, preds, v, 0)
  }

  // ---------------------------------------------------------------------
  // Bowyer-Watson insertion

  /** `ds'` differs from `ds` only in the Bowyer-Watson flags and work
      lists, so every test of the engine reads the same tetrahedra. */
  predicate SameMesh(ds: TetDs, ds': TetDs) {
    ds'.nodes == ds.nodes && ds'.opp == ds.opp && ds'.numTets == ds.numTets &&
    |ds'.del| == |ds.del| && |ds'.keep| == |ds.keep|
  }

  /** The power-sphere test does not look at the flags or the work lists. */
  lemma PowerTestReadsMesh(st: Tet3, preds: Preds3, v: nat, t: nat, ds: TetDs)
    requires SameMesh(st.tds, ds)
    ensures InPowerSphere(st.(tds := ds), preds, v, t, false) == InPowerSphere(st, preds, v, t, false)
  {
    var st2 := st.(tds := ds);
    assert NodesOf(ds, t) == NodesOf(st.tds, t);
    var x := GetTetAsExtended(st, t);
    assert GetTetAsExtended(st2, t) == x;
    if Height(st, v).Ok? && x.Ok? && x.value.Tetrahedron? {
      var hp := Height(st, v).value;
      PowerSignReadsPoints(st, st2, preds.lifted, x.value, st.vertices[v], hp);
    }
  }

  /** The lifted sign depends on the vertices and weights only. */
  lemma PowerSignReadsPoints(st: Tet3, st2: Tet3, lifted: Lifted3, x: TetExt, p: Pt3, hp: real)
    requires st2.vertices == st.vertices && st2.weights == st.weights
    requires x.Tetrahedron? && ExtIn(x, |st.vertices|)
    ensures PowerSign(st2, lifted, x, p, hp) == PowerSign(st, lifted, x, p, hp)
  {
    assert Height(st2, x.i0) == Height(st, x.i0) && Height(st2, x.i1) == Height(st, x.i1);
    assert Height(st2, x.i2) == Height(st, x.i2) && Height(st2, x.i3) == Height(st, x.i3);
  }

  /** The tetrahedra among the first `n` with both flags clear. */
  function OpenCount(del: seq<bool>, keep: seq<bool>, n: nat): (r: nat)
    requires n <= |del| && n <= |keep|
    ensures r <= n
  {
    if n == 0 then 0
    else OpenCount(del, keep, n - 1) + (if !del[n - 1] && !keep[n - 1] then 1 else 0)
  }

  function Open(ds: TetDs): nat {
    var n := if |ds.del| <= |ds.keep| then |ds.del| else |ds.keep|;
    OpenCount(ds.del, ds.keep, n)
  }

  lemma {:induction false} OpenCountSame(del: seq<bool>, keep: seq<bool>, del': seq<bool>, keep': seq<bool>, n: nat)
    requires n <= |del| && n <= |keep| && n <= |del'| && n <= |keep'|
    requires forall i :: 0 <= i < n ==> del'[i] == del[i] && keep'[i] == keep[i]
    ensures OpenCount(del', keep', n) == OpenCount(del, keep, n)
  {
    if n > 0 {
      OpenCountSame(del, keep, del', keep', n - 1);
    }
  }

  /** Setting a flag of a tetrahedron with both flags clear lowers the
      count. */
  lemma {:induction false} OpenCountDrops(del: seq<bool>, keep: seq<bool>, del': seq<bool>, keep': seq<bool>, n: nat, t: nat)
    requires n <= |del| && n <= |keep| && n <= |del'| && n <= |keep'| && t < n
    requires !del[t] && !keep[t] && (del'[t] || keep'[t])
    requires forall i :: 0 <= i < n && i != t ==> del'[i] == del[i] && keep'[i] == keep[i]
    ensures OpenCount(del', keep', n) < OpenCount(del, keep, n)
  {
    if t == n - 1 {
      OpenCountSame(del, keep, del', keep', n - 1);
    } else {
      OpenCountDrops(del, keep, del', keep', n - 1, t);
    }
  }

  /** Everything `ds` records past the prefix `ds0` was classified by the
      power-sphere test of `v`: removed tetrahedra contain the vertex in
      their power sphere, kept ones do not. */
  predicate ClassifiedFrom(st: Tet3, preds: Preds3, v: nat, ds0: TetDs, ds: TetDs) {
    |ds0.toDel| <= |ds.toDel| && ds.toDel[..|ds0.toDel|] == ds0.toDel &&
    |ds0.toKeep| <= |ds.toKeep| && ds.toKeep[..|ds0.toKeep|] == ds0.toKeep &&
    (forall i :: |ds0.toDel| <= i < |ds.toDel| ==> InPowerSphere(st, preds, v, ds.toDel[i], false) == Ok(true)) &&
    (forall i :: |ds0.toKeep| <= i < |ds.toKeep| ==> InPowerSphere(st, preds, v, ds.toKeep[i], false) == Ok(false))
  }

  lemma ClassifiedRemove(st: Tet3, preds: Preds3, v: nat, ds0: TetDs, ds: TetDs, ds': TetDs, t: nat)
    requires ClassifiedFrom(st, preds, v, ds0, ds)
    requires ds'.toDel == ds.toDel + [t] && ds'.toKeep == ds.toKeep
    requires InPowerSphere(st, preds, v, t, false) == Ok(true)
    ensures ClassifiedFrom(st, preds, v, ds0, ds')
  {
    assert ds'.toDel[..|ds0.toDel|] == ds.toDel[..|ds0.toDel|];
    forall i | |ds0.toDel| <= i < |ds'.toDel|
      ensures InPowerSphere(st, preds, v, ds'.toDel[i], false) == Ok(true)
    {
      if i < |ds.toDel| {
        assert ds'.toDel[i] == ds.toDel[i];
      }
    }
  }

  lemma ClassifiedKeep(st: Tet3, preds: Preds3, v: nat, ds0: TetDs, ds: TetDs, ds': TetDs, t: nat)
    requires ClassifiedFrom(st, preds, v, ds0, ds)
    requires ds'.toKeep == ds.toKeep + [t] && ds'.toDel == ds.toDel
    requires InPowerSphere(st, preds, v, t, false) == Ok(false)
    ensures ClassifiedFrom(st, preds, v, ds0, ds')
  {
    assert ds'.toKeep[..|ds0.toKeep|] == ds.toKeep[..|ds0.toKeep|];
    forall i | |ds0.toKeep| <= i < |ds'.toKeep|
      ensures InPowerSphere(st, preds, v, ds'.toKeep[i], false) == Ok(false)
    {
      if i < |ds.toKeep| {
        assert ds'.toKeep[i] == ds.toKeep[i];
      }
    }
  }

  /** The loop of `insert_bw`: pops the check list until it is empty,
      removing each tetrahedron whose power sphere contains the vertex and
      keeping the others. Every step sets a flag of a tetrahedron whose
      flags were clear, which bounds the loop. */
  method Classify(st: Tet3, preds: Preds3, v: nat, ds0: TetDs) returns (r: Result<TetDs>)
    requires SameMesh(st.tds, ds0)
    ensures r.Ok? ==> SameMesh(st.tds, r.value) && r.value.toCheck == []
    ensures r.Ok? ==> ClassifiedFrom(st, preds, v, ds0, r.value)
  {
    var ds := ds0;
    while true
      invariant SameMesh(st.tds, ds)
      invariant ClassifiedFrom(st, preds, v, ds0, ds)
      decreases Open(ds)
    {
      var step := BwTetsToCheck(ds);
      if step.Err? {
        return step.PropagateFailure();
      }
      var (ds1, pick) := step.value;
      if pick.None? {
        return Ok(ds1);
      }
      var t := pick.value;
      var inside := InPowerSphere(st.(tds := ds1), preds, v, t, false);
      PowerTestReadsMesh(st, preds, v, t, ds1);
      if inside.Err? {
        return inside.PropagateFailure();
      }
      var next := if inside.value then BwRemTet(ds1, t) else BwKeepTetra(ds1, t);
      if next.Err? {
        return next.PropagateFailure();
      }
      var n := if |ds.del| <= |ds.keep| then |ds.del| else |ds.keep|;
      OpenCountDrops(ds.del, ds.keep, next.value.del, next.value.keep, n, t);
      if inside.value {
        ClassifiedRemove(st, preds, v, ds0, ds1, next.value, t);
      } else {
        ClassifiedKeep(st, preds, v, ds0, ds1, next.value, t);
      }
      ds := next.value;
    }
  }

  /** `insert_bw`: removes the starting tetrahedron, grows the cavity with
      the check loop, and fills it with tetrahedra on the new vertex. */
  method InsertBw(st: Tet3, preds: Preds3, v: nat, first: nat) returns (r: Result<(TetDs, seq<nat>)>)
    ensures (st.tds.toCheck != [] || st.tds.toKeep != []) ==> r.IsError()
    ensures r.Ok? ==> r.value.0.toKeep == [] && r.value.0.toCheck == [] && |r.value.1| >= 1
    ensures r.Ok? && Sized(st.tds) ==> Sized(r.value.0)
  {
    var ds :- BwStart(st.tds, first);
    var cavity :- Classify(st, preds, v, ds);
    r := TetBw.BwInsertNode(cavity, Casual(v));
  }

  // ---------------------------------------------------------------------
  // insert_vertex_helper

  /** `get_tet(c)?.is_casual()`. */
  function TetCasual(ds: TetDs, c: nat): (r: Result<bool>)
    ensures r.Ok? <==> TetOk(ds, c)
    ensures c >= ds.numTets ==> r.IsError()
    ensures c < ds.numTets && r.Err? ==> r.IsPanic()
    ensures r.Ok? ==> (r.value <==> TetIsCasual(ds, c))
  {
    var _ :- NodesOf(ds, c);
    Ok(TetIsCasual(ds, c))
  }

  /** The epsilon filter of `insert_vertex_helper`: with an epsilon, a
      vertex inside the hull that the epsilon power-sphere test of its
      containing tetrahedron leaves outside is skipped. */
  function EpsSkip(st: Tet3, preds: Preds3, v: nat, c: nat): (r: Result<bool>)
    ensures st.eps.None? ==> r == Ok(false)
    ensures r == Ok(true) <==> (st.eps.Some? && TetOk(st.tds, c) && TetIsCasual(st.tds, c) &&
      InEpsPowerSphere(st, preds, v, c) == Ok(false))
    ensures st.eps.Some? && TetOk(st.tds, c) && !TetIsCasual(st.tds, c) ==> r == Ok(false)
  {
    if st.eps.None? then Ok(false)
    else
      var casual :- TetCasual(st.tds, c);
      if !casual then Ok(false)
      else
        var inside :- InEpsPowerSphere(st, preds, v, c);
        Ok(!inside)
  }

  /** The redundancy filter: in a weighted structure, a vertex inside the
      hull that lies outside the power sphere of its containing tetrahedron
      is skipped. */
  function RedundantSkip(st: Tet3, preds: Preds3, v: nat, c: nat): (r: Result<bool>)
    ensures !Weighted(st) ==> r == Ok(false)
    ensures r == Ok(true) <==> (Weighted(st) && TetOk(st.tds, c) && TetIsCasual(st.tds, c) &&
      InPowerSphere(st, preds, v, c, false) == Ok(false))
    ensures Weighted(st) && TetOk(st.tds, c) && !TetIsCasual(st.tds, c) ==> r == Ok(false)
  {
    if !Weighted(st) then Ok(false)
    else
      var casual :- TetCasual(st.tds, c);
      if !casual then Ok(false)
      else
        var inside :- InPowerSphere(st, preds, v, c, false);
        Ok(!inside)
  }

  /** Neither the vertex list, nor the weights, nor epsilon change. */
  predicate SameInputs(st: Tet3, st': Tet3) {
    st'.eps == st.eps && st'.vertices == st.vertices && st'.weights == st.weights
  }

  /** `v` was skipped: only the ignored list gains it. */
  predicate IgnoredAs(st: Tet3, st': Tet3, v: nat) {
    SameInputs(st, st') && st'.ignored == st.ignored + [v] && st'.used == st.used
  }

  /** `v` was inserted: only the used list gains it. */
  predicate UsedAs(st: Tet3, st': Tet3, v: nat) {
    SameInputs(st, st') && st'.used == st.used + [v] && st'.ignored == st.ignored
  }

  /** The locating part of `insert_vertex_helper`: the walk from `near`;
      when it returns an error, `clean_to_del` and the full scan. A panic
      of the walk is not an error and is not caught. Only the data
      structure may change, and only by dropping the deletion list. */
  method Locate(st: Tet3, preds: Preds3, v: nat, near: nat) returns (r: Result<(Tet3, nat)>)
    ensures LocateVisWalk(st, preds, v, near).Ok? ==> r == Ok((st, LocateVisWalk(st, preds, v, near).value))
    ensures LocateVisWalk(st, preds, v, near).Err? && !LocateVisWalk(st, preds, v, near).fault.Error? ==>
      r == LocateVisWalk(st, preds, v, near).PropagateFailure()
    ensures LocateVisWalk(st, preds, v, near).IsPanic() ==> r.IsPanic()
    ensures r.Ok? ==> (SameInputs(st, r.value.0) && r.value.0.used == st.used && r.value.0.ignored == st.ignored)
    ensures r.Ok? ==> r.value.0.tds.toKeep == st.tds.toKeep && r.value.0.tds.toCheck == st.tds.toCheck
    ensures r.Ok? && Sized(st.tds) ==> Sized(r.value.0.tds)
    ensures r.Ok? ==> r.value.1 < r.value.0.tds.numTets
  {
    var loc := LocateVisWalk(st, preds, v, near);
    if loc.Ok? {
      return Ok((st, loc.value));
    }
    if !loc.fault.Error? {
      return loc.PropagateFailure();
    }
    var tds :- CleanToDel(st.tds);
    var st1 := st.(tds := tds);
    var c :- WalkCheckAll(st1, preds, v);
    return Ok((st1, c));
  }

  /** The two filters of `insert_vertex_helper` on the located
      tetrahedron: the epsilon test, then, when it passes, the power test. */
  predicate Filtered(st: Tet3, preds: Preds3, v: nat, c: nat) {
    EpsSkip(st, preds, v, c) == Ok(true) ||
    (EpsSkip(st, preds, v, c) == Ok(false) && RedundantSkip(st, preds, v, c) == Ok(true))
  }

  /** `insert_vertex_helper`: locates the vertex by the walk, or after
      `clean_to_del` by the full scan; skips it when a filter says so and
      returns 0, otherwise records it as used, inserts it by Bowyer-Watson
      and returns the first new tetrahedron. `located` is what `Locate`
      returned: the state and the tetrahedron both filters are asked
      about. */
  method InsertVertexHelper(st: Tet3, preds: Preds3, v: nat, near: nat)
    returns (located: Result<(Tet3, nat)>, r: Result<(Tet3, nat)>)
    ensures located.Err? ==> r == located.PropagateFailure()
    ensures located.Ok? ==> SameInputs(st, located.value.0) && located.value.1 < located.value.0.tds.numTets
    ensures located.Ok? ==> located.value.0.used == st.used && located.value.0.ignored == st.ignored
    ensures r.Ok? ==> located.Ok? && (IgnoredAs(st, r.value.0, v) || UsedAs(st, r.value.0, v))
    ensures r.Ok? ==> (IgnoredAs(st, r.value.0, v) <==> Filtered(located.value.0, preds, v, located.value.1))
    ensures r.Ok? && IgnoredAs(st, r.value.0, v) ==> r.value == (located.value.0.(ignored := st.ignored + [v]), 0)
    ensures r.Ok? && IgnoredAs(st, r.value.0, v) ==> st.eps.Some? || Weighted(st)
    ensures r.Ok? && st.eps.None? && !Weighted(st) ==> UsedAs(st, r.value.0, v)
    ensures r.Ok? && UsedAs(st, r.value.0, v) ==> r.value.0.tds.toKeep == [] && r.value.0.tds.toCheck == []
    ensures r.Ok? && !UsedAs(st, r.value.0, v) ==> (r.value.0.tds.toKeep == st.tds.toKeep &&
      r.value.0.tds.toCheck == st.tds.toCheck)
    ensures r.Ok? && Sized(st.tds) ==> Sized(r.value.0.tds)
  {
    located := Locate(st, preds, v, near);
    if located.Err? {
      return located, located.PropagateFailure();
    }
    var (st1, c) := located.value;
    var skip := EpsSkip(st1, preds, v, c);
    if skip.Err? {
      return located, skip.PropagateFailure();
    }
    if skip.value {
      return located, Ok((st1.(ignored := st1.ignored + [v]), 0));
    }
    var redundant := RedundantSkip(st1, preds, v, c);
    if redundant.Err? {
      return located, redundant.PropagateFailure();
    }
    if redundant.value {
      return located, Ok((st1.(ignored := st1.ignored + [v]), 0));
    }
    var st2 := st1.(used := st1.used + [v]);
    var added := InsertBw(st2, preds, v, c);
    if added.Err? {
      return located, added.PropagateFailure();
    }
    return located, Ok((st2.(tds := added.value.0), added.value.1[0]));
  }

  /** What the insertion loops need from `insert_vertex_helper`: the
      vertex joins exactly one list, the cavity lists end empty after an
      insertion and are kept after a skip, and the classic case inserts. */
  method InsertVertexStep(st: Tet3, preds: Preds3, v: nat, near: nat) returns (r: Result<(Tet3, nat)>)
    ensures r.Ok? ==> IgnoredAs(st, r.value.0, v) || UsedAs(st, r.value.0, v)
    ensures r.Ok? && st.eps.None? && !Weighted(st) ==> UsedAs(st, r.value.0, v)
    ensures r.Ok? && UsedAs(st, r.value.0, v) ==> r.value.0.tds.toKeep == [] && r.value.0.tds.toCheck == []
    ensures r.Ok? && !UsedAs(st, r.value.0, v) ==> (r.value.0.tds.toKeep == st.tds.toKeep &&
      r.value.0.tds.toCheck == st.tds.toCheck)
    ensures r.Ok? && Sized(st.tds) ==> Sized(r.value.0.tds)
  {
    var _, helped := InsertVertexHelper(st, preds, v, near);
    return helped;
  }

  // ---------------------------------------------------------------------
  // insert_first_tet

  /** `Vec::remove(e)`: the other entries, in order. */
  function RemoveAt(s: seq<nat>, e: nat): (r: seq<nat>)
    requires e < |s|
    ensures |r| == |s| - 1 && multiset(r) == multiset(s) - multiset{s[e]}
    ensures forall k :: 0 <= k < e ==> r[k] == s[k]
    ensures forall k :: e <= k < |r| ==> r[k] == s[k + 1]
  {
    RemoveAtMultiset(s, e);
    s[..e] + s[e + 1..]
  }

  /** `Vec::swap_remove(e)`: the last entry takes the place of the removed
      one. */
  function SwapRemove(s: seq<nat>, e: nat): (r: seq<nat>)
    requires e < |s|
    ensures |r| == |s| - 1 && multiset(r) == multiset(s) - multiset{s[e]}
    ensures forall k :: 0 <= k < |r| && k != e ==> r[k] == s[k]
    ensures e < |r| ==> r[e] == s[|s| - 1]
  {
    RemoveByLast(s, e);
    ByLast(s, e)
  }

  /** Every listed vertex exists and lies on the plane of `a, b, c`. */
  predicate AllCoplanar(vs: seq<Pt3>, orient: Orient3, a: Pt3, b: Pt3, c: Pt3, idx: seq<nat>) {
    forall k :: 0 <= k < |idx| ==> idx[k] < |vs| && orient(a, b, c, vs[idx[k]]) == 0
  }

  /** What the scan for the fourth vertex found: the vertex, the sign
      `-orient_3d(v0, v1, v2, v3)`, the indices still to pop and the coplanar
      ones set aside. */
  datatype Found = Found(i3: nat, sign: Sign, rest: seq<nat>, aligned: seq<nat>)

  /** The loop of `insert_first_tet`: pops indices until one lies off the
      plane of `a, b, c`; the coplanar ones are set aside. */
  function FourthScan(vs: seq<Pt3>, orient: Orient3, a: Pt3, b: Pt3, c: Pt3, idx: seq<nat>, aligned: seq<nat>)
    : (r: Result<Found>)
    ensures r.IsError() <==> AllCoplanar(vs, orient, a, b, c, idx)
    ensures r.Err? && !r.IsError() ==> r.IsPanic()
    ensures r.Ok? ==> (r.value.i3 < |vs| && r.value.sign != 0 &&
      r.value.sign == -orient(a, b, c, vs[r.value.i3]))
    ensures r.Ok? ==> (multiset(r.value.rest) + multiset{r.value.i3} + multiset(r.value.aligned) ==
      multiset(idx) + multiset(aligned))
    decreases |idx|
  {
    if idx == [] then Fail("Could not find four non aligned points")
    else
      var i, rest := idx[|idx| - 1], idx[..|idx| - 1];
      assert idx == rest + [i];
      assert AllCoplanar(vs, orient, a, b, c, idx) <==>
        (AllCoplanar(vs, orient, a, b, c, rest) && i < |vs| && orient(a, b, c, vs[i]) == 0);
      if i >= |vs| then Crash("index out of bounds: vertices")
      else
        var o := -orient(a, b, c, vs[i]);
        if o == 0 then FourthScan(vs, orient, a, b, c, rest, aligned + [i])
        else Ok(Found(i, o, rest, aligned))
  }

  /** The corners handed to the data structure: in popped order when the
      sign is positive, the second and third swapped when it is negative. */
  function Corners4(i0: nat, i1: nat, i2: nat, f: Found): (r: seq<nat>)
    ensures |r| == 4 && r[0] == i0 && r[3] == f.i3
    ensures multiset(r) == multiset{i0, i1, i2, f.i3}
  {
    if f.sign > 0 then [i0, i1, i2, f.i3] else [i0, i2, i1, f.i3]
  }

  /** Whichever way the corners are listed, the negated orientation of the
      first tetrahedron is positive. */
  lemma CornersOriented(vs: seq<Pt3>, orient: Orient3, i0: nat, i1: nat, i2: nat, f: Found)
    requires Antisymmetric3(orient)
    requires i0 < |vs| && i1 < |vs| && i2 < |vs| && f.i3 < |vs|
    requires f.sign != 0 && f.sign == -orient(vs[i0], vs[i1], vs[i2], vs[f.i3])
    ensures var c := Corners4(i0, i1, i2, f); -orient(vs[c[0]], vs[c[1]], vs[c[2]], vs[c[3]]) == 1
  {
    if f.sign < 0 {
      assert orient(vs[i0], vs[i2], vs[i1], vs[f.i3]) == -orient(vs[i0], vs[i1], vs[i2], vs[f.i3]);
    }
  }

  /** The first tetrahedron `insert_first_tet` built: its corner indices
      (`corners`, as handed to the data structure) and the four vertices in
      popped order (`picked`, as recorded in the used list). */
  datatype Start = Start(ds: TetDs, corners: seq<nat>, picked: seq<nat>, left: seq<nat>)

  /** The list `insert_first_tet` scans for the fourth vertex: the indices
      under the two popped ones, without the third vertex. */
  function ScanList(idx: seq<nat>, e: nat, keepOrder: bool): (r: seq<nat>)
    requires 2 <= |idx| && e < |idx| - 2
    ensures multiset(r) == multiset(idx[..|idx| - 2]) - multiset{idx[e]}
  {
    var rest := idx[..|idx| - 2];
    if keepOrder then RemoveAt(rest, e) else SwapRemove(rest, e)
  }

  /** In an empty structure of the right shape, the first tetrahedron the
      data structure stores has the given corners. */
  lemma FirstTetNodes(ds: TetDs, cs: seq<nat>)
    requires Sized(ds) && ds.numTets == 0 && |cs| == 4
    ensures TetFirst.InsertFirstTet(ds, cs).Ok?
    ensures var ds' := TetFirst.InsertFirstTet(ds, cs).value.0;
      Sized(ds') && TetNodes(ds', 0) == [Casual(cs[0]), Casual(cs[1]), Casual(cs[2]), Casual(cs[3])]
  {
    TetFirst.InsertFirstTetShape(ds, cs);
    var ds' := TetFirst.InsertFirstTet(ds, cs).value.0;
    assert Tets(ds')[0] == TetNodes(ds', 0);
  }

  /** The data structure's `insert_first_tet`, with the returned indices
      dropped. */
  function FirstFive(ds: TetDs, cs: seq<nat>): (r: Result<TetDs>)
    requires |cs| == 4
    ensures r.Err? <==> ds.numTets != 0
    ensures r.Err? ==> r.IsError()
    ensures r.Ok? ==> (r.value.numTets == 5 && r.value.toDel == ds.toDel && r.value.toKeep == ds.toKeep &&
      r.value.toCheck == ds.toCheck)
    ensures r.Ok? && Sized(ds) ==> (Sized(r.value) &&
      TetNodes(r.value, 0) == [Casual(cs[0]), Casual(cs[1]), Casual(cs[2]), Casual(cs[3])])
  {
    if Sized(ds) && ds.numTets == 0 then FirstTetNodes(ds, cs); Ok(TetFirst.InsertFirstTet(ds, cs).value.0)
    else
      var res :- TetFirst.InsertFirstTet(ds, cs);
      Ok(res.0)
  }

  lemma Regroup(a: multiset<nat>, x: nat, b: multiset<nat>, total: multiset<nat>)
    requires a + multiset{x} + b == total
    ensures a + b + multiset{x} == total
  {
  }

  /** What the first tetrahedron built from the corners `i0, i1, i2` and a
      fourth vertex found in `scan` satisfies: the vertices are recorded in
      popped order, the others are left, the corners are the same vertices
      (negatively oriented under an antisymmetric predicate), the work lists
      are untouched and the first stored tetrahedron has those corners. */
  ghost predicate Placed(vs: seq<Pt3>, orient: Orient3, ds: TetDs, i0: nat, i1: nat, i2: nat, scan: seq<nat>,
    s: Start)
  {
    PickedFrom(vs, i0, i1, i2, scan, s) && CornersFrom(vs, orient, s) && StoredFrom(ds, s)
  }

  /** The recorded vertices: the three corners, then the fourth, which was
      taken from `scan`. */
  predicate PickedFrom(vs: seq<Pt3>, i0: nat, i1: nat, i2: nat, scan: seq<nat>, s: Start) {
    |s.picked| == 4 && s.picked[..3] == [i0, i1, i2] && Hilbert.Valid(|vs|, s.picked) &&
    multiset(s.left) + multiset{s.picked[3]} == multiset(scan)
  }

  /** The corners handed to the data structure are the recorded vertices,
      negatively oriented under an antisymmetric predicate. */
  ghost predicate CornersFrom(vs: seq<Pt3>, orient: Orient3, s: Start) {
    |s.corners| == 4 && multiset(s.corners) == multiset(s.picked) && Hilbert.Valid(|vs|, s.corners) &&
    (Antisymmetric3(orient) ==> -orient(vs[s.corners[0]], vs[s.corners[1]], vs[s.corners[2]], vs[s.corners[3]]) == 1)
  }

  /** The work lists are untouched and the first stored tetrahedron has the
      corners. */
  predicate StoredFrom(ds: TetDs, s: Start) {
    |s.corners| == 4 && s.ds.numTets == 5 &&
    s.ds.toDel == ds.toDel && s.ds.toKeep == ds.toKeep && s.ds.toCheck == ds.toCheck &&
    (Sized(ds) ==> (Sized(s.ds) &&
      TetNodes(s.ds, 0) == [Casual(s.corners[0]), Casual(s.corners[1]), Casual(s.corners[2]), Casual(s.corners[3])]))
  }

  lemma PickedFromScan(vs: seq<Pt3>, i0: nat, i1: nat, i2: nat, scan: seq<nat>, f: Found, ds': TetDs)
    requires i0 < |vs| && i1 < |vs| && i2 < |vs| && f.i3 < |vs|
    requires multiset(f.rest) + multiset{f.i3} + multiset(f.aligned) == multiset(scan) + multiset([])
    ensures PickedFrom(vs, i0, i1, i2, scan, Start(ds', Corners4(i0, i1, i2, f), [i0, i1, i2, f.i3], f.rest + f.aligned))
  {
    var none: seq<nat> := [];
    var picked, left := [i0, i1, i2, f.i3], f.rest + f.aligned;
    assert multiset(f.rest) + multiset{f.i3} + multiset(f.aligned) == multiset(scan) + multiset(none);
    assert multiset(none) == multiset{};
    assert multiset(left) == multiset(f.rest) + multiset(f.aligned);
    Regroup(multiset(f.rest), f.i3, multiset(f.aligned), multiset(scan));
    assert picked[..3] == [i0, i1, i2];
  }

  lemma Multiset4(a: nat, b: nat, c: nat, d: nat)
    ensures multiset([a, b, c, d]) == multiset{a, b, c, d}
  {
    assert [a, b, c, d] == [a] + [b] + [c] + [d];
  }

  lemma CornersFromScan(vs: seq<Pt3>, orient: Orient3, i0: nat, i1: nat, i2: nat, f: Found, ds': TetDs, left: seq<nat>)
    requires i0 < |vs| && i1 < |vs| && i2 < |vs| && f.i3 < |vs|
    requires f.sign != 0 && f.sign == -orient(vs[i0], vs[i1], vs[i2], vs[f.i3])
    ensures CornersFrom(vs, orient, Start(ds', Corners4(i0, i1, i2, f), [i0, i1, i2, f.i3], left))
  {
    Multiset4(i0, i1, i2, f.i3);
    var cs := Corners4(i0, i1, i2, f);
    assert Hilbert.Valid(|vs|, cs) by {
      forall k | 0 <= k < 4 ensures cs[k] < |vs| {
        assert cs[k] in multiset{i0, i1, i2, f.i3};
      }
    }
    if Antisymmetric3(orient) {
      CornersOriented(vs, orient, i0, i1, i2, f);
    }
  }

  /** The facts `Placed` collects, from the scan's and the data structure's
      contracts. */
  lemma PlacedFrom(vs: seq<Pt3>, orient: Orient3, ds: TetDs, i0: nat, i1: nat, i2: nat, scan: seq<nat>,
    f: Found, ds': TetDs)
    requires i0 < |vs| && i1 < |vs| && i2 < |vs|
    requires FourthScan(vs, orient, vs[i0], vs[i1], vs[i2], scan, []) == Ok(f)
    requires FirstFive(ds, Corners4(i0, i1, i2, f)) == Ok(ds')
    ensures Placed(vs, orient, ds, i0, i1, i2, scan, Start(ds', Corners4(i0, i1, i2, f), [i0, i1, i2, f.i3], f.rest + f.aligned))
  {
    PickedFromScan(vs, i0, i1, i2, scan, f, ds');
    CornersFromScan(vs, orient, i0, i1, i2, f, ds', f.rest + f.aligned);
  }

  /** The part of `insert_first_tet` after the first three corners are
      chosen: the scan for a fourth vertex off their plane over `scan`, and
      the five tetrahedra of the data structure. */
  function PlaceFirst(vs: seq<Pt3>, orient: Orient3, ds: TetDs, i0: nat, i1: nat, i2: nat, scan: seq<nat>)
    : (r: Result<Start>)
    requires i0 < |vs| && i1 < |vs| && i2 < |vs|
    ensures ds.numTets == 0 ==> (r.IsError() <==> AllCoplanar(vs, orient, vs[i0], vs[i1], vs[i2], scan))
    ensures r.IsError() ==> ds.numTets != 0 || AllCoplanar(vs, orient, vs[i0], vs[i1], vs[i2], scan)
    ensures r.Ok? ==> ds.numTets == 0 && r.value.ds.numTets == 5
    ensures r.Ok? ==> Placed(vs, orient, ds, i0, i1, i2, scan, r.value)
  {
    var f :- FourthScan(vs, orient, vs[i0], vs[i1], vs[i2], scan, []);
    var ds' :- FirstFive(ds, Corners4(i0, i1, i2, f));
    PlacedFrom(vs, orient, ds, i0, i1, i2, scan, f, ds');
    Ok(Start(ds', Corners4(i0, i1, i2, f), [i0, i1, i2, f.i3], f.rest + f.aligned))
  }

  /** What `insert_first_tet` leaves when it succeeds on `idx`: four
      existing vertices recorded, the other indices left, and the first
      tetrahedron stored on those four (see `CornersFrom`, `StoredFrom`). */
  ghost predicate Started(vs: seq<Pt3>, orient: Orient3, ds: TetDs, idx: seq<nat>, s: Start) {
    |s.picked| == 4 && Hilbert.Valid(|vs|, s.picked) &&
    multiset(s.picked) + multiset(s.left) == multiset(idx) &&
    CornersFrom(vs, orient, s) && StoredFrom(ds, s)
  }

  /** The vertex accounting of `insert_first_tet`: the two popped indices,
      the removed one and the fourth found in the scan list, plus what is
      left, are the input list. */
  lemma PickedAccount(idx: seq<nat>, e: nat, scan: seq<nat>, picked: seq<nat>, left: seq<nat>)
    requires 2 <= |idx| && e < |idx| - 2
    requires multiset(scan) == multiset(idx[..|idx| - 2]) - multiset{idx[e]}
    requires |picked| == 4 && picked[..3] == [idx[|idx| - 1], idx[|idx| - 2], idx[e]]
    requires multiset(left) + multiset{picked[3]} == multiset(scan)
    ensures multiset(picked) + multiset(left) == multiset(idx)
  {
    var rest := idx[..|idx| - 2];
    LastTwo(idx);
    FourOf(picked);
    assert picked[0] == idx[|idx| - 1] && picked[1] == idx[|idx| - 2] && picked[2] == idx[e] by {
      assert picked[..3][0] == picked[0] && picked[..3][1] == picked[1] && picked[..3][2] == picked[2];
    }
    assert idx[e] in multiset(rest) by {
      assert rest[e] == idx[e];
    }
    Account(multiset(rest), multiset(scan), multiset(left), idx[e], picked[3],
      multiset{idx[|idx| - 1]} + multiset{idx[|idx| - 2]});
  }

  /** A list is its prefix and its last two entries. */
  lemma LastTwo(idx: seq<nat>)
    requires 2 <= |idx|
    ensures multiset(idx) == multiset(idx[..|idx| - 2]) + (multiset{idx[|idx| - 1]} + multiset{idx[|idx| - 2]})
  {
    assert idx == idx[..|idx| - 2] + [idx[|idx| - 2]] + [idx[|idx| - 1]];
  }

  /** The elements of a four-entry list. */
  lemma FourOf(picked: seq<nat>)
    requires |picked| == 4
    ensures multiset(picked) == multiset{picked[0]} + multiset{picked[1]} + multiset{picked[2]} + multiset{picked[3]}
  {
    assert picked == [picked[0]] + [picked[1]] + [picked[2]] + [picked[3]];
  }

  lemma Account(rest: multiset<nat>, scan: multiset<nat>, left: multiset<nat>, a: nat, x: nat, p: multiset<nat>)
    requires a in rest && scan == rest - multiset{a} && left + multiset{x} == scan
    ensures p + multiset{a} + multiset{x} + left == rest + p
  {
    assert rest == scan + multiset{a};
  }

  lemma StartedFromPlaced(vs: seq<Pt3>, orient: Orient3, ds: TetDs, idx: seq<nat>, e: nat, keepOrder: bool, s: Start)
    requires 2 <= |idx| && e < |idx| - 2 && idx[|idx| - 1] < |vs| && idx[|idx| - 2] < |vs| && idx[e] < |vs|
    requires Placed(vs, orient, ds, idx[|idx| - 1], idx[|idx| - 2], idx[e], ScanList(idx, e, keepOrder), s)
    ensures Started(vs, orient, ds, idx, s)
  {
    PickedAccount(idx, e, ScanList(idx, e, keepOrder), s.picked, s.left);
  }

  /** `insert_first_tet` on a list that covers every vertex: the last two
      indices are popped as the first two corners; the third is taken out
      at position `e` (the search for it is a floating-point maximisation
      the model takes as given) by `remove` when `keepOrder` and by
      `swap_remove` otherwise; then the scan for a fourth vertex off their
      plane. */
  function StartTet(vs: seq<Pt3>, orient: Orient3, ds: TetDs, idx: seq<nat>, e: nat, keepOrder: bool)
    : (r: Result<Start>)
    ensures |idx| < 2 ==> r.IsPanic()
    ensures ds.numTets == 0 ==> (r.IsError() <==> (2 <= |idx| && Hilbert.Valid(|vs|, idx) && e < |idx| - 2 &&
      AllCoplanar(vs, orient, vs[idx[|idx| - 1]], vs[idx[|idx| - 2]], vs[idx[e]], ScanList(idx, e, keepOrder))))
    ensures r.Ok? ==> ds.numTets == 0 && r.value.ds.numTets == 5
    ensures r.Ok? ==> Started(vs, orient, ds, idx, r.value)
  {
    if |idx| < 2 then Crash("called `Option::unwrap()` on a `None` value")
    else
      var i0, i1, rest := idx[|idx| - 1], idx[|idx| - 2], idx[..|idx| - 2];
      assert idx == rest + [i1, i0];
      var v0 :- PointAt(vs, i0);
      var v1 :- PointAt(vs, i1);
      if !Hilbert.Valid(|vs|, rest) then Crash("index out of bounds: vertices")
      else if |rest| == 0 then Crash("called `Option::unwrap()` on a `None` value")
      else if e >= |rest| then Crash("removal index out of bounds")
      else
        assert Hilbert.Valid(|vs|, idx) by {
          forall k | 0 <= k < |idx| ensures idx[k] < |vs| {
            if k < |rest| { assert idx[k] == rest[k]; }
          }
        }
        assert rest[e] == idx[e];
        var r := PlaceFirst(vs, orient, ds, i0, i1, idx[e], ScanList(idx, e, keepOrder));
        if r.Ok? then StartedFromPlaced(vs, orient, ds, idx, e, keepOrder, r.value); r else r
  }

  // ---------------------------------------------------------------------
  // insert_first_tet, insert_vertex, insert_vertices

  /** Whether `insert_first_tet` takes the third corner out with `remove`,
      which keeps the order of the others, rather than with `swap_remove`:
      the current copy does so when sorting, the earlier copy always. */
  predicate KeepsOrder(st: Tet3, sorting: bool) {
    sorting || st.weights.Flagged?
  }

  /** The first stored tetrahedron holds four vertices, and the negated
      orientation of its corners in stored order is positive. */
  predicate FirstPositive(st: Tet3, orient: Orient3) {
    TetOk(st.tds, 0) && AllCasual(st.tds, 0) && IndicesIn(TetNodes(st.tds, 0), |st.vertices|) &&
    var ns, vs := TetNodes(st.tds, 0), st.vertices;
    -orient(vs[ns[0].index], vs[ns[1].index], vs[ns[2].index], vs[ns[3].index]) == 1
  }

  lemma PositiveFromStart(st: Tet3, orient: Orient3, idx: seq<nat>, s: Start)
    requires Started(st.vertices, orient, st.tds, idx, s) && Sized(st.tds) && Antisymmetric3(orient)
    ensures FirstPositive(st.(tds := s.ds), orient)
  {
    var ns := TetNodes(s.ds, 0);
    assert ns == [Casual(s.corners[0]), Casual(s.corners[1]), Casual(s.corners[2]), Casual(s.corners[3])];
    assert forall k :: 0 <= k < 4 ==> ns[k] == Casual(s.corners[k]);
  }

  lemma UsedGrow(used: seq<nat>, picked: seq<nat>, left: seq<nat>, idx: seq<nat>)
    requires multiset(picked) + multiset(left) == multiset(idx)
    ensures multiset(used + picked) + multiset(left) == multiset(used) + multiset(idx)
  {
  }

  /** `insert_first_tet` of the engine: only when the index list covers
      every vertex (a first batch), the first tetrahedron is built and its
      four vertices recorded as used; the scan's error when every other
      vertex is coplanar with the first three. Returns the indices left to
      insert. */
  function InsertFirstTet(st: Tet3, orient: Orient3, idx: seq<nat>, e: nat, sorting: bool)
    : (r: Result<(Tet3, seq<nat>)>)
    ensures |st.vertices| != |idx| ==> r == Ok((st, idx))
    ensures |st.vertices| == |idx| && |idx| < 2 ==> r.IsPanic()
    ensures |st.vertices| == |idx| && st.tds.numTets == 0 ==> (r.IsError() <==> (2 <= |idx| &&
      Hilbert.Valid(|idx|, idx) && e < |idx| - 2 &&
      AllCoplanar(st.vertices, orient, st.vertices[idx[|idx| - 1]], st.vertices[idx[|idx| - 2]], st.vertices[idx[e]],
        ScanList(idx, e, KeepsOrder(st, sorting)))))
    ensures r.Ok? ==> SameInputs(st, r.value.0) && r.value.0.ignored == st.ignored
    ensures r.Ok? ==> multiset(r.value.0.used) + multiset(r.value.1) == multiset(st.used) + multiset(idx)
    ensures r.Ok? ==> (r.value.0.tds.toDel == st.tds.toDel && r.value.0.tds.toKeep == st.tds.toKeep &&
      r.value.0.tds.toCheck == st.tds.toCheck)
    ensures r.Ok? && Sized(st.tds) ==> Sized(r.value.0.tds)
    ensures r.Ok? && |st.vertices| == |idx| ==> r.value.0.tds.numTets == 5 && |r.value.0.used| == |st.used| + 4
    ensures r.Ok? && |st.vertices| == |idx| && Sized(st.tds) && Antisymmetric3(orient) ==>
      FirstPositive(r.value.0, orient)
  {
    if |st.vertices| != |idx| then Ok((st, idx))
    else
      var s :- StartTet(st.vertices, orient, st.tds, idx, e, KeepsOrder(st, sorting));
      UsedGrow(st.used, s.picked, s.left, idx);
      var st' := st.(tds := s.ds, used := st.used + s.picked);
      assert Sized(st.tds) && Antisymmetric3(orient) ==> FirstPositive(st', orient) by {
        if Sized(st.tds) && Antisymmetric3(orient) {
          PositiveFromStart(st, orient, idx, s);
        }
      }
      Ok((st', s.left))
  }

  /** The part `insert_vertex` shares with a weighted variant, once the new
      vertex is the last of the list: insertion from the given tetrahedron,
      else the last one, then `clean_to_del`. */
  method InsertAppended(st: Tet3, preds: Preds3, near: Option<nat>) returns (r: Result<Tet3>)
    requires |st.vertices| > 0 && st.tds.numTets > 0
    ensures r.Ok? ==> var v := |st.vertices| - 1;
      (IgnoredAs(st, r.value, v) || UsedAs(st, r.value, v)) && r.value.tds.toDel == []
    ensures r.Ok? && st.eps.None? && !Weighted(st) ==> UsedAs(st, r.value, |st.vertices| - 1)
    ensures r.Ok? && Sized(st.tds) ==> Sized(r.value.tds)
  {
    var v := |st.vertices| - 1;
    var res :- InsertVertexStep(st, preds, v, near.GetOr(st.tds.numTets - 1));
    r := CleanStep(st, res.0, v);
  }

  /** `clean_to_del` after an insertion or a skip: the delete list ends
      empty and the vertex lists keep what they say. */
  method CleanStep(st: Tet3, st1: Tet3, v: nat) returns (r: Result<Tet3>)
    requires IgnoredAs(st, st1, v) || UsedAs(st, st1, v)
    requires st.eps.None? && !Weighted(st) ==> UsedAs(st, st1, v)
    ensures r.Ok? ==> (IgnoredAs(st, r.value, v) || UsedAs(st, r.value, v)) && r.value.tds.toDel == []
    ensures r.Ok? && st.eps.None? && !Weighted(st) ==> UsedAs(st, r.value, v)
    ensures r.Ok? && Sized(st1.tds) ==> Sized(r.value.tds)
  {
    var tds :- CleanToDel(st1.tds);
    return Ok(st1.(tds := tds));
  }

  /** `insert_vertex`: refused while there is no tetrahedron; otherwise the
      point is appended and inserted. The weight store is left as it is:
      no weight is recorded for the new vertex. */
  method InsertVertex(st: Tet3, preds: Preds3, p: Pt3, near: Option<nat>) returns (r: Result<Tet3>)
    ensures st.tds.numTets == 0 ==> r.IsError()
    ensures r.Ok? ==> r.value.vertices == st.vertices + [p] && r.value.weights == st.weights
    ensures r.Ok? ==> var st' := st.(vertices := st.vertices + [p]);
      (IgnoredAs(st', r.value, |st.vertices|) || UsedAs(st', r.value, |st.vertices|)) && r.value.tds.toDel == []
    ensures r.Ok? && st.eps.None? && !Weighted(st) ==> r.value.used == st.used + [|st.vertices|]
    ensures r.Ok? && Sized(st.tds) ==> Sized(r.value.tds)
  {
    if st.tds.numTets == 0 {
      return Fail("Needs at least 1 tetrahedron to insert a single point");
    }
    r := InsertAppended(st.(vertices := st.vertices + [p]), preds, near);
  }

  /** The weight store has one weight per vertex, or none at all. */
  predicate Aligned(ws: Weights, n: nat) {
    match ws
    case Optional(None) => true
    case Optional(Some(w)) => |w| == n
    case Flagged(w, _) => |w| == n
  }

  /** With a weight per vertex stored, the vertex `insert_vertex` appends
      has none: its height, which every power-sphere test of it needs,
      panics. */
  lemma AppendedVertexHasNoHeight(st: Tet3, preds: Preds3, p: Pt3, t: nat, strict: bool)
    requires Aligned(st.weights, |st.vertices|) && st.weights != Optional(None)
    ensures var st' := st.(vertices := st.vertices + [p]);
      Height(st', |st.vertices|).IsPanic() && InPowerSphere(st', preds, |st.vertices|, t, strict).IsPanic()
  {
  }

  /** A weighted structure built by a first `insert_vertices` call stores a
      weight per vertex. */
  lemma FirstBatchAligned(st: Tet3, vs: seq<Pt3>, weights: Option<seq<real>>)
    requires st.vertices == [] && (weights.Some? ==> |weights.value| == |vs|)
    ensures Aligned(BatchWeights(st.weights, weights, |vs|), |vs|)
  {
  }

  /** `insert_vertex` with the weight store kept in step, as the 2D
      `insert_vertex` does: the weight (zero when absent) is pushed with the
      point. */
  method InsertVertexWithWeight(st: Tet3, preds: Preds3, p: Pt3, weight: Option<real>, near: Option<nat>)
    returns (r: Result<Tet3>)
    ensures st.tds.numTets == 0 ==> r.IsError()
    ensures r.Ok? ==> r.value.vertices == st.vertices + [p] && r.value.weights == PushWeight(st.weights, weight)
    ensures r.Ok? ==> var st' := st.(vertices := st.vertices + [p], weights := PushWeight(st.weights, weight));
      (IgnoredAs(st', r.value, |st.vertices|) || UsedAs(st', r.value, |st.vertices|)) && r.value.tds.toDel == []
    ensures r.Ok? && st.eps.None? && !Weighted(st) ==> r.value.used == st.used + [|st.vertices|]
    ensures r.Ok? && Sized(st.tds) ==> Sized(r.value.tds)
  {
    if st.tds.numTets == 0 {
      return Fail("Needs at least 1 tetrahedron to insert a single point");
    }
    r := InsertAppended(st.(vertices := st.vertices + [p], weights := PushWeight(st.weights, weight)), preds, near);
  }

  /** Pushing the weight with the point keeps one weight per vertex, and
      the new vertex has a height: its squared norm minus its weight. */
  lemma PushedVertexHasHeight(st: Tet3, p: Pt3, weight: Option<real>)
    requires Aligned(st.weights, |st.vertices|)
    ensures var st' := st.(vertices := st.vertices + [p], weights := PushWeight(st.weights, weight));
      Aligned(st'.weights, |st'.vertices|) && Height(st', |st.vertices|).Ok? &&
      Height(st', |st.vertices|).value == SqNorm(p) - (if st.weights == Optional(None) then 0.0 else weight.GetOr(0.0))
  {
  }

  /** The two lists every processed vertex ends in. */
  function Lists(st: Tet3): seq<nat> {
    st.used + st.ignored
  }

  /** What every step of the main loop keeps: the inputs, the sizes, empty
      cavity lists and, in the classic case, the empty ignored list. */
  predicate Keeps(st: Tet3, st': Tet3) {
    SameInputs(st, st') &&
    (Sized(st.tds) ==> Sized(st'.tds)) &&
    (st.tds.toKeep == [] && st.tds.toCheck == [] ==> st'.tds.toKeep == [] && st'.tds.toCheck == []) &&
    (!Weighted(st) && st.eps.None? ==> st'.ignored == st.ignored)
  }

  /** One insertion or skip of `v` is a step of the main loop that adds
      `v` to the lists. */
  lemma HelperStep(st: Tet3, st': Tet3, v: nat)
    requires IgnoredAs(st, st', v) || UsedAs(st, st', v)
    requires st.eps.None? && !Weighted(st) ==> UsedAs(st, st', v)
    requires UsedAs(st, st', v) ==> st'.tds.toKeep == [] && st'.tds.toCheck == []
    requires !UsedAs(st, st', v) ==> st'.tds.toKeep == st.tds.toKeep && st'.tds.toCheck == st.tds.toCheck
    requires Sized(st.tds) ==> Sized(st'.tds)
    ensures Keeps(st, st') && multiset(Lists(st')) == multiset(Lists(st)) + multiset{v}
  {
    if UsedAs(st, st', v) {
      assert Lists(st') == st.used + [v] + st.ignored;
    } else {
      assert Lists(st') == Lists(st) + [v];
    }
  }

  lemma KeepsTrans(s0: Tet3, s1: Tet3, s2: Tet3)
    requires Keeps(s0, s1) && Keeps(s1, s2)
    ensures Keeps(s0, s2)
  {
  }

  /** The main loop of `insert_vertices`: indices are popped from the end
      and each vertex is inserted from the tetrahedron the previous
      insertion returned. */
  method InsertLoop(st: Tet3, preds: Preds3, idx: seq<nat>, last: nat) returns (r: Result<Tet3>)
    ensures r.Ok? ==> Keeps(st, r.value)
    ensures r.Ok? ==> multiset(Lists(r.value)) == multiset(Lists(st)) + multiset(idx)
  {
    var cur, todo, near := st, idx, last;
    while todo != []
      invariant Keeps(st, cur)
      invariant multiset(Lists(cur)) + multiset(todo) == multiset(Lists(st)) + multiset(idx)
      decreases |todo|
    {
      var v := todo[|todo| - 1];
      assert todo == todo[..|todo| - 1] + [v];
      todo := todo[..|todo| - 1];
      var next := InsertVertexStep(cur, preds, v, near);
      if next.Err? {
        return next.PropagateFailure();
      }
      HelperStep(cur, next.value.0, v);
      KeepsTrans(st, cur, next.value.0);
      cur, near := next.value.0, next.value.1;
    }
    return Ok(cur);
  }

  /** The part of `insert_vertices` before the main loop: the batch is
      appended and given the next indices, the weights replaced, the size
      check, the optional Hilbert ordering and the first tetrahedron when
      there is none. Returns the state and the indices left to insert. The
      batch and the weights are written before any check, so `appended`,
      the structure with just those writes, is what a failed size check
      leaves behind. */
  method StartBatch(st: Tet3, orient: Orient3, vs: seq<Pt3>, weights: Option<seq<real>>, sorting: bool,
                    sortFuel: nat, e: nat) returns (appended: Tet3, r: Result<(Tet3, seq<nat>)>)
    ensures appended.vertices == st.vertices + vs && appended.weights == BatchWeights(st.weights, weights, |vs|)
    ensures appended.(vertices := st.vertices, weights := st.weights) == st
    ensures |st.vertices| + |vs| < 4 ==> r.IsError()
    ensures r.Ok? ==> (r.value.0.vertices == st.vertices + vs && r.value.0.eps == st.eps &&
      r.value.0.weights == BatchWeights(st.weights, weights, |vs|))
    ensures r.Ok? ==> (multiset(Lists(r.value.0)) + multiset(r.value.1) ==
      multiset(Lists(st)) + multiset(Range(|st.vertices|, |vs|)))
    ensures r.Ok? ==> r.value.0.ignored == st.ignored
    ensures r.Ok? ==> (r.value.0.tds.toKeep == st.tds.toKeep && r.value.0.tds.toCheck == st.tds.toCheck)
    ensures r.Ok? && Sized(st.tds) ==> Sized(r.value.0.tds)
  {
    var st0 := st.(vertices := st.vertices + vs, weights := BatchWeights(st.weights, weights, |vs|));
    appended := st0;
    var idx := Range(|st.vertices|, |vs|);
    if |st0.vertices| < 4 {
      return appended, Fail("Needs at least 4 vertices to compute Delaunay");
    }
    if sorting {
      var sorted := Hilbert.HilbertSort3(st0.vertices, idx, sortFuel);
      if sorted.Err? {
        return appended, sorted.PropagateFailure();
      }
      idx := sorted.value;
    }
    if st0.tds.numTets > 0 {
      return appended, Ok((st0, idx));
    }
    r := InsertFirstTet(st0, orient, idx, e, sorting);
  }

  /** `insert_vertices`: the batch is appended, optionally ordered along a
      Hilbert curve; the first tetrahedron is made if there is none, then
      the main loop inserts the rest, each from the last tetrahedron the
      previous one created, and `clean_to_del` compacts the structure.
      Every new index ends in exactly one of the two lists, and the classic
      (unweighted, no epsilon) case uses every vertex. With fewer than four
      vertices in all the call fails and leaves `appended`: the batch added
      and the weights replaced, nothing else changed. */
  method InsertVertices(st: Tet3, preds: Preds3, vs: seq<Pt3>, weights: Option<seq<real>>, sorting: bool,
                        sortFuel: nat, e: nat) returns (appended: Tet3, r: Result<Tet3>)
    ensures appended.vertices == st.vertices + vs && appended.weights == BatchWeights(st.weights, weights, |vs|)
    ensures appended.(vertices := st.vertices, weights := st.weights) == st
    ensures |st.vertices| + |vs| < 4 ==> r.IsError()
    ensures r.Ok? ==> (r.value.vertices == st.vertices + vs && r.value.eps == st.eps &&
      r.value.weights == BatchWeights(st.weights, weights, |vs|))
    ensures r.Ok? ==> multiset(Lists(r.value)) == multiset(Lists(st)) + multiset(Range(|st.vertices|, |vs|))
    ensures r.Ok? ==> r.value.tds.toDel == []
    ensures r.Ok? && st.tds.toKeep == [] && st.tds.toCheck == [] ==> r.value.tds.toKeep == [] && r.value.tds.toCheck == []
    ensures r.Ok? && !Weighted(r.value) && st.eps.None? ==> r.value.ignored == st.ignored
    ensures r.Ok? && Sized(st.tds) ==> Sized(r.value.tds)
  {
    var start;
    appended, start := StartBatch(st, preds.orient, vs, weights, sorting, sortFuel, e);
    if start.Err? {
      return appended, start.PropagateFailure();
    }
    var (st0, idx) := start.value;
    if st0.tds.numTets == 0 {
      return appended, Crash("attempt to subtract with overflow");
    }
    var done := InsertLoop(st0, preds, idx, st0.tds.numTets - 1);
    if done.Err? {
      return appended, done.PropagateFailure();
    }
    var tds := CleanToDel(done.value.tds);
    if tds.Err? {
      return appended, tds.PropagateFailure();
    }
    return appended, Ok(done.value.(tds := tds.value));
  }

  // ---------------------------------------------------------------------
  // tets

  type Tetrahedron3 = (Pt3, Pt3, Pt3, Pt3)

  /** A tetrahedron `tets` lists: readable and without the point at
      infinity. */
  predicate Listed(ds: TetDs, t: nat) {
    TetOk(ds, t) && TetIsCasual(ds, t)
  }

  /** The corner points of a listed tetrahedron whose nodes are vertices. */
  function Corners(st: Tet3, t: nat): Tetrahedron3
    requires Listed(st.tds, t) && AllCasual(st.tds, t) && IndicesIn(TetNodes(st.tds, t), |st.vertices|)
  {
    var ns := TetNodes(st.tds, t);
    (st.vertices[ns[0].index], st.vertices[ns[1].index], st.vertices[ns[2].index], st.vertices[ns[3].index])
  }

  /** The corners of a listed tetrahedron can be read: its nodes are
      vertices of the list. */
  predicate Readout(st: Tet3, t: nat)
    requires Listed(st.tds, t)
  {
    AllCasual(st.tds, t) && IndicesIn(TetNodes(st.tds, t), |st.vertices|)
  }

  /** The `filter_map` of `tets` over tetrahedra `0..n`; reading the nodes
      past the node array, unwrapping a deletion mark or reading a vertex
      past the vertex list panics. */
  function TetrahedraUpTo(st: Tet3, n: nat): (r: Result<seq<Tetrahedron3>>)
    requires n <= st.tds.numTets
    ensures r.Err? ==> r.IsPanic()
    ensures r.Ok? ==> forall t :: 0 <= t < n ==> TetOk(st.tds, t) && (Listed(st.tds, t) ==> Readout(st, t))
    ensures r.Ok? ==> forall x :: x in r.value <==> exists t :: (0 <= t < n && Listed(st.tds, t) &&
      Readout(st, t) && x == Corners(st, t))
    ensures 4 * n <= |st.tds.nodes| && (forall t :: 0 <= t < n && Listed(st.tds, t) ==> Readout(st, t)) ==> r.Ok?
  {
    if n == 0 then Ok([])
    else
      var done :- TetrahedraUpTo(st, n - 1);
      var t := n - 1;
      if 4 * t + 3 >= |st.tds.nodes| then Crash("index out of bounds: tet_nodes")
      else if !Listed(st.tds, t) then Ok(done)
      else if !AllCasual(st.tds, t) then Crash("called `Option::unwrap()` on a `None` value")
      else if IndicesIn(TetNodes(st.tds, t), |st.vertices|) then Ok(done + [Corners(st, t)])
      else Crash("index out of bounds: vertices")
  }

  /** `tets`: the corner points of exactly the tetrahedra without the point
      at infinity. */
  function Tetrahedra(st: Tet3): (r: Result<seq<Tetrahedron3>>)
    ensures r.Err? ==> r.IsPanic()
    ensures r.Ok? ==> forall x :: x in r.value <==> exists t :: (0 <= t < st.tds.numTets && Listed(st.tds, t) &&
      Readout(st, t) && x == Corners(st, t))
    ensures Sized(st.tds) && (forall t :: 0 <= t < st.tds.numTets && Listed(st.tds, t) ==> Readout(st, t)) ==> r.Ok?
  {
    TetrahedraUpTo(st, st.tds.numTets)
  }
}
