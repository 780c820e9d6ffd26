/** The 2D insertion engine (`Triangulation`): the state around the half-edge
    structure, the classification of triangles with a point at infinity, the
    power-circle tests over the foreign predicates, the flip decisions and
    the insertion driver. Both copies of the engine are modelled at once; they
    differ only in how weights are stored, which `Weights` records. */
module TriEngine {
  import opened Base
  import opened Node
  import opened Geometry
  import opened WeightStore
  import opened TriDs
  import TriDsValid
  import Convexity
  import Hilbert

  /** `orient_2dlifted_SOS(a, b, c, p, h_a, h_b, h_c, h_p)`: 1 when `p`,
      lifted to height `h_p`, lies below the plane through the lifted
      `a`, `b`, `c`. */
  type Lifted2 = (Pt2, Pt2, Pt2, Pt2, real, real, real, real) -> Sign

  /** The two foreign predicates the engine calls. */
  datatype Preds2 = Preds2(orient: Orient2, lifted: Lifted2)

  /** The fields of `Triangulation` the algorithm reads and writes; timing
      counters are left out. */
  datatype Tri2 = Tri2(
    eps: Option<real>,
    tds: TriDs,
    vertices: seq<Pt2>,
    weights: Weights,
    last: Option<nat>,
    used: seq<nat>,
    redundant: seq<nat>,
    ignored: seq<nat>)

  /** The flips `should_flip_hedge` can ask for; `ThreeToOne` carries the
      third triangle and the reflex vertex. */
  datatype Flip = OneToThree | TwoToTwo | ThreeToOne(third: nat, reflex: nat)

  /** A triangle as `get_tri_type` sees it: three vertices, or the segment
      left when one corner is the point at infinity. Vertex indices stand
      for the points `vertices[i]` the source copies out. */
  datatype TriExt = Triangle(i0: nat, i1: nat, i2: nat) | Segment(j0: nat, j1: nat)

  /** `Triangulation::new`, in the layout of either copy. */
  function New(eps: Option<real>, legacy: bool): (r: Tri2)
    ensures r.tds == Empty() && r.vertices == [] && r.last.None?
    ensures r.used == [] && r.redundant == [] && r.ignored == []
    ensures !Weighted(r)
  {
    Tri2(eps, Empty(), [], if legacy then Flagged([], false) else Optional(None), None, [], [], [])
  }

  predicate Weighted(st: Tri2) {
    WeightedStore(st.weights)
  }

  // ---------------------------------------------------------------------
  // Heights

  function SqNorm(p: Pt2): real {
    p.x * p.x + p.y * p.y
  }

  /** `height`: the squared norm lowered by the weight. */
  function Height(st: Tri2, i: nat): (r: Result<real>)
    ensures r.Err? ==> r.IsPanic()
    ensures r.Ok? <==> i < |st.vertices| && WeightOf(st.weights, i).Ok?
    ensures r.Ok? ==> r.value == SqNorm(st.vertices[i]) - WeightOf(st.weights, i).value
  {
    if i >= |st.vertices| then Crash("index out of bounds: vertices")
    else
      var w :- WeightOf(st.weights, i);
      Ok(SqNorm(st.vertices[i]) - w)
  }

  /** The zero-filled store of the earlier copy gives every vertex it covers
      the height the unweighted store gives it. */
  lemma ZeroFilledHeight(st: Tri2, i: nat)
    requires st.weights == Flagged(Zeros(|st.vertices|), false) && i < |st.vertices|
    ensures Height(st, i) == Height(st.(weights := Optional(None)), i)
    ensures Height(st, i) == Ok(SqNorm(st.vertices[i]))
  {
  }

  // ---------------------------------------------------------------------
  // Reading the structure

  /** `hedge_starting_nodes[h]`, panicking past the end. */
  function NodeAt(ds: TriDs, h: nat): (r: Result<VertexNode>)
    ensures r.Ok? <==> h < |ds.nodes|
    ensures r.Ok? ==> r.value == ds.nodes[h]
    ensures r.Err? ==> r.IsPanic()
  {
    if h < |ds.nodes| then Ok(ds.nodes[h]) else Crash("index out of bounds: hedge_starting_nodes")
  }

  /** `hedge_twins[h]`, panicking past the end. */
  function TwinAt(ds: TriDs, h: nat): (r: Result<nat>)
    ensures r.Ok? <==> h < |ds.twins|
    ensures r.Ok? ==> r.value == ds.twins[h]
    ensures r.Err? ==> r.IsPanic()
  {
    if h < |ds.twins| then Ok(ds.twins[h]) else Crash("index out of bounds: hedge_twins")
  }

  /** `vertices[i]`, panicking past the end. */
  function PointAt(vs: seq<Pt2>, i: nat): (r: Result<Pt2>)
    ensures r.Ok? <==> i < |vs|
    ensures r.Ok? ==> r.value == vs[i]
    ensures r.Err? ==> r.IsPanic()
  {
    if i < |vs| then Ok(vs[i]) else Crash("index out of bounds: vertices")
  }

  /** A slot `get_tri` accepts and whose nodes can be read. */
  predicate SlotOk(ds: TriDs, t: nat) {
    t < Slots(ds) && 3 * t + 2 < |ds.nodes|
  }

  /** `get_tri(t)?.nodes()`: an error for a slot past the count, a panic
      when the node array is too short. */
  function NodesOf(ds: TriDs, t: nat): (r: Result<seq<VertexNode>>)
    ensures r.Ok? <==> SlotOk(ds, t)
    ensures t >= Slots(ds) ==> r.IsError()
    ensures t < Slots(ds) && r.Err? ==> r.IsPanic()
    ensures r.Ok? ==> r.value == TriNodes(ds, t)
  {
    var _ :- GetTri(ds, t);
    if 3 * t + 2 < |ds.nodes| then Ok(TriNodes(ds, t)) else Crash("index out of bounds: hedge_starting_nodes")
  }

  // ---------------------------------------------------------------------
  // get_tri_type

  /** Corner `j` is the point at infinity and the other two are vertices. */
  predicate OnlyConceptualAt(ns: seq<VertexNode>, j: nat)
    requires |ns| == 3 && j < 3
  {
    ns[j].Conceptual? && ns[(j + 1) % 3].Casual? && ns[(j + 2) % 3].Casual?
  }

  predicate AllCasual3(ns: seq<VertexNode>)
    requires |ns| == 3
  {
    ns[0].Casual? && ns[1].Casual? && ns[2].Casual?
  }

  /** The shapes `get_tri_type` accepts. */
  predicate KnownShape(ns: seq<VertexNode>)
    requires |ns| == 3
  {
    AllCasual3(ns) || OnlyConceptualAt(ns, 0) || OnlyConceptualAt(ns, 1) || OnlyConceptualAt(ns, 2)
  }

  /** The match of `get_tri_type` on three nodes read from a slot. */
  function ShapeOf(ns: seq<VertexNode>, n: nat): (r: Result<TriExt>)
    requires |ns| == 3
    ensures r.Ok? <==> KnownShape(ns) && IndicesIn(ns, n)
    ensures !KnownShape(ns) ==> r.IsError()
    ensures KnownShape(ns) && r.Err? ==> r.IsPanic()
    ensures r.Ok? ==> (r.value.Triangle? <==> AllCasual3(ns))
    ensures r.Ok? && AllCasual3(ns) ==> r.value == Triangle(ns[0].index, ns[1].index, ns[2].index)
    ensures r.Ok? ==> forall j :: 0 <= j < 3 && OnlyConceptualAt(ns, j) ==>
      r.value == Segment(ns[(j + 1) % 3].index, ns[(j + 2) % 3].index)
  {
    if OnlyConceptualAt(ns, 0) then
      if ns[1].index < n && ns[2].index < n then Ok(Segment(ns[1].index, ns[2].index))
      else Crash("index out of bounds: vertices")
    else if OnlyConceptualAt(ns, 1) then
      if ns[0].index < n && ns[2].index < n then Ok(Segment(ns[2].index, ns[0].index))
      else Crash("index out of bounds: vertices")
    else if OnlyConceptualAt(ns, 2) then
      if ns[0].index < n && ns[1].index < n then Ok(Segment(ns[0].index, ns[1].index))
      else Crash("index out of bounds: vertices")
    else if AllCasual3(ns) then
      if ns[0].index < n && ns[1].index < n && ns[2].index < n then Ok(Triangle(ns[0].index, ns[1].index, ns[2].index))
      else Crash("index out of bounds: vertices")
    else Fail("An unexpected triangle case occurred")
  }

  /** `get_tri_type`: three vertices make a triangle; with the point at
      infinity at corner `j` the other two corners, in the order
      `(j + 1) % 3`, `(j + 2) % 3`, make a segment; every other shape (two
      points at infinity, a tombstone) is an error. Copying a vertex out
      panics when its index is past the vertex list. */
  function GetTriType(st: Tri2, t: nat): (r: Result<TriExt>)
    ensures t >= Slots(st.tds) ==> r.IsError()
    ensures r.Ok? <==> (SlotOk(st.tds, t) && KnownShape(TriNodes(st.tds, t)) &&
      IndicesIn(TriNodes(st.tds, t), |st.vertices|))
    ensures SlotOk(st.tds, t) ==> r == ShapeOf(TriNodes(st.tds, t), |st.vertices|)
  {
    var ns :- NodesOf(st.tds, t);
    ShapeOf(ns, |st.vertices|)
  }

  /** A triangle `get_tri_type` accepts is conceptual exactly when it comes
      back as a segment, and never holds a tombstone. */
  lemma TriTypeConceptual(st: Tri2, t: nat)
    requires GetTriType(st, t).Ok?
    ensures GetTriType(st, t).value.Segment? <==> TriIsConceptual(st.tds, t)
    ensures !TriIsDeleted(st.tds, t)
  {
    var ns := TriNodes(st.tds, t);
    if GetTriType(st, t).value.Segment? {
      var j :| 0 <= j < 3 && OnlyConceptualAt(ns, j);
      assert IsConceptual(TriNodes(st.tds, t)[j]);
    }
  }

  // ---------------------------------------------------------------------
  // The geometric tests

  /** `is_tri_flat`: a triangle with collinear corners; a segment never is. */
  function IsTriFlat(st: Tri2, orient: Orient2, t: nat): (r: Result<bool>)
    ensures r.Ok? <==> GetTriType(st, t).Ok?
    ensures r.Err? ==> r == GetTriType(st, t).PropagateFailure()
    ensures r.Ok? ==> (r.value <==> (GetTriType(st, t).value.Triangle? &&
      var x := GetTriType(st, t).value;
      orient(st.vertices[x.i0], st.vertices[x.i1], st.vertices[x.i2]) == 0))
  {
    var x :- GetTriType(st, t);
    match x
    case Triangle(i0, i1, i2) => Ok(orient(st.vertices[i0], st.vertices[i1], st.vertices[i2]) == 0)
    case Segment(_, _) => Ok(false)
  }

  /** The lifted test of `p` at height `hp` against a triangle, reading the
      corner heights; shared by both power-circle tests. */
  function LiftedTest(st: Tri2, lifted: Lifted2, i0: nat, i1: nat, i2: nat, p: Pt2, hp: real): (r: Result<bool>)
    requires i0 < |st.vertices| && i1 < |st.vertices| && i2 < |st.vertices|
    ensures r.Err? ==> r.IsPanic()
    ensures r.Ok? <==> Height(st, i0).Ok? && Height(st, i1).Ok? && Height(st, i2).Ok?
    ensures r.Ok? ==> (r.value <==> lifted(st.vertices[i0], st.vertices[i1], st.vertices[i2], p,
      Height(st, i0).value, Height(st, i1).value, Height(st, i2).value, hp) == 1)
  {
    var h0 :- Height(st, i0);
    var h1 :- Height(st, i1);
    var h2 :- Height(st, i2);
    Ok(lifted(st.vertices[i0], st.vertices[i1], st.vertices[i2], p, h0, h1, h2, hp) > 0)
  }

  /** `is_v_in_powercircle`: the lifted test for a triangle, and for a
      segment (a circle of infinite radius) the orientation test; only a
      positive sign counts as inside. */
  function InPowerCircle(st: Tri2, preds: Preds2, v: nat, t: nat): (r: Result<bool>)
    ensures v >= |st.vertices| ==> r.IsPanic()
    ensures r.Ok? ==> v < |st.vertices| && Height(st, v).Ok? && GetTriType(st, t).Ok?
    ensures v < |st.vertices| && Height(st, v).Ok? && GetTriType(st, t).Err? ==>
      r == GetTriType(st, t).PropagateFailure()
    ensures r.Ok? && GetTriType(st, t).value.Segment? ==> var x := GetTriType(st, t).value;
      (r.value <==> preds.orient(st.vertices[x.j0], st.vertices[x.j1], st.vertices[v]) == 1)
    ensures r.Ok? && GetTriType(st, t).value.Triangle? ==> var x := GetTriType(st, t).value;
      r == LiftedTest(st, preds.lifted, x.i0, x.i1, x.i2, st.vertices[v], Height(st, v).value)
  {
    var p :- PointAt(st.vertices, v);
    var hp :- Height(st, v);
    var x :- GetTriType(st, t);
    match x
    case Triangle(i0, i1, i2) => LiftedTest(st, preds.lifted, i0, i1, i2, p, hp)
    case Segment(j0, j1) => Ok(preds.orient(st.vertices[j0], st.vertices[j1], p) > 0)
  }

  /** `is_v_in_eps_powercircle`: the lifted test with the vertex raised by
      epsilon. Without an epsilon it panics; for a segment it is an error. */
  function InEpsPowerCircle(st: Tri2, preds: Preds2, v: nat, t: nat): (r: Result<bool>)
    ensures v >= |st.vertices| || st.eps.None? ==> r.IsPanic()
    ensures r.Ok? ==> st.eps.Some? && GetTriType(st, t).Ok? && GetTriType(st, t).value.Triangle?
    ensures (v < |st.vertices| && st.eps.Some? && Height(st, v).Ok? && GetTriType(st, t).Ok? &&
      GetTriType(st, t).value.Segment?) ==> r.IsError()
    ensures r.Ok? ==> Height(st, v).Ok?
    ensures r.Ok? ==> var x := GetTriType(st, t).value;
      r == LiftedTest(st, preds.lifted, x.i0, x.i1, x.i2, st.vertices[v], Height(st, v).value + st.eps.value)
  {
    var p :- PointAt(st.vertices, v);
    if st.eps.None? then Crash("Epsilon not set!")
    else
      var h :- Height(st, v);
      var x :- GetTriType(st, t);
      match x
      case Triangle(i0, i1, i2) => LiftedTest(st, preds.lifted, i0, i1, i2, p, h + st.eps.value)
      case Segment(_, _) => Fail("Epsilon power circle test not allowed for conceptual triangles yet!")
  }

  // ---------------------------------------------------------------------
  // choose_hedge

  /** The three nodes of slot `t`, read without the slot check of
      `get_tri` (the way `hedge.tri()` reads them); panics past the end. */
  function SlotNodes(ds: TriDs, t: nat): (r: Result<seq<VertexNode>>)
    ensures r.Ok? <==> 3 * t + 2 < |ds.nodes|
    ensures r.Ok? ==> r.value == TriNodes(ds, t)
    ensures r.Err? ==> r.IsPanic()
  {
    if 3 * t + 2 < |ds.nodes| then Ok(TriNodes(ds, t)) else Crash("index out of bounds: hedge_starting_nodes")
  }

  predicate Conceptual3(ns: seq<VertexNode>)
    requires |ns| == 3
  {
    ns[0].Conceptual? || ns[1].Conceptual? || ns[2].Conceptual?
  }

  /** Whether `choose_hedge` stops at hedge `h` when walking towards `v`:
      only hedges between two vertices count; the walk crosses one that has
      `v` strictly on its right, or not strictly on its left when its
      triangle is conceptual. */
  function HedgeVerdict(st: Tri2, orient: Orient2, h: nat, v: Pt2): (r: Result<bool>)
    ensures r.Err? ==> r.IsPanic()
    ensures r == Ok(true) ==> (h < |st.tds.nodes| && Next(h) < |st.tds.nodes| &&
      st.tds.nodes[h].Casual? && st.tds.nodes[Next(h)].Casual?)
    ensures r == Ok(true) ==> var (i0, i1) := (st.tds.nodes[h].index, st.tds.nodes[Next(h)].index);
      i0 < |st.vertices| && i1 < |st.vertices| && 3 * (h / 3) + 2 < |st.tds.nodes| &&
      var o := orient(st.vertices[i0], st.vertices[i1], v);
      if Conceptual3(TriNodes(st.tds, h / 3)) then o <= 0 else o < 0
  {
    var s :- NodeAt(st.tds, h);
    var e :- NodeAt(st.tds, Next(h));
    if s.Casual? && e.Casual? then
      var p0 :- PointAt(st.vertices, s.index);
      var p1 :- PointAt(st.vertices, e.index);
      var o := orient(p0, p1, v);
      var ns :- SlotNodes(st.tds, h / 3);
      if Conceptual3(ns) then Ok(o <= 0) else Ok(o < 0)
    else Ok(false)
  }

  /** The scan of `choose_hedge` from position `i` of the list. */
  function ChooseFrom(st: Tri2, orient: Orient2, hedges: seq<nat>, v: Pt2, i: nat): (r: Result<Option<nat>>)
    requires i <= |hedges|
    ensures r.Err? ==> r.IsPanic()
    ensures r.Ok? && r.value.Some? ==> r.value.value in hedges[i..]
    decreases |hedges| - i
  {
    if i == |hedges| then Ok(None)
    else
      var chosen :- HedgeVerdict(st, orient, hedges[i], v);
      if chosen then Ok(Some(hedges[i])) else ChooseFrom(st, orient, hedges, v, i + 1)
  }

  /** The scan answers none exactly when no hedge from `i` on is crossed. */
  lemma {:induction false} ChooseFromNone(st: Tri2, orient: Orient2, hedges: seq<nat>, v: Pt2, i: nat)
    requires i <= |hedges|
    ensures ChooseFrom(st, orient, hedges, v, i) == Ok(None) <==>
      forall k :: i <= k < |hedges| ==> HedgeVerdict(st, orient, hedges[k], v) == Ok(false)
    decreases |hedges| - i
  {
    if i < |hedges| {
      var here := HedgeVerdict(st, orient, hedges[i], v);
      if here.Ok? && !here.value {
        ChooseFromNone(st, orient, hedges, v, i + 1);
      }
    }
  }

  /** A hedge the scan names is crossed, and every hedge before it in the
      list from `i` on is not. */
  lemma {:induction false} ChooseFromFirst(st: Tri2, orient: Orient2, hedges: seq<nat>, v: Pt2, i: nat)
    requires i <= |hedges|
    ensures var r := ChooseFrom(st, orient, hedges, v, i);
      r.Ok? && r.value.Some? ==> exists k :: (i <= k < |hedges| && hedges[k] == r.value.value &&
        HedgeVerdict(st, orient, hedges[k], v) == Ok(true) &&
        (forall j :: i <= j < k ==> HedgeVerdict(st, orient, hedges[j], v) == Ok(false)))
    decreases |hedges| - i
  {
    if i < |hedges| {
      var here := HedgeVerdict(st, orient, hedges[i], v);
      if here == Ok(true) {
        assert hedges[i] == ChooseFrom(st, orient, hedges, v, i).value.value;
      } else if here == Ok(false) {
        ChooseFromFirst(st, orient, hedges, v, i + 1);
      }
    }
  }

  /** `choose_hedge`: the first hedge of the list the walk crosses, or none.
      A panic while testing a hedge ends the scan. */
  function ChooseHedge(st: Tri2, orient: Orient2, hedges: seq<nat>, v: Pt2): (r: Result<Option<nat>>)
    ensures r.Err? ==> r.IsPanic()
    ensures r == Ok(None) <==> forall k :: 0 <= k < |hedges| ==> HedgeVerdict(st, orient, hedges[k], v) == Ok(false)
    ensures r.Ok? && r.value.Some? ==> exists k :: (0 <= k < |hedges| && hedges[k] == r.value.value &&
      HedgeVerdict(st, orient, hedges[k], v) == Ok(true) &&
      (forall j :: 0 <= j < k ==> HedgeVerdict(st, orient, hedges[j], v) == Ok(false)))
  {
    ChooseFromNone(st, orient, hedges, v, 0);
    ChooseFromFirst(st, orient, hedges, v, 0);
    ChooseFrom(st, orient, hedges, v, 0)
  }

  // ---------------------------------------------------------------------
  // is_flippable

  /** `[x, y, z]` sorted with `sort_unstable`. */
  function Sort3(x: nat, y: nat, z: nat): (r: (nat, nat, nat))
    ensures r.0 <= r.1 <= r.2
    ensures multiset{r.0, r.1, r.2} == multiset{x, y, z}
  {
    if x <= y then
      if y <= z then (x, y, z) else if x <= z then (x, z, y) else (z, x, y)
    else
      if x <= z then (y, x, z) else if y <= z then (y, z, x) else (z, y, x)
  }

  /** Two sorted triples with the same elements are equal. */
  lemma SortedUnique(a: (nat, nat, nat), b: (nat, nat, nat))
    requires a.0 <= a.1 <= a.2 && b.0 <= b.1 <= b.2
    requires multiset{a.0, a.1, a.2} == multiset{b.0, b.1, b.2}
    ensures a == b
  {
    var m := multiset{a.0, a.1, a.2};
    assert a.0 in multiset{b.0, b.1, b.2} && b.0 in multiset{a.0, a.1, a.2};
    assert a.0 == b.0;
    assert multiset{a.1, a.2} == m - multiset{a.0};
    assert multiset{b.1, b.2} == m - multiset{b.0};
    assert a.1 in multiset{b.1, b.2} && b.1 in multiset{a.1, a.2};
    assert a.1 == b.1;
    assert multiset{a.2} == multiset{a.1, a.2} - multiset{a.1};
    assert multiset{b.2} == multiset{b.1, b.2} - multiset{b.1};
  }

  /** Comparing sorted copies, as `is_flippable` does, tests whether the two
      triples hold the same vertices. */
  lemma SortedEqual(x: nat, y: nat, z: nat, u: nat, v: nat, w: nat)
    ensures Sort3(x, y, z) == Sort3(u, v, w) <==> multiset{x, y, z} == multiset{u, v, w}
  {
    if multiset{x, y, z} == multiset{u, v, w} {
      SortedUnique(Sort3(x, y, z), Sort3(u, v, w));
    }
  }

  /** Endpoint `c` of the edge is reflex: seen from line `c a`, the other
      endpoint `d` and the helper `b` lie on different sides. */
  predicate Reflex(orient: Orient2, vs: seq<Pt2>, c: nat, d: nat, a: nat, b: nat)
    requires c < |vs| && d < |vs| && a < |vs| && b < |vs|
  {
    orient(vs[c], vs[a], vs[d]) != orient(vs[c], vs[a], vs[b])
  }

  /** The triangle that could fill the reflex wedge at `p`: across the
      previous hedge when `p` starts hedge `h`, across the next one
      otherwise. */
  function ThirdTri(ds: TriDs, h: nat, p: nat): (r: Result<nat>)
    ensures r.Err? ==> r.IsPanic()
    ensures r.Ok? ==> h < |ds.nodes|
    ensures r.Ok? ==> var g := if ds.nodes[h] == Casual(p) then Prev(h) else Next(h);
      g < |ds.twins| && r.value == ds.twins[g] / 3
  {
    var n :- NodeAt(ds, h);
    if n == Casual(p) then
      var tw :- TwinAt(ds, Prev(h));
      Ok(tw / 3)
    else
      var tw :- TwinAt(ds, Next(h));
      Ok(tw / 3)
  }

  /** The three live vertices of a triangle are exactly `a`, `b`, `p`. */
  predicate HoldsExactly(ns: seq<VertexNode>, a: nat, b: nat, p: nat)
    requires |ns| == 3
  {
    AllCasual3(ns) && multiset{a, b, p} == multiset{ns[0].index, ns[1].index, ns[2].index}
  }

  /** The comparison of sorted index triples `is_flippable` makes. */
  function SameSorted(ns: seq<VertexNode>, a: nat, b: nat, p: nat): (r: bool)
    requires |ns| == 3 && AllCasual3(ns)
    ensures r <==> HoldsExactly(ns, a, b, p)
  {
    SortedEqual(a, b, p, ns[0].index, ns[1].index, ns[2].index);
    Sort3(a, b, p) == Sort3(ns[0].index, ns[1].index, ns[2].index)
  }

  /** The test on slot `t`, the candidate third triangle: conceptual means
      no flip, a tombstone vertex panics, otherwise a 3->1 flip exactly when
      it holds `a`, `b`, `p`. */
  function ThirdTriFlip(ds: TriDs, t: nat, a: nat, b: nat, p: nat): (r: Result<Option<Flip>>)
    ensures r.Err? ==> r.IsPanic()
    ensures r.Err? <==> (3 * t + 2 >= |ds.nodes| ||
      (!Conceptual3(TriNodes(ds, t)) && !AllCasual3(TriNodes(ds, t))))
    ensures r.Ok? ==> (r.value.Some? <==>
      (AllCasual3(TriNodes(ds, t)) && HoldsExactly(TriNodes(ds, t), a, b, p)))
    ensures r.Ok? && r.value.Some? ==> r.value.value == ThreeToOne(t, p)
  {
    var ns :- SlotNodes(ds, t);
    if Conceptual3(ns) then Ok(None)
    else if !AllCasual3(ns) then Crash("called `Option::unwrap()` on a `None` value")
    else if SameSorted(ns, a, b, p) then Ok(Some(ThreeToOne(t, p)))
    else Ok(None)
  }

  /** The second stage of `is_flippable`, once `p` is the one reflex
      endpoint: the triangle across from `p` decides. */
  function WedgeFlip(ds: TriDs, a: nat, b: nat, p: nat, h: nat): (r: Result<Option<Flip>>)
    ensures r.Err? ==> r.IsPanic()
    ensures ThirdTri(ds, h, p).Err? ==> r.Err?
    ensures r.Ok? && r.value.Some? ==> r.value.value.ThreeToOne?
    ensures ThirdTri(ds, h, p).Ok? ==> r == ThirdTriFlip(ds, ThirdTri(ds, h, p).value, a, b, p)
  {
    var t :- ThirdTri(ds, h, p);
    ThirdTriFlip(ds, t, a, b, p)
  }

  /** `is_flippable` for the edge `c d` between triangles with apexes `a`
      and `b` (around hedge `h`). No reflex endpoint: a 2->2 flip. One
      reflex endpoint: the answer of `WedgeFlip` for it. Two reflex
      endpoints panic. */
  function IsFlippable(st: Tri2, orient: Orient2, c: nat, d: nat, a: nat, b: nat, h: nat): (r: Result<Option<Flip>>)
    ensures r.Err? ==> r.IsPanic()
    ensures r.Ok? && r.value.Some? ==> !r.value.value.OneToThree?
    ensures !(c < |st.vertices| && d < |st.vertices| && a < |st.vertices| && b < |st.vertices|) ==> r.IsPanic()
    ensures (c < |st.vertices| && d < |st.vertices| && a < |st.vertices| && b < |st.vertices|) ==>
      var (rc, rd) := (Reflex(orient, st.vertices, c, d, a, b), Reflex(orient, st.vertices, d, c, a, b));
      (!rc && !rd ==> r == Ok(Some(TwoToTwo))) &&
      (rc && rd ==> r.IsPanic()) &&
      (rc && !rd ==> r == WedgeFlip(st.tds, a, b, c, h)) &&
      (!rc && rd ==> r == WedgeFlip(st.tds, a, b, d, h))
  {
    var pc :- PointAt(st.vertices, c);
    var pa :- PointAt(st.vertices, a);
    var pd :- PointAt(st.vertices, d);
    var pb :- PointAt(st.vertices, b);
    var cReflex := Reflex(orient, st.vertices, c, d, a, b);
    var dReflex := Reflex(orient, st.vertices, d, c, a, b);
    if !cReflex && !dReflex then Ok(Some(TwoToTwo))
    else if cReflex && dReflex then Crash("There cannot be more than 1 reflex point.")
    else WedgeFlip(st.tds, a, b, if cReflex then c else d, h)
  }

  // ---------------------------------------------------------------------
  // should_flip_hedge

  /** `x? || y?`: the first fault ends the test, and `y` only counts when
      `x` is false. */
  function OrElse(x: Result<bool>, y: Result<bool>): (r: Result<bool>)
    ensures r == Ok(true) <==> (x == Ok(true) || (x == Ok(false) && y == Ok(true)))
    ensures r == Ok(false) <==> (x == Ok(false) && y == Ok(false))
    ensures x.Err? ==> r == x
    ensures x == Ok(false) ==> r == y
  {
    if x.Err? then x else if x.value then Ok(true) else y
  }

  /** The two triangles around hedge `h`: `abd` holds the hedge from `b` to
      `d` with apex `a`, and `bcd` holds its twin with apex `c`. */
  datatype Wedge = Wedge(abd: nat, bcd: nat, a: VertexNode, b: VertexNode, c: VertexNode, d: VertexNode)

  predicate NoneDeleted(w: Wedge) {
    !w.a.Deleted? && !w.b.Deleted? && !w.c.Deleted? && !w.d.Deleted?
  }

  /** The reads at the top of `should_flip_hedge`: the hedge must exist (an
      error otherwise); a tombstone among the four corners means the edge
      was removed by a 3->1 flip, reported as `None`. Array reads past the
      end panic. */
  function WedgeOf(ds: TriDs, h: nat): (r: Result<Option<Wedge>>)
    ensures r.IsError() <==> h >= |ds.nodes|
    ensures r.Ok? ==> h < |ds.nodes| && Next(h) < |ds.nodes|
    ensures r.Ok? && (ds.nodes[h].Deleted? || ds.nodes[Next(h)].Deleted?) ==> r.value.None?
    ensures r.Ok? && r.value.Some? ==> (h < |ds.twins| && ds.twins[h] < |ds.nodes| &&
      Prev(ds.twins[h]) < |ds.nodes| && Prev(h) < |ds.nodes| &&
      r.value.value == Wedge(h / 3, ds.twins[h] / 3, ds.nodes[Prev(h)], ds.nodes[h],
        ds.nodes[Prev(ds.twins[h])], ds.nodes[ds.twins[h]]) &&
      NoneDeleted(r.value.value))
    ensures r.Ok? && r.value.None? ==> (ds.nodes[h].Deleted? || ds.nodes[Next(h)].Deleted? ||
      (Prev(h) < |ds.nodes| && h < |ds.twins| && ds.twins[h] < |ds.nodes| && Prev(ds.twins[h]) < |ds.nodes| &&
       (ds.nodes[Prev(h)].Deleted? || ds.nodes[Prev(ds.twins[h])].Deleted? || ds.nodes[ds.twins[h]].Deleted?)))
  {
    var _ :- GetHedge(ds, h);
    var s := ds.nodes[h];
    var e :- NodeAt(ds, Next(h));
    if s.Deleted? || e.Deleted? then Ok(None)
    else
      var a :- NodeAt(ds, Prev(h));
      var tw :- TwinAt(ds, h);
      var c :- NodeAt(ds, Prev(tw));
      var d :- NodeAt(ds, tw);
      var w := Wedge(h / 3, tw / 3, a, s, c, d);
      if NoneDeleted(w) then Ok(Some(w)) else Ok(None)
  }

  /** In a valid structure the reads around an existing hedge never fail,
      and the wedge of a live hedge is that of a live edge: its `b` starts
      the hedge and its `d` ends it. */
  lemma WedgeOfValid(ds: TriDs, h: nat)
    requires TriDsValid.Valid(ds) && h < |ds.nodes|
    ensures WedgeOf(ds, h).Ok?
    ensures !ds.nodes[h].Deleted? ==> WedgeOf(ds, h).value.Some?
    ensures !ds.nodes[h].Deleted? ==> (WedgeOf(ds, h).value.value.b == StartNode(ds, h) &&
      WedgeOf(ds, h).value.value.d == EndNode(ds, h))
  {
    assert TriDsValid.Linked(ds, h);
    if !ds.nodes[h].Deleted? {
      var tw := ds.twins[h];
      TriDsValid.LiveTriangle(ds, h);
      TriDsValid.LiveTriangle(ds, tw);
    }
  }

  /** The edge between triangles `abd` and `bcd` is locally regular: neither
      apex lies inside the power circle of the triangle across. */
  predicate LocallyRegular(st: Tri2, preds: Preds2, a: nat, c: nat, abd: nat, bcd: nat) {
    InPowerCircle(st, preds, c, abd) == Ok(false) && InPowerCircle(st, preds, a, bcd) == Ok(false)
  }

  /** The edge is not locally regular, as the short-circuit test sees it. */
  predicate Irregular(st: Tri2, preds: Preds2, a: nat, c: nat, abd: nat, bcd: nat) {
    InPowerCircle(st, preds, c, abd) == Ok(true) ||
    (InPowerCircle(st, preds, c, abd) == Ok(false) && InPowerCircle(st, preds, a, bcd) == Ok(true))
  }

  /** The flip an edge between four vertices admits before the regularity
      test: always 2->2 unweighted, the `is_flippable` verdict weighted. */
  function Candidate(st: Tri2, orient: Orient2, a: nat, b: nat, c: nat, d: nat, h: nat): Result<Option<Flip>> {
    if Weighted(st) then IsFlippable(st, orient, b, d, a, c, h) else Ok(Some(TwoToTwo))
  }

  /** The four-vertex case of `should_flip_hedge`: the candidate flip is
      returned exactly when the edge is not locally regular, and nothing
      when it is. */
  function CasualCase(st: Tri2, preds: Preds2, a: nat, b: nat, c: nat, d: nat, h: nat, abd: nat, bcd: nat)
    : (r: Result<Option<Flip>>)
    ensures Candidate(st, preds.orient, a, b, c, d, h).Err? ==> r.IsPanic()
    ensures Candidate(st, preds.orient, a, b, c, d, h) == Ok(None) ==> r == Ok(None)
    ensures Candidate(st, preds.orient, a, b, c, d, h).Ok? && Candidate(st, preds.orient, a, b, c, d, h).value.Some? ==>
      var f := Candidate(st, preds.orient, a, b, c, d, h).value;
      (r == Ok(f) <==> Irregular(st, preds, a, c, abd, bcd)) &&
      (r == Ok(None) <==> LocallyRegular(st, preds, a, c, abd, bcd))
    ensures !Weighted(st) ==> (r == Ok(Some(TwoToTwo)) <==> Irregular(st, preds, a, c, abd, bcd))
    ensures r.Ok? && r.value.Some? ==> !r.value.value.OneToThree? && (r.value.value.ThreeToOne? ==> Weighted(st))
  {
    var flip :- Candidate(st, preds.orient, a, b, c, d, h);
    if flip.None? then Ok(None)
    else
      var inside :- OrElse(InPowerCircle(st, preds, c, abd), InPowerCircle(st, preds, a, bcd));
      if inside then Ok(flip) else Ok(None)
  }

  /** The convexity test of the two cases with the point at infinity at `b`
      or `d`: a 2->2 flip when the angle at the middle vertex is convex. */
  function ConvexCase(st: Tri2, orient: Orient2, i0: nat, i1: nat, i2: nat): (r: Result<Option<Flip>>)
    ensures r.Err? <==> !(i0 < |st.vertices| && i1 < |st.vertices| && i2 < |st.vertices|)
    ensures r.Err? ==> r.IsPanic()
    ensures r.Ok? ==> (r.value == Some(TwoToTwo) <==>
      Convexity.IsConvex(orient, st.vertices[i0], st.vertices[i1], st.vertices[i2]))
    ensures r.Ok? ==> r.value.None? || r.value == Some(TwoToTwo)
  {
    var p0 :- PointAt(st.vertices, i0);
    var p1 :- PointAt(st.vertices, i1);
    var p2 :- PointAt(st.vertices, i2);
    if Convexity.IsConvex(orient, p0, p1, p2) then Ok(Some(TwoToTwo)) else Ok(None)
  }

  /** The case with the point at infinity at `c`: `bcd` is a hull triangle
      and the edge is flipped when `a` lies beyond the hull edge or when
      `abd` is flat. */
  function HullCase(st: Tri2, preds: Preds2, a: nat, abd: nat, bcd: nat): (r: Result<Option<Flip>>)
    ensures r == Ok(Some(TwoToTwo)) <==> OrElse(InPowerCircle(st, preds, a, bcd), IsTriFlat(st, preds.orient, abd)) == Ok(true)
    ensures r == Ok(None) <==> OrElse(InPowerCircle(st, preds, a, bcd), IsTriFlat(st, preds.orient, abd)) == Ok(false)
    ensures r.Ok? ==> r.value.None? || r.value == Some(TwoToTwo)
  {
    var f :- OrElse(InPowerCircle(st, preds, a, bcd), IsTriFlat(st, preds.orient, abd));
    if f then Ok(Some(TwoToTwo)) else Ok(None)
  }

  predicate AllCasual4(w: Wedge) {
    w.a.Casual? && w.b.Casual? && w.c.Casual? && w.d.Casual?
  }

  /** The match of `should_flip_hedge` on the four corners. */
  function FlipCase(st: Tri2, preds: Preds2, h: nat, w: Wedge): (r: Result<Option<Flip>>)
    ensures AllCasual4(w) ==> r == CasualCase(st, preds, w.a.index, w.b.index, w.c.index, w.d.index, h, w.abd, w.bcd)
    ensures w.a.Conceptual? && w.b.Casual? && w.c.Casual? && w.d.Casual? ==> r == Ok(None)
    ensures w.a.Casual? && w.b.Conceptual? && w.c.Casual? && w.d.Casual? ==>
      r == ConvexCase(st, preds.orient, w.c.index, w.d.index, w.a.index)
    ensures w.a.Casual? && w.b.Casual? && w.c.Conceptual? && w.d.Casual? ==>
      r == HullCase(st, preds, w.a.index, w.abd, w.bcd)
    ensures w.a.Casual? && w.b.Casual? && w.c.Casual? && w.d.Conceptual? ==>
      r == ConvexCase(st, preds.orient, w.a.index, w.b.index, w.c.index)
    ensures NoneDeleted(w) && (w.a.Conceptual? || w.b.Conceptual?) && (w.c.Conceptual? || w.d.Conceptual?) ==> r.IsError()
    ensures r.Ok? && r.value.Some? ==> !r.value.value.OneToThree?
    ensures r.Ok? && r.value.Some? && r.value.value.ThreeToOne? ==> Weighted(st) && AllCasual4(w)
  {
    if AllCasual4(w) then CasualCase(st, preds, w.a.index, w.b.index, w.c.index, w.d.index, h, w.abd, w.bcd)
    else if w.a.Conceptual? && w.b.Casual? && w.c.Casual? && w.d.Casual? then Ok(None)
    else if w.a.Casual? && w.b.Conceptual? && w.c.Casual? && w.d.Casual? then
      ConvexCase(st, preds.orient, w.c.index, w.d.index, w.a.index)
    else if w.a.Casual? && w.b.Casual? && w.c.Conceptual? && w.d.Casual? then
      HullCase(st, preds, w.a.index, w.abd, w.bcd)
    else if w.a.Casual? && w.b.Casual? && w.c.Casual? && w.d.Conceptual? then
      ConvexCase(st, preds.orient, w.a.index, w.b.index, w.c.index)
    else Fail("Unexpected node configuration to decide flip for!")
  }

  /** `should_flip_hedge`: which flip, if any, hedge `h` needs. A missing
      hedge is an error and an edge with a tombstone around it needs none;
      a 1->3 flip is never asked for, and a 3->1 flip only when weighted. */
  function ShouldFlipHedge(st: Tri2, preds: Preds2, h: nat): (r: Result<Option<Flip>>)
    ensures h >= |st.tds.nodes| ==> r.IsError()
    ensures WedgeOf(st.tds, h).Ok? && WedgeOf(st.tds, h).value.None? ==> r == Ok(None)
    ensures WedgeOf(st.tds, h).Ok? && WedgeOf(st.tds, h).value.Some? ==>
      r == FlipCase(st, preds, h, WedgeOf(st.tds, h).value.value)
    ensures r.Ok? && r.value.Some? ==> !r.value.value.OneToThree?
    ensures r.Ok? && r.value.Some? && r.value.value.ThreeToOne? ==> Weighted(st)
  {
    var w :- WedgeOf(st.tds, h);
    if w.None? then Ok(None) else FlipCase(st, preds, h, w.value)
  }

  // ---------------------------------------------------------------------
  // The flip loop of insert_v_helper

  /** The fields no flip touches. */
  predicate SameInputs(st: Tri2, st': Tri2) {
    st'.eps == st.eps && st'.vertices == st.vertices && st'.weights == st.weights
  }

  /** The three vertex lists are unchanged. */
  predicate SameLists(st: Tri2, st': Tri2) {
    st'.used == st.used && st'.redundant == st.redundant && st'.ignored == st.ignored
  }

  /** Same slot count and array lengths: flips rewrite slots in place. */
  predicate SameShape(ds: TriDs, ds': TriDs) {
    Slots(ds') == Slots(ds) && |ds'.nodes| == |ds.nodes| && |ds'.twins| == |ds.twins|
  }

  /** The remembered starting triangle of the next walk is a slot. */
  predicate LastInRange(st: Tri2) {
    st.last.None? || st.last.value < Slots(st.tds)
  }

  /** The 2->2 branch: the twins of the other two hedges of `h`'s triangle
      are pushed (read before the flip), then the flip is made and its
      first triangle remembered. */
  function TwoToTwoStep(st: Tri2, h: nat): (r: Result<(Tri2, seq<nat>)>)
    ensures h >= |st.tds.nodes| ==> r.IsError()
    ensures r.Ok? ==> var (st', pushed) := r.value;
      SameInputs(st, st') && SameLists(st, st') && SameShape(st.tds, st'.tds) &&
      st'.tds.numTris == st.tds.numTris && st'.tds.numDeleted == st.tds.numDeleted &&
      h < |st.tds.nodes| && st'.last == Some(h / 3) &&
      Prev(h) < |st.tds.twins| && Next(h) < |st.tds.twins| &&
      pushed == [st.tds.twins[Prev(h)], st.tds.twins[Next(h)]]
  {
    var _ :- GetHedge(st.tds, h);
    var p :- TwinAt(st.tds, Prev(h));
    var n :- TwinAt(st.tds, Next(h));
    var res :- FlipTwoToTwo(st.tds, h);
    Ok((st.(tds := res.0, last := Some(res.1[0])), [p, n]))
  }

  /** `flip_3_to_1` seen through its counts: two slots become tombstones,
      the arrays keep their length and the merged triangle is `t0`. */
  function MergeThree(ds: TriDs, t0: nat, t1: nat, t2: nat, reflex: nat, vertices: seq<Pt2>, orient: Orient2)
    : (r: Result<TriDs>)
    ensures r.Ok? ==> (r.value.numTris + 2 == ds.numTris && r.value.numDeleted == ds.numDeleted + 2 &&
      |r.value.nodes| == |ds.nodes| && |r.value.twins| == |ds.twins|)
  {
    var res :- FlipThreeToOne(ds, t0, t1, t2, reflex, vertices, orient);
    Ok(res.0)
  }

  /** The 3->1 branch: the triangles of `h` and of its twin merge with the
      third one into slot `h / 3`, whose three outer twins are pushed. */
  function ThreeToOneStep(st: Tri2, orient: Orient2, h: nat, third: nat, reflex: nat): (r: Result<(Tri2, seq<nat>)>)
    ensures h >= |st.tds.nodes| ==> r.IsError()
    ensures r.Ok? ==> SameInputs(st, r.value.0) && SameLists(st, r.value.0) && SameShape(st.tds, r.value.0.tds)
    ensures r.Ok? ==> (r.value.0.tds.numTris + 2 == st.tds.numTris &&
      r.value.0.tds.numDeleted == st.tds.numDeleted + 2)
    ensures r.Ok? ==> h < |st.tds.nodes| && r.value.0.last == Some(h / 3)
    ensures r.Ok? ==> var (ds', t) := (r.value.0.tds, h / 3);
      3 * t + 2 < |ds'.twins| && r.value.1 == [ds'.twins[3 * t], ds'.twins[3 * t + 1], ds'.twins[3 * t + 2]]
  {
    var _ :- GetHedge(st.tds, h);
    var tw :- TwinAt(st.tds, h);
    var ds' :- MergeThree(st.tds, h / 3, tw / 3, third, reflex, st.vertices, orient);
    var t := h / 3;
    if t >= Slots(ds') then Fail("Tri index out of bounds!")
    else if 3 * t + 2 >= |ds'.twins| then Crash("index out of bounds: hedge_twins")
    else Ok((st.(tds := ds', last := Some(t)), [ds'.twins[3 * t], ds'.twins[3 * t + 1], ds'.twins[3 * t + 2]]))
  }

  /** One verdict of `should_flip_hedge` carried out. A 1->3 verdict is
      ignored, as the source only logs it. */
  function FlipStep(st: Tri2, orient: Orient2, h: nat, flip: Flip): (r: Result<(Tri2, seq<nat>)>)
    ensures flip.OneToThree? ==> r == Ok((st, []))
    ensures flip.TwoToTwo? ==> r == TwoToTwoStep(st, h)
    ensures flip.ThreeToOne? ==> r == ThreeToOneStep(st, orient, h, flip.third, flip.reflex)
    ensures r.Ok? ==> (SameInputs(st, r.value.0) && SameLists(st, r.value.0) &&
      SameShape(st.tds, r.value.0.tds) && r.value.0.tds.numTris <= st.tds.numTris)
    ensures r.Ok? && !flip.ThreeToOne? ==> r.value.0.tds.numTris == st.tds.numTris
    ensures r.Ok? && Sized(st.tds) && LastInRange(st) ==> LastInRange(r.value.0)
  {
    match flip
    case OneToThree => Ok((st, []))
    case TwoToTwo => TwoToTwoStep(st, h)
    case ThreeToOne(third, reflex) => ThreeToOneStep(st, orient, h, third, reflex)
  }

  /** The flip loop: hedges are popped from the end of the stack and
      flipped until every one tested is locally regular. The source loop has
      no bound; `fuel` counts the hedges tested and running out of it is
      reported as divergence. Flips only rewrite slots: the inputs, the
      vertex lists and the slot count are kept, triangles are only lost to
      3->1 flips, which an unweighted triangulation never makes. */
  method FlipLoop(st: Tri2, preds: Preds2, stack: seq<nat>, fuel: nat) returns (r: Result<Tri2>)
    ensures stack == [] ==> r == Ok(st)
    ensures r.Ok? ==> SameInputs(st, r.value) && SameLists(st, r.value) && SameShape(st.tds, r.value.tds)
    ensures r.Ok? ==> r.value.tds.numTris <= st.tds.numTris
    ensures r.Ok? && !Weighted(st) ==> r.value.tds.numTris == st.tds.numTris
    ensures r.Ok? && Sized(st.tds) && LastInRange(st) ==> LastInRange(r.value)
  {
    var cur := st;
    var todo := stack;
    var left := fuel;
    while todo != []
      invariant SameInputs(st, cur) && SameLists(st, cur) && SameShape(st.tds, cur.tds)
      invariant cur.tds.numTris <= st.tds.numTris
      invariant !Weighted(st) ==> cur.tds.numTris == st.tds.numTris
      invariant Sized(st.tds) && LastInRange(st) ==> LastInRange(cur)
      invariant stack == [] ==> todo == [] && cur == st
      decreases left
    {
      if left == 0 {
        return Err(Diverge("flip stack never empties"));
      }
      left := left - 1;
      var h := todo[|todo| - 1];
      todo := todo[..|todo| - 1];
      var verdict := ShouldFlipHedge(cur, preds, h);
      if verdict.Err? {
        return verdict.PropagateFailure();
      }
      if verdict.value.Some? {
        var step := FlipStep(cur, preds.orient, h, verdict.value.value);
        if step.Err? {
          return step.PropagateFailure();
        }
        cur := step.value.0;
        todo := todo + step.value.1;
      }
    }
    return Ok(cur);
  }

  // ---------------------------------------------------------------------
  // insert_v_helper, insert_vertex

  /** The walk that finds the triangle containing a vertex, given the
      state, the vertex and the triangle to start from. */
  type Locate = (Tri2, nat, nat) -> Result<nat>

  /** The epsilon filter: with an epsilon set, a vertex found in a
      non-conceptual triangle but outside its epsilon power circle is
      skipped. */
  function EpsFilter(st: Tri2, preds: Preds2, v: nat, c: nat): (r: Result<bool>)
    ensures st.eps.None? ==> r == Ok(false)
    ensures r == Ok(true) <==> (st.eps.Some? && SlotOk(st.tds, c) && !Conceptual3(TriNodes(st.tds, c)) &&
      InEpsPowerCircle(st, preds, v, c) == Ok(false))
    ensures st.eps.Some? && c >= Slots(st.tds) ==> r.IsError()
  {
    if st.eps.None? then Ok(false)
    else
      var _ :- GetTri(st.tds, c);
      var ns :- SlotNodes(st.tds, c);
      if Conceptual3(ns) then Ok(false)
      else
        var inside :- InEpsPowerCircle(st, preds, v, c);
        Ok(!inside)
  }

  /** The weighted filter: a vertex outside the power circle of its
      triangle is redundant, it would not appear in the regular
      triangulation. */
  function PowerFilter(st: Tri2, preds: Preds2, v: nat, c: nat): (r: Result<bool>)
    ensures !Weighted(st) ==> r == Ok(false)
    ensures r == Ok(true) <==> (Weighted(st) && InPowerCircle(st, preds, v, c) == Ok(false))
    ensures r == Ok(false) <==> (!Weighted(st) || InPowerCircle(st, preds, v, c) == Ok(true))
  {
    if !Weighted(st) then Ok(false)
    else
      var inside :- InPowerCircle(st, preds, v, c);
      Ok(!inside)
  }

  /** The twins of the three hedges of slot `c`, the first hedges to test
      after a 1->3 flip in it. */
  function OuterTwins(ds: TriDs, c: nat): (r: Result<seq<nat>>)
    ensures c >= Slots(ds) ==> r.IsError()
    ensures r.Ok? ==> (c < Slots(ds) && 3 * c + 2 < |ds.twins| &&
      r.value == [ds.twins[3 * c], ds.twins[3 * c + 1], ds.twins[3 * c + 2]])
  {
    var _ :- GetTri(ds, c);
    if 3 * c + 2 >= |ds.twins| then Crash("index out of bounds: hedge_twins")
    else Ok([ds.twins[3 * c], ds.twins[3 * c + 1], ds.twins[3 * c + 2]])
  }

  /** `v` was skipped by the epsilon filter: only the ignored list changed. */
  predicate IgnoredAs(st: Tri2, st': Tri2, v: nat) {
    st' == st.(ignored := st.ignored + [v])
  }

  /** `v` was found redundant: only the redundant list changed. */
  predicate RedundantAs(st: Tri2, st': Tri2, v: nat) {
    st' == st.(redundant := st.redundant + [v])
  }

  /** `v` was inserted: it joined the used list and the structure gained two
      slots (the 1->3 flip; later flips keep the slot count). */
  predicate InsertedAs(st: Tri2, st': Tri2, v: nat) {
    SameInputs(st, st') && st'.used == st.used + [v] && st'.redundant == st.redundant &&
    st'.ignored == st.ignored && Slots(st'.tds) == Slots(st.tds) + 2
  }

  /** `insert_v_helper`: locate `v` from triangle `near`, then skip it (epsilon
      filter), drop it as redundant (weighted only), or insert it with a
      1->3 flip and restore regularity with the flip loop. */
  method InsertVHelper(st: Tri2, preds: Preds2, locate: Locate, v: nat, near: nat, fuel: nat) returns (r: Result<Tri2>)
    ensures locate(st, v, near).Err? ==> r == locate(st, v, near).PropagateFailure()
    ensures r.Ok? ==> IgnoredAs(st, r.value, v) || RedundantAs(st, r.value, v) || InsertedAs(st, r.value, v)
    ensures r.Ok? && IgnoredAs(st, r.value, v) ==> EpsFilter(st, preds, v, locate(st, v, near).value) == Ok(true)
    ensures r.Ok? && RedundantAs(st, r.value, v) ==> (EpsFilter(st, preds, v, locate(st, v, near).value) == Ok(false) &&
      Weighted(st) && InPowerCircle(st, preds, v, locate(st, v, near).value) == Ok(false))
    ensures r.Ok? && InsertedAs(st, r.value, v) ==> (EpsFilter(st, preds, v, locate(st, v, near).value) == Ok(false) &&
      PowerFilter(st, preds, v, locate(st, v, near).value) == Ok(false))
    ensures r.Ok? && !Weighted(st) && st.eps.None? ==> InsertedAs(st, r.value, v)
    ensures r.Ok? && InsertedAs(st, r.value, v) && !Weighted(st) ==>
      r.value.tds.numTris == st.tds.numTris + 2 && r.value.tds.numDeleted == st.tds.numDeleted
    ensures r.Ok? && Sized(st.tds) && LastInRange(st) ==> Sized(r.value.tds) && LastInRange(r.value)
    ensures r.Ok? && InsertedAs(st, r.value, v) ==> Slots(st.tds) > 0
  {
    var c :- locate(st, v, near);
    var skip :- EpsFilter(st, preds, v, c);
    if skip {
      return Ok(st.(ignored := st.ignored + [v]));
    }
    var redundant :- PowerFilter(st, preds, v, c);
    if redundant {
      return Ok(st.(redundant := st.redundant + [v]));
    }
    var stack :- OuterTwins(st.tds, c);
    var res :- FlipOneToThree(st.tds, c, v);
    var st' := st.(used := st.used + [v], tds := res.0, last := Some(res.1[0]));
    r := FlipLoop(st', preds, stack, fuel);
  }

  /** `insert_vertex`: refused while there is no triangle; otherwise the
      vertex is appended (with its weight) and inserted starting from the
      given triangle, else the last one touched, else the last slot. The
      new vertex ends in exactly one of the three lists. */
  method InsertVertex(st: Tri2, preds: Preds2, locate: Locate, p: Pt2, weight: Option<real>, near: Option<nat>, fuel: nat)
    returns (r: Result<Tri2>)
    ensures st.tds.numTris == 0 ==> r.IsError()
    ensures r.Ok? ==> r.value.vertices == st.vertices + [p] && r.value.weights == PushWeight(st.weights, weight)
    ensures r.Ok? ==> var st' := st.(vertices := st.vertices + [p], weights := PushWeight(st.weights, weight));
      IgnoredAs(st', r.value, |st.vertices|) || RedundantAs(st', r.value, |st.vertices|) ||
      InsertedAs(st', r.value, |st.vertices|)
    ensures r.Ok? && !Weighted(st) && st.eps.None? ==> (r.value.used == st.used + [|st.vertices|] &&
      r.value.tds.numTris == st.tds.numTris + 2)
  {
    if st.tds.numTris == 0 {
      return Fail("Needs at least 1 triangle in the triangulation to insert a vertex!");
    }
    var st' := st.(vertices := st.vertices + [p], weights := PushWeight(st.weights, weight));
    var from := if near.Some? then near.value else if st.last.Some? then st.last.value else Slots(st.tds) - 1;
    r := InsertVHelper(st', preds, locate, |st.vertices|, from, fuel);
  }

  // ---------------------------------------------------------------------
  // insert_init_tri

  /** The third vertex found for the first triangle, the sign it makes with
      the first two, the indices left to pop and those found collinear. */
  datatype Pick = Pick(i2: nat, sign: Sign, rest: seq<nat>, aligned: seq<nat>)

  /** Every index names a vertex collinear with `v0` and `v1`. */
  predicate AllAligned(vs: seq<Pt2>, orient: Orient2, v0: Pt2, v1: Pt2, idxs: seq<nat>) {
    forall k :: 0 <= k < |idxs| ==> idxs[k] < |vs| && orient(v0, v1, vs[idxs[k]]) == 0
  }

  /** The search loop of `insert_init_tri`: indices are popped from the end;
      collinear ones are set aside, the first other one is the third corner.
      Only when every index is collinear is it an error. */
  function InitScan(vs: seq<Pt2>, orient: Orient2, v0: Pt2, v1: Pt2, idxs: seq<nat>, aligned: seq<nat>): (r: Result<Pick>)
    ensures r.IsError() <==> AllAligned(vs, orient, v0, v1, idxs)
    ensures r.Err? ==> r.IsError() || r.IsPanic()
    ensures r.Ok? ==> (r.value.i2 < |vs| && r.value.sign == orient(v0, v1, vs[r.value.i2]) && r.value.sign != 0 &&
      |r.value.rest| < |idxs| && r.value.rest == idxs[..|r.value.rest|] && idxs[|r.value.rest|] == r.value.i2)
    ensures r.Ok? ==> (multiset(r.value.rest) + multiset(r.value.aligned) + multiset{r.value.i2} ==
      multiset(idxs) + multiset(aligned))
    decreases |idxs|
  {
    if idxs == [] then Fail("All points are aligned, i.e. could not find 3 non-aligned points !")
    else
      var init := idxs[..|idxs| - 1];
      var i2 := idxs[|idxs| - 1];
      assert idxs == init + [i2];
      if i2 >= |vs| then Crash("index out of bounds: vertices")
      else
        var o := orient(v0, v1, vs[i2]);
        if o == 0 then
          var r := InitScan(vs, orient, v0, v1, init, aligned + [i2]);
          assert AllAligned(vs, orient, v0, v1, idxs) <==> AllAligned(vs, orient, v0, v1, init);
          if r.Ok? then
            assert r.value.rest == init[..|r.value.rest|];
            r
          else r
        else Ok(Pick(i2, o, init, aligned))
  }

  /** The corners of the first triangle in counter-clockwise order: the
      popped order when it turns left, the last two swapped otherwise. */
  function InitCorners(vs: seq<Pt2>, orient: Orient2, i0: nat, i1: nat, pick: Pick): (r: (nat, nat, nat))
    requires i0 < |vs| && i1 < |vs| && pick.i2 < |vs|
    requires pick.sign == orient(vs[i0], vs[i1], vs[pick.i2]) && pick.sign != 0
    ensures multiset{r.0, r.1, r.2} == multiset{i0, i1, pick.i2}
    ensures r.0 < |vs| && r.1 < |vs| && r.2 < |vs|
    ensures Antisymmetric2(orient) ==> orient(vs[r.0], vs[r.1], vs[r.2]) == 1
  {
    if pick.sign > 0 then (i0, i1, pick.i2) else (i0, pick.i2, i1)
  }

  /** The first triangle, once the two first corners are known: the
      structure after `add_init_tri`, the corners in the order they were
      popped, and the indices still to insert. */
  datatype Start = Start(ds: TriDs, corners: seq<nat>, left: seq<nat>)

  /** The three corners of the first slot are vertices turning
      counter-clockwise. */
  predicate CcwFirst(vs: seq<Pt2>, orient: Orient2, ds: TriDs, n: nat)
    requires n + 2 < |ds.nodes|
  {
    var (x, y, z) := (ds.nodes[n], ds.nodes[n + 1], ds.nodes[n + 2]);
    x.Casual? && y.Casual? && z.Casual? && x.index < |vs| && y.index < |vs| && z.index < |vs| &&
    orient(vs[x.index], vs[y.index], vs[z.index]) == 1
  }

  /** `add_init_tri` seen through its counts and its first slot. */
  function AddFirst(ds: TriDs, a: nat, b: nat, c: nat): (r: Result<TriDs>)
    ensures r.Err? ==> r.IsError()
    ensures r.Ok? ==> (r.value.numTris == 4 && r.value.numDeleted == ds.numDeleted &&
      |r.value.nodes| == |ds.nodes| + 12 && |r.value.twins| == |ds.twins| + 12)
    ensures r.Ok? ==> (r.value.nodes[|ds.nodes|] == Casual(a) && r.value.nodes[|ds.nodes| + 1] == Casual(b) &&
      r.value.nodes[|ds.nodes| + 2] == Casual(c))
  {
    var res :- AddInitTri(ds, a, b, c);
    assert res.0.nodes[|ds.nodes| ..] == InitNodes(a, b, c);
    Ok(res.0)
  }

  /** Book-keeping of the first triangle: the three corners and the
      indices left over together are the indices scanned. */
  lemma CornersAndLeft(corners: seq<nat>, rest: seq<nat>, aligned: seq<nat>, scanned: seq<nat>, i0: nat, i1: nat, i2: nat)
    requires corners == [i0, i1, i2]
    requires multiset(rest) + multiset(aligned) + multiset{i2} == multiset(scanned)
    ensures multiset(corners) + multiset(rest + aligned) == multiset(scanned) + multiset{i0, i1}
  {
    assert multiset(corners) == multiset{i0, i1} + multiset{i2};
    assert multiset(rest + aligned) == multiset(rest) + multiset(aligned);
  }

  function StartTri(vs: seq<Pt2>, orient: Orient2, ds: TriDs, i0: nat, i1: nat, rest: seq<nat>): (r: Result<Start>)
    ensures r.Ok? ==> (|r.value.corners| == 3 && r.value.corners[..2] == [i0, i1] &&
      multiset(r.value.corners) + multiset(r.value.left) == multiset(rest) + multiset{i0, i1})
    ensures r.Ok? ==> (r.value.ds.numTris == 4 && r.value.ds.numDeleted == ds.numDeleted &&
      |r.value.ds.nodes| == |ds.nodes| + 12 && |r.value.ds.twins| == |ds.twins| + 12)
    ensures r.Ok? && Antisymmetric2(orient) ==> CcwFirst(vs, orient, r.value.ds, |ds.nodes|)
    ensures ds.numTris > 0 && r.Err? ==> r.IsError() || r.IsPanic()
  {
    var v0 :- PointAt(vs, i0);
    var v1 :- PointAt(vs, i1);
    var pick :- InitScan(vs, orient, v0, v1, rest, []);
    assert multiset(pick.rest) + multiset(pick.aligned) + multiset{pick.i2} == multiset(rest) by {
      assert multiset(rest) + multiset([]) == multiset(rest);
    }
    CornersAndLeft([i0, i1, pick.i2], pick.rest, pick.aligned, rest, i0, i1, pick.i2);
    var corners := InitCorners(vs, orient, i0, i1, pick);
    var ds' :- AddFirst(ds, corners.0, corners.1, corners.2);
    assert Antisymmetric2(orient) ==> CcwFirst(vs, orient, ds', |ds.nodes|) by {
      if Antisymmetric2(orient) {
        assert orient(vs[corners.0], vs[corners.1], vs[corners.2]) == 1;
      }
    }
    Ok(Start(ds', [i0, i1, pick.i2], pick.rest + pick.aligned))
  }

  /** `insert_init_tri`, run only when no vertex has been consumed yet (as
      many indices to insert as vertices): the last two indices and the
      first non-collinear one popped after them make the first triangle,
      inserted counter-clockwise; collinear ones go back on the list. The
      last triangle becomes slot 0 in every case. */
  function InsertInitTri(st: Tri2, orient: Orient2, idxs: seq<nat>): (r: Result<(Tri2, seq<nat>)>)
    ensures r.Ok? ==> r.value.0.last == Some(0) && SameInputs(st, r.value.0)
    ensures r.Ok? ==> r.value.0.redundant == st.redundant && r.value.0.ignored == st.ignored
    ensures |st.vertices| != |idxs| ==> r == Ok((st.(last := Some(0)), idxs))
    ensures |st.vertices| == |idxs| && |idxs| < 2 ==> r.IsPanic()
    ensures |st.vertices| == |idxs| && r.Ok? ==> (|r.value.0.used| == |st.used| + 3 &&
      r.value.0.used[..|st.used|] == st.used &&
      multiset(r.value.0.used[|st.used|..]) + multiset(r.value.1) == multiset(idxs))
    ensures |st.vertices| == |idxs| && r.Ok? ==> (r.value.0.tds.numTris == 4 &&
      r.value.0.tds.numDeleted == st.tds.numDeleted && |r.value.0.tds.nodes| == |st.tds.nodes| + 12 &&
      |r.value.0.tds.twins| == |st.tds.twins| + 12)
    ensures |st.vertices| == |idxs| && r.Ok? && Antisymmetric2(orient) ==>
      CcwFirst(st.vertices, orient, r.value.0.tds, |st.tds.nodes|)
    ensures |st.vertices| == |idxs| && st.tds.numTris > 0 && r.Err? ==> r.IsError() || r.IsPanic()
  {
    if |st.vertices| != |idxs| then Ok((st.(last := Some(0)), idxs))
    else if |idxs| < 2 then Crash("called `Option::unwrap()` on a `None` value")
    else
      var rest := idxs[..|idxs| - 2];
      assert idxs == rest + [idxs[|idxs| - 2], idxs[|idxs| - 1]];
      var start :- StartTri(st.vertices, orient, st.tds, idxs[|idxs| - 1], idxs[|idxs| - 2], rest);
      var used' := st.used + start.corners;
      assert used'[|st.used|..] == start.corners;
      Ok((st.(tds := start.ds, used := used', last := Some(0)), start.left))
  }

  // ---------------------------------------------------------------------
  // insert_vertices

  /** The three lists every processed vertex ends in. */
  function Lists(st: Tri2): seq<nat> {
    st.used + st.redundant + st.ignored
  }

  /** One vertex classified by `insert_v_helper` joins exactly one list. */
  lemma ListsGain(st: Tri2, st': Tri2, v: nat)
    requires IgnoredAs(st, st', v) || RedundantAs(st, st', v) || InsertedAs(st, st', v)
    ensures multiset(Lists(st')) == multiset(Lists(st)) + multiset{v}
  {
  }

  /** Every slot ever made is counted by the used vertices: the first
      triangle comes with three conceptual ones (four slots for three
      vertices) and every inserted vertex adds two, so a triangulation with
      `n` used vertices has `2 n - 2` slots, live or tombstoned. */
  predicate EulerCount(st: Tri2) {
    if st.used == [] then Slots(st.tds) == 0 else Slots(st.tds) + 2 == 2 * |st.used|
  }

  /** Where `insert_vertices` may start from: a fresh triangulation, or one
      with triangles whose last triangle is a slot. */
  predicate Startable(st: Tri2) {
    (st.tds == Empty() && st.vertices == []) || (st.tds.numTris > 0 && Sized(st.tds) && LastInRange(st))
  }

  lemma InitLists(st: Tri2, st': Tri2, idxs: seq<nat>, left: seq<nat>)
    requires |st'.used| == |st.used| + 3 && st'.used[..|st.used|] == st.used
    requires st'.redundant == st.redundant && st'.ignored == st.ignored
    requires multiset(st'.used[|st.used|..]) + multiset(left) == multiset(idxs)
    ensures multiset(Lists(st')) + multiset(left) == multiset(Lists(st)) + multiset(idxs)
  {
    assert st'.used == st.used + st'.used[|st.used|..];
  }

  /** What every step of the main loop keeps: the inputs, the Euler
      count, the absence of tombstones and, in the classic case, the empty
      redundant and ignored lists; and the last triangle stays a slot. */
  predicate Keeps(st: Tri2, st': Tri2) {
    SameInputs(st, st') &&
    (EulerCount(st) ==> EulerCount(st')) &&
    (!Weighted(st) && st.tds.numDeleted == 0 ==> st'.tds.numDeleted == 0) &&
    (!Weighted(st) && st.eps.None? ==> st'.redundant == st.redundant && st'.ignored == st.ignored) &&
    (Sized(st.tds) && LastInRange(st) ==> Sized(st'.tds) && LastInRange(st'))
  }

  lemma KeepsTrans(s0: Tri2, s1: Tri2, s2: Tri2)
    requires Keeps(s0, s1) && Keeps(s1, s2)
    ensures Keeps(s0, s2)
  {
  }

  /** One turn of the main loop: the start triangle is the last one touched,
      or the last slot. The fallback index is computed even when a last
      triangle is known, so with no slot at all it underflows and panics. */
  method InsertOne(st: Tri2, preds: Preds2, locate: Locate, v: nat, flipFuel: nat) returns (r: Result<Tri2>)
    ensures r.Ok? ==> Keeps(st, r.value)
    ensures r.Ok? ==> multiset(Lists(r.value)) == multiset(Lists(st)) + multiset{v}
    ensures Slots(st.tds) == 0 ==> r.IsPanic()
  {
    if Slots(st.tds) == 0 {
      return Crash("attempt to subtract with overflow");
    }
    var near := if st.last.Some? then st.last.value else Slots(st.tds) - 1;
    r := InsertVHelper(st, preds, locate, v, near, flipFuel);
    if r.Ok? {
      ListsGain(st, r.value, v);
    }
  }

  /** The main loop of `insert_vertices`: indices are popped from the end
      and each vertex is inserted in turn. */
  method InsertLoop(st: Tri2, preds: Preds2, locate: Locate, idxs: seq<nat>, flipFuel: nat) returns (r: Result<Tri2>)
    ensures r.Ok? ==> Keeps(st, r.value)
    ensures r.Ok? ==> multiset(Lists(r.value)) == multiset(Lists(st)) + multiset(idxs)
  {
    var cur := st;
    var todo := idxs;
    while todo != []
      invariant Keeps(st, cur)
      invariant multiset(Lists(cur)) + multiset(todo) == multiset(Lists(st)) + multiset(idxs)
      decreases |todo|
    {
      var v := todo[|todo| - 1];
      assert todo == todo[..|todo| - 1] + [v];
      todo := todo[..|todo| - 1];
      var next := InsertOne(cur, preds, locate, v, flipFuel);
      if next.Err? {
        return next.PropagateFailure();
      }
      KeepsTrans(st, cur, next.value);
      cur := next.value;
    }
    return Ok(cur);
  }

  /** The part of `insert_vertices` before the main loop: the batch is
      appended and given the next indices, the size check, the optional
      Hilbert ordering and the first triangle when there is none. Returns
      the state and the indices left to insert. The batch and the weights
      are written before any check, so `appended`, the structure with just
      those writes, is what a failed size check leaves behind. */
  method StartBatch(st: Tri2, orient: Orient2, vs: seq<Pt2>, weights: Option<seq<real>>, sort: bool, sortFuel: nat)
    returns (appended: Tri2, r: Result<(Tri2, seq<nat>)>)
    ensures appended.vertices == st.vertices + vs && appended.weights == BatchWeights(st.weights, weights, |vs|)
    ensures appended.(vertices := st.vertices, weights := st.weights) == st
    ensures |st.vertices| + |vs| < 3 ==> r.IsError()
    ensures r.Ok? ==> (r.value.0.vertices == st.vertices + vs && r.value.0.eps == st.eps &&
      r.value.0.weights == BatchWeights(st.weights, weights, |vs|))
    ensures r.Ok? ==> (multiset(Lists(r.value.0)) + multiset(r.value.1) ==
      multiset(Lists(st)) + multiset(Range(|st.vertices|, |vs|)))
    ensures r.Ok? ==> r.value.0.redundant == st.redundant && r.value.0.ignored == st.ignored
    ensures r.Ok? && st.tds == Empty() && st.used == [] ==> EulerCount(r.value.0)
    ensures r.Ok? && st.tds == Empty() ==> r.value.0.tds.numDeleted == 0
    ensures r.Ok? && Startable(st) ==> Sized(r.value.0.tds) && LastInRange(r.value.0)
  {
    var st0 := st.(vertices := st.vertices + vs, weights := BatchWeights(st.weights, weights, |vs|));
    appended := st0;
    var idxs := Range(|st.vertices|, |vs|);
    if |st0.vertices| < 3 {
      return appended, Fail("Needs at least 3 vertices to compute a 2D Triangulation!");
    }
    if sort {
      var sorted := Hilbert.HilbertSort2(st0.vertices, idxs, sortFuel);
      if sorted.Err? {
        return appended, sorted.PropagateFailure();
      }
      idxs := sorted.value;
    }
    if st0.tds.numTris > 0 {
      return appended, Ok((st0, idxs));
    }
    var init := InsertInitTri(st0, orient, idxs);
    if init.Err? {
      return appended, init.PropagateFailure();
    }
    if |st0.vertices| == |idxs| {
      InitLists(st0, init.value.0, idxs, init.value.1);
    }
    return appended, init;
  }

  /** `insert_vertices`: the batch is appended and given the next indices,
      optionally ordered along a Hilbert curve; the first triangle is made
      if there is none, then the main loop inserts the rest. Every new
      index ends in exactly one of the three lists; from a fresh
      triangulation the slots obey the Euler count, there are no tombstones
      without weights, and the classic (unweighted, no epsilon) case uses
      every vertex. With fewer than three vertices in all the call fails
      and leaves `appended`: the batch added and the weights replaced,
      nothing else changed. */
  method InsertVertices(st: Tri2, preds: Preds2, locate: Locate, vs: seq<Pt2>, weights: Option<seq<real>>,
                        sort: bool, sortFuel: nat, flipFuel: nat) returns (appended: Tri2, r: Result<Tri2>)
    ensures appended.vertices == st.vertices + vs && appended.weights == BatchWeights(st.weights, weights, |vs|)
    ensures appended.(vertices := st.vertices, weights := st.weights) == st
    ensures |st.vertices| + |vs| < 3 ==> r.IsError()
    ensures r.Ok? ==> (r.value.vertices == st.vertices + vs && r.value.eps == st.eps &&
      r.value.weights == BatchWeights(st.weights, weights, |vs|))
    ensures r.Ok? ==> multiset(Lists(r.value)) == multiset(Lists(st)) + multiset(Range(|st.vertices|, |vs|))
    ensures r.Ok? && st.tds == Empty() && st.used == [] ==> EulerCount(r.value)
    ensures r.Ok? && st.tds == Empty() && !Weighted(r.value) ==> r.value.tds.numDeleted == 0
    ensures r.Ok? && !Weighted(r.value) && st.eps.None? ==> (r.value.redundant == st.redundant &&
      r.value.ignored == st.ignored)
    ensures r.Ok? && Startable(st) ==> Sized(r.value.tds) && LastInRange(r.value)
  {
    var start;
    appended, start := StartBatch(st, preds.orient, vs, weights, sort, sortFuel);
    if start.Err? {
      return appended, start.PropagateFailure();
    }
    r := InsertLoop(start.value.0, preds, locate, start.value.1, flipFuel);
  }

  // ---------------------------------------------------------------------
  // is_regular

  /** A vertex raises no complaint against slot `t`: it is a corner of the
      triangle, or it lies outside the power circle. */
  predicate Clear(st: Tri2, preds: Preds2, t: nat, ns: seq<VertexNode>, v: nat) {
    Casual(v) in ns || InPowerCircle(st, preds, v, t) == Ok(false)
  }

  /** The inner loop of `is_regular` over one vertex list, from position
      `i`: corners of the triangle are skipped, and the first other vertex
      inside the power circle is a violation that ends the scan. */
  function ScanList(st: Tri2, preds: Preds2, t: nat, ns: seq<VertexNode>, list: seq<nat>, i: nat): (r: Result<bool>)
    requires i <= |list|
    ensures r == Ok(false) <==> forall k :: i <= k < |list| ==> Clear(st, preds, t, ns, list[k])
    ensures r == Ok(true) ==> exists k :: (i <= k < |list| && Casual(list[k]) !in ns &&
      InPowerCircle(st, preds, list[k], t) == Ok(true))
    ensures r.Err? ==> exists k :: (i <= k < |list| && Casual(list[k]) !in ns &&
      r == InPowerCircle(st, preds, list[k], t))
    decreases |list| - i
  {
    if i == |list| then Ok(false)
    else if Casual(list[i]) in ns then ScanList(st, preds, t, ns, list, i + 1)
    else
      var inside :- InPowerCircle(st, preds, list[i], t);
      if inside then Ok(true) else ScanList(st, preds, t, ns, list, i + 1)
  }

  function Flag(b: bool): nat {
    if b then 1 else 0
  }

  /** Slot `t` passes `is_regular`: it is a tombstone, or it is not flat and
      no used or redundant vertex other than its corners lies inside its
      power circle. */
  predicate SlotRegular(st: Tri2, preds: Preds2, t: nat) {
    SlotOk(st.tds, t) &&
    (Deleted in TriNodes(st.tds, t) ||
     (IsTriFlat(st, preds.orient, t) == Ok(false) &&
      (forall k :: 0 <= k < |st.redundant| ==> Clear(st, preds, t, TriNodes(st.tds, t), st.redundant[k])) &&
      (forall k :: 0 <= k < |st.used| ==> Clear(st, preds, t, TriNodes(st.tds, t), st.used[k]))))
  }

  /** One iteration of the outer loop of `is_regular`: the number of
      violations slot `t` adds (a flat triangle, a redundant vertex inside,
      a used vertex inside). */
  function SlotViolations(st: Tri2, preds: Preds2, t: nat): (r: Result<nat>)
    ensures r == Ok(0) <==> SlotRegular(st, preds, t)
    ensures r.Ok? ==> SlotOk(st.tds, t) && r.value <= 3
    ensures t >= Slots(st.tds) ==> r.IsError()
  {
    var ns :- NodesOf(st.tds, t);
    if Deleted in ns then Ok(0)
    else
      var flat :- IsTriFlat(st, preds.orient, t);
      var red :- ScanList(st, preds, t, ns, st.redundant, 0);
      var used :- ScanList(st, preds, t, ns, st.used, 0);
      Ok(Flag(flat) + Flag(red) + Flag(used))
  }

  /** A loop over `0..n` that adds up per-step counts and stops at the
      first failing step, as the outer loop of `is_regular` does. */
  function SumSteps(step: nat -> Result<nat>, n: nat): (r: Result<nat>)
    ensures r.Ok? ==> (r.value == 0 <==> forall t :: 0 <= t < n ==> step(t) == Ok(0))
    ensures r.Ok? ==> forall t :: 0 <= t < n ==> step(t).Ok?
    ensures r.Err? ==> exists t :: 0 <= t < n && step(t).Err? && r == step(t).PropagateFailure()
  {
    if n == 0 then Ok(0)
    else
      var c :- SumSteps(step, n - 1);
      var d :- step(n - 1);
      Ok(c + d)
  }

  /** The outer loop of `is_regular` over slots `0..n`. */
  function Violations(st: Tri2, preds: Preds2, n: nat): (r: Result<nat>)
    ensures r.Ok? ==> (r.value == 0 <==> forall t :: 0 <= t < n ==> SlotViolations(st, preds, t) == Ok(0))
    ensures r.Ok? <==> forall t :: 0 <= t < n ==> SlotViolations(st, preds, t).Ok?
  {
    var step := t => SlotViolations(st, preds, t);
    assert forall t :: step(t) == SlotViolations(st, preds, t);
    SumSteps(step, n)
  }

  /** The slot checks pass exactly when every slot is regular. */
  lemma SlotsRegular(st: Tri2, preds: Preds2, n: nat)
    ensures (forall t :: 0 <= t < n ==> SlotViolations(st, preds, t) == Ok(0)) <==>
      (forall t :: 0 <= t < n ==> SlotRegular(st, preds, t))
  {
    forall t | 0 <= t < n
      ensures SlotViolations(st, preds, t) == Ok(0) <==> SlotRegular(st, preds, t)
    {
    }
  }

  /** `is_regular`: the flag and the number of violations over every slot,
      live or tombstoned (the ratio the source derives from the count is
      left out). The triangulation is regular exactly when every slot
      passes. */
  function IsRegular(st: Tri2, preds: Preds2): (r: Result<(bool, nat)>)
    ensures r.Ok? ==> (r.value.0 <==> r.value.1 == 0)
    ensures r.Ok? ==> (r.value.0 <==> forall t :: 0 <= t < Slots(st.tds) ==> SlotRegular(st, preds, t))
    ensures r.Ok? <==> forall t :: 0 <= t < Slots(st.tds) ==> SlotViolations(st, preds, t).Ok?
  {
    SlotsRegular(st, preds, Slots(st.tds));
    var c :- Violations(st, preds, Slots(st.tds));
    Ok((c == 0, c))
  }

  /** The earlier `is_regular`, whose loop stops at the live-triangle count
      and so never looks at slots `num_tris..num_tris+num_deleted_tris`. */
  function LegacyIsRegular(st: Tri2, preds: Preds2): (r: Result<(bool, nat)>)
    ensures r.Ok? ==> (r.value.0 <==> r.value.1 == 0)
    ensures r.Ok? ==> (r.value.0 <==> forall t :: 0 <= t < st.tds.numTris ==> SlotRegular(st, preds, t))
    ensures r.Ok? <==> forall t :: 0 <= t < st.tds.numTris ==> SlotViolations(st, preds, t).Ok?
  {
    SlotsRegular(st, preds, st.tds.numTris);
    var c :- Violations(st, preds, st.tds.numTris);
    Ok((c == 0, c))
  }

  /** A state a 3->1 flip can leave behind: slot 0 is a tombstone and
      slot 1 holds a triangle, so `num_tris == 1` while two slots exist.
      The predicates below call every triangle flat. */
  function ShiftedState(): (r: Tri2)
    ensures Slots(r.tds) == 2 && r.tds.numTris == 1
  {
    Tri2(None, TriDs([Deleted, Deleted, Deleted, Casual(0), Casual(1), Casual(2)],
                     [INACTIVE, INACTIVE, INACTIVE, 4, 3, 5], 1, 1),
         [Pt2(0.0, 0.0), Pt2(1.0, 0.0), Pt2(2.0, 0.0)], Flagged([0.0, 0.0, 0.0], false),
         Some(1), [0, 1, 2], [], [])
  }

  function FlatPreds(): Preds2 {
    Preds2((a, b, c) => 0, (a, b, c, p, ha, hb, hc, hp) => 0)
  }

  /** The earlier loop stops at `num_tris == 1`, sees only the tombstone
      and reports a regular triangulation. */
  lemma LegacyMissesLiveSlot()
    ensures LegacyIsRegular(ShiftedState(), FlatPreds()) == Ok((true, 0))
  {
    var st := ShiftedState();
    assert TriNodes(st.tds, 0) == [Deleted, Deleted, Deleted];
    assert SlotViolations(st, FlatPreds(), 0) == Ok(0);
  }

  /** Slot 0 of the shifted state is a tombstone and passes; slot 1 holds a
      flat triangle and fails. */
  lemma ShiftedSlots()
    ensures SlotViolations(ShiftedState(), FlatPreds(), 0) == Ok(0)
    ensures SlotViolations(ShiftedState(), FlatPreds(), 1).Ok? && SlotViolations(ShiftedState(), FlatPreds(), 1) != Ok(0)
  {
    var st := ShiftedState();
    var preds := FlatPreds();
    assert TriNodes(st.tds, 0) == [Deleted, Deleted, Deleted];
    assert TriNodes(st.tds, 1) == [Casual(0), Casual(1), Casual(2)];
    assert IsTriFlat(st, preds.orient, 1) == Ok(true);
  }

  /** The scan over every slot finds the flat triangle in slot 1 and
      reports the triangulation as not regular. */
  lemma FullScanFindsLiveSlot()
    ensures IsRegular(ShiftedState(), FlatPreds()).Ok? && !IsRegular(ShiftedState(), FlatPreds()).value.0
  {
    ShiftedSlots();
    assert !SlotRegular(ShiftedState(), FlatPreds(), 1);
  }

  // ---------------------------------------------------------------------
  // tris

  type Triangle2 = (Pt2, Pt2, Pt2)

  /** A slot `tris` lists: readable, with no point at infinity and no
      tombstone. */
  predicate Shown(ds: TriDs, t: nat) {
    SlotOk(ds, t) && TriIsCasual(ds, t) && !TriIsDeleted(ds, t)
  }

  /** A listed slot holds three vertices. */
  lemma ShownCasual(ds: TriDs, t: nat)
    requires Shown(ds, t)
    ensures AllCasual3(TriNodes(ds, t))
  {
    forall k | 0 <= k < 3 ensures TriNodes(ds, t)[k].Casual? {
      assert !IsConceptual(TriNodes(ds, t)[k]) && !IsDeleted(TriNodes(ds, t)[k]);
    }
  }

  /** The corner points of a listed slot. */
  function Corners(st: Tri2, t: nat): Triangle2
    requires Shown(st.tds, t) && IndicesIn(TriNodes(st.tds, t), |st.vertices|)
  {
    ShownCasual(st.tds, t);
    var ns := TriNodes(st.tds, t);
    (st.vertices[ns[0].index], st.vertices[ns[1].index], st.vertices[ns[2].index])
  }

  /** Slot `t` is listed and reads as the triangle `x`. */
  predicate ShownAs(st: Tri2, t: nat, x: Triangle2) {
    Shown(st.tds, t) && IndicesIn(TriNodes(st.tds, t), |st.vertices|) && x == Corners(st, t)
  }

  /** `xs` holds the triangles of exactly the listed slots below `n`. */
  ghost predicate ListsShown(st: Tri2, n: nat, xs: seq<Triangle2>) {
    forall x :: x in xs <==> exists t :: 0 <= t < n && ShownAs(st, t, x)
  }

  /** Passing slot `n - 1` extends the list by its triangle when it is
      listed, and leaves it as it is otherwise. */
  lemma ListsShownStep(st: Tri2, n: nat, done: seq<Triangle2>)
    requires n > 0 && ListsShown(st, n - 1, done)
    ensures !Shown(st.tds, n - 1) ==> ListsShown(st, n, done)
    ensures Shown(st.tds, n - 1) && IndicesIn(TriNodes(st.tds, n - 1), |st.vertices|) ==>
      ListsShown(st, n, done + [Corners(st, n - 1)])
  {
    if Shown(st.tds, n - 1) && IndicesIn(TriNodes(st.tds, n - 1), |st.vertices|) {
      var xs := done + [Corners(st, n - 1)];
      forall x ensures x in xs <==> exists t :: 0 <= t < n && ShownAs(st, t, x) {
        if x in xs && x !in done {
          assert ShownAs(st, n - 1, x);
        }
      }
    }
  }

  /** Every slot below `n` is readable, and the listed ones name stored
      vertices. */
  predicate SlotsRead(st: Tri2, n: nat) {
    forall t :: 0 <= t < n ==> (SlotOk(st.tds, t) &&
      (Shown(st.tds, t) ==> IndicesIn(TriNodes(st.tds, t), |st.vertices|)))
  }

  lemma SlotsReadStep(st: Tri2, n: nat)
    requires n > 0 && SlotsRead(st, n - 1) && SlotOk(st.tds, n - 1)
    requires Shown(st.tds, n - 1) ==> IndicesIn(TriNodes(st.tds, n - 1), |st.vertices|)
    ensures SlotsRead(st, n)
  {
  }

  /** When every node names a stored vertex, so does every node of a slot. */
  lemma SlotNodesIn(st: Tri2, t: nat)
    requires 3 * t + 2 < |st.tds.nodes|
    ensures IndicesIn(st.tds.nodes, |st.vertices|) ==> IndicesIn(TriNodes(st.tds, t), |st.vertices|)
  {
    if IndicesIn(st.tds.nodes, |st.vertices|) {
      assert TriNodes(st.tds, t)[0] == st.tds.nodes[3 * t];
      assert TriNodes(st.tds, t)[1] == st.tds.nodes[3 * t + 1];
      assert TriNodes(st.tds, t)[2] == st.tds.nodes[3 * t + 2];
    }
  }

  /** The `filter_map` of `tris` over slots `0..n`; reading the nodes of a
      slot past the node array, or a vertex past the vertex list, panics. */
  function TrisUpTo(st: Tri2, n: nat): (r: Result<seq<Triangle2>>)
    requires n <= Slots(st.tds)
    ensures r.Err? ==> r.IsPanic()
    ensures r.Ok? ==> SlotsRead(st, n)
    ensures r.Ok? ==> ListsShown(st, n, r.value)
    ensures 3 * n <= |st.tds.nodes| && IndicesIn(st.tds.nodes, |st.vertices|) ==> r.Ok?
  {
    if n == 0 then Ok([])
    else
      var done :- TrisUpTo(st, n - 1);
      var t := n - 1;
      ListsShownStep(st, n, done);
      if 3 * t + 2 >= |st.tds.nodes| then Crash("index out of bounds: hedge_starting_nodes")
      else
        SlotNodesIn(st, t);
        if !Shown(st.tds, t) then
          SlotsReadStep(st, n);
          Ok(done)
        else if IndicesIn(TriNodes(st.tds, t), |st.vertices|) then
          SlotsReadStep(st, n);
          Ok(done + [Corners(st, t)])
        else Crash("index out of bounds: vertices")
  }

  /** `tris`: the corner points of exactly the slots that hold neither the
      point at infinity nor a tombstone. */
  function Tris(st: Tri2): (r: Result<seq<Triangle2>>)
    ensures r.Err? ==> r.IsPanic()
    ensures r.Ok? ==> forall x :: x in r.value <==> exists t :: 0 <= t < Slots(st.tds) && ShownAs(st, t, x)
    ensures Sized(st.tds) && IndicesIn(st.tds.nodes, |st.vertices|) ==> r.Ok?
  {
    TrisUpTo(st, Slots(st.tds))
  }
}
