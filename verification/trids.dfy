/** The 2D half-edge data structure: triangles stored in flat arrays, hedge
    `3t + k` (k in 0..2) belonging to triangle `t`, with `hedge_twins`
    pairing each hedge with the hedge running the other way. Mutating methods
    of the source are functions from the old structure to the new one. */
module TriDs {
  import opened Base
  import opened Node
  import opened Geometry

  /** Twin value of a tombstoned hedge (`usize::MAX`). */
  const INACTIVE: nat := USIZE_MAX

  /** `hedge_starting_nodes`, `hedge_twins`, `num_tris`, `num_deleted_tris`. */
  datatype TriDs = TriDs(nodes: seq<VertexNode>, twins: seq<nat>, numTris: nat, numDeleted: nat)

  /** The empty structure of `TriDataStructure::new`. */
  function Empty(): TriDs {
    TriDs([], [], 0, 0)
  }

  /** Number of triangle slots, live or tombstoned. */
  function Slots(ds: TriDs): nat {
    ds.numTris + ds.numDeleted
  }

  /** The array shape every mutator keeps: three hedges per slot, one twin
      entry per hedge. The read-only queries of the source rely on it. */
  predicate Sized(ds: TriDs) {
    |ds.nodes| == 3 * Slots(ds) && |ds.twins| == |ds.nodes|
  }

  // ---------------------------------------------------------------------
  // HedgeIterator: index arithmetic inside one triangle

  /** The next hedge of the same triangle. */
  function Next(h: nat): (r: nat)
    ensures r / 3 == h / 3 && r != h
  {
    if h % 3 == 2 then h - 2 else h + 1
  }

  /** The previous hedge of the same triangle. */
  function Prev(h: nat): (r: nat)
    ensures r / 3 == h / 3 && r != h
  {
    if h % 3 == 0 then h + 2 else h - 1
  }

  /** The triangle a hedge belongs to. */
  function TriOf(h: nat): nat {
    h / 3
  }

  /** `next` cycles through the triangle, and `prev` undoes it. */
  lemma NextPrevCycle(h: nat)
    ensures Next(Next(Next(h))) == h
    ensures Prev(Next(h)) == h && Next(Prev(h)) == h
    ensures Prev(h) == Next(Next(h))
    ensures TriOf(Next(h)) == TriOf(h) && TriOf(Prev(h)) == TriOf(h)
    ensures Next(h) % 3 == (h % 3 + 1) % 3 && Prev(h) % 3 == (h % 3 + 2) % 3
  {
  }

  function StartNode(ds: TriDs, h: nat): VertexNode
    requires h < |ds.nodes|
  {
    ds.nodes[h]
  }

  /** The node a hedge ends at, read off the arrays the way the source does. */
  function EndNode(ds: TriDs, h: nat): (r: VertexNode)
    requires h < |ds.nodes| && |ds.nodes| % 3 == 0
    ensures Next(h) < |ds.nodes|
    ensures r == StartNode(ds, Next(h))
  {
    if h % 3 == 2 then ds.nodes[h - 2] else ds.nodes[h + 1]
  }

  function Twin(ds: TriDs, h: nat): nat
    requires h < |ds.twins|
  {
    ds.twins[h]
  }

  /** A hedge is conceptual when one of its end points is the point at
      infinity. */
  predicate HedgeIsConceptual(ds: TriDs, h: nat)
    requires h < |ds.nodes| && |ds.nodes| % 3 == 0
  {
    IsConceptual(StartNode(ds, h)) || IsConceptual(EndNode(ds, h))
  }

  /** `HedgeIterator::is_sound`: the next hedge starts where this one ends,
      the previous hedge ends where this one starts, and the twin runs from
      this end back to this start. Reading the twin's nodes panics when the
      twin index is out of range. */
  function HedgeIsSound(ds: TriDs, h: nat): (r: Result<bool>)
    requires Sized(ds) && h < |ds.nodes|
    ensures r.Err? <==> ds.twins[h] >= |ds.nodes|
    ensures r.Err? ==> r.IsPanic()
    ensures r.Ok? ==> (r.value <==>
      StartNode(ds, ds.twins[h]) == StartNode(ds, Next(h)) &&
      StartNode(ds, Next(ds.twins[h])) == StartNode(ds, h))
  {
    var start := StartNode(ds, h);
    var end := EndNode(ds, h);
    var t := Twin(ds, h);
    if t >= |ds.nodes| then Crash("index out of bounds: hedge_starting_nodes")
    else
      var nextOk := StartNode(ds, Next(h)) == end;
      var prevOk := EndNode(ds, Prev(h)) == start;
      var twinOk := StartNode(ds, t) == end && EndNode(ds, t) == start;
      Ok(nextOk && prevOk && twinOk)
  }

  // ---------------------------------------------------------------------
  // TriIterator

  /** The three hedges of triangle `t`, in storage order. */
  function Hedges(t: nat): (r: seq<nat>)
    ensures |r| == 3
    ensures forall k :: 0 <= k < 3 ==> r[k] == 3 * t + k
    ensures r[1] == Next(r[0]) && r[2] == Next(r[1]) && r[0] == Next(r[2])
  {
    [3 * t, 3 * t + 1, 3 * t + 2]
  }

  /** The three nodes of triangle `t`: the start nodes of its hedges. */
  function TriNodes(ds: TriDs, t: nat): (r: seq<VertexNode>)
    requires 3 * t + 2 < |ds.nodes|
    ensures r == [ds.nodes[3 * t], ds.nodes[3 * t + 1], ds.nodes[3 * t + 2]]
  {
    ds.nodes[3 * t .. 3 * t + 3]
  }

  /** `nodes()` lists the start nodes of `hedges()`, in the same order. */
  lemma TriNodesAreHedgeStarts(ds: TriDs, t: nat)
    requires 3 * t + 2 < |ds.nodes|
    ensures forall k :: 0 <= k < 3 ==> TriNodes(ds, t)[k] == StartNode(ds, Hedges(t)[k])
  {
  }

  predicate TriIsConceptual(ds: TriDs, t: nat)
    requires 3 * t + 2 < |ds.nodes|
  {
    exists k :: 0 <= k < 3 && IsConceptual(TriNodes(ds, t)[k])
  }

  predicate TriIsCasual(ds: TriDs, t: nat)
    requires 3 * t + 2 < |ds.nodes|
  {
    !TriIsConceptual(ds, t)
  }

  predicate TriIsDeleted(ds: TriDs, t: nat)
    requires 3 * t + 2 < |ds.nodes|
  {
    exists k :: 0 <= k < 3 && IsDeleted(TriNodes(ds, t)[k])
  }

  /** A conceptual hedge lies in a conceptual triangle, and a triangle is
      casual exactly when none of its hedges is conceptual. */
  lemma ConceptualHedgeTri(ds: TriDs, t: nat)
    requires 3 * t + 2 < |ds.nodes| && |ds.nodes| % 3 == 0
    ensures TriIsConceptual(ds, t) <==> exists h :: 3 * t <= h < 3 * t + 3 && HedgeIsConceptual(ds, h)
    ensures TriIsCasual(ds, t) <==> forall h :: 3 * t <= h < 3 * t + 3 ==> !HedgeIsConceptual(ds, h)
  {
    var hs := Hedges(t);
    assert Next(3 * t) == 3 * t + 1 && Next(3 * t + 1) == 3 * t + 2 && Next(3 * t + 2) == 3 * t;
    var (n0, n1, n2) := (ds.nodes[3 * t], ds.nodes[3 * t + 1], ds.nodes[3 * t + 2]);
    assert TriIsConceptual(ds, t) <==> IsConceptual(n0) || IsConceptual(n1) || IsConceptual(n2) by {
      assert TriNodes(ds, t) == [n0, n1, n2];
      if IsConceptual(n0) { assert IsConceptual(TriNodes(ds, t)[0]); }
      if IsConceptual(n1) { assert IsConceptual(TriNodes(ds, t)[1]); }
      if IsConceptual(n2) { assert IsConceptual(TriNodes(ds, t)[2]); }
    }
    assert (exists h :: 3 * t <= h < 3 * t + 3 && HedgeIsConceptual(ds, h)) <==>
      HedgeIsConceptual(ds, 3 * t) || HedgeIsConceptual(ds, 3 * t + 1) || HedgeIsConceptual(ds, 3 * t + 2);
  }

  // ---------------------------------------------------------------------
  // TriDataStructure: lookups

  /** `get_hedge`: an iterator for every stored hedge, an error otherwise. */
  function GetHedge(ds: TriDs, idx: nat): (r: Result<nat>)
    ensures r.Ok? <==> idx < |ds.nodes|
    ensures r.Ok? ==> r.value == idx
    ensures r.Err? ==> r.IsError()
  {
    if idx >= |ds.nodes| then Fail("Hedge index out of bounds") else Ok(idx)
  }

  /** `get_tri`: tombstoned slots still count, since indices are never
      compacted. */
  function GetTri(ds: TriDs, idx: nat): (r: Result<nat>)
    ensures r.Ok? <==> idx < ds.numTris + ds.numDeleted
    ensures r.Ok? ==> r.value == idx
    ensures r.Err? ==> r.IsError()
  {
    if idx >= Slots(ds) then Fail("Tri index out of bounds!") else Ok(idx)
  }

  /** A slot whose three nodes are all vertex indices. */
  predicate AllCasual(ds: TriDs, t: nat)
    requires 3 * t + 2 < |ds.nodes|
  {
    ds.nodes[3 * t].Casual? && ds.nodes[3 * t + 1].Casual? && ds.nodes[3 * t + 2].Casual?
  }

  /** The slots below `n` counted by `num_casual_tris`. */
  function CasualSlots(ds: TriDs, n: nat): set<nat>
    requires 3 * n <= |ds.nodes|
  {
    set t: nat | t < n && AllCasual(ds, t)
  }

  /** The loop of `num_casual_tris` over the first `n` slots. */
  function CountCasual(ds: TriDs, n: nat): (r: nat)
    requires 3 * n <= |ds.nodes|
    ensures r == |CasualSlots(ds, n)|
    ensures r <= n
  {
    if n == 0 then 0
    else
      var t := n - 1;
      var keep := !TriIsConceptual(ds, t) && !TriIsDeleted(ds, t)
        && Idx(ds.nodes[3 * t]).Some? && Idx(ds.nodes[3 * t + 1]).Some? && Idx(ds.nodes[3 * t + 2]).Some?;
      assert keep <==> AllCasual(ds, t);
      assert CasualSlots(ds, n) == CasualSlots(ds, t) + (if AllCasual(ds, t) then {t} else {});
      CountCasual(ds, t) + (if keep then 1 else 0)
  }

  /** `num_casual_tris`: the slots that hold a finite, live triangle. */
  function NumCasualTris(ds: TriDs): (r: nat)
    requires Sized(ds)
    ensures r == |CasualSlots(ds, Slots(ds))|
    ensures r <= Slots(ds)
  {
    CountCasual(ds, Slots(ds))
  }

  /** The hedges `is_sound` checks: every hedge whose start is not a tombstone. */
  predicate LiveHedge(ds: TriDs, h: nat) {
    h < |ds.nodes| && !ds.nodes[h].Deleted?
  }

  /** The scan of `is_sound` over the hedges from `h` on; `&&` stops
      evaluating (and so stops panicking) after the first unsound hedge. */
  function SoundFrom(ds: TriDs, h: nat): (r: Result<bool>)
    requires Sized(ds) && h <= |ds.nodes|
    ensures r == Ok(true) <==> forall j :: h <= j < |ds.nodes| && LiveHedge(ds, j) ==> HedgeIsSound(ds, j) == Ok(true)
    decreases |ds.nodes| - h
  {
    if h == |ds.nodes| then Ok(true)
    else if ds.nodes[h].Deleted? then SoundFrom(ds, h + 1)
    else
      var here :- HedgeIsSound(ds, h);
      if here then SoundFrom(ds, h + 1) else Ok(false)
  }

  /** `is_sound` of the whole structure; tombstoned hedges are skipped. */
  function IsSound(ds: TriDs): (r: Result<bool>)
    requires Sized(ds)
    ensures r == Ok(true) <==> forall h :: 0 <= h < |ds.nodes| && LiveHedge(ds, h) ==>
      ds.twins[h] < |ds.nodes| &&
      StartNode(ds, ds.twins[h]) == StartNode(ds, Next(h)) &&
      StartNode(ds, Next(ds.twins[h])) == StartNode(ds, h)
  {
    SoundFrom(ds, 0)
  }

  // ---------------------------------------------------------------------
  // TriDataStructure: mutators

  /** `add_tri`: appends three nodes and returns the first new hedge index.
      The twin array is left for the caller to extend. */
  function AddTri(ds: TriDs, n0: VertexNode, n1: VertexNode, n2: VertexNode): (r: (TriDs, nat))
    ensures r.1 == |ds.nodes|
    ensures |r.0.nodes| == |ds.nodes| + 3
    ensures r.0.nodes[..|ds.nodes|] == ds.nodes
    ensures r.0.nodes[r.1] == n0 && r.0.nodes[r.1 + 1] == n1 && r.0.nodes[r.1 + 2] == n2
    ensures r.0.twins == ds.twins && r.0.numDeleted == ds.numDeleted
    ensures r.0.numTris == ds.numTris + 1
  {
    (ds.(nodes := ds.nodes + [n0, n1, n2], numTris := ds.numTris + 1), |ds.nodes|)
  }

  /** The three node writes of `replace_tri`, on a slot known to exist. */
  function WriteTri(ds: TriDs, t: nat, n0: VertexNode, n1: VertexNode, n2: VertexNode): (r: TriDs)
    requires 3 * t + 2 < |ds.nodes|
    ensures |r.nodes| == |ds.nodes| && TriNodes(r, t) == [n0, n1, n2]
    ensures forall h :: 0 <= h < |ds.nodes| && h / 3 != t ==> r.nodes[h] == ds.nodes[h]
    ensures r.twins == ds.twins && r.numTris == ds.numTris && r.numDeleted == ds.numDeleted
  {
    ds.(nodes := ds.nodes[3 * t := n0][3 * t + 1 := n1][3 * t + 2 := n2])
  }

  /** `replace_tri`: overwrites the nodes of slot `t`; panics past the end. */
  function ReplaceTri(ds: TriDs, t: nat, n0: VertexNode, n1: VertexNode, n2: VertexNode): (r: Result<TriDs>)
    ensures r.Ok? <==> 3 * t + 2 < |ds.nodes|
    ensures r.Err? ==> r.IsPanic()
    ensures r.Ok? ==> |r.value.nodes| == |ds.nodes| && TriNodes(r.value, t) == [n0, n1, n2]
    ensures r.Ok? ==> forall h :: 0 <= h < |ds.nodes| && h / 3 != t ==> r.value.nodes[h] == ds.nodes[h]
    ensures r.Ok? ==> r.value.twins == ds.twins && r.value.numTris == ds.numTris && r.value.numDeleted == ds.numDeleted
  {
    if 3 * t + 2 >= |ds.nodes| then Crash("index out of bounds: hedge_starting_nodes")
    else Ok(WriteTri(ds, t, n0, n1, n2))
  }

  /** The nodes `add_init_tri` lays out: abc, then three triangles through
      the point at infinity. */
  function InitNodes(a: nat, b: nat, c: nat): seq<VertexNode> {
    [Casual(a), Casual(b), Casual(c),
     Conceptual, Casual(c), Casual(b),
     Casual(c), Conceptual, Casual(a),
     Casual(b), Casual(a), Conceptual]
  }

  /** The twin offsets `add_init_tri` pushes, relative to its first hedge. */
  const INIT_TWINS: seq<nat> := [9, 4, 8, 6, 1, 11, 3, 10, 2, 0, 7, 5]

  /** `add_init_tri`: refuses a structure that already holds triangles;
      otherwise appends the first triangle and its three conceptual
      neighbours and returns their slots. */
  function AddInitTri(ds: TriDs, a: nat, b: nat, c: nat): (r: Result<(TriDs, seq<nat>)>)
    ensures r.Err? <==> ds.numTris > 0
    ensures r.Err? ==> r.IsError()
    ensures r.Ok? ==> var (ds', tris) := r.value;
      ds'.numTris == 4 && ds'.numDeleted == ds.numDeleted &&
      ds'.nodes == ds.nodes + InitNodes(a, b, c) &&
      |ds'.twins| == |ds.twins| + 12 && ds'.twins[..|ds.twins|] == ds.twins &&
      (forall k :: 0 <= k < 12 ==> ds'.twins[|ds.twins| + k] == |ds.nodes| + INIT_TWINS[k]) &&
      tris == [0, 1, 2, 3]
  {
    if ds.numTris > 0 then Fail("Triangulation already contains triangles!")
    else
      var n := |ds.nodes|;
      var (d1, _) := AddTri(ds, Casual(a), Casual(b), Casual(c));
      var (d2, _) := AddTri(d1, Conceptual, Casual(c), Casual(b));
      var (d3, _) := AddTri(d2, Casual(c), Conceptual, Casual(a));
      var (d4, _) := AddTri(d3, Casual(b), Casual(a), Conceptual);
      var pushed := seq(12, k requires 0 <= k < 12 => n + INIT_TWINS[k]);
      Ok((d4.(twins := ds.twins + pushed), [0, 1, 2, 3]))
  }

  /** The three new hedge pairs and the re-linked outer twins of a 1->3 flip,
      written in the order of the source. */
  function FlipOneToThreeTwins(twins: seq<nat>, ab: nat, ba: nat, cb: nat, ac: nat, n: nat): seq<nat>
    requires ab + 2 < |twins| && ba < |twins| && cb < |twins| && ac < |twins|
  {
    var bc', cd, db, ca', ad, dc := n, n + 1, n + 2, n + 3, n + 4, n + 5;
    var bd, da := ab + 1, ab + 2;
    twins[ba := ab][cb := bc'][ac := ca'][ab := ba][bd := db][da := ad]
      + [cb, dc, bd, ac, da, cd]
  }

  /** `flip_1_to_3`: inserts vertex `v` into slot `idx` (triangle abc); the
      slot becomes abd and bcd, cad are appended. The guard uses `>`, so
      `idx` equal to the slot count passes it and then panics on the
      arrays. Returns the slot and `num_tris - 2`, `num_tris - 1`. */
  function FlipOneToThree(ds: TriDs, idx: nat, v: nat): (r: Result<(TriDs, seq<nat>)>)
    ensures idx > Slots(ds) ==> r.IsError()
    ensures r.Ok? ==> var (ds', tris) := r.value;
      3 * idx + 2 < |ds.nodes| &&
      ds'.numTris == ds.numTris + 2 && ds'.numDeleted == ds.numDeleted &&
      |ds'.nodes| == |ds.nodes| + 6 && |ds'.twins| == |ds.twins| + 6 &&
      var (a, b, c, d) := (ds.nodes[3 * idx], ds.nodes[3 * idx + 1], ds.nodes[3 * idx + 2], Casual(v));
      TriNodes(ds', idx) == [a, b, d] &&
      ds'.nodes[|ds.nodes|..] == [b, c, d, c, a, d] &&
      tris == [idx, ds.numTris, ds.numTris + 1]
  {
    if idx > Slots(ds) then Fail("Triangle index out of bounds!")
    else if 3 * idx + 2 >= |ds.nodes| || 3 * idx + 2 >= |ds.twins| then
      Crash("index out of bounds: hedge_starting_nodes")
    else
      var ab := 3 * idx;
      var a, b, c := ds.nodes[ab], ds.nodes[ab + 1], ds.nodes[ab + 2];
      var d := Casual(v);
      var ba, cb, ac := ds.twins[ab], ds.twins[ab + 1], ds.twins[ab + 2];
      var n := |ds.nodes|;
      // `replace_tri` rewrites the slot as abd; two `add_tri` append bcd, cad
      var nodes' := WriteTri(ds, idx, a, b, d).nodes + [b, c, d] + [c, a, d];
      if ba >= |ds.twins| || cb >= |ds.twins| || ac >= |ds.twins| then
        Crash("index out of bounds: hedge_twins")
      else
        var ds' := TriDs(nodes', FlipOneToThreeTwins(ds.twins, ab, ba, cb, ac, n), ds.numTris + 2, ds.numDeleted);
        Ok((ds', [idx, ds'.numTris - 2, ds'.numTris - 1]))
  }

  /** The hedges of a 2->2 flip around the diagonal `idx` (from c to a, see
      `FlipTwoToTwo`). */
  datatype Quad = Quad(ab: nat, bc: nat, cd: nat, da: nat, t1: nat, t2: nat)

  function QuadOf(ds: TriDs, idx: nat): Quad
    requires idx < |ds.twins|
  {
    var tw := ds.twins[idx];
    Quad(Next(idx), Prev(idx), Next(tw), Prev(tw), idx / 3, tw / 3)
  }

  /** The first six twin writes of a 2->2 flip, all inside the two
      rewritten slots: the four quad hedges get their outer twins and the new
      diagonal bd/db is linked. */
  function QuadSlotTwins(twins: seq<nat>, t1: nat, t2: nat, ba: nat, cb: nat, dc: nat, ad: nat): (r: seq<nat>)
    requires 3 * t1 + 2 < |twins| && 3 * t2 + 2 < |twins|
    ensures |r| == |twins|
  {
    var bc', cd', db := 3 * t1, 3 * t1 + 1, 3 * t1 + 2;
    var da', ab', bd := 3 * t2, 3 * t2 + 1, 3 * t2 + 2;
    twins[ab' := ba][da' := ad][bc' := cb][cd' := dc][bd := db][db := bd]
  }

  /** The ten twin writes of a 2->2 flip, in the order of the source; `ba`,
      `cb`, `dc`, `ad` are the old twins of the four outer hedges, which are
      pointed back at the rewritten slots last. */
  function FlipTwoToTwoTwins(twins: seq<nat>, t1: nat, t2: nat, ba: nat, cb: nat, dc: nat, ad: nat): (r: seq<nat>)
    requires 3 * t1 + 2 < |twins| && 3 * t2 + 2 < |twins|
    requires ba < |twins| && cb < |twins| && dc < |twins| && ad < |twins|
    ensures |r| == |twins|
  {
    var bc', cd' := 3 * t1, 3 * t1 + 1;
    var da', ab' := 3 * t2, 3 * t2 + 1;
    QuadSlotTwins(twins, t1, t2, ba, cb, dc, ad)[ba := ab'][ad := da'][cb := bc'][dc := cd']
  }

  /** `flip_2_to_2`: hedge `idx` runs c->a in triangle (c, a, b) and its twin
      a->c in triangle (a, c, d); afterwards the two slots hold (b, c, d) and
      (d, a, b) joined by the new diagonal bd/db. Nothing is checked, so a bad
      index panics. */
  function FlipTwoToTwo(ds: TriDs, idx: nat): (r: Result<(TriDs, seq<nat>)>)
    ensures r.Ok? ==> var (ds', tris) := r.value;
      idx < |ds.twins| && tris == [idx / 3, ds.twins[idx] / 3] &&
      ds'.numTris == ds.numTris && ds'.numDeleted == ds.numDeleted &&
      |ds'.nodes| == |ds.nodes| && |ds'.twins| == |ds.twins| &&
      var q := QuadOf(ds, idx);
      3 * q.t1 + 2 < |ds.nodes| && 3 * q.t2 + 2 < |ds.nodes| &&
      var (a, b, c, d) := (ds.nodes[q.ab], ds.nodes[q.bc], ds.nodes[q.cd], ds.nodes[q.da]);
      TriNodes(ds', q.t2) == [d, a, b] &&
      (q.t1 != q.t2 ==> TriNodes(ds', q.t1) == [b, c, d])
  {
    if idx >= |ds.twins| then Crash("index out of bounds: hedge_twins")
    else
      var q := QuadOf(ds, idx);
      var m := |ds.twins|;
      if 3 * q.t1 + 2 >= |ds.nodes| || 3 * q.t2 + 2 >= |ds.nodes| || 3 * q.t1 + 2 >= m || 3 * q.t2 + 2 >= m then
        Crash("index out of bounds: hedge_starting_nodes")
      else
        var na, nb, nc, nd := ds.nodes[q.ab], ds.nodes[q.bc], ds.nodes[q.cd], ds.nodes[q.da];
        var ba, cb, dc, ad := ds.twins[q.ab], ds.twins[q.bc], ds.twins[q.cd], ds.twins[q.da];
        var d1 := WriteTri(ds, q.t1, nb, nc, nd);
        var d2 := WriteTri(d1, q.t2, nd, na, nb);
        if ba >= m || cb >= m || dc >= m || ad >= m then Crash("index out of bounds: hedge_twins")
        else
          Ok((d2.(twins := FlipTwoToTwoTwins(ds.twins, q.t1, q.t2, ba, cb, dc, ad)), [q.t1, q.t2]))
  }

  /** Hedge `h` neither starts nor ends at the reflex node. */
  predicate Avoids(ds: TriDs, h: nat, reflex: nat)
    requires h < |ds.nodes| && Next(h) < |ds.nodes|
  {
    ds.nodes[h] != Casual(reflex) && ds.nodes[Next(h)] != Casual(reflex)
  }

  /** The edge of slot `t` that avoids the reflex node, with its twin; when
      several qualify the last one wins, and when none does the defaults
      (`Deleted`, `INACTIVE`) remain. */
  function OuterEdge(ds: TriDs, t: nat, reflex: nat): (r: (VertexNode, nat))
    requires 3 * t + 2 < |ds.nodes| && 3 * t + 2 < |ds.twins|
    ensures r == (Deleted, INACTIVE) ||
      (exists h :: 3 * t <= h < 3 * t + 3 && Avoids(ds, h, reflex) && r == (ds.nodes[h], ds.twins[h]))
    ensures (forall h :: 3 * t <= h < 3 * t + 3 ==> !Avoids(ds, h, reflex)) ==> r == (Deleted, INACTIVE)
  {
    if Avoids(ds, 3 * t + 2, reflex) then (ds.nodes[3 * t + 2], ds.twins[3 * t + 2])
    else if Avoids(ds, 3 * t + 1, reflex) then (ds.nodes[3 * t + 1], ds.twins[3 * t + 1])
    else if Avoids(ds, 3 * t, reflex) then (ds.nodes[3 * t], ds.twins[3 * t])
    else (Deleted, INACTIVE)
  }

  /** The writes of `set_tri_inactive` on a slot known to exist. */
  function Tombstone(ds: TriDs, t: nat): (r: TriDs)
    requires 3 * t + 2 < |ds.nodes| && 3 * t + 2 < |ds.twins|
    ensures |r.nodes| == |ds.nodes| && |r.twins| == |ds.twins|
    ensures r.numTris == ds.numTris && r.numDeleted == ds.numDeleted
  {
    ds.(nodes := ds.nodes[3 * t := Deleted][3 * t + 1 := Deleted][3 * t + 2 := Deleted],
        twins := ds.twins[3 * t := INACTIVE][3 * t + 1 := INACTIVE][3 * t + 2 := INACTIVE])
  }

  /** `set_tri_inactive`: tombstones the nodes and twins of slot `t`; the
      slot must exist (the source unwraps `get_tri`). */
  function SetTriInactive(ds: TriDs, t: nat): (r: Result<TriDs>)
    ensures r.Ok? <==> t < Slots(ds) && 3 * t + 2 < |ds.nodes| && 3 * t + 2 < |ds.twins|
    ensures r.Err? ==> r.IsPanic()
    ensures r.Ok? ==> |r.value.nodes| == |ds.nodes| && |r.value.twins| == |ds.twins|
    ensures r.Ok? ==> TriNodes(r.value, t) == [Deleted, Deleted, Deleted]
    ensures r.Ok? ==> r.value.twins[3 * t .. 3 * t + 3] == [INACTIVE, INACTIVE, INACTIVE]
    ensures r.Ok? ==> forall h :: 0 <= h < |ds.nodes| && h / 3 != t ==> r.value.nodes[h] == ds.nodes[h]
    ensures r.Ok? ==> forall h :: 0 <= h < |ds.twins| && h / 3 != t ==> r.value.twins[h] == ds.twins[h]
  {
    if GetTri(ds, t).Err? then Crash("called `Result::unwrap()` on an `Err` value")
    else if 3 * t + 2 >= |ds.nodes| || 3 * t + 2 >= |ds.twins| then Crash("index out of bounds")
    else Ok(Tombstone(ds, t))
  }

  /** Slot `t` exists and its hedges can be read: what `get_tri(t).unwrap()`
      followed by direct array reads needs. */
  predicate SlotReadable(ds: TriDs, t: nat) {
    t < Slots(ds) && 3 * t + 2 < |ds.nodes| && 3 * t + 2 < |ds.twins|
  }

  /** `vertices[node.idx().unwrap()]`. */
  function VertexOf(n: VertexNode, vertices: seq<Pt2>): (r: Result<nat>)
    ensures r.Ok? <==> n.Casual? && n.index < |vertices|
    ensures r.Ok? ==> r.value == n.index
    ensures r.Err? ==> r.IsPanic()
  {
    if !n.Casual? then Crash("called `Option::unwrap()` on a `None` value")
    else if n.index >= |vertices| then Crash("index out of bounds: vertices")
    else Ok(n.index)
  }

  /** Writes start node `s` and twin `w` at hedge `h`, then points `w` back
      at `h`; panics when `w` is not a hedge. */
  function LinkEdge(ds: TriDs, h: nat, s: VertexNode, w: nat): (r: Result<TriDs>)
    requires h < |ds.nodes| && h < |ds.twins|
    ensures r.Ok? <==> w < |ds.twins|
    ensures r.Ok? ==> |r.value.nodes| == |ds.nodes| && |r.value.twins| == |ds.twins|
    ensures r.Ok? ==> r.value.nodes[h] == s && r.value.twins[w] == h
    ensures r.Ok? ==> forall j :: 0 <= j < |ds.nodes| && j != h ==> r.value.nodes[j] == ds.nodes[j]
    ensures r.Ok? ==> r.value.numTris == ds.numTris && r.value.numDeleted == ds.numDeleted
  {
    var tw := ds.twins[h := w];
    if w >= |tw| then Crash("index out of bounds: hedge_twins")
    else Ok(ds.(nodes := ds.nodes[h := s], twins := tw[w := h]))
  }

  /** The outer edges of the three slots of a 3->1 flip, reordered by one
      orientation test so that the triangle they bound is not clockwise.
      Reading a slot that does not exist, or a start node that is not a
      vertex, panics. */
  function NewTriEdges(ds: TriDs, t0: nat, t1: nat, t2: nat, reflex: nat, vertices: seq<Pt2>, orient: Orient2)
    : (r: Result<seq<(VertexNode, nat)>>)
    ensures r.Ok? ==> SlotReadable(ds, t0) && SlotReadable(ds, t1) && SlotReadable(ds, t2)
    ensures r.Ok? ==> |r.value| == 3 && r.value[0] == OuterEdge(ds, t0, reflex)
    ensures r.Ok? ==> var (e1, e2) := (OuterEdge(ds, t1, reflex), OuterEdge(ds, t2, reflex));
      (r.value[1], r.value[2]) == (e1, e2) || (r.value[1], r.value[2]) == (e2, e1)
    ensures r.Ok? ==> forall k :: 0 <= k < 3 ==> r.value[k].0.Casual? && r.value[k].0.index < |vertices|
    ensures r.Ok? && Antisymmetric2(orient) ==>
      orient(vertices[r.value[0].0.index], vertices[r.value[1].0.index], vertices[r.value[2].0.index]) != -1
  {
    if !(SlotReadable(ds, t0) && SlotReadable(ds, t1) && SlotReadable(ds, t2)) then
      Crash("index out of bounds or `unwrap` on `get_tri`")
    else
      var e0, e1, e2 := OuterEdge(ds, t0, reflex), OuterEdge(ds, t1, reflex), OuterEdge(ds, t2, reflex);
      if !(VertexOf(e0.0, vertices).Ok? && VertexOf(e1.0, vertices).Ok? && VertexOf(e2.0, vertices).Ok?) then
        Crash("`unwrap` on `idx()` or index out of bounds: vertices")
      else
        var o := orient(vertices[e0.0.index], vertices[e1.0.index], vertices[e2.0.index]);
        if o == -1 then Ok([e0, e2, e1]) else Ok([e0, e1, e2])
  }

  /** `flip_3_to_1`: the slots `t0`, `t1`, `t2` hold three triangles around the
      reflex vertex; the triangle bounded by their outer edges is written
      into slot `t0` and the other two slots are tombstoned. */
  function FlipThreeToOne(ds: TriDs, t0: nat, t1: nat, t2: nat, reflex: nat, vertices: seq<Pt2>, orient: Orient2)
    : (r: Result<(TriDs, nat)>)
    ensures r.Ok? ==> NewTriEdges(ds, t0, t1, t2, reflex, vertices, orient).Ok?
    ensures r.Ok? ==> var (ds', t) := r.value;
      t == t0 && ds.numTris >= 2 &&
      ds'.numTris == ds.numTris - 2 && ds'.numDeleted == ds.numDeleted + 2 &&
      |ds'.nodes| == |ds.nodes| && |ds'.twins| == |ds.twins|
  {
    var es :- NewTriEdges(ds, t0, t1, t2, reflex, vertices, orient);
    var h0 := 3 * t0;
    var d1 :- LinkEdge(ds, h0, es[0].0, es[0].1);
    var d2 :- LinkEdge(d1, h0 + 1, es[1].0, es[1].1);
    var d3 :- LinkEdge(d2, h0 + 2, es[2].0, es[2].1);
    var d4 := Tombstone(d3, t1);
    var d5 := Tombstone(d4, t2);
    if d5.numTris < 2 then Crash("attempt to subtract with overflow")
    else Ok((d5.(numTris := d5.numTris - 2, numDeleted := d5.numDeleted + 2), t0))
  }
}
