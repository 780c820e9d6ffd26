/** The 3->1 flip keeps the invariant of the 2D half-edge structure when the
    three slots form one region bounded by the three picked edges, which is
    the arrangement `flip_3_to_1` assumes: the picked edges become the new
    triangle of the first slot, their twins are pointed back at it, and the
    other two slots are tombstoned. */
module TriFlipThreeToOneValid {
  import opened Base
  import opened Node
  import opened Geometry
  import opened TriDs
  import opened TriDsValid
  import opened TriFlips
  import opened TriFlipThreeToOne

  /** A 3->1 flip as plain values: the slot `t0` receiving the new triangle,
      the slots `t1` and `t2` it tombstones, and the start node `s` and twin
      `w` of each picked edge, in the order they are written. */
  datatype FanView = FanView(t0: nat, t1: nat, t2: nat, s0: VertexNode, s1: VertexNode, s2: VertexNode,
                             w0: nat, w1: nat, w2: nat)

  function FanOf(ds: TriDs, t0: nat, t1: nat, t2: nat, reflex: nat, vertices: seq<Pt2>, orient: Orient2): FanView
    requires FlipThreeToOne(ds, t0, t1, t2, reflex, vertices, orient).Ok?
  {
    var es := PickedEdges(ds, t0, t1, t2, reflex, vertices, orient);
    FanView(t0, t1, t2, es[0].0, es[1].0, es[2].0, es[0].1, es[1].1, es[2].1)
  }

  /** Hedge `x` lies in one of the three slots of the flip. */
  predicate InFan(x: nat, v: FanView) {
    x / 3 == v.t0 || x / 3 == v.t1 || x / 3 == v.t2
  }

  /** Hedge `x` is one of the picked twins. */
  predicate IsW(x: nat, v: FanView) {
    x == v.w0 || x == v.w1 || x == v.w2
  }

  /** The picked twins lie outside the three slots. */
  predicate FanApart(v: FanView) {
    !InFan(v.w0, v) && !InFan(v.w1, v) && !InFan(v.w2, v)
  }

  /** Each picked edge ends where the next one starts. */
  predicate FanCloses(ds: TriDs, v: FanView)
    requires v.w0 < |ds.nodes| && v.w1 < |ds.nodes| && v.w2 < |ds.nodes|
  {
    ds.nodes[v.w0] == v.s1 && ds.nodes[v.w1] == v.s2 && ds.nodes[v.w2] == v.s0
  }

  /** Every live hedge of the three slots whose twin leaves them has a
      picked twin. */
  predicate FanSealed(ds: TriDs, v: FanView) {
    forall h :: 0 <= h < |ds.nodes| && h < |ds.twins| && InFan(h, v) && !ds.nodes[h].Deleted? ==>
      (ds.twins[h] < |ds.nodes| && !InFan(ds.twins[h], v) ==> IsW(ds.twins[h], v))
  }

  /** The three slots form one region bounded by the picked edges: the twins
      lie outside the slots, each picked edge ends where the next one
      starts, and every other live hedge of the slots has its twin inside
      them. */
  predicate FanEncloses(ds: TriDs, v: FanView) {
    v.w0 < |ds.nodes| && v.w1 < |ds.nodes| && v.w2 < |ds.nodes| &&
    FanApart(v) && FanCloses(ds, v) && FanSealed(ds, v)
  }

  /** The arrangement `flip_3_to_1` assumes of the slots it is handed: the
      three triangles around the reflex vertex form one larger triangle
      whose sides are the three picked edges. */
  predicate Encloses(ds: TriDs, t0: nat, t1: nat, t2: nat, reflex: nat, vertices: seq<Pt2>, orient: Orient2)
    requires FlipThreeToOne(ds, t0, t1, t2, reflex, vertices, orient).Ok?
  {
    FanEncloses(ds, FanOf(ds, t0, t1, t2, reflex, vertices, orient))
  }

  /** The picked twins lie outside the three slots. */
  predicate PickedTwinsApart(ds: TriDs, t0: nat, t1: nat, t2: nat, reflex: nat, vertices: seq<Pt2>, orient: Orient2)
    requires FlipThreeToOne(ds, t0, t1, t2, reflex, vertices, orient).Ok?
  {
    FanApart(FanOf(ds, t0, t1, t2, reflex, vertices, orient))
  }

  // ---------------------------------------------------------------------
  // What a valid structure says about the picked edges

  /** The slots differ and can be read, and the picked twins are hedges. */
  predicate FanSized(ds: TriDs, v: FanView) {
    var n := |ds.nodes|;
    Sized(ds) && v.t0 != v.t1 && v.t0 != v.t2 && v.t1 != v.t2 &&
    3 * v.t0 + 2 < n && 3 * v.t1 + 2 < n && 3 * v.t2 + 2 < n &&
    v.w0 < n && v.w1 < n && v.w2 < n
  }

  /** The successors of the picked twins are hedges too. */
  predicate FanNextSized(ds: TriDs, v: FanView) {
    var n := |ds.nodes|;
    Next(v.w0) < n && Next(v.w1) < n && Next(v.w2) < n
  }

  /** Each picked edge starts at a live node, its twin is a live hedge that
      points back into the three slots, and the three twins are different
      hedges. */
  predicate FanBack(ds: TriDs, v: FanView)
    requires FanSized(ds, v)
  {
    !v.s0.Deleted? && !v.s1.Deleted? && !v.s2.Deleted? &&
    !ds.nodes[v.w0].Deleted? && !ds.nodes[v.w1].Deleted? && !ds.nodes[v.w2].Deleted? &&
    InFan(ds.twins[v.w0], v) && InFan(ds.twins[v.w1], v) && InFan(ds.twins[v.w2], v) &&
    v.w0 != v.w1 && v.w0 != v.w2 && v.w1 != v.w2
  }

  /** Each picked twin runs back to the start of its picked edge. */
  predicate FanRunsBack(ds: TriDs, v: FanView)
    requires FanSized(ds, v) && FanNextSized(ds, v)
  {
    ds.nodes[Next(v.w0)] == v.s0 && ds.nodes[Next(v.w1)] == v.s1 && ds.nodes[Next(v.w2)] == v.s2
  }

  /** In a valid structure the outer edge of a slot, when there is one, is a
      live hedge of that slot whose twin is a live hedge of another slot
      running back to the edge's start. */
  lemma OuterEdgeBack(ds: TriDs, t: nat, reflex: nat)
    requires Valid(ds) && 3 * t + 2 < |ds.nodes| && !OuterEdge(ds, t, reflex).0.Deleted?
    ensures var (s, w) := OuterEdge(ds, t, reflex);
      w < |ds.nodes| && Next(w) < |ds.nodes| && !ds.nodes[w].Deleted? && w / 3 != t &&
      ds.twins[w] / 3 == t && ds.nodes[Next(w)] == s
  {
    var g := if Avoids(ds, 3 * t + 2, reflex) then 3 * t + 2
      else if Avoids(ds, 3 * t + 1, reflex) then 3 * t + 1 else 3 * t;
    assert OuterEdge(ds, t, reflex) == (ds.nodes[g], ds.twins[g]);
    TwinBack(ds, g);
  }

  /** The twin of a live hedge runs back to it from another slot. */
  lemma TwinBack(ds: TriDs, g: nat)
    requires Valid(ds) && g < |ds.nodes| && !ds.nodes[g].Deleted?
    ensures var w := ds.twins[g];
      w < |ds.nodes| && Next(w) < |ds.nodes| && !ds.nodes[w].Deleted? && w / 3 != g / 3 &&
      ds.twins[w] == g && ds.nodes[Next(w)] == ds.nodes[g]
  {
    assert Linked(ds, g);
    NextStays(ds.twins[g], |ds.nodes|);
  }

  /** The picked edges of a flip of a valid structure meet `FanBack`. */
  lemma ValidFanBack(ds: TriDs, t0: nat, t1: nat, t2: nat, reflex: nat, vertices: seq<Pt2>, orient: Orient2)
    requires Valid(ds) && t0 != t1 && t0 != t2 && t1 != t2
    requires FlipThreeToOne(ds, t0, t1, t2, reflex, vertices, orient).Ok?
    ensures var v := FanOf(ds, t0, t1, t2, reflex, vertices, orient);
      FanSized(ds, v) && FanNextSized(ds, v) && FanBack(ds, v) && FanRunsBack(ds, v)
  {
    var v := FanOf(ds, t0, t1, t2, reflex, vertices, orient);
    OuterEdgeBack(ds, t0, reflex);
    OuterEdgeBack(ds, t1, reflex);
    OuterEdgeBack(ds, t2, reflex);
  }

  // ---------------------------------------------------------------------
  // The writes, on plain sequences

  /** The node writes of the three `LinkEdge` calls. */
  function FillSlot(nodes: seq<VertexNode>, v: FanView): seq<VertexNode>
    requires 3 * v.t0 + 2 < |nodes|
  {
    nodes[3 * v.t0 := v.s0][3 * v.t0 + 1 := v.s1][3 * v.t0 + 2 := v.s2]
  }

  /** The twin writes of the three `LinkEdge` calls. */
  function LinkTwins(twins: seq<nat>, v: FanView): seq<nat>
    requires 3 * v.t0 + 2 < |twins| && v.w0 < |twins| && v.w1 < |twins| && v.w2 < |twins|
  {
    var h := 3 * v.t0;
    twins[h := v.w0][v.w0 := h][h + 1 := v.w1][v.w1 := h + 1][h + 2 := v.w2][v.w2 := h + 2]
  }

  /** The structure `flip_3_to_1` returns, written out. */
  function FanResult(ds: TriDs, v: FanView): TriDs
    requires 3 * v.t0 + 2 < |ds.nodes| && 3 * v.t0 + 2 < |ds.twins|
    requires v.w0 < |ds.twins| && v.w1 < |ds.twins| && v.w2 < |ds.twins|
    requires 3 * v.t1 + 2 < |ds.nodes| && 3 * v.t1 + 2 < |ds.twins|
    requires 3 * v.t2 + 2 < |ds.nodes| && 3 * v.t2 + 2 < |ds.twins|
    requires ds.numTris >= 2
  {
    var d3 := TriDs(FillSlot(ds.nodes, v), LinkTwins(ds.twins, v), ds.numTris, ds.numDeleted);
    Tombstone(Tombstone(d3, v.t1), v.t2).(numTris := ds.numTris - 2, numDeleted := ds.numDeleted + 2)
  }

  lemma FlipThreeToOneIsFan(ds: TriDs, t0: nat, t1: nat, t2: nat, reflex: nat, vertices: seq<Pt2>, orient: Orient2)
    requires FlipThreeToOne(ds, t0, t1, t2, reflex, vertices, orient).Ok?
    ensures var v := FanOf(ds, t0, t1, t2, reflex, vertices, orient);
      3 * t0 + 2 < |ds.nodes| && 3 * t0 + 2 < |ds.twins| &&
      v.w0 < |ds.twins| && v.w1 < |ds.twins| && v.w2 < |ds.twins| &&
      3 * t1 + 2 < |ds.nodes| && 3 * t1 + 2 < |ds.twins| &&
      3 * t2 + 2 < |ds.nodes| && 3 * t2 + 2 < |ds.twins| && ds.numTris >= 2 &&
      FlipThreeToOne(ds, t0, t1, t2, reflex, vertices, orient).value.0 == FanResult(ds, v)
  {
    FlipThreeToOneIs(ds, t0, t1, t2, reflex, vertices, orient);
    var v := FanOf(ds, t0, t1, t2, reflex, vertices, orient);
    var d3 := Linked3(ds, t0, t1, t2, reflex, vertices, orient);
    var h := 3 * t0;
    var d1 := LinkEdge(ds, h, v.s0, v.w0).value;
    var d2 := LinkEdge(d1, h + 1, v.s1, v.w1).value;
    assert d3 == LinkEdge(d2, h + 2, v.s2, v.w2).value;
    LinkEdgesAre(ds, v);
  }

  /** The three `LinkEdge` calls of the flip, as one node write and one
      twin write per array. */
  lemma LinkEdgesAre(ds: TriDs, v: FanView)
    requires 3 * v.t0 + 2 < |ds.nodes| && 3 * v.t0 + 2 < |ds.twins|
    requires v.w0 < |ds.twins| && v.w1 < |ds.twins| && v.w2 < |ds.twins|
    ensures var h := 3 * v.t0;
      var d1 := LinkEdge(ds, h, v.s0, v.w0).value;
      var d2 := LinkEdge(d1, h + 1, v.s1, v.w1).value;
      LinkEdge(d2, h + 2, v.s2, v.w2).value == TriDs(FillSlot(ds.nodes, v), LinkTwins(ds.twins, v), ds.numTris, ds.numDeleted)
  {
  }

  /** The three node writes land in slot `t0` and nowhere else. */
  lemma FillSlotAt(nodes: seq<VertexNode>, v: FanView, h: nat)
    requires 3 * v.t0 + 2 < |nodes| && h < |nodes|
    ensures var r := FillSlot(nodes, v);
      |r| == |nodes| &&
      r[3 * v.t0] == v.s0 && r[3 * v.t0 + 1] == v.s1 && r[3 * v.t0 + 2] == v.s2 &&
      (h / 3 != v.t0 ==> r[h] == nodes[h])
  {
  }

  /** The six twin writes link slot `t0` and the picked twins both ways and
      touch nothing else. */
  lemma LinkTwinsAt(twins: seq<nat>, v: FanView, h: nat)
    requires 3 * v.t0 + 2 < |twins| && v.w0 < |twins| && v.w1 < |twins| && v.w2 < |twins| && h < |twins|
    requires v.w0 / 3 != v.t0 && v.w1 / 3 != v.t0 && v.w2 / 3 != v.t0
    requires v.w0 != v.w1 && v.w0 != v.w2 && v.w1 != v.w2
    ensures var r := LinkTwins(twins, v);
      |r| == |twins| &&
      r[3 * v.t0] == v.w0 && r[3 * v.t0 + 1] == v.w1 && r[3 * v.t0 + 2] == v.w2 &&
      r[v.w0] == 3 * v.t0 && r[v.w1] == 3 * v.t0 + 1 && r[v.w2] == 3 * v.t0 + 2 &&
      (h / 3 != v.t0 && !IsW(h, v) ==> r[h] == twins[h])
  {
  }

  /** Tombstoning slot `t` writes `Deleted` and `INACTIVE` exactly there. */
  lemma TombstoneAt(d: TriDs, t: nat, h: nat)
    requires 3 * t + 2 < |d.nodes| && 3 * t + 2 < |d.twins| && h < |d.nodes| && h < |d.twins|
    ensures h / 3 == t ==> Tombstone(d, t).nodes[h] == Deleted && Tombstone(d, t).twins[h] == INACTIVE
    ensures h / 3 != t ==> Tombstone(d, t).nodes[h] == d.nodes[h] && Tombstone(d, t).twins[h] == d.twins[h]
  {
  }

  // ---------------------------------------------------------------------
  // The result, hedge by hedge

  /** Slot `t0` holds the picked edges and is linked both ways with the
      picked twins, which keep their own nodes and successors. */
  ghost predicate FanShape(ds: TriDs, ds': TriDs, v: FanView)
    requires FanSized(ds, v) && FanNextSized(ds, v)
  {
    FanSlotShape(ds, ds', v) && FanTwinsKept(ds, ds', v)
  }

  /** Slot `t0` holds the picked edges, linked both ways with the picked
      twins. */
  ghost predicate FanSlotShape(ds: TriDs, ds': TriDs, v: FanView)
    requires FanSized(ds, v)
  {
    var h := 3 * v.t0;
    Sized(ds') && |ds'.nodes| == |ds.nodes| &&
    ds'.nodes[h] == v.s0 && ds'.nodes[h + 1] == v.s1 && ds'.nodes[h + 2] == v.s2 &&
    ds'.twins[h] == v.w0 && ds'.twins[h + 1] == v.w1 && ds'.twins[h + 2] == v.w2 &&
    ds'.twins[v.w0] == h && ds'.twins[v.w1] == h + 1 && ds'.twins[v.w2] == h + 2
  }

  /** The picked twins keep their own nodes and successors. */
  ghost predicate FanTwinsKept(ds: TriDs, ds': TriDs, v: FanView)
    requires FanSized(ds, v) && FanNextSized(ds, v)
  {
    |ds'.nodes| == |ds.nodes| &&
    ds'.nodes[v.w0] == ds.nodes[v.w0] && ds'.nodes[Next(v.w0)] == ds.nodes[Next(v.w0)] &&
    ds'.nodes[v.w1] == ds.nodes[v.w1] && ds'.nodes[Next(v.w1)] == ds.nodes[Next(v.w1)] &&
    ds'.nodes[v.w2] == ds.nodes[v.w2] && ds'.nodes[Next(v.w2)] == ds.nodes[Next(v.w2)]
  }

  /** Slots `t1` and `t2` are tombstoned, and every hedge outside the three
      slots keeps its node, and its twin unless it is a picked twin. */
  ghost predicate FanFrame(ds: TriDs, ds': TriDs, v: FanView) {
    |ds'.nodes| == |ds.nodes| && |ds'.twins| == |ds.twins| &&
    (forall h :: 0 <= h < |ds.nodes| && h < |ds.twins| && (h / 3 == v.t1 || h / 3 == v.t2) ==>
      ds'.nodes[h] == Deleted && ds'.twins[h] == INACTIVE) &&
    (forall h :: 0 <= h < |ds.nodes| && !InFan(h, v) ==> ds'.nodes[h] == ds.nodes[h]) &&
    (forall h :: 0 <= h < |ds.twins| && !InFan(h, v) && !IsW(h, v) ==> ds'.twins[h] == ds.twins[h])
  }

  /** One hedge of the flip's result, read off the writes. */
  lemma FanResultAt(ds: TriDs, v: FanView, h: nat)
    requires FanSized(ds, v) && FanApart(v) && FanBack(ds, v) && ds.numTris >= 2 && h < |ds.nodes|
    ensures var r := FanResult(ds, v);
      ((h / 3 == v.t1 || h / 3 == v.t2) ==> r.nodes[h] == Deleted && r.twins[h] == INACTIVE) &&
      (!InFan(h, v) ==> r.nodes[h] == ds.nodes[h]) &&
      (!InFan(h, v) && !IsW(h, v) ==> r.twins[h] == ds.twins[h])
  {
    var d3 := TriDs(FillSlot(ds.nodes, v), LinkTwins(ds.twins, v), ds.numTris, ds.numDeleted);
    FillSlotAt(ds.nodes, v, h);
    LinkTwinsAt(ds.twins, v, h);
    TombstoneAt(d3, v.t1, h);
    TombstoneAt(Tombstone(d3, v.t1), v.t2, h);
  }

  /** The hedge `x` of slot `t0` or a picked twin is read off the first
      writes, which the tombstones leave alone. */
  lemma FanResultKeeps(ds: TriDs, v: FanView, x: nat)
    requires FanSized(ds, v) && ds.numTris >= 2 && x < |ds.nodes|
    requires x / 3 != v.t1 && x / 3 != v.t2
    ensures var r := FanResult(ds, v);
      r.nodes[x] == FillSlot(ds.nodes, v)[x] && r.twins[x] == LinkTwins(ds.twins, v)[x]
  {
    var d3 := TriDs(FillSlot(ds.nodes, v), LinkTwins(ds.twins, v), ds.numTris, ds.numDeleted);
    TombstoneAt(d3, v.t1, x);
    TombstoneAt(Tombstone(d3, v.t1), v.t2, x);
  }

  lemma FanResultFrame(ds: TriDs, v: FanView)
    requires FanSized(ds, v) && FanApart(v) && FanBack(ds, v) && ds.numTris >= 2
    ensures FanFrame(ds, FanResult(ds, v), v)
  {
    var r := FanResult(ds, v);
    forall h | 0 <= h < |ds.nodes| && h < |ds.twins| && (h / 3 == v.t1 || h / 3 == v.t2)
      ensures r.nodes[h] == Deleted && r.twins[h] == INACTIVE
    {
      FanResultAt(ds, v, h);
    }
    forall h | 0 <= h < |ds.nodes| && !InFan(h, v)
      ensures r.nodes[h] == ds.nodes[h]
    {
      FanResultAt(ds, v, h);
    }
    forall h | 0 <= h < |ds.twins| && !InFan(h, v) && !IsW(h, v)
      ensures r.twins[h] == ds.twins[h]
    {
      FanResultAt(ds, v, h);
    }
  }

  lemma FanResultSlot(ds: TriDs, v: FanView)
    requires FanSized(ds, v) && FanApart(v) && FanBack(ds, v) && ds.numTris >= 2
    ensures FanSlotShape(ds, FanResult(ds, v), v)
  {
    var h := 3 * v.t0;
    FanResultSlotHedges(ds, v);
    FanResultPickedTwins(ds, v);
  }

  /** Slot `t0` of the result holds the picked edges. */
  lemma FanResultSlotHedges(ds: TriDs, v: FanView)
    requires FanSized(ds, v) && FanApart(v) && FanBack(ds, v) && ds.numTris >= 2
    ensures var r, h := FanResult(ds, v), 3 * v.t0;
      r.nodes[h] == v.s0 && r.nodes[h + 1] == v.s1 && r.nodes[h + 2] == v.s2 &&
      r.twins[h] == v.w0 && r.twins[h + 1] == v.w1 && r.twins[h + 2] == v.w2
  {
    FillSlotAt(ds.nodes, v, 0);
    LinkTwinsAt(ds.twins, v, 0);
    var h := 3 * v.t0;
    SlotThirds(v.t0);
    FanResultKeeps(ds, v, h);
    FanResultKeeps(ds, v, h + 1);
    FanResultKeeps(ds, v, h + 2);
  }

  /** The three hedges of slot `t` lie in slot `t`. */
  lemma SlotThirds(t: nat)
    ensures (3 * t) / 3 == t && (3 * t + 1) / 3 == t && (3 * t + 2) / 3 == t
  {
  }

  /** The picked twins of the result point back at slot `t0`. */
  lemma FanResultPickedTwins(ds: TriDs, v: FanView)
    requires FanSized(ds, v) && FanApart(v) && FanBack(ds, v) && ds.numTris >= 2
    ensures var r, h := FanResult(ds, v), 3 * v.t0;
      r.twins[v.w0] == h && r.twins[v.w1] == h + 1 && r.twins[v.w2] == h + 2
  {
    LinkTwinsAt(ds.twins, v, 0);
    FanResultKeeps(ds, v, v.w0);
    FanResultKeeps(ds, v, v.w1);
    FanResultKeeps(ds, v, v.w2);
  }

  lemma FanResultTwinsKept(ds: TriDs, v: FanView)
    requires FanSized(ds, v) && FanNextSized(ds, v) && FanApart(v) && FanBack(ds, v) && ds.numTris >= 2
    ensures FanTwinsKept(ds, FanResult(ds, v), v)
  {
    NextStays(v.w0, |ds.nodes|);
    NextStays(v.w1, |ds.nodes|);
    NextStays(v.w2, |ds.nodes|);
    FanResultAt(ds, v, v.w0);
    FanResultAt(ds, v, v.w1);
    FanResultAt(ds, v, v.w2);
    FanResultAt(ds, v, Next(v.w0));
    FanResultAt(ds, v, Next(v.w1));
    FanResultAt(ds, v, Next(v.w2));
  }

  lemma FanResultShape(ds: TriDs, v: FanView)
    requires FanSized(ds, v) && FanNextSized(ds, v) && FanApart(v) && FanBack(ds, v) && ds.numTris >= 2
    ensures FanShape(ds, FanResult(ds, v), v) && FanFrame(ds, FanResult(ds, v), v)
  {
    FanResultFrame(ds, v);
    FanResultSlot(ds, v);
    FanResultTwinsKept(ds, v);
  }

  /** A new hedge `h0` of slot `t0` and its picked twin `w` are linked:
      `h0` starts at `s`, its successor at `sn`, and `w` runs from `sn` back
      to `s` as it did before the flip. */
  lemma FanPair(ds: TriDs, ds': TriDs, h0: nat, w: nat, s: VertexNode, sn: VertexNode, h: nat)
    requires Sized(ds') && |ds'.nodes| == |ds.nodes| && h0 < |ds.nodes| && w < |ds.nodes| && Next(w) < |ds.nodes|
    requires h0 / 3 != w / 3 && !s.Deleted? && !sn.Deleted?
    requires ds'.nodes[h0] == s && ds'.nodes[Next(h0)] == sn
    requires ds'.twins[h0] == w && ds'.twins[w] == h0
    requires ds'.nodes[w] == ds.nodes[w] && ds'.nodes[Next(w)] == ds.nodes[Next(w)]
    requires ds.nodes[w] == sn && ds.nodes[Next(w)] == s
    requires h == h0 || h == w
    ensures Linked(ds', h)
  {
    LinkedPair(ds', h0, w);
  }

  /** The hedges of slot `t0` and the picked twins are linked. */
  lemma FanPairs(ds: TriDs, ds': TriDs, v: FanView, h: nat)
    requires FanSized(ds, v) && FanNextSized(ds, v) && FanBack(ds, v) && FanRunsBack(ds, v)
    requires FanApart(v) && FanCloses(ds, v)
    requires FanSlotShape(ds, ds', v) && FanTwinsKept(ds, ds', v)
    requires h == 3 * v.t0 || h == 3 * v.t0 + 1 || h == 3 * v.t0 + 2 || IsW(h, v)
    ensures Linked(ds', h)
  {
    var t := 3 * v.t0;
    if h == t || h == v.w0 {
      FanPair0(ds, ds', v, h);
    } else if h == t + 1 || h == v.w1 {
      FanPair1(ds, ds', v, h);
    } else {
      FanPair2(ds, ds', v, h);
    }
  }

  /** The first hedge of slot `t0` and its picked twin are linked. */
  lemma FanPair0(ds: TriDs, ds': TriDs, v: FanView, h: nat)
    requires FanSized(ds, v) && FanNextSized(ds, v) && FanBack(ds, v) && FanRunsBack(ds, v)
    requires FanApart(v) && FanCloses(ds, v)
    requires FanSlotShape(ds, ds', v) && FanTwinsKept(ds, ds', v)
    requires h == 3 * v.t0 || h == v.w0
    ensures Linked(ds', h)
  {
    Shifted(3 * v.t0, 0);
    FanPair(ds, ds', 3 * v.t0, v.w0, v.s0, v.s1, h);
  }

  /** The second hedge of slot `t0` and its picked twin are linked. */
  lemma FanPair1(ds: TriDs, ds': TriDs, v: FanView, h: nat)
    requires FanSized(ds, v) && FanNextSized(ds, v) && FanBack(ds, v) && FanRunsBack(ds, v)
    requires FanApart(v) && FanCloses(ds, v)
    requires FanSlotShape(ds, ds', v) && FanTwinsKept(ds, ds', v)
    requires h == 3 * v.t0 + 1 || h == v.w1
    ensures Linked(ds', h)
  {
    Shifted(3 * v.t0, 1);
    FanPair(ds, ds', 3 * v.t0 + 1, v.w1, v.s1, v.s2, h);
  }

  /** The third hedge of slot `t0` and its picked twin are linked. */
  lemma FanPair2(ds: TriDs, ds': TriDs, v: FanView, h: nat)
    requires FanSized(ds, v) && FanNextSized(ds, v) && FanBack(ds, v) && FanRunsBack(ds, v)
    requires FanApart(v) && FanCloses(ds, v)
    requires FanSlotShape(ds, ds', v) && FanTwinsKept(ds, ds', v)
    requires h == 3 * v.t0 + 2 || h == v.w2
    ensures Linked(ds', h)
  {
    Shifted(3 * v.t0, 2);
    FanPair(ds, ds', 3 * v.t0 + 2, v.w2, v.s2, v.s0, h);
  }

  /** The twin of a live hedge outside the slots that is not a picked twin
      is neither in the slots nor a picked twin. */
  lemma FanTwinOutside(ds: TriDs, v: FanView, h: nat)
    requires Valid(ds) && FanSized(ds, v) && FanBack(ds, v) && FanEncloses(ds, v)
    requires h < |ds.nodes| && !ds.nodes[h].Deleted? && !InFan(h, v) && !IsW(h, v)
    ensures ds.twins[h] < |ds.nodes| && !InFan(ds.twins[h], v) && !IsW(ds.twins[h], v)
  {
    assert Linked(ds, h);
  }

  /** A hedge outside the slots that is not a picked twin stays linked. */
  lemma FanUntouched(ds: TriDs, ds': TriDs, v: FanView, h: nat)
    requires Valid(ds) && FanSized(ds, v) && FanNextSized(ds, v) && FanShape(ds, ds', v) && FanFrame(ds, ds', v)
    requires h < |ds.nodes| && !InFan(h, v) && !IsW(h, v)
    requires !ds.nodes[h].Deleted? ==>
      ds.twins[h] < |ds.nodes| && !InFan(ds.twins[h], v) && !IsW(ds.twins[h], v)
    ensures Linked(ds', h)
  {
    var n := |ds.nodes|;
    assert Linked(ds, h);
    NextStays(h, n);
    if !ds.nodes[h].Deleted? {
      NextStays(ds.twins[h], n);
    }
    LinkedFrame(ds, ds', h);
  }

  /** Every hedge after the flip is linked. */
  lemma FanHedge(ds: TriDs, ds': TriDs, v: FanView, h: nat)
    requires Valid(ds) && FanSized(ds, v) && FanNextSized(ds, v) && FanBack(ds, v) && FanRunsBack(ds, v)
    requires FanEncloses(ds, v)
    requires FanShape(ds, ds', v) && FanFrame(ds, ds', v)
    requires h < |ds'.nodes|
    ensures Linked(ds', h)
  {
    var t := 3 * v.t0;
    if h == t || h == t + 1 || h == t + 2 || IsW(h, v) {
      FanPairs(ds, ds', v, h);
    } else if h / 3 == v.t1 || h / 3 == v.t2 {
      assert ds'.nodes[h] == Deleted && ds'.twins[h] == INACTIVE;
    } else {
      if !ds.nodes[h].Deleted? {
        FanTwinOutside(ds, v, h);
      }
      FanUntouched(ds, ds', v, h);
    }
  }

  // ---------------------------------------------------------------------
  // The properties of `flip_3_to_1`

  /** `flip_3_to_1` on three different slots of a valid structure links the
      new triangle with the picked twins both ways: hedge `3 t0 + k` gets
      the twin of the k-th picked edge, and that twin points back. Twins of
      hedges outside the slots that are not picked twins are unchanged. */
  lemma FlipThreeToOneTwins(ds: TriDs, t0: nat, t1: nat, t2: nat, reflex: nat, vertices: seq<Pt2>, orient: Orient2)
    requires Valid(ds) && t0 != t1 && t0 != t2 && t1 != t2
    requires FlipThreeToOne(ds, t0, t1, t2, reflex, vertices, orient).Ok?
    requires PickedTwinsApart(ds, t0, t1, t2, reflex, vertices, orient)
    ensures forall k :: 0 <= k < 3 ==> PickedEdges(ds, t0, t1, t2, reflex, vertices, orient)[k].1 < |ds.twins|
    ensures var es := PickedEdges(ds, t0, t1, t2, reflex, vertices, orient);
      var ds' := FlipThreeToOne(ds, t0, t1, t2, reflex, vertices, orient).value.0;
      forall k :: 0 <= k < 3 ==> ds'.twins[3 * t0 + k] == es[k].1 && ds'.twins[es[k].1] == 3 * t0 + k
    ensures var es := PickedEdges(ds, t0, t1, t2, reflex, vertices, orient);
      var ds' := FlipThreeToOne(ds, t0, t1, t2, reflex, vertices, orient).value.0;
      forall h :: 0 <= h < |ds.twins| && h / 3 != t0 && h / 3 != t1 && h / 3 != t2 ==>
        (h != es[0].1 && h != es[1].1 && h != es[2].1 ==> ds'.twins[h] == ds.twins[h])
  {
    var v := FanOf(ds, t0, t1, t2, reflex, vertices, orient);
    ValidFanBack(ds, t0, t1, t2, reflex, vertices, orient);
    FlipThreeToOneIsFan(ds, t0, t1, t2, reflex, vertices, orient);
    var es := PickedEdges(ds, t0, t1, t2, reflex, vertices, orient);
    var ds' := FlipThreeToOne(ds, t0, t1, t2, reflex, vertices, orient).value.0;
    FanResultSlot(ds, v);
    FanTwinsFrame(ds, v, ds');
    FanTwinsAll(ds, v, es, ds', t0, t1, t2);
  }

  /** The twin links of a result `r` of the flip of view `v`, restated for
      the picked edges `es` the view was read from. */
  lemma FanTwinsAll(ds: TriDs, v: FanView, es: seq<(VertexNode, nat)>, r: TriDs, t0: nat, t1: nat, t2: nat)
    requires FanSized(ds, v) && FanSlotShape(ds, r, v) && |r.twins| == |ds.twins|
    requires forall h :: 0 <= h < |ds.twins| && !InFan(h, v) && !IsW(h, v) ==> r.twins[h] == ds.twins[h]
    requires |es| == 3 && es[0].1 == v.w0 && es[1].1 == v.w1 && es[2].1 == v.w2
    requires t0 == v.t0 && t1 == v.t1 && t2 == v.t2
    ensures forall k :: 0 <= k < 3 ==> es[k].1 < |ds.twins|
    ensures forall k :: 0 <= k < 3 ==> r.twins[3 * t0 + k] == es[k].1 && r.twins[es[k].1] == 3 * t0 + k
    ensures forall h :: 0 <= h < |ds.twins| && h / 3 != t0 && h / 3 != t1 && h / 3 != t2 ==>
      (h != es[0].1 && h != es[1].1 && h != es[2].1 ==> r.twins[h] == ds.twins[h])
  {
    SlotTwinsEach(es, ds.twins, r.twins, t0);
    forall h | 0 <= h < |ds.twins| && h / 3 != t0 && h / 3 != t1 && h / 3 != t2 &&
      h != es[0].1 && h != es[1].1 && h != es[2].1
      ensures r.twins[h] == ds.twins[h]
    {
      assert !InFan(h, v) && !IsW(h, v);
    }
  }

  /** Twins outside the slots that are not picked twins are unchanged. */
  lemma FanTwinsFrame(ds: TriDs, v: FanView, r: TriDs)
    requires FanSized(ds, v) && FanBack(ds, v) && FanApart(v) && ds.numTris >= 2 && r == FanResult(ds, v)
    ensures forall h :: 0 <= h < |ds.twins| && !InFan(h, v) && !IsW(h, v) ==> r.twins[h] == ds.twins[h]
  {
    forall h | 0 <= h < |ds.twins| && !InFan(h, v) && !IsW(h, v)
      ensures r.twins[h] == ds.twins[h]
    {
      FanResultAt(ds, v, h);
    }
  }

  /** The three explicit twin links, stated for each picked edge. */
  lemma SlotTwinsEach(es: seq<(VertexNode, nat)>, twins: seq<nat>, twins': seq<nat>, t0: nat)
    requires |es| == 3 && |twins'| == |twins| && 3 * t0 + 2 < |twins'|
    requires es[0].1 < |twins| && es[1].1 < |twins| && es[2].1 < |twins|
    requires twins'[3 * t0] == es[0].1 && twins'[3 * t0 + 1] == es[1].1 && twins'[3 * t0 + 2] == es[2].1
    requires twins'[es[0].1] == 3 * t0 && twins'[es[1].1] == 3 * t0 + 1 && twins'[es[2].1] == 3 * t0 + 2
    ensures forall k :: 0 <= k < 3 ==> es[k].1 < |twins|
    ensures forall k :: 0 <= k < 3 ==> twins'[3 * t0 + k] == es[k].1 && twins'[es[k].1] == 3 * t0 + k
  {
    forall k | 0 <= k < 3
      ensures es[k].1 < |twins| && twins'[3 * t0 + k] == es[k].1 && twins'[es[k].1] == 3 * t0 + k
    {
      if k == 0 {} else if k == 1 {} else {}
    }
  }

  /** `flip_3_to_1` on three different slots of a valid structure, arranged
      as the source assumes (one larger triangle bounded by the picked
      edges), yields a valid structure. */
  lemma FlipThreeToOneValid(ds: TriDs, t0: nat, t1: nat, t2: nat, reflex: nat, vertices: seq<Pt2>, orient: Orient2)
    requires Valid(ds) && t0 != t1 && t0 != t2 && t1 != t2
    requires FlipThreeToOne(ds, t0, t1, t2, reflex, vertices, orient).Ok?
    requires Encloses(ds, t0, t1, t2, reflex, vertices, orient)
    ensures Valid(FlipThreeToOne(ds, t0, t1, t2, reflex, vertices, orient).value.0)
  {
    var v := FanOf(ds, t0, t1, t2, reflex, vertices, orient);
    ValidFanBack(ds, t0, t1, t2, reflex, vertices, orient);
    FlipThreeToOneIsFan(ds, t0, t1, t2, reflex, vertices, orient);
    FanResultShape(ds, v);
    var ds' := FanResult(ds, v);
    forall h | 0 <= h < |ds'.nodes|
      ensures Linked(ds', h)
    {
      FanHedge(ds, ds', v, h);
    }
  }
}
