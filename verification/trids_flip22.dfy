/** The 2->2 flip keeps the invariant of the 2D half-edge structure when the
    four corners of the two triangles are different nodes. */
module TriFlipTwoToTwo {
  import opened Base
  import opened Node
  import opened TriDs
  import opened TriDsValid
  import opened TriFlips

  /** The diagonal `idx` (c->a in slot t1 = cab) has a twin a->c in another
      slot t2 = acd, and every hedge of the quad can be read. */
  predicate QuadBase(ds: TriDs, idx: nat)
    requires Sized(ds) && idx < |ds.nodes|
  {
    var tw := ds.twins[idx];
    tw < |ds.nodes| && tw / 3 != idx / 3 && ds.twins[tw] == idx &&
    var q := QuadOf(ds, idx);
    q.ab < |ds.nodes| && q.bc < |ds.nodes| && q.cd < |ds.nodes| && q.da < |ds.nodes| &&
    3 * q.t1 + 2 < |ds.nodes| && 3 * q.t2 + 2 < |ds.nodes|
  }

  /** The outer twins ba, cb, dc, ad of the quad are four different hedges,
      each pointing back. */
  predicate QuadOuter(ds: TriDs, idx: nat)
    requires Sized(ds) && idx < |ds.nodes| && QuadBase(ds, idx)
  {
    var q := QuadOf(ds, idx);
    var (ba, cb, dc, ad) := (ds.twins[q.ab], ds.twins[q.bc], ds.twins[q.cd], ds.twins[q.da]);
    ba < |ds.nodes| && cb < |ds.nodes| && dc < |ds.nodes| && ad < |ds.nodes| &&
    Next(ba) < |ds.nodes| && Next(cb) < |ds.nodes| && Next(dc) < |ds.nodes| && Next(ad) < |ds.nodes| &&
    ba != cb && ba != dc && ba != ad && cb != dc && cb != ad && dc != ad &&
    ds.twins[ba] == q.ab && ds.twins[cb] == q.bc && ds.twins[dc] == q.cd && ds.twins[ad] == q.da
  }

  /** The outer twins lie outside both slots of the quad. */
  predicate QuadApart(ds: TriDs, idx: nat)
    requires Sized(ds) && idx < |ds.nodes| && QuadBase(ds, idx)
  {
    var q := QuadOf(ds, idx);
    var (ba, cb, dc, ad) := (ds.twins[q.ab], ds.twins[q.bc], ds.twins[q.cd], ds.twins[q.da]);
    ba / 3 != q.t1 && cb / 3 != q.t1 && dc / 3 != q.t1 && ad / 3 != q.t1 &&
    ba / 3 != q.t2 && cb / 3 != q.t2 && dc / 3 != q.t2 && ad / 3 != q.t2
  }

  /** The corners of the quad are live and each outer twin runs against its
      quad hedge. */
  predicate QuadNodes(ds: TriDs, idx: nat)
    requires Sized(ds) && idx < |ds.nodes| && QuadBase(ds, idx) && QuadOuter(ds, idx)
  {
    var q := QuadOf(ds, idx);
    var (ba, cb, dc, ad) := (ds.twins[q.ab], ds.twins[q.bc], ds.twins[q.cd], ds.twins[q.da]);
    var (a, b, c, d) := (ds.nodes[q.ab], ds.nodes[q.bc], ds.nodes[q.cd], ds.nodes[q.da]);
    !a.Deleted? && !b.Deleted? && !c.Deleted? && !d.Deleted? &&
    ds.nodes[ba] == b && ds.nodes[Next(ba)] == a &&
    ds.nodes[cb] == c && ds.nodes[Next(cb)] == b &&
    ds.nodes[dc] == d && ds.nodes[Next(dc)] == c &&
    ds.nodes[ad] == a && ds.nodes[Next(ad)] == d
  }

  /** What a valid structure says about the quad around the diagonal `idx`. */
  predicate QuadLinked(ds: TriDs, idx: nat)
    requires Sized(ds) && idx < |ds.nodes|
  {
    QuadBase(ds, idx) && QuadOuter(ds, idx) && QuadApart(ds, idx) && QuadNodes(ds, idx)
  }

  /** The four corners of the quad around `idx` are different nodes. */
  predicate QuadDistinct(ds: TriDs, idx: nat)
    requires Valid(ds) && idx < |ds.nodes| && !ds.nodes[idx].Deleted?
  {
    assert Linked(ds, idx);
    var q := QuadOf(ds, idx);
    var (a, b, c, d) := (ds.nodes[q.ab], ds.nodes[q.bc], ds.nodes[q.cd], ds.nodes[q.da]);
    a != b && a != c && a != d && b != c && b != d && c != d
  }

  /** The hedges of slot t1 and the hedges of slot t2 in the quad. */
  lemma QuadSlots(ds: TriDs, idx: nat)
    requires Valid(ds) && idx < |ds.nodes| && !ds.nodes[idx].Deleted?
    ensures ds.twins[idx] < |ds.nodes| && QuadOf(ds, idx).t1 == idx / 3
    ensures var q := QuadOf(ds, idx);
      q.ab == Next(idx) && q.bc == Next(q.ab) && idx == Next(q.bc) &&
      q.cd == Next(ds.twins[idx]) && q.da == Next(q.cd) && ds.twins[idx] == Next(q.da) &&
      q.ab / 3 == q.t1 && q.bc / 3 == q.t1 && q.cd / 3 == q.t2 && q.da / 3 == q.t2 &&
      q.t2 == ds.twins[idx] / 3 && q.t1 != q.t2
  {
    assert Linked(ds, idx);
    NextPrevCycle(idx);
    NextPrevCycle(ds.twins[idx]);
  }

  /** A twin that lies in slot `g / 3` reverses one of that slot's three
      edges. */
  lemma TwinInSlot(ds: TriDs, h: nat, g: nat)
    requires Valid(ds) && h < |ds.nodes| && g < |ds.nodes| && !ds.nodes[h].Deleted?
    requires ds.twins[h] / 3 == g / 3
    ensures Next(g) < |ds.nodes| && Prev(g) < |ds.nodes|
    ensures var (s, e) := (ds.nodes[h], ds.nodes[Next(h)]);
      (s == ds.nodes[Next(g)] && e == ds.nodes[g]) ||
      (s == ds.nodes[Prev(g)] && e == ds.nodes[Next(g)]) ||
      (s == ds.nodes[g] && e == ds.nodes[Prev(g)])
  {
    assert Linked(ds, h);
    NextPrevCycle(g);
    NextStays(g, |ds.nodes|);
    NextStays(Next(g), |ds.nodes|);
    SameSlot(ds.twins[h], g);
  }

  lemma ValidQuadBase(ds: TriDs, idx: nat)
    requires Valid(ds) && idx < |ds.nodes| && !ds.nodes[idx].Deleted?
    ensures QuadBase(ds, idx)
  {
    QuadSlots(ds, idx);
    assert Linked(ds, idx);
    var q := QuadOf(ds, idx);
    NextStays(idx, |ds.nodes|);
    NextStays(ds.twins[idx], |ds.nodes|);
    NextStays(q.ab, |ds.nodes|);
    NextStays(q.cd, |ds.nodes|);
  }

  /** The four quad hedges are live and linked. */
  lemma QuadHedgesLinked(ds: TriDs, idx: nat)
    requires Valid(ds) && idx < |ds.nodes| && !ds.nodes[idx].Deleted?
    requires QuadBase(ds, idx)
    ensures var q := QuadOf(ds, idx);
      !ds.nodes[q.ab].Deleted? && !ds.nodes[q.bc].Deleted? && !ds.nodes[q.cd].Deleted? && !ds.nodes[q.da].Deleted? &&
      Linked(ds, q.ab) && Linked(ds, q.bc) && Linked(ds, q.cd) && Linked(ds, q.da)
  {
    QuadSlots(ds, idx);
    assert Linked(ds, idx);
    LiveTriangle(ds, idx);
    LiveTriangle(ds, ds.twins[idx]);
  }

  lemma ValidQuadOuter(ds: TriDs, idx: nat)
    requires Valid(ds) && idx < |ds.nodes| && !ds.nodes[idx].Deleted?
    requires QuadBase(ds, idx)
    ensures QuadOuter(ds, idx)
  {
    QuadSlots(ds, idx);
    QuadHedgesLinked(ds, idx);
    var q := QuadOf(ds, idx);
    var (ba, cb, dc, ad) := (ds.twins[q.ab], ds.twins[q.bc], ds.twins[q.cd], ds.twins[q.da]);
    NextStays(ba, |ds.nodes|);
    NextStays(cb, |ds.nodes|);
    NextStays(dc, |ds.nodes|);
    NextStays(ad, |ds.nodes|);
  }

  lemma ValidQuadApart(ds: TriDs, idx: nat)
    requires Valid(ds) && idx < |ds.nodes| && !ds.nodes[idx].Deleted?
    requires QuadDistinct(ds, idx) && QuadBase(ds, idx)
    ensures QuadApart(ds, idx)
  {
    QuadSlots(ds, idx);
    var tw := ds.twins[idx];
    var q := QuadOf(ds, idx);
    assert Linked(ds, idx);
    LiveTriangle(ds, idx);
    LiveTriangle(ds, tw);
    assert Linked(ds, q.ab) && Linked(ds, q.bc) && Linked(ds, q.cd) && Linked(ds, q.da);
    var (ba, cb, dc, ad) := (ds.twins[q.ab], ds.twins[q.bc], ds.twins[q.cd], ds.twins[q.da]);
    if ba / 3 == q.t2 { TwinInSlot(ds, q.ab, tw); }
    if cb / 3 == q.t2 { TwinInSlot(ds, q.bc, tw); }
    if dc / 3 == q.t1 { TwinInSlot(ds, q.cd, idx); }
    if ad / 3 == q.t1 { TwinInSlot(ds, q.da, idx); }
  }

  lemma ValidQuadNodes(ds: TriDs, idx: nat)
    requires Valid(ds) && idx < |ds.nodes| && !ds.nodes[idx].Deleted?
    requires QuadBase(ds, idx) && QuadOuter(ds, idx)
    ensures QuadNodes(ds, idx)
  {
    QuadSlots(ds, idx);
    var tw := ds.twins[idx];
    var q := QuadOf(ds, idx);
    assert Linked(ds, idx);
    LiveTriangle(ds, idx);
    LiveTriangle(ds, tw);
    assert Linked(ds, idx) && Linked(ds, tw);
    assert Linked(ds, q.ab) && Linked(ds, q.bc) && Linked(ds, q.cd) && Linked(ds, q.da);
  }

  /** In a valid structure, a live diagonal whose quad has four different
      corners has all the links a 2->2 flip relies on. */
  lemma ValidQuadLinked(ds: TriDs, idx: nat)
    requires Valid(ds) && idx < |ds.nodes| && !ds.nodes[idx].Deleted?
    requires QuadDistinct(ds, idx)
    ensures QuadLinked(ds, idx)
  {
    ValidQuadBase(ds, idx);
    ValidQuadOuter(ds, idx);
    ValidQuadApart(ds, idx);
    ValidQuadNodes(ds, idx);
  }

  /** Hedge `h` lies in neither of the slots `t1` and `t2`. */
  predicate Off(h: nat, t1: nat, t2: nat) {
    h != 3 * t1 && h != 3 * t1 + 1 && h != 3 * t1 + 2 &&
    h != 3 * t2 && h != 3 * t2 + 1 && h != 3 * t2 + 2
  }

  lemma OffIff(h: nat, t1: nat, t2: nat)
    ensures Off(h, t1, t2) <==> h / 3 != t1 && h / 3 != t2
  {
  }

  /** The quad around a diagonal as plain values: its two slots, its four
      corners a, b, c, d and the outer twins ba, cb, dc, ad. */
  datatype QuadView = QuadView(t1: nat, t2: nat, a: VertexNode, b: VertexNode, c: VertexNode, d: VertexNode,
                               ba: nat, cb: nat, dc: nat, ad: nat)

  function ViewOf(ds: TriDs, idx: nat): QuadView
    requires Sized(ds) && idx < |ds.nodes| && QuadBase(ds, idx)
  {
    var q := QuadOf(ds, idx);
    QuadView(q.t1, q.t2, ds.nodes[q.ab], ds.nodes[q.bc], ds.nodes[q.cd], ds.nodes[q.da],
             ds.twins[q.ab], ds.twins[q.bc], ds.twins[q.cd], ds.twins[q.da])
  }

  /** Hedge `x` is in one of the two slots or is an outer twin. */
  predicate Inside(x: nat, v: QuadView) {
    !Off(x, v.t1, v.t2) || x == v.ba || x == v.cb || x == v.dc || x == v.ad
  }

  /** The slots and outer twins of `v`, and their successors, are hedges of
      `ds`, and the two slots differ. */
  predicate ViewSized(ds: TriDs, v: QuadView) {
    var n := |ds.nodes|;
    Sized(ds) && 3 * v.t1 + 2 < n && 3 * v.t2 + 2 < n && v.t1 != v.t2 &&
    v.ba < n && v.cb < n && v.dc < n && v.ad < n &&
    Next(v.ba) < n && Next(v.cb) < n && Next(v.dc) < n && Next(v.ad) < n
  }

  /** The corners are live and each outer twin runs against its quad edge,
      from a slot other than the one that edge is rewritten into. */
  predicate ViewNodes(ds: TriDs, v: QuadView)
    requires ViewSized(ds, v)
  {
    v.ba / 3 != v.t2 && v.ad / 3 != v.t2 && v.cb / 3 != v.t1 && v.dc / 3 != v.t1 &&
    !v.a.Deleted? && !v.b.Deleted? && !v.c.Deleted? && !v.d.Deleted? &&
    ds.nodes[v.ba] == v.b && ds.nodes[Next(v.ba)] == v.a &&
    ds.nodes[v.cb] == v.c && ds.nodes[Next(v.cb)] == v.b &&
    ds.nodes[v.dc] == v.d && ds.nodes[Next(v.dc)] == v.c &&
    ds.nodes[v.ad] == v.a && ds.nodes[Next(v.ad)] == v.d
  }

  /** The outer twins are four different hedges outside both slots, and so
      are their successors. */
  predicate ViewApart(v: QuadView) {
    v.ba != v.cb && v.ba != v.dc && v.ba != v.ad && v.cb != v.dc && v.cb != v.ad && v.dc != v.ad &&
    Off(v.ba, v.t1, v.t2) && Off(v.cb, v.t1, v.t2) && Off(v.dc, v.t1, v.t2) && Off(v.ad, v.t1, v.t2) &&
    Off(Next(v.ba), v.t1, v.t2) && Off(Next(v.cb), v.t1, v.t2) &&
    Off(Next(v.dc), v.t1, v.t2) && Off(Next(v.ad), v.t1, v.t2)
  }

  /** The twins of the two slots and of the outer twins stay inside the
      quad. */
  predicate ViewInside(ds: TriDs, v: QuadView)
    requires ViewSized(ds, v)
  {
    !Off(ds.twins[v.ba], v.t1, v.t2) && !Off(ds.twins[v.cb], v.t1, v.t2) &&
    !Off(ds.twins[v.dc], v.t1, v.t2) && !Off(ds.twins[v.ad], v.t1, v.t2) &&
    Inside(ds.twins[3 * v.t1], v) && Inside(ds.twins[3 * v.t1 + 1], v) && Inside(ds.twins[3 * v.t1 + 2], v) &&
    Inside(ds.twins[3 * v.t2], v) && Inside(ds.twins[3 * v.t2 + 1], v) && Inside(ds.twins[3 * v.t2 + 2], v)
  }

  /** The three hedges of the slot of `h` are `h`, its successor and its
      predecessor. */
  lemma SlotHedges(h: nat)
    ensures 3 * (h / 3) == h || 3 * (h / 3) == Next(h) || 3 * (h / 3) == Prev(h)
    ensures 3 * (h / 3) + 1 == h || 3 * (h / 3) + 1 == Next(h) || 3 * (h / 3) + 1 == Prev(h)
    ensures 3 * (h / 3) + 2 == h || 3 * (h / 3) + 2 == Next(h) || 3 * (h / 3) + 2 == Prev(h)
  {
    SameSlot(3 * (h / 3), h);
    SameSlot(3 * (h / 3) + 1, h);
    SameSlot(3 * (h / 3) + 2, h);
  }

  lemma ValidViewSized(ds: TriDs, idx: nat)
    requires Valid(ds) && idx < |ds.nodes| && !ds.nodes[idx].Deleted? && QuadLinked(ds, idx)
    ensures ViewSized(ds, ViewOf(ds, idx))
  {
    QuadSlots(ds, idx);
  }

  lemma ValidViewNodes(ds: TriDs, idx: nat)
    requires Sized(ds) && idx < |ds.nodes| && QuadLinked(ds, idx) && ViewSized(ds, ViewOf(ds, idx))
    ensures ViewNodes(ds, ViewOf(ds, idx))
  {
  }

  lemma ValidViewApart(ds: TriDs, idx: nat)
    requires Sized(ds) && idx < |ds.nodes| && QuadLinked(ds, idx) && ViewSized(ds, ViewOf(ds, idx))
    ensures ViewApart(ViewOf(ds, idx))
  {
    var v := ViewOf(ds, idx);
    OffIff(v.ba, v.t1, v.t2);
    OffIff(v.cb, v.t1, v.t2);
    OffIff(v.dc, v.t1, v.t2);
    OffIff(v.ad, v.t1, v.t2);
    OffIff(Next(v.ba), v.t1, v.t2);
    OffIff(Next(v.cb), v.t1, v.t2);
    OffIff(Next(v.dc), v.t1, v.t2);
    OffIff(Next(v.ad), v.t1, v.t2);
  }

  /** The twins of slot t1's hedges: `idx` goes to slot t2, ab and bc to
      the outer twins ba and cb. */
  lemma ValidViewInsideT1(ds: TriDs, idx: nat)
    requires Valid(ds) && idx < |ds.nodes| && !ds.nodes[idx].Deleted? && QuadLinked(ds, idx)
    requires ViewSized(ds, ViewOf(ds, idx))
    ensures var v := ViewOf(ds, idx);
      Inside(ds.twins[3 * v.t1], v) && Inside(ds.twins[3 * v.t1 + 1], v) && Inside(ds.twins[3 * v.t1 + 2], v)
  {
    QuadSlots(ds, idx);
    var v := ViewOf(ds, idx);
    OffIff(ds.twins[idx], v.t1, v.t2);
    SlotHedges(idx);
  }

  /** The twins of slot t2's hedges: the twin of `idx` goes to slot t1, cd
      and da to the outer twins dc and ad. */
  lemma ValidViewInsideT2(ds: TriDs, idx: nat)
    requires Valid(ds) && idx < |ds.nodes| && !ds.nodes[idx].Deleted? && QuadLinked(ds, idx)
    requires ViewSized(ds, ViewOf(ds, idx))
    ensures var v := ViewOf(ds, idx);
      Inside(ds.twins[3 * v.t2], v) && Inside(ds.twins[3 * v.t2 + 1], v) && Inside(ds.twins[3 * v.t2 + 2], v)
  {
    QuadSlots(ds, idx);
    var v := ViewOf(ds, idx);
    var tw := ds.twins[idx];
    OffIff(idx, v.t1, v.t2);
    SlotHedges(tw);
  }

  lemma ValidViewInside(ds: TriDs, idx: nat)
    requires Valid(ds) && idx < |ds.nodes| && !ds.nodes[idx].Deleted? && QuadLinked(ds, idx)
    requires ViewSized(ds, ViewOf(ds, idx))
    ensures ViewInside(ds, ViewOf(ds, idx))
  {
    QuadSlots(ds, idx);
    var q := QuadOf(ds, idx);
    var v := ViewOf(ds, idx);
    OffIff(q.ab, v.t1, v.t2);
    OffIff(q.bc, v.t1, v.t2);
    OffIff(q.cd, v.t1, v.t2);
    OffIff(q.da, v.t1, v.t2);
    ValidViewInsideT1(ds, idx);
    ValidViewInsideT2(ds, idx);
  }

  /** The six node writes of a 2->2 flip: slot t1 becomes bcd, slot t2 dab. */
  function SlotWrites(nodes: seq<VertexNode>, t1: nat, t2: nat, a: VertexNode, b: VertexNode,
                      c: VertexNode, d: VertexNode): seq<VertexNode>
    requires 3 * t1 + 2 < |nodes| && 3 * t2 + 2 < |nodes|
  {
    nodes[3 * t1 := b][3 * t1 + 1 := c][3 * t1 + 2 := d][3 * t2 := d][3 * t2 + 1 := a][3 * t2 + 2 := b]
  }

  /** Slot t1 holds bcd and slot t2 holds dab. */
  predicate SlotsWritten(r: seq<VertexNode>, v: QuadView)
    requires 3 * v.t1 + 2 < |r| && 3 * v.t2 + 2 < |r|
  {
    r[3 * v.t1] == v.b && r[3 * v.t1 + 1] == v.c && r[3 * v.t1 + 2] == v.d &&
    r[3 * v.t2] == v.d && r[3 * v.t2 + 1] == v.a && r[3 * v.t2 + 2] == v.b
  }

  /** Outside slots t1 and t2 the nodes are those of `nodes`. */
  predicate NodesKept(r: seq<VertexNode>, nodes: seq<VertexNode>, v: QuadView) {
    |r| == |nodes| && forall h :: 0 <= h < |nodes| && Off(h, v.t1, v.t2) ==> r[h] == nodes[h]
  }

  /** The four outer twins point at the rewritten slots and back, and the
      last hedges of the two slots form the new diagonal. */
  predicate TwinsRelinked(r: seq<nat>, v: QuadView)
    requires 3 * v.t1 + 2 < |r| && 3 * v.t2 + 2 < |r| && v.ba < |r| && v.cb < |r| && v.dc < |r| && v.ad < |r|
  {
    var (bc', cd', db) := (3 * v.t1, 3 * v.t1 + 1, 3 * v.t1 + 2);
    var (da', ab', bd) := (3 * v.t2, 3 * v.t2 + 1, 3 * v.t2 + 2);
    r[ab'] == v.ba && r[v.ba] == ab' && r[da'] == v.ad && r[v.ad] == da' &&
    r[bc'] == v.cb && r[v.cb] == bc' && r[cd'] == v.dc && r[v.dc] == cd' &&
    r[bd] == db && r[db] == bd
  }

  /** Off slots t1 and t2 and away from the outer twins the twins are those
      of `twins`. */
  predicate TwinsKept(r: seq<nat>, twins: seq<nat>, v: QuadView) {
    |r| == |twins| &&
    forall h :: 0 <= h < |twins| && Off(h, v.t1, v.t2) && h != v.ba && h != v.cb && h != v.dc && h != v.ad ==>
      r[h] == twins[h]
  }

  /** The node writes land where intended and nowhere else. */
  lemma SlotWritesAt(nodes: seq<VertexNode>, v: QuadView)
    requires 3 * v.t1 + 2 < |nodes| && 3 * v.t2 + 2 < |nodes| && v.t1 != v.t2
    ensures SlotsWritten(SlotWrites(nodes, v.t1, v.t2, v.a, v.b, v.c, v.d), v)
    ensures NodesKept(SlotWrites(nodes, v.t1, v.t2, v.a, v.b, v.c, v.d), nodes, v)
  {
  }

  /** The in-slot twin writes land where intended and nowhere else. */
  lemma QuadSlotTwinsAt(twins: seq<nat>, v: QuadView)
    requires 3 * v.t1 + 2 < |twins| && 3 * v.t2 + 2 < |twins| && v.t1 != v.t2
    ensures var r := QuadSlotTwins(twins, v.t1, v.t2, v.ba, v.cb, v.dc, v.ad);
      var (bc', cd', db) := (3 * v.t1, 3 * v.t1 + 1, 3 * v.t1 + 2);
      var (da', ab', bd) := (3 * v.t2, 3 * v.t2 + 1, 3 * v.t2 + 2);
      r[ab'] == v.ba && r[da'] == v.ad && r[bc'] == v.cb && r[cd'] == v.dc && r[bd] == db && r[db] == bd &&
      forall h :: 0 <= h < |twins| && Off(h, v.t1, v.t2) ==> r[h] == twins[h]
  {
  }

  /** The last four twin writes point the outer twins back at the
      rewritten slots and change nothing else. */
  lemma OuterTwinsAt(w: seq<nat>, v: QuadView)
    requires 3 * v.t1 + 2 < |w| && 3 * v.t2 + 2 < |w|
    requires v.ba < |w| && v.cb < |w| && v.dc < |w| && v.ad < |w|
    requires v.ba != v.cb && v.ba != v.dc && v.ba != v.ad && v.cb != v.dc && v.cb != v.ad && v.dc != v.ad
    ensures var r := w[v.ba := 3 * v.t2 + 1][v.ad := 3 * v.t2][v.cb := 3 * v.t1][v.dc := 3 * v.t1 + 1];
      |r| == |w| &&
      r[v.ba] == 3 * v.t2 + 1 && r[v.ad] == 3 * v.t2 && r[v.cb] == 3 * v.t1 && r[v.dc] == 3 * v.t1 + 1 &&
      forall h :: 0 <= h < |w| && h != v.ba && h != v.cb && h != v.dc && h != v.ad ==> r[h] == w[h]
  {
  }

  /** The twin writes land where intended and nowhere else. */
  lemma TwinWritesAt(twins: seq<nat>, v: QuadView)
    requires 3 * v.t1 + 2 < |twins| && 3 * v.t2 + 2 < |twins| && v.t1 != v.t2
    requires v.ba < |twins| && v.cb < |twins| && v.dc < |twins| && v.ad < |twins|
    requires ViewApart(v)
    ensures TwinsRelinked(FlipTwoToTwoTwins(twins, v.t1, v.t2, v.ba, v.cb, v.dc, v.ad), v)
    ensures TwinsKept(FlipTwoToTwoTwins(twins, v.t1, v.t2, v.ba, v.cb, v.dc, v.ad), twins, v)
  {
    QuadSlotTwinsAt(twins, v);
    OuterTwinsAt(QuadSlotTwins(twins, v.t1, v.t2, v.ba, v.cb, v.dc, v.ad), v);
  }

  /** The structure `flip_2_to_2` returns, written out: slot t1 holds bcd,
      slot t2 holds dab, and the twins of the source. */
  function TwoToTwoResult(ds: TriDs, v: QuadView): TriDs
    requires Sized(ds) && 3 * v.t1 + 2 < |ds.nodes| && 3 * v.t2 + 2 < |ds.nodes|
    requires v.ba < |ds.nodes| && v.cb < |ds.nodes| && v.dc < |ds.nodes| && v.ad < |ds.nodes|
  {
    TriDs(SlotWrites(ds.nodes, v.t1, v.t2, v.a, v.b, v.c, v.d),
          FlipTwoToTwoTwins(ds.twins, v.t1, v.t2, v.ba, v.cb, v.dc, v.ad), ds.numTris, ds.numDeleted)
  }

  lemma FlipTwoToTwoIs(ds: TriDs, idx: nat)
    requires Sized(ds) && idx < |ds.nodes| && QuadBase(ds, idx) && QuadOuter(ds, idx)
    ensures FlipTwoToTwo(ds, idx) == Ok((TwoToTwoResult(ds, ViewOf(ds, idx)), [idx / 3, ds.twins[idx] / 3]))
  {
    var v := ViewOf(ds, idx);
    var d1 := WriteTri(ds, v.t1, v.b, v.c, v.d);
    var d2 := WriteTri(d1, v.t2, v.d, v.a, v.b);
    assert d2.nodes == SlotWrites(ds.nodes, v.t1, v.t2, v.a, v.b, v.c, v.d);
  }

  /** What the rewritten hedges and the outer twins look like after a 2->2
      flip of quad `v`. */
  ghost predicate TwoToTwoShape(ds: TriDs, ds': TriDs, v: QuadView)
    requires ViewSized(ds, v)
  {
    ds'.numTris == ds.numTris && ds'.numDeleted == ds.numDeleted &&
    |ds'.nodes| == |ds.nodes| && |ds'.twins| == |ds.twins| &&
    SlotsWritten(ds'.nodes, v) && TwinsRelinked(ds'.twins, v) &&
    ds'.nodes[v.ba] == ds.nodes[v.ba] && ds'.nodes[Next(v.ba)] == ds.nodes[Next(v.ba)] &&
    ds'.nodes[v.cb] == ds.nodes[v.cb] && ds'.nodes[Next(v.cb)] == ds.nodes[Next(v.cb)] &&
    ds'.nodes[v.dc] == ds.nodes[v.dc] && ds'.nodes[Next(v.dc)] == ds.nodes[Next(v.dc)] &&
    ds'.nodes[v.ad] == ds.nodes[v.ad] && ds'.nodes[Next(v.ad)] == ds.nodes[Next(v.ad)]
  }

  /** Everything else is as before a 2->2 flip of quad `v`. */
  ghost predicate TwoToTwoFrame(ds: TriDs, ds': TriDs, v: QuadView) {
    ds'.numTris == ds.numTris && ds'.numDeleted == ds.numDeleted &&
    NodesKept(ds'.nodes, ds.nodes, v) && TwinsKept(ds'.twins, ds.twins, v)
  }

  lemma TwoToTwoResultShape(ds: TriDs, v: QuadView)
    requires ViewSized(ds, v) && ViewApart(v)
    ensures TwoToTwoShape(ds, TwoToTwoResult(ds, v), v)
    ensures TwoToTwoFrame(ds, TwoToTwoResult(ds, v), v)
  {
    SlotWritesAt(ds.nodes, v);
    TwinWritesAt(ds.twins, v);
  }

  /** After a 2->2 flip, the new hedge ab and its outer twin ba are linked. */
  lemma TwoToTwoPairAb(ds: TriDs, ds': TriDs, v: QuadView, h: nat)
    requires ViewSized(ds, v) && ViewNodes(ds, v) && TwoToTwoShape(ds, ds', v)
    requires h == 3 * v.t2 + 1 || h == v.ba
    ensures Sized(ds') && h < |ds'.nodes| && Linked(ds', h)
  {
    Shifted(3 * v.t2, 1);
    LinkedPair(ds', 3 * v.t2 + 1, v.ba);
  }

  /** After a 2->2 flip, the new hedge da and its outer twin ad are linked. */
  lemma TwoToTwoPairDa(ds: TriDs, ds': TriDs, v: QuadView, h: nat)
    requires ViewSized(ds, v) && ViewNodes(ds, v) && TwoToTwoShape(ds, ds', v)
    requires h == 3 * v.t2 || h == v.ad
    ensures Sized(ds') && h < |ds'.nodes| && Linked(ds', h)
  {
    Shifted(3 * v.t2, 0);
    LinkedPair(ds', 3 * v.t2, v.ad);
  }

  /** After a 2->2 flip, the new hedge bc and its outer twin cb are linked. */
  lemma TwoToTwoPairBc(ds: TriDs, ds': TriDs, v: QuadView, h: nat)
    requires ViewSized(ds, v) && ViewNodes(ds, v) && TwoToTwoShape(ds, ds', v)
    requires h == 3 * v.t1 || h == v.cb
    ensures Sized(ds') && h < |ds'.nodes| && Linked(ds', h)
  {
    Shifted(3 * v.t1, 0);
    LinkedPair(ds', 3 * v.t1, v.cb);
  }

  /** After a 2->2 flip, the new hedge cd and its outer twin dc are linked. */
  lemma TwoToTwoPairCd(ds: TriDs, ds': TriDs, v: QuadView, h: nat)
    requires ViewSized(ds, v) && ViewNodes(ds, v) && TwoToTwoShape(ds, ds', v)
    requires h == 3 * v.t1 + 1 || h == v.dc
    ensures Sized(ds') && h < |ds'.nodes| && Linked(ds', h)
  {
    Shifted(3 * v.t1, 1);
    LinkedPair(ds', 3 * v.t1 + 1, v.dc);
  }

  /** After a 2->2 flip, the new diagonal bd/db are linked. */
  lemma TwoToTwoPairBd(ds: TriDs, ds': TriDs, v: QuadView, h: nat)
    requires ViewSized(ds, v) && ViewNodes(ds, v) && TwoToTwoShape(ds, ds', v)
    requires h == 3 * v.t2 + 2 || h == 3 * v.t1 + 2
    ensures Sized(ds') && h < |ds'.nodes| && Linked(ds', h)
  {
    Shifted(3 * v.t1, 2);
    Shifted(3 * v.t2, 2);
    LinkedPair(ds', 3 * v.t2 + 2, 3 * v.t1 + 2);
  }

  /** The twin of a live hedge outside the quad is outside the quad too. */
  lemma TwinOutside(ds: TriDs, v: QuadView, h: nat)
    requires Valid(ds) && ViewSized(ds, v) && ViewInside(ds, v)
    requires h < |ds.nodes| && !ds.nodes[h].Deleted? && !Inside(h, v)
    ensures ds.twins[h] < |ds.nodes| && !Inside(ds.twins[h], v)
  {
    assert Linked(ds, h);
    assert Linked(ds, ds.twins[h]);
  }

  /** A hedge a 2->2 flip does not touch stays linked. */
  lemma TwoToTwoUntouched(ds: TriDs, ds': TriDs, v: QuadView, h: nat)
    requires Valid(ds) && ViewSized(ds, v) && TwoToTwoFrame(ds, ds', v)
    requires h < |ds.nodes| && !Inside(h, v)
    requires !ds.nodes[h].Deleted? ==> ds.twins[h] < |ds.nodes| && !Inside(ds.twins[h], v)
    ensures Sized(ds') && Linked(ds', h)
  {
    var n := |ds.nodes|;
    assert Linked(ds, h);
    NextStays(h, n);
    OffIff(h, v.t1, v.t2);
    OffIff(Next(h), v.t1, v.t2);
    if !ds.nodes[h].Deleted? {
      var t := ds.twins[h];
      NextStays(t, n);
      OffIff(t, v.t1, v.t2);
      OffIff(Next(t), v.t1, v.t2);
    }
    LinkedFrame(ds, ds', h);
  }

  /** Every hedge after a 2->2 flip is linked. */
  lemma TwoToTwoHedge(ds: TriDs, ds': TriDs, v: QuadView, h: nat)
    requires Valid(ds) && ViewSized(ds, v) && ViewNodes(ds, v) && ViewInside(ds, v)
    requires TwoToTwoShape(ds, ds', v) && TwoToTwoFrame(ds, ds', v)
    requires h < |ds'.nodes|
    ensures Sized(ds') && Linked(ds', h)
  {
    var t1, t2 := 3 * v.t1, 3 * v.t2;
    if h == t2 + 1 || h == v.ba {
      TwoToTwoPairAb(ds, ds', v, h);
    } else if h == t2 || h == v.ad {
      TwoToTwoPairDa(ds, ds', v, h);
    } else if h == t1 || h == v.cb {
      TwoToTwoPairBc(ds, ds', v, h);
    } else if h == t1 + 1 || h == v.dc {
      TwoToTwoPairCd(ds, ds', v, h);
    } else if h == t2 + 2 || h == t1 + 2 {
      TwoToTwoPairBd(ds, ds', v, h);
    } else {
      if !ds.nodes[h].Deleted? {
        TwinOutside(ds, v, h);
      }
      TwoToTwoUntouched(ds, ds', v, h);
    }
  }

  /** `flip_2_to_2` on a live diagonal of a valid structure whose quad has
      four different corners succeeds and yields a valid structure: the
      outer twins are re-linked symmetrically and bd/db are mutual twins. */
  lemma FlipTwoToTwoValid(ds: TriDs, idx: nat)
    requires Valid(ds) && idx < |ds.nodes| && !ds.nodes[idx].Deleted? && QuadDistinct(ds, idx)
    ensures FlipTwoToTwo(ds, idx).Ok?
    ensures Valid(FlipTwoToTwo(ds, idx).value.0)
  {
    ValidQuadLinked(ds, idx);
    ValidViewSized(ds, idx);
    ValidViewNodes(ds, idx);
    ValidViewApart(ds, idx);
    ValidViewInside(ds, idx);
    FlipTwoToTwoIs(ds, idx);
    var v := ViewOf(ds, idx);
    var ds' := TwoToTwoResult(ds, v);
    TwoToTwoResultShape(ds, v);
    forall h | 0 <= h < |ds'.nodes|
      ensures Linked(ds', h)
    {
      TwoToTwoHedge(ds, ds', v, h);
    }
    TwoToTwoHedge(ds, ds', v, 0);
  }
}
