/** `bw_insert_node`: once the cavity search has marked the tetrahedra to
    delete (`should_del_tet`) and the ones seen but kept (`should_keep_tet`),
    the cavity is re-filled by a fan of new tetrahedra from the inserted node
    to every boundary face. The call runs in five phases, each modelled
    here as its own function: find a first boundary face, collect the
    boundary faces with their neighbour graph, create one tetrahedron per
    face, glue them, and clear the kept marks. */
module TetBw {
  import opened Base
  import opened Node
  import opened TetTables
  import opened TetDs
  import opened TetOps

  // ---------------------------------------------------------------------
  // Phase 1: a first boundary face

  /** Face `ht` lies on the cavity boundary: the tetrahedron glued to it is
      marked for deletion. */
  predicate Cut(ds: TetDs, ht: nat) {
    ht < |ds.opp| && TetOf(ds.opp[ht]) < |ds.del| && ds.del[TetOf(ds.opp[ht])]
  }

  /** The source reads this face's flag without going out of bounds. */
  predicate CutReadable(ds: TetDs, ht: nat) {
    ht < |ds.opp| && TetOf(ds.opp[ht]) < |ds.del|
  }

  /** Face `ht` is read without going out of bounds and is not cut. */
  predicate Uncut(ds: TetDs, ht: nat) {
    CutReadable(ds, ht) && !Cut(ds, ht)
  }

  /** Faces `j..3` of the kept tetrahedron `t`, tried in order: the first
      cut face is returned, and a tetrahedron with none is isolated. */
  function BoundaryFace(ds: TetDs, t: nat, j: nat): (r: Result<nat>)
    requires j <= 4
    ensures r.Ok? ==> (4 * t + j <= r.value < 4 * t + 4 && Cut(ds, r.value) &&
      forall i :: 4 * t + j <= i < r.value ==> Uncut(ds, i))
    ensures r.IsError() <==> forall i :: 4 * t + j <= i < 4 * t + 4 ==> Uncut(ds, i)
    decreases 4 - j
  {
    if j == 4 then Fail("Isolated kept tetrahedron")
    else
      var ht := 4 * t + j;
      if ht >= |ds.opp| then assert !Uncut(ds, ht); Crash("index out of bounds: half_tri_opposite")
      else if TetOf(ds.opp[ht]) >= |ds.del| then assert !Uncut(ds, ht); Crash("index out of bounds: should_del_tet")
      else if ds.del[TetOf(ds.opp[ht])] then assert !Uncut(ds, ht); Ok(ht)
      else BoundaryFace(ds, t, j + 1)
  }

  /** The guards of `bw_insert_node` and its first boundary face, found on
      the last kept tetrahedron. */
  function FirstBoundary(ds: TetDs): (r: Result<nat>)
    ensures ds.toCheck != [] ==> r == Fail("Cannot insert node if all tetrahedra are not checked")
    ensures ds.toCheck == [] && ds.toKeep == [] ==> r == Fail("No kept tetrahedron")
    ensures ds.toCheck == [] && ds.toKeep != [] ==> r == BoundaryFace(ds, ds.toKeep[|ds.toKeep| - 1], 0)
  {
    if ds.toCheck != [] then Fail("Cannot insert node if all tetrahedra are not checked")
    else if ds.toKeep == [] then Fail("No kept tetrahedron")
    else BoundaryFace(ds, ds.toKeep[|ds.toKeep| - 1], 0)
  }

  /** Each of the four faces of `t` is read without going out of bounds and
      none is cut. */
  predicate Isolated(ds: TetDs, t: nat) {
    Uncut(ds, 4 * t) && Uncut(ds, 4 * t + 1) && Uncut(ds, 4 * t + 2) && Uncut(ds, 4 * t + 3)
  }

  /** `bw_insert_node` refuses exactly when a check is pending, nothing was
      kept, or the last kept tetrahedron touches no deleted one; otherwise
      it starts from a cut face of that tetrahedron. */
  lemma FirstBoundaryMeans(ds: TetDs)
    ensures FirstBoundary(ds).IsError() <==> (ds.toCheck != [] || ds.toKeep == [] ||
      Isolated(ds, ds.toKeep[|ds.toKeep| - 1]))
    ensures FirstBoundary(ds).Ok? ==> (var t := ds.toKeep[|ds.toKeep| - 1];
      TetOf(FirstBoundary(ds).value) == t && Cut(ds, FirstBoundary(ds).value))
  {
    if ds.toCheck == [] && ds.toKeep != [] {
      var t := ds.toKeep[|ds.toKeep| - 1];
      if Isolated(ds, t) {
        forall i | 4 * t <= i < 4 * t + 4 ensures Uncut(ds, i) {
          assert i == 4 * t || i == 4 * t + 1 || i == 4 * t + 2 || i == 4 * t + 3;
        }
      }
    }
  }

  // ---------------------------------------------------------------------
  // Phase 2: the boundary faces and their neighbour graph

  /** `opposite` on a half-edge whose own tetrahedron may be out of range:
      reading its nodes panics first. */
  function OppositeAt(ds: TetDs, e: Hedge): (r: Result<Hedge>)
    requires e.k < 3
    ensures r.Ok? ==> r.value.k < 3 && Readable(ds, r.value.tri)
    ensures r.Err? ==> r.IsPanic()
  {
    if !Readable(ds, e.tri) then Crash("index out of bounds: tet_nodes")
    else OppositeE(ds, e)
  }

  /** The tetrahedron owning face `ht` is not marked for deletion. */
  predicate Stays(ds: TetDs, ht: nat) {
    TetOf(ht) < |ds.del| && !ds.del[TetOf(ht)]
  }

  /** The inner walk of phase 2: turning around the edge through the
      deleted tetrahedra (`neighbor().opposite()`) until a tetrahedron that
      stays is reached. The loop of the source has no bound; `fuel` is the
      step budget of the model. */
  function Walk(ds: TetDs, e: Hedge, fuel: nat): (r: Result<Hedge>)
    requires e.k < 3 && Readable(ds, e.tri)
    ensures r.Ok? ==> r.value.k < 3 && Readable(ds, r.value.tri) && Stays(ds, r.value.tri)
    ensures r.Err? ==> !r.IsError()
    decreases fuel
  {
    var t := TetOf(e.tri);
    if t >= |ds.del| then Crash("index out of bounds: should_del_tet")
    else if !ds.del[t] then Ok(e)
    else if fuel == 0 then Err(Diverge("edge walk in bw_insert_node"))
    else
      var next :- OppositeAt(ds, NeighborE(e));
      Walk(ds, next, fuel - 1)
  }

  /** A walk that starts in a tetrahedron that stays stops at once. */
  lemma WalkStops(ds: TetDs, e: Hedge, fuel: nat)
    requires e.k < 3 && Readable(ds, e.tri) && TetOf(e.tri) < |ds.del| && !ds.del[TetOf(e.tri)]
    ensures Walk(ds, e, fuel) == Ok(e)
  {
  }

  /** A walk that starts in a deleted tetrahedron takes the next step
      around the edge. */
  lemma WalkSteps(ds: TetDs, e: Hedge, fuel: nat)
    requires e.k < 3 && Readable(ds, e.tri) && TetOf(e.tri) < |ds.del| && ds.del[TetOf(e.tri)]
    requires OppositeAt(ds, NeighborE(e)).Ok?
    ensures Walk(ds, e, fuel + 1) == Walk(ds, OppositeAt(ds, NeighborE(e)).value, fuel)
  {
  }

  /** `vec_tri` and `vec_nei`: the boundary faces found so far and, per
      face and half-edge, the position of the face across that edge. */
  datatype Graph = Graph(tris: seq<nat>, nei: seq<seq<Option<nat>>>)

  /** One neighbour triple per face. */
  predicate Shaped(g: Graph) {
    |g.nei| == |g.tris| && forall i :: 0 <= i < |g.nei| ==> |g.nei[i]| == 3
  }

  predicate Distinct(s: seq<nat>) {
    forall i, j :: 0 <= i < j < |s| ==> s[i] != s[j]
  }

  /** Every recorded neighbour is a position of the graph. */
  predicate NeiInRange(g: Graph)
    requires Shaped(g)
  {
    forall i, j :: 0 <= i < |g.nei| && 0 <= j < 3 && g.nei[i][j].Some? ==> g.nei[i][j].value < |g.tris|
  }

  /** The invariant of the graph loop: faces are listed once each, all
      belong to stored tetrahedra, and neighbours are positions. */
  predicate GraphOk(ds: TetDs, g: Graph) {
    Shaped(g) && Distinct(g.tris) && (forall i :: 0 <= i < |g.tris| ==> Readable(ds, g.tris[i])) &&
    NeiInRange(g)
  }

  /** The first position of `x` in `s`: `iter().enumerate().find`. */
  function IndexIn(s: seq<nat>, x: nat): (r: Option<nat>)
    ensures r.Some? <==> x in s
    ensures r.Some? ==> r.value < |s| && s[r.value] == x && forall i :: 0 <= i < r.value ==> s[i] != x
  {
    if s == [] then None
    else if s[0] == x then Some(0)
    else
      match IndexIn(s[1..], x)
      case None => None
      case Some(i) => Some(i + 1)
  }

  /** Finds face `x` in the graph, appending it with no neighbours when it
      is new; returns its position. */
  function FindOrPush(g: Graph, x: nat): (r: (Graph, nat))
    requires Shaped(g)
    ensures Shaped(r.0) && r.1 < |r.0.tris| && r.0.tris[r.1] == x
    ensures x in g.tris ==> r.0 == g
    ensures x !in g.tris ==> (r.0.tris == g.tris + [x] && r.0.nei == g.nei + [[None, None, None]] &&
      r.1 == |g.tris|)
  {
    match IndexIn(g.tris, x)
    case Some(i) => (g, i)
    case None => (Graph(g.tris + [x], g.nei + [[None, None, None]]), |g.tris|)
  }

  /** Searching before pushing keeps the faces distinct. */
  lemma FindOrPushDistinct(ds: TetDs, g: Graph, x: nat)
    requires GraphOk(ds, g) && Readable(ds, x)
    ensures GraphOk(ds, FindOrPush(g, x).0)
  {
  }

  /** Records that position `i` sees position `v` across its half-edge `j`. */
  function SetNei(g: Graph, i: nat, j: nat, v: nat): (r: Graph)
    requires Shaped(g) && i < |g.tris| && j < 3
    ensures Shaped(r) && r.tris == g.tris && |r.nei| == |g.nei|
    ensures r.nei[i][j] == Some(v)
    ensures forall i', j' :: 0 <= i' < |r.nei| && 0 <= j' < 3 && (i', j') != (i, j) ==> r.nei[i'][j'] == g.nei[i'][j']
  {
    Graph(g.tris, g.nei[i := g.nei[i][j := Some(v)]])
  }

  /** The step budget of one edge walk: three half-edges per stored face.
      A walk that has not stopped after visiting more half-edges than exist
      repeats itself for ever. */
  function WalkFuel(ds: TetDs): nat {
    3 * |ds.nodes|
  }

  /** `g'` extends `g`: the faces of `g` keep their positions, every
      neighbour `g` records is still recorded, and each face added lies in a
      tetrahedron that stays. */
  predicate Grows(ds: TetDs, g: Graph, g': Graph)
    requires Shaped(g) && Shaped(g')
  {
    |g'.tris| >= |g.tris| && g'.tris[..|g.tris|] == g.tris &&
    (forall i, j :: 0 <= i < |g.tris| && 0 <= j < 3 && g.nei[i][j].Some? ==> g'.nei[i][j].Some?) &&
    forall i :: |g.tris| <= i < |g'.tris| ==> Stays(ds, g'.tris[i])
  }

  lemma GrowsTrans(ds: TetDs, g0: Graph, g1: Graph, g2: Graph)
    requires Shaped(g0) && Shaped(g1) && Shaped(g2) && Grows(ds, g0, g1) && Grows(ds, g1, g2)
    ensures Grows(ds, g0, g2)
  {
    assert g2.tris[..|g0.tris|] == g2.tris[..|g1.tris|][..|g0.tris|];
    forall i | |g0.tris| <= i < |g1.tris| ensures Stays(ds, g2.tris[i]) {
      assert g2.tris[i] == g2.tris[..|g1.tris|][i];
    }
  }

  /** One pass of the `for (j, hedge)` loop: when half-edge `j` of face
      `cur` has no neighbour yet, walk around the edge to the next boundary
      face and record the pair both ways. */
  function LinkHedge(ds: TetDs, g: Graph, cur: nat, j: nat): (r: Result<Graph>)
    requires GraphOk(ds, g) && cur < |g.tris| && j < 3
    ensures r.Ok? ==> GraphOk(ds, r.value) && Grows(ds, g, r.value) && r.value.nei[cur][j].Some?
    ensures r.Err? ==> !r.IsError()
  {
    if g.nei[cur][j].Some? then Ok(g)
    else
      var o1 :- OppositeAt(ds, Hedge(g.tris[cur], j));
      var start :- OppositeAt(ds, NeighborE(o1));
      var stop :- Walk(ds, start, WalkFuel(ds));
      Ok(Record(ds, g, cur, j, stop))
  }

  /** Records the face the walk stopped at, as seen across half-edge `j`
      of face `cur`, and `cur` as seen back across the stopping half-edge. */
  function Record(ds: TetDs, g: Graph, cur: nat, j: nat, stop: Hedge): (r: Graph)
    requires GraphOk(ds, g) && cur < |g.tris| && j < 3
    requires stop.k < 3 && Readable(ds, stop.tri) && Stays(ds, stop.tri)
    ensures GraphOk(ds, r) && Grows(ds, g, r) && r.nei[cur][j].Some?
  {
    var (g1, cur2) := FindOrPush(g, stop.tri);
    FindOrPushDistinct(ds, g, stop.tri);
    var g2 := SetNei(g1, cur, j, cur2);
    var g3 := SetNei(g2, cur2, stop.k, cur);
    assert g3.tris[..|g.tris|] == g.tris;
    g3
  }

  /** Positions before `upto` have all three neighbours. */
  predicate Complete(g: Graph, upto: nat)
    requires Shaped(g) && upto <= |g.tris|
  {
    forall i, j :: 0 <= i < upto && 0 <= j < 3 ==> g.nei[i][j].Some?
  }

  /** A sequence of distinct values below `n` has at most `n` entries. */
  lemma {:induction false} DistinctBelow(s: seq<nat>, n: nat)
    requires Distinct(s) && forall i :: 0 <= i < |s| ==> s[i] < n
    ensures |s| <= n
    decreases n
  {
    if s != [] {
      assert s[0] < n;
      var m: nat := n - 1;
      // Drop the value `m` if present; the rest lies below `m`.
      if m in s {
        var k :| 0 <= k < |s| && s[k] == m;
        var u := s[..k] + s[k + 1..];
        assert forall i :: 0 <= i < |u| ==> u[i] == (if i < k then s[i] else s[i + 1]);
        assert Distinct(u);
        assert forall i :: 0 <= i < |u| ==> u[i] < m;
        DistinctBelow(u, m);
      } else {
        assert forall i :: 0 <= i < |s| ==> s[i] < m;
        DistinctBelow(s, m);
      }
    }
  }

  /** The faces of a graph that keeps its invariant number at most the
      stored nodes, so the graph loop ends. */
  lemma GraphBounded(ds: TetDs, g: Graph)
    requires GraphOk(ds, g)
    ensures |g.tris| <= |ds.nodes|
  {
    DistinctBelow(g.tris, |ds.nodes|);
  }

  /** The three half-edges of face `cur`. */
  function LinkFace(ds: TetDs, g: Graph, cur: nat): (r: Result<Graph>)
    requires GraphOk(ds, g) && cur < |g.tris| && Complete(g, cur)
    ensures r.Ok? ==> GraphOk(ds, r.value) && Grows(ds, g, r.value) && Complete(r.value, cur + 1)
    ensures r.Err? ==> !r.IsError()
  {
    var g0 :- LinkHedge(ds, g, cur, 0);
    var g1 :- LinkHedge(ds, g0, cur, 1);
    var g2 :- LinkHedge(ds, g1, cur, 2);
    GrowsTrans(ds, g, g0, g1);
    GrowsTrans(ds, g, g1, g2);
    GrowsTrans(ds, g0, g1, g2);
    SomeKept(ds, g0, g2, cur, 0);
    SomeKept(ds, g1, g2, cur, 1);
    CompleteStep(ds, g, g2, cur);
    Ok(g2)
  }

  /** A neighbour recorded in `g` is still recorded once the graph grew. */
  lemma SomeKept(ds: TetDs, g: Graph, g': Graph, i: nat, j: nat)
    requires Shaped(g) && Shaped(g') && Grows(ds, g, g') && i < |g.tris| && j < 3 && g.nei[i][j].Some?
    ensures g'.nei[i][j].Some?
  {
  }

  /** Completing position `cur` extends the complete prefix by one. */
  lemma CompleteStep(ds: TetDs, g: Graph, g': Graph, cur: nat)
    requires Shaped(g) && Shaped(g') && Grows(ds, g, g') && cur < |g.tris| && Complete(g, cur)
    requires g'.nei[cur][0].Some? && g'.nei[cur][1].Some? && g'.nei[cur][2].Some?
    ensures Complete(g', cur + 1)
  {
  }

  /** The outer `loop` of phase 2, from position `cur` on. It ends because
      the faces stay distinct and stored. */
  function BuildGraph(ds: TetDs, g: Graph, cur: nat): (r: Result<Graph>)
    requires GraphOk(ds, g) && cur < |g.tris| && Complete(g, cur)
    ensures r.Ok? ==> GraphOk(ds, r.value) && Grows(ds, g, r.value) && Complete(r.value, |r.value.tris|)
    ensures r.Err? ==> !r.IsError()
    decreases |ds.nodes| - cur
  {
    GraphBounded(ds, g);
    var g1 :- LinkFace(ds, g, cur);
    if cur + 1 >= |g1.tris| then Ok(g1)
    else
      GraphBounded(ds, g1);
      var r := BuildGraph(ds, g1, cur + 1);
      if r.Ok? then GrowsTrans(ds, g, g1, r.value); r else r
  }

  /** Phase 2 from the first boundary face. */
  function Boundary(ds: TetDs, first: nat): (r: Result<Graph>)
    ensures r.Ok? ==> GraphOk(ds, r.value) && |r.value.tris| >= 1 && r.value.tris[0] == first
    ensures r.Ok? ==> Complete(r.value, |r.value.tris|)
    ensures r.Ok? ==> forall i :: 1 <= i < |r.value.tris| ==> Stays(ds, r.value.tris[i])
    ensures r.Err? ==> !r.IsError()
  {
    if !Readable(ds, first) then Crash("index out of bounds: tet_nodes")
    else
      var g := Graph([first], [[None, None, None]]);
      var r := BuildGraph(ds, g, 0);
      assert r.Ok? ==> r.value.tris[..|g.tris|] == [first];
      r
  }

  // ---------------------------------------------------------------------
  // Phase 3: one new tetrahedron per boundary face

  /** The corners of the tetrahedron over boundary face `f`: the face read
      backwards (`nod0, nod2, nod1`) and the inserted node. */
  function NewTetNodes(f: seq<VertexNode>, nod: VertexNode): (r: seq<VertexNode>)
    requires |f| == 3
    ensures |r| == 4
  {
    [f[0], f[2], f[1], nod]
  }

  /** Face 3 of the new tetrahedron is the boundary face read backwards,
      and the boundary face is face 3 read backwards. */
  lemma NewTetFace3(f: seq<VertexNode>, nod: VertexNode)
    requires |f| == 3
    ensures FaceOf(NewTetNodes(f, nod), 3) == Reversed(f)
    ensures IsReversedCycle(f, Reversed(f)) && IsReversedCycle(Reversed(f), f)
  {
    assert Rotated(Reversed(f), 0) == Reversed(f);
    assert Rotated(Reversed(Reversed(f)), 0) == f;
  }

  /** The slot the `i`-th new tetrahedron takes: the deleted slots are
      reused from the top of `tets_to_del`, then the arrays grow. */
  function Slot(toDel: seq<nat>, numTets: nat, i: nat): (r: nat)
    ensures i < |toDel| ==> r == toDel[|toDel| - 1 - i]
    ensures i >= |toDel| ==> r == numTets + (i - |toDel|)
  {
    if i < |toDel| then toDel[|toDel| - 1 - i] else numTets + (i - |toDel|)
  }

  /** One pass of the `for i in &vec_tri` loop: face `ht` is read in the
      current structure and its tetrahedron written into the slot on top of
      `tets_to_del`, or appended together with four zero opposites. */
  function CreateOne(ds: TetDs, ht: nat, nod: VertexNode): (r: Result<(TetDs, nat)>)
    ensures r.Err? ==> r.IsPanic()
    ensures r.Ok? ==> r.value.1 == Slot(ds.toDel, ds.numTets, 0)
    ensures r.Ok? ==> (r.value.0.toDel == Drop(ds.toDel, 1) &&
      r.value.0.numTets == ds.numTets + (if ds.toDel == [] then 1 else 0))
    ensures r.Ok? ==> r.value.0.toKeep == ds.toKeep && r.value.0.toCheck == ds.toCheck
    ensures r.Ok? && Sized(ds) ==> Sized(r.value.0)
  {
    if !Readable(ds, ht) then Crash("index out of bounds: tet_nodes")
    else
      var ns := NewTetNodes(HalfTriNodes(ds, ht), nod);
      if ds.toDel != [] then
        var t := ds.toDel[|ds.toDel| - 1];
        var ds1 :- ReplaceTet(ds.(toDel := ds.toDel[..|ds.toDel| - 1]), t, ns);
        Ok((ds1, t))
      else
        var (ds1, _) := InsertTet(ds.(opp := ds.opp + [0, 0, 0, 0]), ns);
        Ok((ds1, ds.numTets))
  }

  /** Taking one slot shifts the slots of the later faces by one. */
  lemma SlotShift(toDel: seq<nat>, numTets: nat, i: nat)
    ensures Slot(toDel, numTets, i + 1) ==
      Slot(Drop(toDel, 1), numTets + (if toDel == [] then 1 else 0), i)
  {
  }

  /** After one slot is taken, the remaining `n` faces leave the slot list
      and the count where all `n + 1` would have. */
  lemma CountShift(toDel: seq<nat>, numTets: nat, n: nat)
    ensures Drop(Drop(toDel, 1), n) == Drop(toDel, n + 1)
    ensures var d := Drop(toDel, 1);
      numTets + (if toDel == [] then 1 else 0) + (if n > |d| then n - |d| else 0) ==
      numTets + (if n + 1 > |toDel| then n + 1 - |toDel| else 0)
  {
  }

  /** What creating `n` tetrahedra does to the bookkeeping of `ds`: the
      `i`-th one went to `Slot(.., i)`, `n` slots were popped off
      `tets_to_del`, the arrays grew by the faces left over, and the work
      lists are unchanged. */
  predicate Took(ds: TetDs, n: nat, ds': TetDs, slots: seq<nat>) {
    |slots| == n &&
    (forall i :: 0 <= i < n ==> slots[i] == Slot(ds.toDel, ds.numTets, i)) &&
    ds'.toDel == Drop(ds.toDel, n) &&
    ds'.numTets == ds.numTets + (if n > |ds.toDel| then n - |ds.toDel| else 0) &&
    ds'.toKeep == ds.toKeep && ds'.toCheck == ds.toCheck &&
    (Sized(ds) ==> Sized(ds'))
  }

  /** One creation followed by `n` more is `n + 1` creations. */
  lemma TookStep(ds: TetDs, ds1: TetDs, t: nat, ds2: TetDs, added: seq<nat>, n: nat)
    requires t == Slot(ds.toDel, ds.numTets, 0)
    requires ds1.toDel == Drop(ds.toDel, 1) && ds1.numTets == ds.numTets + (if ds.toDel == [] then 1 else 0)
    requires ds1.toKeep == ds.toKeep && ds1.toCheck == ds.toCheck && (Sized(ds) ==> Sized(ds1))
    requires Took(ds1, n, ds2, added)
    ensures Took(ds, n + 1, ds2, [t] + added)
  {
    var slots := [t] + added;
    forall i | 1 <= i < n + 1 ensures slots[i] == Slot(ds.toDel, ds.numTets, i) {
      assert slots[i] == added[i - 1];
      SlotShift(ds.toDel, ds.numTets, i - 1);
    }
    CountShift(ds.toDel, ds.numTets, n);
  }

  /** The `for i in &vec_tri` loop. */
  function CreateTets(ds: TetDs, tris: seq<nat>, nod: VertexNode): (r: Result<(TetDs, seq<nat>)>)
    ensures r.Err? ==> r.IsPanic()
    ensures r.Ok? ==> Took(ds, |tris|, r.value.0, r.value.1)
    decreases |tris|
  {
    if tris == [] then
      assert Drop(ds.toDel, 0) == ds.toDel;
      Ok((ds, []))
    else
      var (ds1, t) :- CreateOne(ds, tris[0], nod);
      var (ds2, added) :- CreateTets(ds1, tris[1..], nod);
      TookStep(ds, ds1, t, ds2, added, |tris| - 1);
      Ok((ds2, [t] + added))
  }

  /** Faces of a tetrahedron whose corners did not change list the same
      corners. */
  lemma SameTetSameFace(ds: TetDs, ds': TetDs, x: nat)
    requires Readable(ds, x) && Readable(ds', x) && TetNodes(ds', TetOf(x)) == TetNodes(ds, TetOf(x))
    ensures HalfTriNodes(ds', x) == HalfTriNodes(ds, x)
  {
    assert x == 4 * TetOf(x) + x % 4;
    HalfTriNodesOfTet(ds, TetOf(x), x % 4);
    HalfTriNodesOfTet(ds', TetOf(x), x % 4);
  }

  /** The slots on `tets_to_del` are distinct stored tetrahedra. */
  predicate SlotsOk(ds: TetDs) {
    Distinct(ds.toDel) && forall k :: 0 <= k < |ds.toDel| ==> ds.toDel[k] < ds.numTets
  }

  /** What the tetrahedron creation needs of the boundary faces: they are
      stored and none lies in a slot that will be reused. */
  predicate FacesOk(ds: TetDs, tris: seq<nat>) {
    forall i :: 0 <= i < |tris| ==> Readable(ds, tris[i]) && TetOf(tris[i]) !in ds.toDel
  }

  /** One creation step writes the new tetrahedron into its slot and leaves
      every other stored tetrahedron alone. */
  lemma CreateOneBuilds(ds: TetDs, ht: nat, nod: VertexNode)
    requires Sized(ds) && SlotsOk(ds) && Readable(ds, ht) && TetOf(ht) !in ds.toDel
    ensures CreateOne(ds, ht, nod).Ok?
    ensures var (ds1, t) := CreateOne(ds, ht, nod).value;
      Sized(ds1) && t < ds1.numTets && t !in ds1.toDel && SlotsOk(ds1) &&
      (t !in ds.toDel ==> t >= ds.numTets) &&
      TetNodes(ds1, t) == NewTetNodes(HalfTriNodes(ds, ht), nod) &&
      forall u :: 0 <= u < ds.numTets && u != t ==> TetNodes(ds1, u) == TetNodes(ds, u)
  {
    var (ds1, t) := CreateOne(ds, ht, nod).value;
    if ds.toDel != [] {
      forall u | 0 <= u < ds.numTets && u != t ensures TetNodes(ds1, u) == TetNodes(ds, u) {
        OtherTetsKept(ds, ds1, t, u);
      }
      assert t !in ds1.toDel by {
        assert forall k :: 0 <= k < |ds1.toDel| ==> ds1.toDel[k] == ds.toDel[k];
      }
    } else {
      forall u | 0 <= u < ds.numTets && u != t ensures TetNodes(ds1, u) == TetNodes(ds, u) {
        assert ds1.nodes[..|ds.nodes|] == ds.nodes;
        assert ds1.nodes[4 * u .. 4 * u + 4] == ds.nodes[4 * u .. 4 * u + 4];
      }
    }
  }

  /** Each face `i` got the tetrahedron of its corners (read in `ds`)
      backwards plus the new node, in slot `added[i]` of `r`. */
  predicate Built(ds: TetDs, tris: seq<nat>, nod: VertexNode, r: TetDs, added: seq<nat>)
    requires Sized(ds) && Sized(r) && FacesOk(ds, tris) && |added| == |tris|
  {
    (forall i :: 0 <= i < |tris| ==> added[i] < r.numTets) &&
    forall i :: 0 <= i < |tris| ==> (added[i] < r.numTets &&
      TetNodes(r, added[i]) == NewTetNodes(HalfTriNodes(ds, tris[i]), nod))
  }

  /** Every stored tetrahedron of `ds` outside the reusable slots is the
      same in `r`. */
  predicate Framed(ds: TetDs, r: TetDs)
    requires Sized(ds) && Sized(r) && r.numTets >= ds.numTets
  {
    forall u :: 0 <= u < ds.numTets && u !in ds.toDel ==> TetNodes(r, u) == TetNodes(ds, u)
  }

  /** With distinct reusable slots and boundary faces outside them, the
      creation loop succeeds, builds over each face `i` the tetrahedron of
      its corners read backwards plus the new node, and leaves every other
      stored tetrahedron alone. */
  lemma {:induction false} CreateTetsBuilds(ds: TetDs, tris: seq<nat>, nod: VertexNode)
    requires Sized(ds) && SlotsOk(ds) && FacesOk(ds, tris)
    ensures CreateTets(ds, tris, nod).Ok?
    ensures var (r, added) := CreateTets(ds, tris, nod).value;
      Sized(r) && r.numTets >= ds.numTets && Built(ds, tris, nod, r, added) && Framed(ds, r)
    decreases |tris|
  {
    if tris != [] {
      CreateOneBuilds(ds, tris[0], nod);
      var (ds1, t) := CreateOne(ds, tris[0], nod).value;
      var rest := tris[1..];
      FacesOkStep(ds, ds1, tris);
      CreateTetsBuilds(ds1, rest, nod);
      var (r, added1) := CreateTets(ds1, rest, nod).value;
      CreateTetsUnfold(ds, tris, nod);
      CreateTetsStep(ds, tris, nod, ds1, t, r, added1);
      CreateTetsFrame(ds, ds1, t, r);
    }
  }

  /** `CreateTets` on a non-empty list is one step followed by the rest. */
  lemma CreateTetsUnfold(ds: TetDs, tris: seq<nat>, nod: VertexNode)
    requires tris != [] && CreateOne(ds, tris[0], nod).Ok?
    requires CreateTets(CreateOne(ds, tris[0], nod).value.0, tris[1..], nod).Ok?
    ensures var (ds1, t) := CreateOne(ds, tris[0], nod).value;
      var (r, added) := CreateTets(ds1, tris[1..], nod).value;
      CreateTets(ds, tris, nod) == Ok((r, [t] + added))
  {
  }

  /** The later faces still satisfy `FacesOk` after the first step. */
  lemma FacesOkStep(ds: TetDs, ds1: TetDs, tris: seq<nat>)
    requires FacesOk(ds, tris) && tris != [] && ds1.toDel == Drop(ds.toDel, 1) && |ds1.nodes| >= |ds.nodes|
    ensures FacesOk(ds1, tris[1..])
  {
    var rest := tris[1..];
    forall i | 0 <= i < |rest| ensures Readable(ds1, rest[i]) && TetOf(rest[i]) !in ds1.toDel {
      assert rest[i] == tris[i + 1];
      assert forall k :: 0 <= k < |ds1.toDel| ==> ds1.toDel[k] == ds.toDel[k];
    }
  }

  /** A readable face belongs to a stored tetrahedron. */
  lemma ReadableTet(ds: TetDs, x: nat)
    requires Sized(ds) && Readable(ds, x)
    ensures TetOf(x) < ds.numTets
  {
  }

  /** The facts `Built` states about one face. */
  lemma BuiltAt(ds: TetDs, tris: seq<nat>, nod: VertexNode, r: TetDs, added: seq<nat>, i: nat)
    requires Sized(ds) && Sized(r) && FacesOk(ds, tris) && |added| == |tris| && i < |tris|
    requires Built(ds, tris, nod, r, added)
    ensures added[i] < r.numTets && TetNodes(r, added[i]) == NewTetNodes(HalfTriNodes(ds, tris[i]), nod)
  {
  }

  /** A later face reads the same corners in `ds1` as in `ds`, so its new
      tetrahedron is the same either way. */
  lemma LaterFaceBuilt(ds: TetDs, ds1: TetDs, r: TetDs, x: nat, a: nat, nod: VertexNode)
    requires Readable(ds, x) && Readable(ds1, x) && TetNodes(ds1, TetOf(x)) == TetNodes(ds, TetOf(x))
    requires 4 * a + 3 < |r.nodes| && TetNodes(r, a) == NewTetNodes(HalfTriNodes(ds1, x), nod)
    ensures TetNodes(r, a) == NewTetNodes(HalfTriNodes(ds, x), nod)
  {
    SameTetSameFace(ds, ds1, x);
  }

  /** Tetrahedra of `ds` other than `t` are the same in `ds1`. */
  predicate KeptBut(ds: TetDs, ds1: TetDs, t: nat)
    requires Sized(ds) && Sized(ds1) && ds1.numTets >= ds.numTets
  {
    forall u :: 0 <= u < ds.numTets && u != t ==> TetNodes(ds1, u) == TetNodes(ds, u)
  }

  lemma ConsAt<T>(x: T, s: seq<T>, i: nat)
    requires 0 < i <= |s|
    ensures ([x] + s)[i] == s[i - 1]
  {
  }

  lemma TailAt<T>(s: seq<T>, i: nat)
    requires 0 < i < |s|
    ensures s[1..][i - 1] == s[i]
  {
  }

  /** The fact `KeptBut` states about one tetrahedron. */
  lemma KeptButAt(ds: TetDs, ds1: TetDs, t: nat, u: nat)
    requires Sized(ds) && Sized(ds1) && ds1.numTets >= ds.numTets && KeptBut(ds, ds1, t)
    requires u < ds.numTets && u != t
    ensures TetNodes(ds1, u) == TetNodes(ds, u)
  {
  }

  /** The inductive step of `CreateTetsBuilds` for the new tetrahedra: the
      first survives the rest of the loop, and the later faces read the same
      corners as before the first step. */
  lemma CreateTetsStep(ds: TetDs, tris: seq<nat>, nod: VertexNode, ds1: TetDs, t: nat, r: TetDs, added1: seq<nat>)
    requires Sized(ds) && FacesOk(ds, tris) && tris != [] && |tris| == |added1| + 1
    requires Sized(ds1) && ds1.numTets >= ds.numTets && FacesOk(ds1, tris[1..])
    requires t < ds1.numTets && t !in ds1.toDel && (t !in ds.toDel ==> t >= ds.numTets)
    requires TetNodes(ds1, t) == NewTetNodes(HalfTriNodes(ds, tris[0]), nod)
    requires KeptBut(ds, ds1, t)
    requires Sized(r) && r.numTets >= ds1.numTets && Built(ds1, tris[1..], nod, r, added1) && Framed(ds1, r)
    ensures Built(ds, tris, nod, r, [t] + added1)
  {
    var added := [t] + added1;
    forall i | 0 <= i < |tris| ensures added[i] < r.numTets &&
      TetNodes(r, added[i]) == NewTetNodes(HalfTriNodes(ds, tris[i]), nod)
    {
      CreateTetsStepAt(ds, tris, nod, ds1, t, r, added1, i);
    }
  }

  /** The fact `Framed` states about one tetrahedron. */
  lemma FramedAt(ds: TetDs, r: TetDs, u: nat)
    requires Sized(ds) && Sized(r) && r.numTets >= ds.numTets && Framed(ds, r)
    requires u < ds.numTets && u !in ds.toDel
    ensures TetNodes(r, u) == TetNodes(ds, u)
  {
  }

  /** One face of `CreateTetsStep`. */
  lemma CreateTetsStepAt(ds: TetDs, tris: seq<nat>, nod: VertexNode, ds1: TetDs, t: nat, r: TetDs, added1: seq<nat>, i: nat)
    requires Sized(ds) && FacesOk(ds, tris) && tris != [] && |tris| == |added1| + 1 && i < |tris|
    requires Sized(ds1) && ds1.numTets >= ds.numTets && FacesOk(ds1, tris[1..])
    requires t < ds1.numTets && t !in ds1.toDel && (t !in ds.toDel ==> t >= ds.numTets)
    requires TetNodes(ds1, t) == NewTetNodes(HalfTriNodes(ds, tris[0]), nod)
    requires KeptBut(ds, ds1, t)
    requires Sized(r) && r.numTets >= ds1.numTets && Built(ds1, tris[1..], nod, r, added1) && Framed(ds1, r)
    ensures var added := [t] + added1;
      added[i] < r.numTets && TetNodes(r, added[i]) == NewTetNodes(HalfTriNodes(ds, tris[i]), nod)
  {
    var added := [t] + added1;
    var rest := tris[1..];
    if i == 0 {
      FramedAt(ds1, r, t);
    } else {
      var x := tris[i];
      ConsAt(t, added1, i);
      TailAt(tris, i);
      BuiltAt(ds1, rest, nod, r, added1, i - 1);
      ReadableTet(ds, x);
      var q := TetOf(x);
      assert q != t by {
        assert q !in ds.toDel;
      }
      KeptButAt(ds, ds1, t, q);
      LaterFaceBuilt(ds, ds1, r, x, added[i], nod);
    }
  }

  /** The inductive step of `CreateTetsBuilds` for the untouched
      tetrahedra. */
  lemma CreateTetsFrame(ds: TetDs, ds1: TetDs, t: nat, r: TetDs)
    requires Sized(ds) && Sized(ds1) && Sized(r) && r.numTets >= ds1.numTets >= ds.numTets
    requires ds1.toDel == Drop(ds.toDel, 1) && (t !in ds.toDel ==> t >= ds.numTets)
    requires KeptBut(ds, ds1, t) && Framed(ds1, r)
    ensures Framed(ds, r)
  {
    forall u | 0 <= u < ds.numTets && u !in ds.toDel ensures TetNodes(r, u) == TetNodes(ds, u) {
      assert u !in ds1.toDel by {
        assert forall k :: 0 <= k < |ds1.toDel| ==> ds1.toDel[k] == ds.toDel[k];
      }
    }
  }

  // ---------------------------------------------------------------------
  // Phase 4: gluing the new tetrahedra

  /** The face of a new tetrahedron that lies over half-edge `e` of its
      boundary face (faces 0, 1, 2 lie over half-edges 1, 0, 2); the same
      table maps faces back to half-edges. */
  function FaceOverEdge(e: nat): (r: nat)
    requires e < 3
    ensures r < 3
  {
    if e == 0 then 1 else if e == 1 then 0 else 2
  }

  /** The table is its own inverse. */
  lemma FaceOverEdgeInvolution(e: nat)
    requires e < 3
    ensures FaceOverEdge(FaceOverEdge(e)) == e
  {
  }

  /** Face `FaceOverEdge(e)` of the tetrahedron over boundary face `f`
      holds the two ends of half-edge `e` and the new node. */
  lemma FaceOverEdgeHolds(f: seq<VertexNode>, nod: VertexNode, e: nat)
    requires |f| == 3 && e < 3
    ensures var face := FaceOf(NewTetNodes(f, nod), FaceOverEdge(e));
      f[e] in face && f[(e + 1) % 3] in face && nod in face
  {
    var face := FaceOf(NewTetNodes(f, nod), FaceOverEdge(e));
    if e == 0 {
      assert face == [f[0], f[1], nod];
    } else if e == 1 {
      assert face == [f[2], nod, f[1]];
    } else {
      assert face == [f[0], nod, f[2]];
    }
  }

  /** The half-edge of position `n` that records position `i`, as the
      source tests it: 0, then 1, else 2. */
  function BackEdge(g: Graph, n: nat, i: nat): (r: nat)
    requires Shaped(g) && n < |g.tris|
    ensures r < 3 && (r < 2 ==> g.nei[n][r] == Some(i))
    ensures g.nei[n][0] == Some(i) ==> r == 0
    ensures g.nei[n][0] != Some(i) && g.nei[n][1] == Some(i) ==> r == 1
  {
    if g.nei[n][0] == Some(i) then 0 else if g.nei[n][1] == Some(i) then 1 else 2
  }

  /** `ind_triX_nei`: the face of the new tetrahedron of the neighbour
      across half-edge `e` of position `i` that lies over the half-edge by
      which that neighbour sees `i`. */
  function NeighbourFace(g: Graph, added: seq<nat>, i: nat, e: nat): (r: Result<nat>)
    requires Shaped(g) && |added| == |g.tris| && i < |g.tris| && e < 3
    ensures r.Ok? <==> g.nei[i][e].Some? && g.nei[i][e].value < |added|
    ensures r.Err? ==> r.IsPanic()
    ensures r.Ok? ==> (var n := g.nei[i][e].value;
      r.value == 4 * added[n] + FaceOverEdge(BackEdge(g, n, i)))
  {
    match g.nei[i][e]
    case None => Crash("called `Option::unwrap()` on a `None` value")
    case Some(n) =>
      if n >= |added| then Crash("index out of bounds: added_tets")
      else
        var a := added[n];
        if g.nei[n][0] == Some(i) then Ok(4 * a + 1)
        else if g.nei[n][1] == Some(i) then Ok(4 * a)
        else Ok(4 * a + 2)
  }

  /** One pass of the link loop: faces 0, 1, 2 of the new tetrahedron of
      position `i` are glued to the neighbours' new tetrahedra, and face 3
      to the boundary face, both ways. */
  function LinkOne(opp: seq<nat>, g: Graph, added: seq<nat>, i: nat): (r: Result<seq<nat>>)
    requires Shaped(g) && |added| == |g.tris| && i < |g.tris|
    ensures r.Err? ==> r.IsPanic()
    ensures r.Ok? ==> (var a, ht := added[i], g.tris[i];
      |r.value| == |opp| && 4 * a + 3 < |opp| && ht < |opp| &&
      r.value[ht] == 4 * a + 3 && (ht != 4 * a + 3 ==> r.value[4 * a + 3] == ht) &&
      forall p :: 0 <= p < |opp| && TetOf(p) != a && p != ht ==> r.value[p] == opp[p])
  {
    var a, ht := added[i], g.tris[i];
    var f0 :- NeighbourFace(g, added, i, 1);
    var f1 :- NeighbourFace(g, added, i, 0);
    var f2 :- NeighbourFace(g, added, i, 2);
    if 4 * a + 3 >= |opp| || ht >= |opp| then Crash("index out of bounds: half_tri_opposite")
    else Ok(opp[4 * a := f0][4 * a + 1 := f1][4 * a + 2 := f2][4 * a + 3 := ht][ht := 4 * a + 3])
  }

  /** Writes of the positions `i..` spare entry `p`. */
  predicate Untouched(g: Graph, added: seq<nat>, i: nat, p: nat)
    requires |added| == |g.tris|
  {
    forall k :: i <= k < |g.tris| ==> TetOf(p) != added[k] && p != g.tris[k]
  }

  /** The `for i in 0..vec_tri.len()` link loop, from position `i` on. */
  function LinkAll(opp: seq<nat>, g: Graph, added: seq<nat>, i: nat): (r: Result<seq<nat>>)
    requires Shaped(g) && |added| == |g.tris| && i <= |g.tris|
    ensures r.Err? ==> r.IsPanic()
    ensures r.Ok? ==> |r.value| == |opp|
    ensures r.Ok? ==> forall p :: 0 <= p < |opp| && Untouched(g, added, i, p) ==> r.value[p] == opp[p]
    decreases |g.tris| - i
  {
    if i == |g.tris| then Ok(opp)
    else
      var opp1 :- LinkOne(opp, g, added, i);
      LinkAll(opp1, g, added, i + 1)
  }

  /** The new tetrahedra and the boundary faces are spread so that no write
      of one position hits an entry another position set: new slots are
      distinct, boundary faces are distinct and none lies in a new slot. */
  predicate Spread(g: Graph, added: seq<nat>)
    requires |added| == |g.tris|
  {
    Distinct(added) && Distinct(g.tris) &&
    forall k, k' :: 0 <= k < |g.tris| && 0 <= k' < |g.tris| ==> TetOf(g.tris[k]) != added[k']
  }

  /** Face 3 of each new tetrahedron and its boundary face point at each
      other. */
  predicate Capped(opp: seq<nat>, g: Graph, added: seq<nat>, i: nat)
    requires |added| == |g.tris|
  {
    forall k :: i <= k < |g.tris| ==> (4 * added[k] + 3 < |opp| && g.tris[k] < |opp| &&
      opp[g.tris[k]] == 4 * added[k] + 3 && opp[4 * added[k] + 3] == g.tris[k])
  }

  /** When the new tetrahedra and boundary faces are spread, the link loop
      leaves every boundary face glued to face 3 of its new tetrahedron,
      both ways. */
  lemma {:induction false} LinkAllCaps(opp: seq<nat>, g: Graph, added: seq<nat>, i: nat)
    requires Shaped(g) && |added| == |g.tris| && i <= |g.tris| && Spread(g, added)
    requires LinkAll(opp, g, added, i).Ok?
    ensures Capped(LinkAll(opp, g, added, i).value, g, added, i)
    decreases |g.tris| - i
  {
    if i < |g.tris| {
      var opp1 := LinkOne(opp, g, added, i).value;
      LinkAllCaps(opp1, g, added, i + 1);
      LinkCapsStep(opp, opp1, LinkAll(opp1, g, added, i + 1).value, g, added, i);
    }
  }

  /** The inductive step of `LinkAllCaps`: the later positions do not
      write the two entries position `i` set. */
  lemma LinkCapsStep(opp: seq<nat>, opp1: seq<nat>, r: seq<nat>, g: Graph, added: seq<nat>, i: nat)
    requires Shaped(g) && |added| == |g.tris| && i < |g.tris| && Spread(g, added)
    requires LinkOne(opp, g, added, i) == Ok(opp1)
    requires |r| == |opp1| && Capped(r, g, added, i + 1)
    requires forall p :: 0 <= p < |opp1| && Untouched(g, added, i + 1, p) ==> r[p] == opp1[p]
    ensures Capped(r, g, added, i)
  {
    var a, ht := added[i], g.tris[i];
    assert Untouched(g, added, i + 1, ht) by {
      forall k | i + 1 <= k < |g.tris| ensures TetOf(ht) != added[k] && ht != g.tris[k] {
        assert g.tris[i] != g.tris[k];
      }
    }
    assert Untouched(g, added, i + 1, 4 * a + 3) by {
      forall k | i + 1 <= k < |g.tris| ensures TetOf(4 * a + 3) != added[k] && 4 * a + 3 != g.tris[k] {
        assert added[i] != added[k];
        assert TetOf(g.tris[k]) != added[i];
      }
    }
    assert ht != 4 * a + 3 by {
      assert TetOf(g.tris[i]) != added[i];
    }
  }

  // ---------------------------------------------------------------------
  // Phase 5: clearing the kept marks

  /** `while let Some(t) = tets_to_keep.pop()`: clears each kept mark. */
  function ClearKeep(ds: TetDs): (r: Result<TetDs>)
    ensures r.Ok? <==> forall k :: 0 <= k < |ds.toKeep| ==> ds.toKeep[k] < |ds.keep|
    ensures r.Err? ==> r.IsPanic()
    ensures r.Ok? ==> r.value == ds.(keep := r.value.keep, toKeep := [])
    ensures r.Ok? ==> (|r.value.keep| == |ds.keep| &&
      forall u :: 0 <= u < |ds.keep| ==> r.value.keep[u] == (ds.keep[u] && u !in ds.toKeep))
    decreases |ds.toKeep|
  {
    if ds.toKeep == [] then Ok(ds)
    else
      var t := ds.toKeep[|ds.toKeep| - 1];
      var rest := ds.toKeep[..|ds.toKeep| - 1];
      assert ds.toKeep == rest + [t];
      if t >= |ds.keep| then Crash("index out of bounds: should_keep_tet")
      else ClearKeep(ds.(keep := ds.keep[t := false], toKeep := rest))
  }

  // ---------------------------------------------------------------------
  // The whole call

  /** `bw_insert_node`: the five phases in order; returns the slots of the
      new tetrahedra. Every tetrahedron that was listed to keep has its
      keep mark cleared. */
  function BwInsertNode(ds: TetDs, nod: VertexNode): (r: Result<(TetDs, seq<nat>)>)
    ensures r.IsError() <==> FirstBoundary(ds).IsError()
    ensures r.Ok? ==> (r.value.0.toKeep == [] && r.value.0.toCheck == [] && |r.value.1| >= 1 &&
      r.value.0.toDel == Drop(ds.toDel, |r.value.1|))
    ensures r.Ok? ==> forall k :: 0 <= k < |ds.toKeep| ==>
      ds.toKeep[k] < |r.value.0.keep| && !r.value.0.keep[ds.toKeep[k]]
    ensures r.Ok? && Sized(ds) ==> Sized(r.value.0)
  {
    var first :- FirstBoundary(ds);
    var g :- Boundary(ds, first);
    var (ds1, added) :- CreateTets(ds, g.tris, nod);
    var opp :- LinkAll(ds1.opp, g, added, 0);
    var ds2 :- ClearKeep(ds1.(opp := opp));
    Ok((ds2, added))
  }

  /** The Bowyer-Watson bookkeeping `bw_insert_node` relies on: the
      reusable slots are distinct stored tetrahedra marked for deletion, and
      the kept tetrahedra are stored and not marked for deletion. */
  predicate CavityOk(ds: TetDs) {
    Sized(ds) && SlotsOk(ds) &&
    (forall k :: 0 <= k < |ds.toDel| ==> ds.toDel[k] < |ds.del| && ds.del[ds.toDel[k]]) &&
    forall k :: 0 <= k < |ds.toKeep| ==> ds.toKeep[k] < |ds.del| && !ds.del[ds.toKeep[k]]
  }

  /** What a successful `bw_insert_node` did, for the boundary faces
      `tris`: each got, in slot `added[i]`, the tetrahedron of its corners
      read backwards plus the new node, glued face 3 to it both ways; the
      other tetrahedra are unchanged. */
  predicate Rebuilt(ds: TetDs, nod: VertexNode, r: TetDs, added: seq<nat>, tris: seq<nat>)
    requires Sized(ds) && Sized(r) && r.numTets >= ds.numTets
  {
    |tris| == |added| && Distinct(tris) && Distinct(added) && Framed(ds, r) && FacesOk(ds, tris) &&
    forall i :: 0 <= i < |tris| ==> (added[i] < r.numTets &&
      TetNodes(r, added[i]) == NewTetNodes(HalfTriNodes(ds, tris[i]), nod) &&
      tris[i] < |r.opp| && r.opp[tris[i]] == 4 * added[i] + 3 && r.opp[4 * added[i] + 3] == tris[i])
  }

  /** The boundary faces lie outside the reusable slots: the first in the
      kept tetrahedron, the others in tetrahedra that stay. */
  lemma BoundaryFacesOk(ds: TetDs, g: Graph)
    requires CavityOk(ds) && FirstBoundary(ds).Ok? && Boundary(ds, FirstBoundary(ds).value) == Ok(g)
    ensures FacesOk(ds, g.tris)
  {
    FirstBoundaryMeans(ds);
    var t := ds.toKeep[|ds.toKeep| - 1];
    forall i | 0 <= i < |g.tris| ensures Readable(ds, g.tris[i]) && TetOf(g.tris[i]) !in ds.toDel {
      var q := TetOf(g.tris[i]);
      assert q < |ds.del| && !ds.del[q] by {
        if i > 0 {
          assert Stays(ds, g.tris[i]);
        }
      }
      assert forall k :: 0 <= k < |ds.toDel| ==> ds.toDel[k] != q;
    }
  }

  /** New slots and boundary faces are spread when the reused slots are
      distinct and the boundary faces lie outside them. */
  lemma SpreadHolds(ds: TetDs, g: Graph, added: seq<nat>)
    requires Sized(ds) && SlotsOk(ds) && Shaped(g) && Distinct(g.tris) && FacesOk(ds, g.tris)
    requires |added| == |g.tris| && forall i :: 0 <= i < |added| ==> added[i] == Slot(ds.toDel, ds.numTets, i)
    ensures Spread(g, added)
  {
    forall i, j | 0 <= i < j < |added| ensures added[i] != added[j] {
      if j < |ds.toDel| {
        assert ds.toDel[|ds.toDel| - 1 - j] != ds.toDel[|ds.toDel| - 1 - i];
      }
    }
    forall k, k' | 0 <= k < |g.tris| && 0 <= k' < |g.tris| ensures TetOf(g.tris[k]) != added[k'] {
      ReadableTet(ds, g.tris[k]);
      if k' < |ds.toDel| {
        assert added[k'] in ds.toDel;
      }
    }
  }

  /** Under the Bowyer-Watson bookkeeping, a successful `bw_insert_node`
      rebuilt the cavity as a fan from the new node: see `Rebuilt`. The
      boundary faces it found are returned, the first being the cut face of
      the last kept tetrahedron. */
  lemma BwInsertNodeRebuilds(ds: TetDs, nod: VertexNode) returns (tris: seq<nat>)
    requires CavityOk(ds) && BwInsertNode(ds, nod).Ok?
    ensures var (r, added) := BwInsertNode(ds, nod).value;
      Sized(r) && r.numTets >= ds.numTets && tris != [] && tris[0] == FirstBoundary(ds).value &&
      Rebuilt(ds, nod, r, added, tris)
  {
    var first := FirstBoundary(ds).value;
    var g := Boundary(ds, first).value;
    tris := g.tris;
    var (ds1, added) := CreateTets(ds, g.tris, nod).value;
    var opp := LinkAll(ds1.opp, g, added, 0).value;
    var r := ClearKeep(ds1.(opp := opp)).value;
    assert BwInsertNode(ds, nod).value == (r, added);
    BoundaryFacesOk(ds, g);
    CreateTetsBuilds(ds, g.tris, nod);
    SpreadHolds(ds, g, added);
    LinkAllCaps(ds1.opp, g, added, 0);
    RebuiltHolds(ds, nod, ds1, opp, r, added, g);
  }

  /** The last step of `BwInsertNodeRebuilds`: clearing the kept marks
      changes neither nodes nor opposites. */
  lemma RebuiltHolds(ds: TetDs, nod: VertexNode, ds1: TetDs, opp: seq<nat>, r: TetDs, added: seq<nat>, g: Graph)
    requires Sized(ds) && Sized(ds1) && ds1.numTets >= ds.numTets && Shaped(g) && |added| == |g.tris|
    requires FacesOk(ds, g.tris) && Built(ds, g.tris, nod, ds1, added) && Framed(ds, ds1)
    requires Spread(g, added) && |opp| == |ds1.opp| && Capped(opp, g, added, 0)
    requires r.nodes == ds1.nodes && r.numTets == ds1.numTets && r.opp == opp && Sized(r)
    ensures Rebuilt(ds, nod, r, added, g.tris)
  {
    forall i | 0 <= i < |g.tris| ensures added[i] < r.numTets &&
      TetNodes(r, added[i]) == NewTetNodes(HalfTriNodes(ds, g.tris[i]), nod)
    {
      BuiltAt(ds, g.tris, nod, ds1, added, i);
    }
    forall u | 0 <= u < ds.numTets && u !in ds.toDel ensures TetNodes(r, u) == TetNodes(ds, u) {
      FramedAt(ds, ds1, u);
    }
  }

  /** The facts `Rebuilt` states about face `i`. */
  lemma RebuiltAt(ds: TetDs, nod: VertexNode, r: TetDs, added: seq<nat>, tris: seq<nat>, i: nat)
    requires Sized(ds) && Sized(r) && r.numTets >= ds.numTets && Rebuilt(ds, nod, r, added, tris)
    requires i < |tris|
    ensures Readable(ds, tris[i]) && TetOf(tris[i]) !in ds.toDel && Framed(ds, r)
    ensures added[i] < r.numTets && TetNodes(r, added[i]) == NewTetNodes(HalfTriNodes(ds, tris[i]), nod)
    ensures tris[i] < |r.opp| && r.opp[tris[i]] == 4 * added[i] + 3 && r.opp[4 * added[i] + 3] == tris[i]
  {
  }

  /** The face of the new tetrahedron `a` that caps boundary face `x` lists
      the corners of `x` read backwards. */
  lemma CapFace(ds: TetDs, nod: VertexNode, r: TetDs, x: nat, a: nat)
    requires Readable(ds, x) && 4 * a + 3 < |r.nodes|
    requires TetNodes(r, a) == NewTetNodes(HalfTriNodes(ds, x), nod)
    ensures Readable(r, 4 * a + 3) && HalfTriNodes(r, 4 * a + 3) == Reversed(HalfTriNodes(ds, x))
  {
    HalfTriNodesOfTet(r, a, 3);
    NewTetFace3(HalfTriNodes(ds, x), nod);
  }

  /** When a boundary face `x` with three different corners keeps its
      tetrahedron and is glued both ways to face 3 of the tetrahedron `a`
      built over it, both faces pass every check of `is_sound`. */
  lemma CapSound(ds: TetDs, nod: VertexNode, r: TetDs, x: nat, a: nat)
    requires Sized(ds) && Sized(r) && Readable(ds, x) && TetOf(x) < ds.numTets <= r.numTets
    requires TetNodes(r, TetOf(x)) == TetNodes(ds, TetOf(x)) && Distinct3(HalfTriNodes(ds, x))
    requires a < r.numTets && TetNodes(r, a) == NewTetNodes(HalfTriNodes(ds, x), nod)
    requires x < |r.opp| && r.opp[x] == 4 * a + 3 && r.opp[4 * a + 3] == x
    ensures Readable(r, x) && FaceSound(r, x) == Ok(true)
    ensures Readable(r, 4 * a + 3) && FaceSound(r, 4 * a + 3) == Ok(true)
  {
    var f := HalfTriNodes(ds, x);
    assert Readable(r, x);
    SameTetSameFace(ds, r, x);
    CapFace(ds, nod, r, x, a);
    SwapFaceSound(r, x, 4 * a + 3, f);
    SwapFaceSound(r, 4 * a + 3, x, Reversed(f));
  }

  /** A face with three different corners, glued to a face listing them
      backwards, passes every check of `is_sound`. */
  lemma SwapFaceSound(r: TetDs, x: nat, y: nat, f: seq<VertexNode>)
    requires Readable(r, x) && Readable(r, y) && x < |r.opp| && r.opp[x] == y
    requires |f| == 3 && Distinct3(f) && HalfTriNodes(r, x) == f
    requires HalfTriNodes(r, y) == Reversed(f) || f == Reversed(HalfTriNodes(r, y))
    ensures FaceSound(r, x) == Ok(true)
  {
    NewTetFace3(f, f[0]);
    NewTetFace3(HalfTriNodes(r, y), f[0]);
    ReversedFaceSound(r, x);
  }

  /** Under the Bowyer-Watson bookkeeping, every boundary face with three
      different corners and the face 3 capping it pass `is_sound`'s face
      checks after a successful `bw_insert_node`. */
  lemma BwInsertNodeCapsSound(ds: TetDs, nod: VertexNode) returns (tris: seq<nat>)
    requires CavityOk(ds) && BwInsertNode(ds, nod).Ok?
    ensures var (r, added) := BwInsertNode(ds, nod).value;
      |tris| == |added| && FacesOk(ds, tris) && Sized(r) &&
      forall i :: 0 <= i < |tris| && Readable(ds, tris[i]) && Distinct3(HalfTriNodes(ds, tris[i])) ==>
        Readable(r, tris[i]) && FaceSound(r, tris[i]) == Ok(true) &&
        Readable(r, 4 * added[i] + 3) && FaceSound(r, 4 * added[i] + 3) == Ok(true)
  {
    tris := BwInsertNodeRebuilds(ds, nod);
    var (r, added) := BwInsertNode(ds, nod).value;
    forall i | 0 <= i < |tris| && Readable(ds, tris[i]) && Distinct3(HalfTriNodes(ds, tris[i]))
      ensures Readable(r, tris[i]) && FaceSound(r, tris[i]) == Ok(true) &&
        Readable(r, 4 * added[i] + 3) && FaceSound(r, 4 * added[i] + 3) == Ok(true)
    {
      RebuiltAt(ds, nod, r, added, tris, i);
      ReadableTet(ds, tris[i]);
      FramedAt(ds, r, TetOf(tris[i]));
      CapSound(ds, nod, r, tris[i], added[i]);
    }
  }
}
