# rita: weighted Delaunay triangulation and tetrahedralization, modelled in Dafny

This project models the core of `rita`, a Rust library that computes
regular (weighted Delaunay) triangulations in 2D and tetrahedralizations in 3D
by incremental insertion. The model covers the following parts.

- **2D half-edge structure.** The structure is `TriDataStructure`: three
  hedges per triangle slot, a node array, a twin array, and tombstones for
  deleted triangles. The model covers its iterators and the four
  mutators: `add_init_tri`, `flip_1_to_3`, `flip_2_to_2` and `flip_3_to_1`.
  For each mutator the model proves the twin-array invariant that
  `is_sound` checks. For `flip_3_to_1` the proof rests on the assumption the
  function documents: the three triangles together form one larger
  triangle. The model states that assumption as a hypothesis; the source
  does not check it.
- **3D structure.** `TetDataStructure` has four half-triangle nodes per
  tetrahedron and an opposite table. The model covers its fixed lookup tables,
  `insert_first_tet`, the Bowyer–Watson workflow (`bw_start`,
  `bw_tets_to_check`, `bw_rem_tet`, `bw_keep_tetra`, `bw_insert_node`),
  `mov_end_tet` and `clean_to_del`.
- **Insertion and flip logic.** This covers `Triangulation` and
  `Tetrahedralization`: locating a vertex, the epsilon and power filters, the
  flip loop, the initial simplex, batch insertion, the regularity checks and
  the read-outs of the final triangles and tetrahedra.
- **Helpers.** These are the Hilbert-curve point order, the convexity test
  and the vertex parser of the WASM binding.

## Modelling conventions

- **Pure functions.** Every mutating method becomes a function from the old
  state to a `Result` holding the new state. `Result` separates three kinds of
  failure:
  - an `anyhow` error the source returns (`IsError`);
  - a Rust panic (`IsPanic`): an index out of bounds, an `unwrap` on `None`,
    a `usize` underflow or an explicit `panic!`;
  - divergence: the model's fuel ran out where the source loop has no bound.
- **Geometric predicates.** `orient_2d`, `orient_3d`, `insphere` and the
  lifted tests are function parameters that return a `Sign` in
  `{-1, 0, 1}`. Coordinates are `real`.
- **Indices.** `INACTIVE` is `usize::MAX`, written out as `2^64 - 1`. Indices
  are natural numbers.
- **Two copies of the library.** The library ships the crate under `rita/src`
  and an earlier copy under `src`. They share this model. The weight store
  (`Optional` or `Flagged`) selects which copy's behaviour applies where they
  differ.

## Model

| member | source | states |
|---|---|---|
| Base.GetOr | rita/src/triangulation.rs:335 | `unwrap_or` yields the value when there is one and the default exactly when there is none |
| Base.Range | rita/src/triangulation.rs:364-369 | the indices given to a batch are `lo, lo+1, …`, one per new vertex |
| Node.Idx | rita/src/node.rs:20-25 | `idx` is `Some` exactly for a `Casual` node, and `Some(i)` exactly for `Casual(i)` |
| Node.ExactlyOneClass | rita/src/node.rs:20-35 | every node is exactly one of: a vertex, the point at infinity, a tombstone |
| Node.IdxInjective | rita/src/node.rs:20-25 | two nodes with the same vertex index are the same node |
| WeightStore.WeightOf | rita/src/triangulation.rs:257-260 | the weight `height` subtracts: zero without weights, otherwise a read that panics past the stored weights |
| WeightStore.PushWeight | rita/src/triangulation.rs:332-336 | pushing a weight appends `weight.unwrap_or(0.0)` when weights are kept and leaves an unweighted store alone |
| WeightStore.BatchWeights | rita/src/triangulation.rs:371 | `self.weights = weights` replaces the store; the earlier copy stores the batch weights or one zero per batch vertex, and stays weighted once weighted |
| TriDs.Next | rita/src/trids/hedge_iterator.rs:67-72 | the next hedge stays in the same triangle and differs from the hedge |
| TriDs.Prev | rita/src/trids/hedge_iterator.rs:84-89 | the previous hedge stays in the same triangle and differs from the hedge |
| TriDs.NextPrevCycle | rita/src/trids/hedge_iterator.rs:67-89 | `next` three times is the identity, `prev` undoes `next`, and `prev` is `next` twice |
| TriDs.EndNode | rita/src/trids/hedge_iterator.rs:59-64 | the end node of a hedge is the start node of its next hedge |
| TriDs.HedgeIsSound | rita/src/trids/hedge_iterator.rs:33-56 | a hedge is sound iff its twin runs from its end back to its start; reading an out-of-range twin panics |
| TriDs.Hedges | src/trids/tri_iterator.rs:24-30 | the three hedges of slot `t` are `3t, 3t+1, 3t+2` and each is the `next` of the one before |
| TriDs.TriNodes | src/trids/tri_iterator.rs:61-67 | the nodes of slot `t` are the three stored start nodes, in order |
| TriDs.TriNodesAreHedgeStarts | src/trids/tri_iterator.rs:24-30 | `nodes()` lists the start nodes of `hedges()` in the same order |
| TriDs.ConceptualHedgeTri | src/trids/tri_iterator.rs:33-42 | a triangle is conceptual iff one of its hedges is, and casual iff none is |
| TriDs.GetHedge | rita/src/trids/tri_data_structure.rs:356-362 | `get_hedge` succeeds exactly for stored hedges and errors otherwise |
| TriDs.GetTri | rita/src/trids/tri_data_structure.rs:365-372 | `get_tri` succeeds exactly below live plus tombstoned slots and errors otherwise |
| TriDs.CountCasual | rita/src/trids/tri_data_structure.rs:380-396 | the counting loop returns the number of casual, live slots scanned so far |
| TriDs.NumCasualTris | rita/src/trids/tri_data_structure.rs:380-396 | `num_casual_tris` is the size of the set of casual, live slots, at most the slot count |
| TriDs.SoundFrom | rita/src/trids/tri_data_structure.rs:399-411 | the `&&`-chained scan answers true iff every live hedge from `h` on is sound |
| TriDs.IsSound | rita/src/trids/tri_data_structure.rs:399-411 | `is_sound` holds iff every live hedge has a twin in range that reverses its edge |
| TriDs.AddTri | rita/src/trids/tri_data_structure.rs:58-69 | `add_tri` appends the three nodes, keeps the old ones and the twins, counts one more triangle and returns the first new hedge |
| TriDs.WriteTri | rita/src/trids/tri_data_structure.rs:414-428 | the writes of `replace_tri` set slot `t` and leave every other node and all twins alone |
| TriDs.ReplaceTri | rita/src/trids/tri_data_structure.rs:414-428 | `replace_tri` succeeds iff the slot is stored; it then rewrites only that slot |
| TriDs.AddInitTri | rita/src/trids/tri_data_structure.rs:72-114 | refused when triangles exist; otherwise four slots and twelve twins with the fixed pattern are appended and slots 0..3 returned |
| TriDs.FlipOneToThree | rita/src/trids/tri_data_structure.rs:117-162 | an index above the slot count is an error; on success the slot becomes abd, bcd and cad are appended, and two triangles are counted |
| TriDs.FlipTwoToTwo | rita/src/trids/tri_data_structure.rs:165-226 | the two triangles around the diagonal become bcd and dab; the counts and array sizes are kept |
| TriDs.OuterEdge | rita/src/trids/tri_data_structure.rs:235-333 | the edge picked in a slot avoids the reflex node, or the defaults remain when none does |
| TriDs.SetTriInactive | rita/src/trids/tri_data_structure.rs:340-353 | tombstones exactly the nodes and twins of slot `t`; panics when the slot is missing |
| TriDs.VertexOf | rita/src/trids/tri_data_structure.rs:235-333 | `vertices[node.idx().unwrap()]` succeeds iff the node is a vertex in range |
| TriDs.LinkEdge | rita/src/trids/tri_data_structure.rs:235-333 | writing a new edge sets its start node and points the outer twin back, touching no other node |
| TriDs.NewTriEdges | rita/src/trids/tri_data_structure.rs:235-333 | the three outer edges are reordered so that the new triangle is not clockwise |
| TriDs.FlipThreeToOne | rita/src/trids/tri_data_structure.rs:235-333 | the result is slot `t0`, two triangles fewer and two tombstones more, with array sizes kept |
| TriDsValid.TwinReversesEdge | rita/src/trids/hedge_iterator.rs:33-56 | in a valid structure the twin of a live hedge is another hedge, its twin is the hedge, and it reverses the edge |
| TriDsValid.LiveTriangle | rita/src/trids/tri_data_structure.rs:340-353 | tombstoning is per triangle, so the neighbours of a live hedge in its triangle are live |
| TriDsValid.DeletedIsWhole | src/trids/tri_iterator.rs:45-49 | a triangle with one tombstoned node has only tombstoned nodes |
| TriDsValid.ValidIsSound | rita/src/trids/tri_data_structure.rs:399-411 | a structure satisfying the twin invariant passes `is_sound` |
| TriDsValid.AddInitTriValid | rita/src/trids/tri_data_structure.rs:72-114 | `add_init_tri` on an empty valid structure succeeds and keeps the twin invariant |
| TriDsValid.FlipOneToThreeOnePastEnd | rita/src/trids/tri_data_structure.rs:122-124 | the guard's `>` lets the index one past the last slot through to a panic; larger indices get the error |
| TriFlips.FlipOneToThreeValid | rita/src/trids/tri_data_structure.rs:117-162 | `flip_1_to_3` on a live slot of a valid structure succeeds and keeps the twin invariant |
| TriFlipTwoToTwo.FlipTwoToTwoValid | rita/src/trids/tri_data_structure.rs:165-226 | `flip_2_to_2` on a live diagonal whose quad has four corners succeeds and keeps the twin invariant |
| TriFlipThreeToOne.FlipThreeToOneNewTri | rita/src/trids/tri_data_structure.rs:295-320 | after `flip_3_to_1` slot `t0` holds the start nodes of the three picked edges |
| TriFlipThreeToOne.FlipThreeToOneTombs | rita/src/trids/tri_data_structure.rs:322-330 | after `flip_3_to_1` slots `t1` and `t2` hold `Deleted` nodes and `INACTIVE` twins |
| TriFlipThreeToOne.FlipThreeToOneFrame | rita/src/trids/tri_data_structure.rs:235-333 | `flip_3_to_1` leaves the nodes of every other slot unchanged |
| TriFlipThreeToOneValid.FlipThreeToOneTwins | rita/src/trids/tri_data_structure.rs:310-322 | when the picked twins lie outside the three slots, each hedge of the new triangle and its outer twin point at each other, and no twin outside the three slots other than the picked ones changes |
| TriFlipThreeToOneValid.FlipThreeToOneValid | rita/src/trids/tri_data_structure.rs:228-333 | when the three triangles form one larger triangle, as the function's documented assumption requires, `flip_3_to_1` keeps the twin-array invariant |
| TriEngine.New | rita/src/triangulation.rs:147-164 | a new triangulation is empty, has no vertices or lists, and is unweighted |
| TriEngine.Height | rita/src/triangulation.rs:257-260 | the height is the squared norm minus the weight; it panics past the vertices or weights |
| TriEngine.ZeroFilledHeight | src/triangulation.rs:172-174 | the earlier copy's zero-filled store gives the same heights as no weights |
| TriEngine.GetTriType | rita/src/triangulation.rs:225-254 | a triangle, a segment opposite the point at infinity, or an error for any other shape; out-of-range vertices panic |
| TriEngine.TriTypeConceptual | rita/src/triangulation.rs:225-254 | an accepted slot reads as a segment iff it is conceptual, and never holds a tombstone |
| TriEngine.IsTriFlat | rita/src/triangulation.rs:518-529 | flat iff it is a triangle whose corners are collinear; a segment is never flat |
| TriEngine.InPowerCircle | rita/src/triangulation.rs:532-555 | the lifted test for a triangle; for a segment, `orient_2d` must be positive; errors of the type read propagate |
| TriEngine.InEpsPowerCircle | rita/src/triangulation.rs:558-586 | the lifted test with the height raised by epsilon; it panics without epsilon and is an error on a segment |
| TriEngine.HedgeVerdict | rita/src/triangulation.rs:200-218 | a hedge is crossed only between two vertices, with the point strictly right, or not strictly left in a conceptual triangle |
| TriEngine.ChooseFromNone | rita/src/triangulation.rs:194-222 | the scan answers none iff no remaining hedge is crossed |
| TriEngine.ChooseFromFirst | rita/src/triangulation.rs:194-222 | a hedge the scan names is crossed, and every hedge before it is not |
| TriEngine.ChooseHedge | rita/src/triangulation.rs:194-222 | `choose_hedge` returns the first crossed hedge of the list, none iff none is crossed, and panics only on a bad read |
| TriEngine.SortedUnique | rita/src/triangulation.rs:1188-1193 | two sorted triples with the same elements are equal, so `sort_unstable` then `==` compares as multisets |
| TriEngine.ThirdTri | rita/src/triangulation.rs:1176-1182 | the third triangle lies across `prev` when the reflex vertex starts the hedge, and across `next` otherwise |
| TriEngine.ThirdTriFlip | rita/src/triangulation.rs:1184-1197 | a conceptual third triangle gives no flip; a 3->1 flip happens iff the triangle holds exactly the three vertices; a tombstone panics |
| TriEngine.WedgeFlip | rita/src/triangulation.rs:1174-1221 | with one reflex endpoint the third triangle decides, and only a 3->1 flip can come out |
| TriEngine.IsFlippable | rita/src/triangulation.rs:1122-1225 | no reflex endpoint gives 2->2, two reflex endpoints panic, one gives the third-triangle verdict; never 1->3 |
| TriEngine.WedgeOfValid | rita/src/triangulation.rs:855-877 | in a valid structure the reads around a hedge never fail, and a live hedge gives the wedge of its own edge |
| TriEngine.WedgeOf | rita/src/triangulation.rs:855-877 | a missing hedge is an error; a tombstone among the four corners gives none; otherwise the four corners and both triangles |
| TriEngine.CasualCase | rita/src/triangulation.rs:879-909 | with four vertices the candidate flip is returned iff the edge is not locally regular; unweighted it is always 2->2 |
| TriEngine.ConvexCase | rita/src/triangulation.rs:916-931 | with the point at infinity at `b` or `d`, flip 2->2 iff `is_convex` holds |
| TriEngine.HullCase | rita/src/triangulation.rs:932-945 | with the point at infinity at `c`, flip iff `a` is in the power circle of `bcd` or `abd` is flat (short-circuit) |
| TriEngine.FlipCase | rita/src/triangulation.rs:879-965 | the match on the four corners: each case as above, two points at infinity are an error, 3->1 only for four vertices when weighted |
| TriEngine.ShouldFlipHedge | rita/src/triangulation.rs:854-966 | a missing hedge is an error, a tombstoned edge needs nothing, never 1->3, and 3->1 only when weighted |
| TriEngine.TwoToTwoStep | rita/src/triangulation.rs:465-479 | the twins of `prev` and `next` are pushed, read before the flip; `last_inserted_triangle` becomes `h / 3` |
| TriEngine.ThreeToOneStep | rita/src/triangulation.rs:480-502 | the merged triangle lives in slot `h / 3`; its three outer twins are pushed; two triangles become tombstones |
| TriEngine.FlipStep | rita/src/triangulation.rs:463-507 | a 1->3 verdict is ignored; flips keep the inputs and lists and only 3->1 lowers the triangle count |
| TriEngine.FlipLoop | rita/src/triangulation.rs:462-509 | the loop keeps the inputs, lists and array shape; the count never grows, and unweighted it stays put |
| TriEngine.EpsFilter | rita/src/triangulation.rs:425-431 | a vertex is skipped iff epsilon is set, its triangle is not conceptual and it is outside the epsilon power circle |
| TriEngine.PowerFilter | rita/src/triangulation.rs:436-439 | a vertex is redundant iff the triangulation is weighted and the vertex is outside the power circle |
| TriEngine.OuterTwins | rita/src/triangulation.rs:446-449 | the hedges tested after a 1->3 flip are the twins of the slot's three hedges |
| TriEngine.InsertVHelper | rita/src/triangulation.rs:412-515 | the vertex ends in exactly one list, by the filters' verdicts; unfiltered it is always inserted and adds two triangles |
| TriEngine.InsertVertex | rita/src/triangulation.rs:320-353 | refused without triangles; the vertex and its weight are appended and the vertex lands in exactly one list |
| TriEngine.InitScan | rita/src/triangulation.rs:276-301 | it is an error iff every popped index is collinear; otherwise the first non-collinear index, with the indices accounted for |
| TriEngine.InitCorners | rita/src/triangulation.rs:283-292 | the first triangle's corners are the picked three, ordered counter-clockwise |
| TriEngine.AddFirst | rita/src/trids/tri_data_structure.rs:72-114 | the first slot holds the three corners, and four slots with twelve hedges are added |
| TriEngine.StartTri | rita/src/triangulation.rs:266-303 | the corners start with the two popped indices, nothing is lost, and the first triangle is counter-clockwise |
| TriEngine.InsertInitTri | rita/src/triangulation.rs:262-314 | it acts only when no vertex was consumed; three indices become used, the rest go back, and `last_inserted_triangle` is `Some(0)` |
| TriEngine.ListsGain | rita/src/triangulation.rs:429-440 | each classified vertex joins exactly one of the used, redundant and ignored lists |
| TriEngine.InitLists | rita/src/triangulation.rs:294-303 | the three corners join the used list, and the other indices remain to insert |
| TriEngine.InsertOne | rita/src/triangulation.rs:399-405 | one turn adds the vertex to exactly one list; with no slot at all the fallback start index, computed even when a last triangle is known, underflows and panics |
| TriEngine.InsertLoop | rita/src/triangulation.rs:399-405 | the main loop puts every popped index into exactly one list |
| TriEngine.StartBatch | rita/src/triangulation.rs:358-394 | the batch is appended and the weights replaced before any check, and that state is returned; fewer than three vertices is then an error; otherwise the first triangle is made on an empty structure |
| TriEngine.InsertVertices | rita/src/triangulation.rs:358-410 | a failed size check leaves the batch appended and the weights replaced; every new index ends in exactly one list; a fresh run obeys the Euler slot count, and the classic case skips none |
| TriEngine.ScanList | rita/src/triangulation.rs:613-653 | the inner check is false iff no non-corner vertex of the list is inside the power circle, and true at the first that is |
| TriEngine.SlotViolations | rita/src/triangulation.rs:596-652 | a slot adds zero violations iff it is regular: not flat and with no listed vertex inside its power circle |
| TriEngine.Violations | rita/src/triangulation.rs:596-652 | the outer loop's count is zero iff every slot adds zero |
| TriEngine.SlotsRegular | rita/src/triangulation.rs:596-652 | the slot checks all pass iff every slot is regular |
| TriEngine.IsRegular | rita/src/triangulation.rs:591-660 | the flag is set iff there are no violations, iff every slot, live or tombstoned, is regular |
| TriEngine.LegacyIsRegular | src/triangulation.rs:487-553 | the earlier loop's flag speaks only about slots `0..num_tris` |
| TriEngine.ShiftedState | src/triangulation.rs:491 | a state with one live triangle in slot 1 behind a tombstone in slot 0 |
| TriEngine.LegacyMissesLiveSlot | src/triangulation.rs:487-553 | on that state the earlier loop reports a regular triangulation |
| TriEngine.FullScanFindsLiveSlot | rita/src/triangulation.rs:591-660 | on that state the full scan reports the triangulation as not regular |
| TriEngine.TrisUpTo | rita/src/triangulation.rs:984-1003 | the filter-map lists exactly the corners of live, finite slots below `n`, or panics on a bad read |
| TriEngine.Tris | rita/src/triangulation.rs:984-1003 | `tris` lists exactly the corner points of the slots with neither the point at infinity nor a tombstone |
| TetTables.TablesAgree | rita/src/tetds/tet_data_structure.rs:8-19 | `Sub` and `Neighbor` read `TRIANGLE_SUBINDICES` and `NEIGHBOR_HALFEDGE` entry for entry |
| TetTables.SubListsOtherCorners | rita/src/tetds/tet_data_structure.rs:8-10 | face `j` lists the three corners other than `j`, each once |
| TetTables.NeighborInvolution | rita/src/tetds/tet_data_structure.rs:12-19 | the neighbour table pairs the twelve local half-edges, and partners run along one edge in opposite directions |
| TetTables.EdgeHalfUnique | rita/src/tetds/tet_data_structure.rs:8-19 | each directed edge of a tetrahedron is carried by exactly one local half-edge |
| TetTables.NeighborIsReverse | rita/src/tetds/tet_data_structure.rs:12-19 | the neighbour of a half-edge is the half-edge carrying the reversed edge |
| TetDs.NextPrevCycle | rita/src/tetds/hedge_iterator.rs:87-115 | `next` three times is the identity and `prev` undoes `next` |
| TetDs.LastNode | rita/src/tetds/hedge_iterator.rs:66-73 | the last node of a half-edge is the first node of its next half-edge |
| TetDs.NeighborEInvolution | rita/src/tetds/hedge_iterator.rs:75-85 | `neighbor` of `neighbor` is the half-edge itself |
| TetDs.NeighborEReverses | rita/src/tetds/hedge_iterator.rs:27-64 | `neighbor` reverses the edge in every structure, so that part of the half-edge check never fails |
| TetDs.OppositeE | rita/src/tetds/hedge_iterator.rs:95-107 | `opposite` lands on the glued half-triangle; reading past the arrays panics |
| TetDs.OppositeEMatches | rita/src/tetds/hedge_iterator.rs:95-107 | the chosen half-edge is the first one starting where this one ends, and half-edge 2 when none does |
| TetDs.HedgeIsSoundMeans | rita/src/tetds/hedge_iterator.rs:27-64 | a half-edge passes exactly when its opposite runs along the same edge the other way |
| TetDs.HalfTriHedges | rita/src/tetds/half_tri_iterator.rs:16-34 | the three half-edges of a face, each the `next` of the one before |
| TetDs.HalfTriNodesOmitCorner | rita/src/tetds/half_tri_iterator.rs:61-75 | a face lists the corners of its tetrahedron other than the one it is opposite to, each once |
| TetDs.OppositeNode | rita/src/tetds/half_tri_iterator.rs:73-75 | the opposite node of face `j` is corner `j` of its tetrahedron |
| TetDs.TetOf | rita/src/tetds/half_tri_iterator.rs:85-90 | `>> 2` maps a face to the tetrahedron whose block of four holds it |
| TetDs.OppositeHalfTri | rita/src/tetds/half_tri_iterator.rs:78-83 | the glued face is the stored opposite; an index past the array panics |
| TetDs.ReversedCycle | rita/src/tetds/half_tri_iterator.rs:40-54 | the three-way test of the face check says the glued face is a rotation of this face read backwards |
| TetDs.HalfTriIsSound | rita/src/tetds/half_tri_iterator.rs:40-54 | a face passes iff the glued face lists the same nodes in reversed cyclic order; out-of-range reads panic |
| TetDs.TetHalfTris | src/tetds/tet_iterator.rs:11-32 | the faces of tetrahedron `t` are `4t..4t+3`, face `j` at `4t + j` |
| TetDs.TetIsSoundMeans | src/tetds/tet_iterator.rs:48-64 | a tetrahedron passes its own check iff both flags are clear and its four nodes differ |
| TetDs.GetHalfTri | rita/src/tetds/tet_data_structure.rs:106-114 | succeeds exactly for stored faces, errors otherwise |
| TetDs.GetTet | rita/src/tetds/tet_data_structure.rs:144-150 | succeeds exactly below the tetrahedron count, errors otherwise |
| TetDs.CountCasualTets | rita/src/tetds/tet_data_structure.rs:117-133 | the loop counts the tetrahedra among the first `n` whose nodes are all vertices |
| TetDs.NumCasualTets | rita/src/tetds/tet_data_structure.rs:117-133 | `num_casual_tets` is the size of the set of tetrahedra without the point at infinity |
| TetDs.FaceSoundMeans | rita/src/tetds/tet_data_structure.rs:625-642 | a face passes when its own check and its three half-edge checks do |
| TetDs.ReversedFaceSound | rita/src/tetds/tet_data_structure.rs:625-642 | a face with three different corners, glued to a face listing them backwards, passes every check |
| TetDs.TetAllSoundMeans | rita/src/tetds/tet_data_structure.rs:625-642 | a tetrahedron passes when its flags are clear, its nodes differ and each face passes |
| TetDs.SoundFrom | rita/src/tetds/tet_data_structure.rs:625-642 | the loop from `t` on answers true iff every later tetrahedron passes |
| TetDs.IsSound | rita/src/tetds/tet_data_structure.rs:625-642 | `is_sound` holds iff every tetrahedron passes all its checks |
| TetFirst.InsertFirstTet | rita/src/tetds/tet_data_structure.rs:564-622 | refused when tetrahedra exist; otherwise five tetrahedra and twenty opposites are added and tetrahedra 0..3 returned |
| TetFirst.FirstGlueIsTable | rita/src/tetds/tet_data_structure.rs:583-602 | on an empty structure the twenty pushed opposites are the fixed glue table |
| TetFirst.FirstOppInvolution | rita/src/tetds/tet_data_structure.rs:583-602 | the glue pairs every face with a face of another tetrahedron, both ways |
| TetFirst.InsertFirstTetShape | rita/src/tetds/tet_data_structure.rs:564-622 | from an empty structure: the finite tetrahedron, one conceptual tetrahedron per face, and the table's glue |
| TetFirst.FirstFacesFit | rita/src/tetds/tet_data_structure.rs:577-602 | every face of the first complex is glued to a face listing its three corners backwards |
| TetFirst.FirstTetSound | rita/src/tetds/tet_data_structure.rs:625-642 | each of the five first tetrahedra passes every check |
| TetFirst.InsertFirstTetSound | rita/src/tetds/tet_data_structure.rs:564-642 | with four different vertices, the first complex passes `is_sound` |
| TetOps.InsertTet | rita/src/tetds/tet_data_structure.rs:479-499 | appends four nodes and clear flags, keeps all else, and returns the first new node index |
| TetOps.ReplaceTet | rita/src/tetds/tet_data_structure.rs:501-520 | rewrites exactly tetrahedron `t` and clears its flags; a missing slot panics |
| TetOps.Relink | rita/src/tetds/tet_data_structure.rs:534-542 | the eight opposite writes succeed iff every index is in range, and keep the array length |
| TetOps.MovEndTet | rita/src/tetds/tet_data_structure.rs:522-561 | on success one tetrahedron fewer; the work lists are untouched |
| TetOps.MovEndTetFlags | rita/src/tetds/tet_data_structure.rs:522-561 | the flag arrays only shrink, and a flag changes only at slot `t`, where it is cleared |
| TetOps.MovEndTetOk | rita/src/tetds/tet_data_structure.rs:522-561 | it fails only past the last tetrahedron or when the last tetrahedron's opposites point outside the array |
| TetOps.MovEndTetTets | rita/src/tetds/tet_data_structure.rs:522-561 | the tetrahedron list loses entry `t`, and the last entry takes its place |
| TetOps.MovEndTetMultiset | rita/src/tetds/tet_data_structure.rs:522-561 | exactly one copy of tetrahedron `t` leaves the multiset of tetrahedra |
| TetOps.MovEndTetRelinks | rita/src/tetds/tet_data_structure.rs:524-542 | the moved tetrahedron's faces and their glued faces point at each other again |
| TetOps.BwStart | rita/src/tetds/tet_data_structure.rs:266-276 | an error while a cavity search is under way, otherwise `bw_rem_tet` |
| TetOps.BwRemTet | rita/src/tetds/tet_data_structure.rs:289-307 | marks and records `t` and queues the four neighbours in face order; a bad index panics |
| TetOps.BwKeepTetra | rita/src/tetds/tet_data_structure.rs:310-315 | marks and records `t` and changes nothing else |
| TetOps.BwTetsToCheck | rita/src/tetds/tet_data_structure.rs:279-286 | pops flagged entries and returns the first unflagged one from the end, or none once the list is empty |
| TetOps.BwTetsToCheckFindsLast | rita/src/tetds/tet_data_structure.rs:279-286 | with in-range entries it finds a tetrahedron iff the list holds an unflagged one |
| TetOps.InsertSorted | rita/src/tetds/tet_data_structure.rs:469 | inserting into an ascending list keeps it ascending and adds exactly the value |
| TetOps.SortAsc | rita/src/tetds/tet_data_structure.rs:469 | `sort_unstable` yields an ascending permutation |
| TetOps.CleanLoop | rita/src/tetds/tet_data_structure.rs:471-474 | on success the delete list is empty and the count drops by its length |
| TetOps.CleanLoopClears | rita/src/tetds/tet_data_structure.rs:471-474 | after the removal loop no slot left carries a delete mark for a listed index, other delete marks are kept, and keep marks only change by being cleared on listed slots |
| TetOps.CleanToDel | rita/src/tetds/tet_data_structure.rs:468-477 | on success the delete list is empty, the count drops by its length and the other lists are kept |
| TetOps.CleanToDelClears | rita/src/tetds/tet_data_structure.rs:468-477 | after `clean_to_del` no slot left carries a delete mark for a listed index, other delete marks are kept, and keep marks only change by being cleared on listed slots |
| TetOps.CleanToDelRemoves | rita/src/tetds/tet_data_structure.rs:468-477 | with distinct stored slots listed, exactly the listed tetrahedra leave the multiset |
| TetBw.BoundaryFace | rita/src/tetds/tet_data_structure.rs:326-339 | the first face of the kept tetrahedron whose glued tetrahedron is deleted; an error iff there is none |
| TetBw.FirstBoundary | rita/src/tetds/tet_data_structure.rs:318-342 | the two guards of `bw_insert_node`, then the boundary face of the last kept tetrahedron |
| TetBw.FirstBoundaryMeans | rita/src/tetds/tet_data_structure.rs:318-342 | it refuses exactly for a pending check, no kept tetrahedron, or an isolated one |
| TetBw.Walk | rita/src/tetds/tet_data_structure.rs:360-377 | the walk around an edge ends on a face of a tetrahedron that stays, or panics or runs out of fuel |
| TetBw.WalkSteps | rita/src/tetds/tet_data_structure.rs:374-376 | inside a deleted tetrahedron the walk steps to `neighbor().opposite()` |
| TetBw.IndexIn | rita/src/tetds/tet_data_structure.rs:364-366 | `find` gives the first position of the face, or none iff it is absent |
| TetBw.FindOrPush | rita/src/tetds/tet_data_structure.rs:364-372 | a known face keeps the graph; a new one is appended with no neighbours |
| TetBw.LinkHedge | rita/src/tetds/tet_data_structure.rs:357-381 | one half-edge pass records a neighbour and keeps the graph invariant |
| TetBw.BuildGraph | rita/src/tetds/tet_data_structure.rs:348-387 | the loop ends with every listed face having all three neighbours |
| TetBw.Boundary | rita/src/tetds/tet_data_structure.rs:345-387 | the boundary graph starts at the first face, is complete, and its other faces lie in tetrahedra that stay |
| TetBw.Slot | rita/src/tetds/tet_data_structure.rs:399-409 | new tetrahedra reuse deleted slots from the end of the list, then append |
| TetBw.NewTetFace3 | rita/src/tetds/tet_data_structure.rs:397-408 | face 3 of the new tetrahedron is the boundary face read backwards |
| TetBw.CreateOne | rita/src/tetds/tet_data_structure.rs:391-409 | one creation takes the next slot and pops one deleted slot or grows the count |
| TetBw.CreateTets | rita/src/tetds/tet_data_structure.rs:389-410 | the creation loop takes the slots in order and leaves the delete list short by the number used |
| TetBw.CreateTetsBuilds | rita/src/tetds/tet_data_structure.rs:389-410 | each new tetrahedron holds its face's corners plus the new node, and the other tetrahedra are unchanged |
| TetBw.FaceOverEdgeHolds | rita/src/tetds/tet_data_structure.rs:431-451 | the face chosen over a boundary edge contains both ends of the edge and the new node |
| TetBw.NeighbourFace | rita/src/tetds/tet_data_structure.rs:421-451 | the neighbour's face is picked by the recorded back edge; a missing neighbour panics |
| TetBw.LinkOne | rita/src/tetds/tet_data_structure.rs:413-457 | face 3 and its boundary face are glued both ways, and no other tetrahedron's entries change |
| TetBw.LinkAll | rita/src/tetds/tet_data_structure.rs:413-458 | the link loop writes only entries of the new tetrahedra and the boundary faces |
| TetBw.LinkAllCaps | rita/src/tetds/tet_data_structure.rs:413-458 | when the writes do not collide, every new face 3 and its boundary face point at each other at the end |
| TetBw.ClearKeep | rita/src/tetds/tet_data_structure.rs:460-462 | clears exactly the kept marks on the list and empties it; a bad index panics |
| TetBw.BwInsertNode | rita/src/tetds/tet_data_structure.rs:318-465 | it errors exactly when the guards do; on success the lists are empty, one slot is used per boundary face, and every tetrahedron that was listed to keep has its keep mark cleared |
| TetBw.BwInsertNodeRebuilds | rita/src/tetds/tet_data_structure.rs:318-465 | under consistent flags: one new tetrahedron per boundary face, glued to it both ways, with the rest unchanged |
| TetBw.BwInsertNodeCapsSound | rita/src/tetds/tet_data_structure.rs:318-465 | each boundary face with three different corners, and its new tetrahedron's face, passes the soundness checks |
| TetEngine.Height | rita/src/tetrahedralization.rs:160-165 | the squared norm minus the weight; it panics past the vertices or weights |
| TetEngine.NodesOf | rita/src/tetrahedralization.rs:219 | `get_tet(t)?.nodes()` errors past the count and panics on a short node array |
| TetEngine.ShapeOf | rita/src/tetrahedralization.rs:221-283 | four vertices give a tetrahedron, one point at infinity gives the opposite face, other shapes are an error |
| TetEngine.GetTetAsExtended | rita/src/tetrahedralization.rs:218-284 | errors past the count, and otherwise gives the shape of the stored nodes |
| TetEngine.ExtendedTriangleIffConceptual | rita/src/tetrahedralization.rs:218-284 | an accepted tetrahedron reads as a hull triangle iff it is conceptual |
| TetEngine.InSphere | rita/src/tetrahedralization.rs:286-304 | the negated in-sphere sign for a tetrahedron, the negated orientation for a hull triangle, strict or not |
| TetEngine.InSphereStrictImpliesLoose | rita/src/tetrahedralization.rs:286-304 | a strict acceptance is also a non-strict one |
| TetEngine.InPowerSphere | rita/src/tetrahedralization.rs:306-332 | the lifted sign with the corner heights for a tetrahedron; a hull triangle is tested as in the sphere test |
| TetEngine.HullTestsAgree | rita/src/tetrahedralization.rs:286-332 | on a hull triangle the power-sphere and sphere tests agree |
| TetEngine.InEpsPowerSphere | rita/src/tetrahedralization.rs:334-362 | the lifted test with the height raised by epsilon; without epsilon it panics |
| TetEngine.EpsTestRefusesHull | rita/src/tetrahedralization.rs:334-362 | the epsilon test answers only for finite tetrahedra |
| TetEngine.IsTetFlat | rita/src/tetrahedralization.rs:364-375 | flat iff it is a tetrahedron whose corners have orientation zero |
| TetEngine.FaceVerdict | rita/src/tetrahedralization.rs:383-405 | a face of three vertices is crossed when the orientation is positive, or non-negative in a conceptual tetrahedron |
| TetEngine.ChooseTri | rita/src/tetrahedralization.rs:377-408 | the first crossed face, none iff no face is crossed, a panic only on a bad read |
| TetEngine.WalkFrom | rita/src/tetrahedralization.rs:430-459 | after more than `num_tets >> 2` crossings an error; a result passes the non-strict sphere test |
| TetEngine.LocateVisWalk | rita/src/tetrahedralization.rs:424-460 | a bad start is an error; the located tetrahedron exists and its sphere test accepts the vertex |
| TetEngine.CheckAllFrom | rita/src/tetrahedralization.rs:410-422 | the first tetrahedron from `t` on that is not flat and holds the vertex in its power sphere |
| TetEngine.WalkCheckAll | rita/src/tetrahedralization.rs:410-422 | the first hosting tetrahedron by index, and the error iff none hosts |
| TetEngine.PowerTestReadsMesh | rita/src/tetrahedralization.rs:306-332 | the power-sphere test reads neither the flags nor the work lists |
| TetEngine.Classify | rita/src/tetrahedralization.rs:466-472 | every tetrahedron the loop records is deleted iff the vertex is in its power sphere, and the check list ends empty |
| TetEngine.InsertBw | rita/src/tetrahedralization.rs:463-476 | an error while a search is under way; on success the work lists are empty and slots are returned |
| TetEngine.TetCasual | rita/src/tetrahedralization.rs:494 | `get_tet(c)?.is_casual()` errors past the count and otherwise says whether every node is a vertex |
| TetEngine.EpsSkip | rita/src/tetrahedralization.rs:493-500 | skipped iff epsilon is set, the tetrahedron is casual and the vertex is outside the epsilon sphere |
| TetEngine.RedundantSkip | rita/src/tetrahedralization.rs:501-508 | skipped iff weighted, casual and outside the power sphere |
| TetEngine.Locate | rita/src/tetrahedralization.rs:483-488 | a walk that succeeds is taken as is; a walk that panics or diverges ends the call with the same fault; only an error falls back to `clean_to_del` and the full scan; after either only the delete list may be gone, and the tetrahedron exists |
| TetEngine.InsertVertexHelper | rita/src/tetrahedralization.rs:478-522 | the vertex joins exactly one list; it is ignored, with result 0, exactly when the epsilon filter or else the power filter rejects it at the located tetrahedron; unfiltered it is always used |
| TetEngine.RemoveAt | rita/src/tetrahedralization.rs:557 | `remove` keeps the order of the other entries |
| TetEngine.SwapRemove | rita/src/tetrahedralization.rs:559 | `swap_remove` moves the last entry into the gap |
| TetEngine.FourthScan | rita/src/tetrahedralization.rs:563-588 | an error iff every remaining index is coplanar; otherwise the first that is not, with every index accounted for |
| TetEngine.CornersOriented | rita/src/tetrahedralization.rs:569-575 | either corner order handed to the data structure has positive negated orientation |
| TetEngine.StartTet | rita/src/tetrahedralization.rs:533-589 | two pops, the third corner, the fourth scan; four vertices are used and the others go back |
| TetEngine.InsertFirstTet | rita/src/tetrahedralization.rs:524-599 | it acts only when the list covers every vertex; the corner indices become used and the first tetrahedron is positive |
| TetEngine.CleanStep | rita/src/tetrahedralization.rs:620 | `clean_to_del` after an insertion or a skip empties the delete list and keeps the vertex in the one list it joined |
| TetEngine.InsertVertex | rita/src/tetrahedralization.rs:605-629 | refused without tetrahedra; the point is appended with the weights untouched and lands in exactly one list |
| TetEngine.AppendedVertexHasNoHeight | rita/src/tetrahedralization.rs:612-618 | with one weight per vertex stored, the appended vertex has no weight, so every power test of it panics |
| TetEngine.FirstBatchAligned | rita/src/tetrahedralization.rs:645 | a first weighted batch stores one weight per vertex |
| TetEngine.InsertVertexWithWeight | rita/src/triangulation.rs:332-336 | the point and its weight are appended together, then inserted as `insert_vertex` does |
| TetEngine.PushedVertexHasHeight | rita/src/triangulation.rs:332-336 | pushing the weight with the point keeps one weight per vertex, so the new vertex has a height |
| TetEngine.InsertLoop | rita/src/tetrahedralization.rs:669-672 | every popped index lands in exactly one list |
| TetEngine.StartBatch | rita/src/tetrahedralization.rs:638-667 | the batch is appended and the weights replaced before any check, and that state is returned; fewer than four vertices is then an error; otherwise the first tetrahedron is placed |
| TetEngine.InsertVertices | rita/src/tetrahedralization.rs:632-682 | a failed size check leaves the batch appended and the weights replaced; every new index ends in exactly one list, the delete list ends empty, and the classic case ignores none |
| TetEngine.TetrahedraUpTo | rita/src/tetrahedralization.rs:192-211 | the filter-map lists exactly the corners of the finite tetrahedra below `n`, or panics on a bad read |
| TetEngine.Tetrahedra | rita/src/tetrahedralization.rs:192-211 | `tets` lists exactly the corner points of the tetrahedra without the point at infinity |
| Hilbert.FindMinMax2 | src/utils/point_order.rs:102-122 | panics on an empty or bad list; otherwise the tightest box around the listed vertices |
| Hilbert.QuadrantMeans | src/utils/point_order.rs:24-37 | the quadrant number says on which side of each split line the point lies |
| Hilbert.Split2 | src/utils/point_order.rs:24-37 | the partition is a permutation of the input, each part holding only points of its quadrant |
| Hilbert.Order2Total | src/utils/point_order.rs:51-91 | every rotation state pushes each quadrant exactly once with a state in 0..7 |
| Hilbert.Step2Ok | src/utils/point_order.rs:13-95 | one round only appends to the output and loses no index |
| Hilbert.Step2Stuck | src/utils/point_order.rs:13-95 | a cell holding two indices of one point stays in the worklist forever |
| Hilbert.HilbertSort2 | src/utils/point_order.rs:4-99 | panics iff the list is empty or bad; a result is a permutation; two coincident points make the loop run forever |
| Hilbert.MinMax3 | src/utils/point_order.rs:128-150 | the tightest box around the listed vertices |
| Hilbert.OctantMeans | src/utils/point_order.rs:168-174 | the octant's bits say on which side of each split plane the point lies |
| Hilbert.Split3 | src/utils/point_order.rs:168-174 | the partition is a permutation of the input, each part holding only points of its octant |
| Hilbert.Table3Total | src/utils/point_order.rs:180-214 | every key a cell presents finds a row, and the eight children visit all eight octants |
| Hilbert.Kids3Ok | src/utils/point_order.rs:191-214 | one subdivision hands every index to exactly one of its eight children |
| Hilbert.Step3Ok | src/utils/point_order.rs:156-219 | one round only appends to the output and loses no index |
| Hilbert.HilbertSort3 | src/utils/point_order.rs:125-222 | panics iff the list is empty or bad, and a result is a permutation |
| Convexity.IsConvex | src/utils/convexity.rs:8-23 | convex for a positive sign, not for a negative one, and on a line iff the angle's dot product is positive |
| Convexity.CollinearSymmetric | src/utils/convexity.rs:15-21 | on a line the answer does not depend on which end comes first |
| Wasm.ParseVertices2d | rita/src/wasm.rs:54-61 | an odd length is refused; otherwise consecutive pairs become points |
| Wasm.ParseFlatten | rita/src/wasm.rs:54-61 | parsing the flat layout of a point list gives the list back |
| Wasm.FlattenParse | rita/src/wasm.rs:54-61 | flattening a parsed array gives the array back |
| Wasm.Triangulate2dInput | rita/src/wasm.rs:21-27 | accepted iff the length is even and there are at least three points |

## Left out

- The geometric predicates (`rita/src/predicates.rs`, `geogram_predicates`, `robust`) are exact-arithmetic foreign code. They are `Sign`-valued parameters, so nothing here claims a Delaunay or regularity fact about real geometry.
- Floating-point arithmetic: coordinates, weights and heights are `real`, so no rounding is modelled.
- TriEngine.InsertVHelper: the 2D `locate_vis_walk` is not modelled, because its bisector branch depends on floating-point normalisation and has no step bound. Its answer is the `Locate` parameter.
- TriEngine.FlipLoop: the flip stack of `insert_v_helper` has no bound in the source. The model runs on fuel and reports divergence when the fuel runs out.
- Hilbert.HilbertSort2: the worklist has no bound in the source, so the model runs on fuel. For coincident points the model proves that the sort never finishes.
- Hilbert.HilbertSort3: runs on fuel like the 2D sort. The contract states only that a finished run is a permutation; the coincident-point divergence is not proved in 3D.
- TetBw.Walk: the edge walk inside `bw_insert_node` has no bound in the source. The model gives it fuel of three steps per node and reports divergence beyond that.
- TetBw.BwInsertNodeRebuilds: assumes the Bowyer–Watson bookkeeping that `bw_rem_tet` and `bw_keep_tetra` set up (`CavityOk`: the reusable slots are distinct and marked for deletion, and the kept tetrahedra are stored and unmarked). The source does not check this.
- TetEngine.StartTet: the third vertex of the first tetrahedron is picked by a floating-point dot-product maximisation. It is the parameter `e`, and any index may be passed.
- TriEngine.InsertVertices: an error raised after the size check (in the sort, the first triangle or the main loop) leaves a partly updated structure in the source. The model returns that state only for the size check.
- TetEngine.InsertVertices: as in 2D, only the state a failed size check leaves is returned, not the partly updated one after a later error.
- TriEngine.FlipStep: a 1->3 verdict from `should_flip_hedge` is a no-op, as in the source's flip loop.
- TriEngine.FullScanFindsLiveSlot: states only that the full scan reports "not regular" on the counterexample, not the exact count.
- The `f64` ratio `1.0 - violations / num_tris` returned by `is_regular` is not modelled. Only the boolean flag and the violation count are.
- `par_is_regular` and `is_regular_p` (rayon parallelism) are left out, as is `is_regular_for_point_set`. They recompute the same test in parallel or against a second point set.
- The 3D `is_regular` is left out. The model's regularity check is the 2D one, which shows the difference between the two copies.
- `get_hedge_containing`, `get_half_tri_containing` and `get_tet_containing` of `TetDataStructure` are left out. They are search helpers that the insertion path does not call.
- The JS object building in `rita/src/wasm.rs` (`vertex2_to_js`, `triangle_to_js`, `Reflect`) is `wasm_bindgen` foreign code. Only the input parsing and the size guard of `triangulate_2d` are modelled.
- Timing and logging `cfg` blocks, `log_time` and the `Display` impls are left out, because they have no effect on results.

## Findings

| source | as written | input that shows it | evidently intended | confidence | as-written member | corrected member |
|---|---|---|---|---|---|---|
| src/triangulation.rs:487-553 | the earlier `is_regular` scans only slots below `num_tris`. After a 3->1 flip has left tombstones, live triangles sit in higher slots and are never tested | `ShiftedState` has a tombstone in slot 0 and a flat triangle in slot 1, with `num_tris == 1`. The earlier scan reports regular | scan every slot up to `num_tris + num_deleted_tris`, as the `rita/src` copy does | not executed | TriEngine.LegacyMissesLiveSlot | TriEngine.FullScanFindsLiveSlot |
| rita/src/tetrahedralization.rs:605-629 | `insert_vertex` pushes the point but not a weight. In a weighted tetrahedralization the new vertex then has no height, and any power test touching it indexes past the weight list | a weighted batch of four points (`FirstBatchAligned`) followed by one more point | push the weight next to the point, as the 2D `insert_vertex` does at rita/src/triangulation.rs:332-336 | not executed | TetEngine.AppendedVertexHasNoHeight | TetEngine.PushedVertexHasHeight |
