/** The mutators of the 3D structure other than the cavity rebuild: the
    slot primitives (`insert_tet`, `replace_tet`, `mov_end_tet`), the
    Bowyer-Watson bookkeeping (`bw_start`, `bw_rem_tet`, `bw_keep_tetra`,
    `bw_tets_to_check`, `clean_to_del`) and `insert_first_tet`. Every
    `&mut self` method is a function from the old structure to the new one. */
module TetOps {
  import opened Base
  import opened Node
  import opened TetTables
  import opened TetDs

  /** The first `k` entries of `s`, dropping at most what is there: `k`
      calls of `Vec::pop` whose results are ignored. */
  function Drop<T>(s: seq<T>, k: nat): (r: seq<T>)
    ensures |s| >= k ==> |r| == |s| - k
    ensures |s| < k ==> r == []
    ensures forall i :: 0 <= i < |r| ==> r[i] == s[i]
  {
    if |s| >= k then s[..|s| - k] else []
  }

  /** The tetrahedra of the structure, each as its four corner nodes. */
  function Tets(ds: TetDs): (r: seq<seq<VertexNode>>)
    requires Sized(ds)
    ensures |r| == ds.numTets
    ensures forall u :: 0 <= u < ds.numTets ==> r[u] == TetNodes(ds, u)
  {
    seq(ds.numTets, u requires 0 <= u < ds.numTets => TetNodes(ds, u))
  }

  // ---------------------------------------------------------------------
  // Slot primitives

  /** `insert_tet`: appends a tetrahedron with clear flags and returns the
      index of its first corner (the source returns all four). The opposite
      array is left alone; the callers push the opposites themselves. */
  function InsertTet(ds: TetDs, ns: seq<VertexNode>): (r: (TetDs, nat))
    requires |ns| == 4
    ensures r.1 == |ds.nodes| && r.0.numTets == ds.numTets + 1
    ensures r.0.opp == ds.opp && r.0.toDel == ds.toDel && r.0.toKeep == ds.toKeep && r.0.toCheck == ds.toCheck
    ensures |r.0.nodes| == |ds.nodes| + 4 && r.0.nodes[..|ds.nodes|] == ds.nodes
    ensures TetNodes(r.0, |ds.nodes| / 4) == ns || |ds.nodes| % 4 != 0
    ensures |r.0.del| == |ds.del| + 1 && |r.0.keep| == |ds.keep| + 1
    ensures !r.0.del[|ds.del|] && !r.0.keep[|ds.keep|]
    ensures r.0.del[..|ds.del|] == ds.del && r.0.keep[..|ds.keep|] == ds.keep
  {
    (ds.(nodes := ds.nodes + ns, del := ds.del + [false], keep := ds.keep + [false],
         numTets := ds.numTets + 1),
     |ds.nodes|)
  }

  /** `replace_tet`: overwrites the nodes of tetrahedron `t` and clears its
      flags; writing outside the arrays panics. */
  function ReplaceTet(ds: TetDs, t: nat, ns: seq<VertexNode>): (r: Result<TetDs>)
    requires |ns| == 4
    ensures r.Ok? <==> 4 * t + 3 < |ds.nodes| && t < |ds.del| && t < |ds.keep|
    ensures r.Err? ==> r.IsPanic()
    ensures r.Ok? ==> |r.value.nodes| == |ds.nodes| && TetNodes(r.value, t) == ns
    ensures r.Ok? ==> forall i :: 0 <= i < |ds.nodes| && (i < 4 * t || 4 * t + 4 <= i) ==>
      r.value.nodes[i] == ds.nodes[i]
    ensures r.Ok? ==> r.value.del == ds.del[t := false] && r.value.keep == ds.keep[t := false]
    ensures r.Ok? ==> r.value.(nodes := ds.nodes, del := ds.del, keep := ds.keep) == ds
  {
    if 4 * t + 3 >= |ds.nodes| || t >= |ds.del| || t >= |ds.keep| then
      Crash("index out of bounds: replace_tet")
    else
      var nodes := ds.nodes[4 * t := ns[0]][4 * t + 1 := ns[1]][4 * t + 2 := ns[2]][4 * t + 3 := ns[3]];
      Ok(ds.(nodes := nodes, del := ds.del[t := false], keep := ds.keep[t := false]))
  }

  /** Two structures whose nodes agree outside slot `t` hold the same
      tetrahedra there. */
  lemma OtherTetsKept(ds: TetDs, ds': TetDs, t: nat, u: nat)
    requires |ds'.nodes| == |ds.nodes| && 4 * u + 3 < |ds.nodes| && u != t
    requires forall i :: 0 <= i < |ds.nodes| && (i < 4 * t || 4 * t + 4 <= i) ==> ds'.nodes[i] == ds.nodes[i]
    ensures TetNodes(ds', u) == TetNodes(ds, u)
  {
    assert 4 * u + 3 < 4 * t || 4 * t + 4 <= 4 * u;
  }

  /** The last step of `mov_end_tet`: four pops of the node and opposite
      arrays, one of each flag array, and one fewer tetrahedron. */
  function Shrink(ds: TetDs): (r: TetDs)
    requires ds.numTets > 0
    ensures Sized(ds) ==> Sized(r)
    ensures r.numTets == ds.numTets - 1
    ensures r.toDel == ds.toDel && r.toKeep == ds.toKeep && r.toCheck == ds.toCheck
  {
    ds.(nodes := Drop(ds.nodes, 4), opp := Drop(ds.opp, 4), del := Drop(ds.del, 1),
        keep := Drop(ds.keep, 1), numTets := ds.numTets - 1)
  }

  /** The eight opposite writes of `mov_end_tet`: slot `4t + k` receives
      the old opposite `o[k]` of the last tetrahedron, then each `o[k]` is
      pointed back at `4t + k`. */
  function Relink(opp: seq<nat>, t: nat, o: seq<nat>): (r: Result<seq<nat>>)
    requires |o| == 4
    ensures r.Ok? <==> 4 * t + 3 < |opp| && o[0] < |opp| && o[1] < |opp| && o[2] < |opp| && o[3] < |opp|
    ensures r.Err? ==> r.IsPanic()
    ensures r.Ok? ==> |r.value| == |opp|
  {
    if 4 * t + 3 >= |opp| || o[0] >= |opp| || o[1] >= |opp| || o[2] >= |opp| || o[3] >= |opp| then
      Crash("index out of bounds: half_tri_opposite")
    else
      var a := opp[4 * t := o[0]][4 * t + 1 := o[1]][4 * t + 2 := o[2]][4 * t + 3 := o[3]];
      Ok(a[o[0] := 4 * t][o[1] := 4 * t + 1][o[2] := 4 * t + 2][o[3] := 4 * t + 3])
  }

  /** `mov_end_tet`: moves the last tetrahedron into slot `t` (unless `t`
      is the last one) with its opposites relinked both ways, then drops the
      last slot. `num_tets - 1` on an empty structure underflows, which
      panics. */
  function MovEndTet(ds: TetDs, t: nat): (r: Result<TetDs>)
    ensures r.Err? ==> r.IsPanic()
    ensures r.Ok? ==> ds.numTets > 0 && r.value.numTets == ds.numTets - 1
    ensures r.Ok? ==> r.value.toDel == ds.toDel && r.value.toKeep == ds.toKeep && r.value.toCheck == ds.toCheck
    ensures r.Ok? && Sized(ds) ==> Sized(r.value)
  {
    if ds.numTets == 0 then Crash("attempt to subtract with overflow")
    else if t == ds.numTets - 1 then Ok(Shrink(ds))
    else if |ds.opp| < 4 then Crash("attempt to subtract with overflow")
    else
      if 4 * (ds.numTets - 1) + 3 >= |ds.nodes| then Crash("index out of bounds: tet_nodes")
      else
        var ds1 :- ReplaceTet(ds, t, TetNodes(ds, ds.numTets - 1));
        var opp :- Relink(ds1.opp, t, LastOpp(ds));
        Ok(Shrink(ds1.(opp := opp)))
  }

  /** The four opposites of the last tetrahedron lie inside the array. */
  predicate LastGlueInRange(ds: TetDs)
    requires Sized(ds) && ds.numTets > 0
  {
    var m := 4 * (ds.numTets - 1);
    ds.opp[m] < |ds.opp| && ds.opp[m + 1] < |ds.opp| && ds.opp[m + 2] < |ds.opp| && ds.opp[m + 3] < |ds.opp|
  }

  /** On a well-shaped structure `mov_end_tet` fails only for an index past
      the end or a last tetrahedron glued to a half-triangle outside the
      array. */
  lemma MovEndTetOk(ds: TetDs, t: nat)
    requires Sized(ds)
    ensures MovEndTet(ds, t).Ok? <==> (ds.numTets > 0 && (t == ds.numTets - 1 ||
      (t < ds.numTets && LastGlueInRange(ds))))
  {
    if ds.numTets > 0 && t < ds.numTets - 1 {
      var n := |ds.opp|;
      assert n - 4 == 4 * (ds.numTets - 1);
    }
  }

  /** `mov_end_tet` on slot `t` removes tetrahedron `t` from the list and
      fills the hole with the last one: the other tetrahedra keep their
      place. */
  lemma MovEndTetTets(ds: TetDs, t: nat)
    requires Sized(ds) && MovEndTet(ds, t).Ok?
    ensures t < ds.numTets
    ensures Tets(MovEndTet(ds, t).value) == ByLast(Tets(ds), t)
  {
    MovEndTetNodes(ds, t);
    MovedTets(ds, MovEndTet(ds, t).value, t);
  }

  /** The two ways `mov_end_tet` can succeed on a well-shaped structure. */
  lemma MovEndTetSteps(ds: TetDs, t: nat)
    requires Sized(ds) && MovEndTet(ds, t).Ok?
    ensures t < ds.numTets
    ensures t == ds.numTets - 1 ==> MovEndTet(ds, t).value == Shrink(ds)
    ensures t < ds.numTets - 1 ==>
      var ds1 := ReplaceTet(ds, t, TetNodes(ds, ds.numTets - 1));
      ds1.Ok? && Relink(ds1.value.opp, t, LastOpp(ds)).Ok? &&
      MovEndTet(ds, t).value == Shrink(ds1.value.(opp := Relink(ds1.value.opp, t, LastOpp(ds)).value))
  {
  }

  /** The opposites of the last tetrahedron, read from the end of the
      array. */
  function LastOpp(ds: TetDs): (r: seq<nat>)
    requires |ds.opp| >= 4
    ensures |r| == 4 && r == ds.opp[|ds.opp| - 4..]
  {
    var n := |ds.opp|;
    [ds.opp[n - 4], ds.opp[n - 3], ds.opp[n - 2], ds.opp[n - 1]]
  }

  /** Dropping the last block after copying it over block `t`. */
  lemma DropMoved(s: seq<VertexNode>, x: seq<VertexNode>, t: nat)
    requires |s| >= 4 && |x| == |s| && 4 * t + 4 <= |s|
    requires forall i :: 0 <= i < |s| && (i < 4 * t || 4 * t + 4 <= i) ==> x[i] == s[i]
    requires 4 * t + 4 < |s| ==> (x[4 * t] == s[|s| - 4] && x[4 * t + 1] == s[|s| - 3] &&
      x[4 * t + 2] == s[|s| - 2] && x[4 * t + 3] == s[|s| - 1])
    ensures MovedNodes(s, Drop(x, 4), t)
  {
  }

  /** The node array after `mov_end_tet(t)`: the last four nodes copied into
      slot `t`, then dropped. */
  lemma MovEndTetNodes(ds: TetDs, t: nat)
    requires Sized(ds) && MovEndTet(ds, t).Ok?
    ensures t < ds.numTets && Sized(MovEndTet(ds, t).value)
    ensures MovEndTet(ds, t).value.numTets == ds.numTets - 1
    ensures MovedNodes(ds.nodes, MovEndTet(ds, t).value.nodes, t)
  {
    MovEndTetSteps(ds, t);
    var n := ds.numTets;
    if t == n - 1 {
      DropMoved(ds.nodes, ds.nodes, t);
    } else {
      var ds1 := ReplaceTet(ds, t, TetNodes(ds, n - 1)).value;
      DropMoved(ds.nodes, ds1.nodes, t);
    }
  }

  /** `m` is `s` with the last block of four copied over block `t` (when
      that is not the last block) and then dropped. */
  predicate MovedNodes(s: seq<VertexNode>, m: seq<VertexNode>, t: nat) {
    |s| >= 4 && |m| == |s| - 4 && 4 * t + 4 <= |s| &&
    (forall i :: 0 <= i < |m| && (i < 4 * t || 4 * t + 4 <= i) ==> m[i] == s[i]) &&
    (4 * t + 4 <= |m| ==> (m[4 * t] == s[|m|] && m[4 * t + 1] == s[|m| + 1] &&
      m[4 * t + 2] == s[|m| + 2] && m[4 * t + 3] == s[|m| + 3]))
  }

  /** One tetrahedron of a moved node array. */
  lemma MovedTetAt(ds: TetDs, r: TetDs, t: nat, u: nat)
    requires Sized(ds) && Sized(r) && r.numTets == ds.numTets - 1 && t < ds.numTets && u < r.numTets
    requires MovedNodes(ds.nodes, r.nodes, t)
    ensures TetNodes(r, u) == TetNodes(ds, if u == t then ds.numTets - 1 else u)
  {
    var m := 4 * r.numTets;
    if u == t {
      assert r.nodes[4 * u] == ds.nodes[m];
      assert r.nodes[4 * u + 1] == ds.nodes[m + 1];
      assert r.nodes[4 * u + 2] == ds.nodes[m + 2];
      assert r.nodes[4 * u + 3] == ds.nodes[m + 3];
    } else {
      assert 4 * u + 3 < 4 * t || 4 * t + 4 <= 4 * u;
      assert r.nodes[4 * u] == ds.nodes[4 * u];
      assert r.nodes[4 * u + 1] == ds.nodes[4 * u + 1];
      assert r.nodes[4 * u + 2] == ds.nodes[4 * u + 2];
      assert r.nodes[4 * u + 3] == ds.nodes[4 * u + 3];
    }
  }

  /** Slots below `t` are untouched by the move. */
  lemma MovedTetsBelow(ds: TetDs, r: TetDs, t: nat)
    requires Sized(ds) && Sized(r) && r.numTets == ds.numTets - 1 && t < ds.numTets
    requires MovedNodes(ds.nodes, r.nodes, t)
    ensures forall u :: 0 <= u < t ==> Tets(r)[u] == Tets(ds)[u]
  {
    forall u | 0 <= u < t ensures Tets(r)[u] == Tets(ds)[u] {
      MovedTetAt(ds, r, t, u);
    }
  }

  /** Reading the tetrahedra off a moved node array. */
  lemma MovedTets(ds: TetDs, r: TetDs, t: nat)
    requires Sized(ds) && Sized(r) && r.numTets == ds.numTets - 1 && t < ds.numTets
    requires MovedNodes(ds.nodes, r.nodes, t)
    ensures Tets(r) ==
      if t == ds.numTets - 1 then Tets(ds)[..t]
      else Tets(ds)[..t] + [Tets(ds)[ds.numTets - 1]] + Tets(ds)[t + 1 .. ds.numTets - 1]
  {
    var n := ds.numTets;
    var a, b := Tets(r), Tets(ds);
    var e := if t == n - 1 then b[..t] else b[..t] + [b[n - 1]] + b[t + 1 .. n - 1];
    assert |a| == |e|;
    forall u | 0 <= u < n - 1 ensures a[u] == e[u] {
      MovedTetAt(ds, r, t, u);
    }
  }

  /** Entry `t` removed by moving the last entry into its place. */
  function ByLast<T>(b: seq<T>, t: nat): seq<T>
    requires t < |b|
  {
    if t == |b| - 1 then b[..t] else b[..t] + [b[|b| - 1]] + b[t + 1 .. |b| - 1]
  }

  /** Removing entry `t` of a list by moving the last entry into its place
      removes one copy of it from the multiset. */
  lemma RemoveByLast<T>(b: seq<T>, t: nat)
    requires t < |b|
    ensures multiset(ByLast(b, t)) == multiset(b) - multiset{b[t]}
  {
    var n := |b|;
    if t == n - 1 {
      RemoveAtMultiset(b, t);
      assert b[..t] + b[t + 1..] == b[..t];
    } else {
      var p, q := b[..t], b[t + 1 .. n - 1];
      assert b == p + [b[t]] + q + [b[n - 1]];
      assert multiset(b) == multiset(p) + multiset{b[t]} + multiset(q) + multiset{b[n - 1]};
      assert multiset(p + [b[n - 1]] + q) == multiset(p) + multiset{b[n - 1]} + multiset(q);
    }
  }

  /** `mov_end_tet(t)` removes one copy of tetrahedron `t` and nothing
      else. */
  lemma MovEndTetMultiset(ds: TetDs, t: nat)
    requires Sized(ds) && MovEndTet(ds, t).Ok?
    ensures t < ds.numTets
    ensures multiset(Tets(MovEndTet(ds, t).value)) == multiset(Tets(ds)) - multiset{TetNodes(ds, t)}
  {
    MovEndTetTets(ds, t);
    RemoveByLast(Tets(ds), t);
    assert Tets(ds)[t] == TetNodes(ds, t);
  }

  predicate Distinct4(o: seq<nat>)
    requires |o| == 4
  {
    o[0] != o[1] && o[0] != o[2] && o[0] != o[3] && o[1] != o[2] && o[1] != o[3] && o[2] != o[3]
  }

  /** The relinking writes, when the four opposites are distinct and lie
      outside block `t`, glue block `t` and the opposites both ways. */
  lemma RelinkBothWays(opp: seq<nat>, t: nat, o: seq<nat>, k: nat)
    requires |o| == 4 && k < 4 && Relink(opp, t, o).Ok? && Distinct4(o)
    requires forall i :: 0 <= i < 4 ==> o[i] < 4 * t || 4 * t + 4 <= o[i]
    ensures Relink(opp, t, o).value[4 * t + k] == o[k] && Relink(opp, t, o).value[o[k]] == 4 * t + k
  {
  }

  /** When the last tetrahedron's opposites are distinct, lie below the last
      slot and outside slot `t`, the moved tetrahedron is glued back both
      ways: its face `k` sees the old opposite, and that half-triangle sees
      face `k`. */
  lemma MovEndTetRelinks(ds: TetDs, t: nat, k: nat)
    requires Sized(ds) && MovEndTet(ds, t).Ok? && t < ds.numTets - 1 && k < 4
    requires Distinct4(LastOpp(ds))
    requires forall i :: 0 <= i < 4 ==> LastOpp(ds)[i] < 4 * (ds.numTets - 1) && TetOf(LastOpp(ds)[i]) != t
    ensures var r := MovEndTet(ds, t).value; var o := LastOpp(ds)[k];
      4 * t + k < |r.opp| && o < |r.opp| && r.opp[4 * t + k] == o && r.opp[o] == 4 * t + k
  {
    MovEndTetSteps(ds, t);
    var o := LastOpp(ds);
    var ds1 := ReplaceTet(ds, t, TetNodes(ds, ds.numTets - 1)).value;
    forall i | 0 <= i < 4 ensures o[i] < 4 * t || 4 * t + 4 <= o[i] {
      assert 4 * TetOf(o[i]) <= o[i] < 4 * TetOf(o[i]) + 4;
    }
    RelinkBothWays(ds1.opp, t, o, k);
  }

  // ---------------------------------------------------------------------
  // Bowyer-Watson bookkeeping

  /** `bw_rem_tet`: marks `t` for deletion, records it, and queues the four
      tetrahedra glued to its faces for checking. */
  function BwRemTet(ds: TetDs, t: nat): (r: Result<TetDs>)
    ensures r.Ok? <==> 4 * t + 3 < |ds.opp| && t < |ds.del|
    ensures r.Err? ==> r.IsPanic()
    ensures r.Ok? ==> r.value.(del := ds.del, toDel := ds.toDel, toCheck := ds.toCheck) == ds
    ensures r.Ok? ==> r.value.toDel == ds.toDel + [t] && r.value.del == ds.del[t := true]
    ensures r.Ok? ==> (var q, n := r.value.toCheck, |ds.toCheck|;
      |q| == n + 4 && q[..n] == ds.toCheck &&
      q[n] == TetOf(ds.opp[4 * t]) && q[n + 1] == TetOf(ds.opp[4 * t + 1]) &&
      q[n + 2] == TetOf(ds.opp[4 * t + 2]) && q[n + 3] == TetOf(ds.opp[4 * t + 3]))
  {
    if 4 * t + 3 >= |ds.opp| || t >= |ds.del| then Crash("index out of bounds: bw_rem_tet")
    else
      var o := ds.opp;
      Ok(ds.(toCheck := ds.toCheck + [o[4 * t] / 4, o[4 * t + 1] / 4, o[4 * t + 2] / 4, o[4 * t + 3] / 4],
             del := ds.del[t := true], toDel := ds.toDel + [t]))
  }

  /** `bw_start`: refuses to start while a cavity search is under way, then
      removes the first tetrahedron. */
  function BwStart(ds: TetDs, t: nat): (r: Result<TetDs>)
    ensures ds.toCheck != [] || ds.toKeep != [] ==> r.IsError()
    ensures ds.toCheck == [] && ds.toKeep == [] ==> r == BwRemTet(ds, t)
  {
    if ds.toCheck != [] || ds.toKeep != [] then Fail("Bowyer Watson algorithm already started")
    else BwRemTet(ds, t)
  }

  /** `bw_keep_tetra`: marks `t` as kept and records it. */
  function BwKeepTetra(ds: TetDs, t: nat): (r: Result<TetDs>)
    ensures r.Ok? <==> t < |ds.keep|
    ensures r.Err? ==> r.IsPanic()
    ensures r.Ok? ==> r.value.toKeep == ds.toKeep + [t] && r.value.keep == ds.keep[t := true]
    ensures r.Ok? ==> r.value.(keep := ds.keep, toKeep := ds.toKeep) == ds
  {
    if t >= |ds.keep| then Crash("index out of bounds: should_keep_tet")
    else Ok(ds.(keep := ds.keep[t := true], toKeep := ds.toKeep + [t]))
  }

  /** An entry of the check list that `bw_tets_to_check` pops and skips: it
      is marked for deletion, or else marked as kept. */
  predicate Flagged(ds: TetDs, t: nat) {
    t < |ds.del| && (ds.del[t] || (t < |ds.keep| && ds.keep[t]))
  }

  /** `bw_tets_to_check`: pops the check list until a tetrahedron with both
      flags clear comes up. Reading a flag outside its array panics. */
  function BwTetsToCheck(ds: TetDs): (r: Result<(TetDs, Option<nat>)>)
    ensures r.Err? ==> r.IsPanic()
    ensures r.Ok? ==> r.value.0 == ds.(toCheck := r.value.0.toCheck)
    ensures r.Ok? ==> var rest := r.value.0.toCheck;
      |rest| <= |ds.toCheck| && rest == ds.toCheck[..|rest|]
    ensures r.Ok? && r.value.1.None? ==> (r.value.0.toCheck == [] &&
      forall i :: 0 <= i < |ds.toCheck| ==> Flagged(ds, ds.toCheck[i]))
    ensures r.Ok? && r.value.1.Some? ==> var t, rest := r.value.1.value, r.value.0.toCheck;
      |rest| < |ds.toCheck| && ds.toCheck[|rest|] == t &&
      t < |ds.del| && t < |ds.keep| && !ds.del[t] && !ds.keep[t] &&
      forall i :: |rest| < i < |ds.toCheck| ==> Flagged(ds, ds.toCheck[i])
    decreases |ds.toCheck|
  {
    if ds.toCheck == [] then Ok((ds, None))
    else
      var t := ds.toCheck[|ds.toCheck| - 1];
      var ds1 := ds.(toCheck := ds.toCheck[..|ds.toCheck| - 1]);
      if t >= |ds.del| then Crash("index out of bounds: should_del_tet")
      else if !ds.del[t] && t >= |ds.keep| then Crash("index out of bounds: should_keep_tet")
      else if !ds.del[t] && !ds.keep[t] then Ok((ds1, Some(t)))
      else BwTetsToCheck(ds1)
  }

  /** The check list ends in flagged entries after the returned prefix: the
      entry returned is the last unflagged one, so the call is a search for
      it from the top. */
  lemma {:induction false} BwTetsToCheckFindsLast(ds: TetDs)
    requires forall i :: 0 <= i < |ds.toCheck| ==> ds.toCheck[i] < |ds.del| && ds.toCheck[i] < |ds.keep|
    ensures BwTetsToCheck(ds).Ok?
    ensures (exists i :: 0 <= i < |ds.toCheck| && !Flagged(ds, ds.toCheck[i])) <==> BwTetsToCheck(ds).value.1.Some?
    decreases |ds.toCheck|
  {
    if ds.toCheck != [] {
      var ds1 := ds.(toCheck := ds.toCheck[..|ds.toCheck| - 1]);
      assert forall i :: 0 <= i < |ds1.toCheck| ==> ds1.toCheck[i] == ds.toCheck[i];
      BwTetsToCheckFindsLast(ds1);
      var t := ds.toCheck[|ds.toCheck| - 1];
      if Flagged(ds, t) {
        if exists i :: 0 <= i < |ds.toCheck| && !Flagged(ds, ds.toCheck[i]) {
          var i :| 0 <= i < |ds.toCheck| && !Flagged(ds, ds.toCheck[i]);
          assert i < |ds1.toCheck| && ds1.toCheck[i] == ds.toCheck[i];
        }
      }
    }
  }

  // ---------------------------------------------------------------------
  // clean_to_del

  predicate SortedAsc(s: seq<nat>) {
    forall i, j :: 0 <= i < j < |s| ==> s[i] <= s[j]
  }

  /** A value no larger than any entry of an ascending list may go first. */
  lemma ConsSorted(a: nat, t: seq<nat>)
    requires SortedAsc(t)
    requires forall k :: 0 <= k < |t| ==> a <= t[k]
    ensures SortedAsc([a] + t)
  {
    forall i, j | 0 <= i < j < |t| + 1 ensures ([a] + t)[i] <= ([a] + t)[j] {
      assert ([a] + t)[j] == t[j - 1];
      if i > 0 {
        assert ([a] + t)[i] == t[i - 1];
      }
    }
  }

  /** Every entry of a list whose elements are `x` or come from an
      ascending list headed by `a` is at least `a`, when `a < x`. */
  lemma LowerBound(a: nat, s: seq<nat>, x: nat, t: seq<nat>)
    requires SortedAsc([a] + s) && a < x
    requires multiset(t) == multiset(s) + multiset{x}
    ensures forall k :: 0 <= k < |t| ==> a <= t[k]
  {
    forall k | 0 <= k < |t| ensures a <= t[k] {
      assert t[k] in multiset(t);
      if t[k] != x {
        assert t[k] in multiset(s);
        assert t[k] in s;
        var m :| 0 <= m < |s| && s[m] == t[k];
        assert ([a] + s)[0] == a && ([a] + s)[m + 1] == s[m];
      }
    }
  }

  /** Insertion of one value into an ascending list. */
  function InsertSorted(s: seq<nat>, x: nat): (r: seq<nat>)
    requires SortedAsc(s)
    ensures SortedAsc(r) && multiset(r) == multiset(s) + multiset{x} && |r| == |s| + 1
    decreases |s|
  {
    if s == [] then [x]
    else if x <= s[0] then
      ConsSorted(x, s);
      [x] + s
    else
      assert s == [s[0]] + s[1..];
      var tail := InsertSorted(s[1..], x);
      LowerBound(s[0], s[1..], x, tail);
      ConsSorted(s[0], tail);
      [s[0]] + tail
  }

  /** `sort_unstable` on indices: any ascending permutation is the same
      list, so stability does not matter. */
  function SortAsc(s: seq<nat>): (r: seq<nat>)
    ensures SortedAsc(r) && multiset(r) == multiset(s) && |r| == |s|
  {
    if s == [] then []
    else
      assert s == s[..|s| - 1] + [s[|s| - 1]];
      InsertSorted(SortAsc(s[..|s| - 1]), s[|s| - 1])
  }

  /** `mov_end_tet` moves no flag: the flag arrays only shrink, and a flag
      changes only at slot `t`, where it is cleared. */
  lemma MovEndTetFlags(ds: TetDs, t: nat)
    ensures var r := MovEndTet(ds, t);
      r.Ok? ==> (|r.value.del| <= |ds.del| && |r.value.keep| <= |ds.keep| &&
        (forall u :: 0 <= u < |r.value.del| ==> (r.value.del[u] == ds.del[u] || (u == t && !r.value.del[u]))) &&
        forall u :: 0 <= u < |r.value.keep| ==> (r.value.keep[u] == ds.keep[u] || (u == t && !r.value.keep[u])))
  {
    if ds.numTets > 0 && t != ds.numTets - 1 && |ds.opp| >= 4 && 4 * (ds.numTets - 1) + 3 < |ds.nodes| {
      var ds1 := ReplaceTet(ds, t, TetNodes(ds, ds.numTets - 1));
      if ds1.Ok? {
        var opp := Relink(ds1.value.opp, t, LastOpp(ds));
        if opp.Ok? {
          assert MovEndTet(ds, t) == Ok(Shrink(ds1.value.(opp := opp.value)));
        }
      }
    }
  }

  /** The pop loop of `clean_to_del`: the last entry first, its delete flag
      cleared, then the slot compacted. */
  function CleanLoop(ds: TetDs): (r: Result<TetDs>)
    ensures r.Err? ==> r.IsPanic()
    ensures r.Ok? ==> r.value.toDel == [] && r.value.numTets + |ds.toDel| == ds.numTets
    ensures r.Ok? ==> r.value.toKeep == ds.toKeep && r.value.toCheck == ds.toCheck
    ensures r.Ok? && Sized(ds) ==> Sized(r.value)
    decreases |ds.toDel|
  {
    if ds.toDel == [] then Ok(ds)
    else
      var t := ds.toDel[|ds.toDel| - 1];
      if t >= |ds.del| then Crash("index out of bounds: should_del_tet")
      else
        var ds1 := ds.(toDel := ds.toDel[..|ds.toDel| - 1], del := ds.del[t := false]);
        var ds2 :- MovEndTet(ds1, t);
        CleanLoop(ds2)
  }

  /** What the pop loop does to the flag arrays: they only shrink; no slot
      left carries a delete mark for a listed index while the other delete
      marks are kept; a keep mark changes only by being cleared on a listed
      slot. */
  predicate FlagsCleared(ds: TetDs, r: TetDs) {
    |r.del| <= |ds.del| && |r.keep| <= |ds.keep| &&
    (forall u :: 0 <= u < |r.del| ==> r.del[u] == (ds.del[u] && u !in ds.toDel)) &&
    forall u :: 0 <= u < |r.keep| ==> (r.keep[u] == ds.keep[u] || (u in ds.toDel && !r.keep[u]))
  }

  lemma {:induction false} CleanLoopClears(ds: TetDs)
    ensures CleanLoop(ds).Ok? ==> FlagsCleared(ds, CleanLoop(ds).value)
    decreases |ds.toDel|
  {
    if ds.toDel != [] {
      var t := ds.toDel[|ds.toDel| - 1];
      if t < |ds.del| {
        var rest := ds.toDel[..|ds.toDel| - 1];
        assert ds.toDel == rest + [t];
        var ds1 := ds.(toDel := rest, del := ds.del[t := false]);
        var ds2 := MovEndTet(ds1, t);
        if ds2.Ok? {
          MovEndTetFlags(ds1, t);
          CleanLoopClears(ds2.value);
          assert CleanLoop(ds) == CleanLoop(ds2.value);
        }
      }
    }
  }

  /** `clean_to_del`: removes every tetrahedron on the delete list, highest
      index first. */
  function CleanToDel(ds: TetDs): (r: Result<TetDs>)
    ensures r.Err? ==> r.IsPanic()
    ensures r.Ok? ==> r.value.toDel == [] && r.value.numTets + |ds.toDel| == ds.numTets
    ensures r.Ok? ==> r.value.toKeep == ds.toKeep && r.value.toCheck == ds.toCheck
    ensures r.Ok? && Sized(ds) ==> Sized(r.value)
  {
    CleanLoop(ds.(toDel := SortAsc(ds.toDel)))
  }

  /** After `clean_to_del` no slot that is left keeps a delete mark from the
      list, the other delete marks are kept, and a keep mark changes only by
      being cleared on a listed slot. */
  lemma CleanToDelClears(ds: TetDs)
    ensures var r := CleanToDel(ds);
      r.Ok? ==> (|r.value.del| <= |ds.del| && |r.value.keep| <= |ds.keep| &&
        (forall u :: 0 <= u < |r.value.del| ==> r.value.del[u] == (ds.del[u] && u !in ds.toDel)) &&
        forall u :: 0 <= u < |r.value.keep| ==> (r.value.keep[u] == ds.keep[u] || (u in ds.toDel && !r.value.keep[u])))
  {
    var sorted := SortAsc(ds.toDel);
    CleanLoopClears(ds.(toDel := sorted));
    forall u ensures u in sorted <==> u in ds.toDel {
      assert u in sorted <==> u in multiset(sorted);
      assert u in ds.toDel <==> u in multiset(ds.toDel);
    }
  }

  /** The entries of `xs` at the listed positions, with multiplicity. */
  function Pick<T>(xs: seq<T>, idx: seq<nat>): (r: multiset<T>)
    requires forall i :: 0 <= i < |idx| ==> idx[i] < |xs|
    ensures |r| == |idx|
  {
    if idx == [] then multiset{}
    else Pick(xs, idx[..|idx| - 1]) + multiset{xs[idx[|idx| - 1]]}
  }

  /** The tetrahedra at the listed slots. */
  function TetsAt(ds: TetDs, idx: seq<nat>): (r: multiset<seq<VertexNode>>)
    requires Sized(ds) && forall i :: 0 <= i < |idx| ==> idx[i] < ds.numTets
    ensures |r| == |idx|
  {
    Pick(Tets(ds), idx)
  }

  /** Positions below `t` read the same from two lists that agree below
      `t`. */
  lemma {:induction false} PickBelow<T>(xs: seq<T>, ys: seq<T>, t: nat, idx: seq<nat>)
    requires t <= |xs| && t <= |ys| && forall u :: 0 <= u < t ==> xs[u] == ys[u]
    requires forall i :: 0 <= i < |idx| ==> idx[i] < t
    ensures Pick(xs, idx) == Pick(ys, idx)
  {
    if idx != [] {
      PickBelow(xs, ys, t, idx[..|idx| - 1]);
    }
  }

  /** Slots below `t` keep their tetrahedra through `mov_end_tet(t)`. */
  lemma TetsAtBelow(ds: TetDs, t: nat, idx: seq<nat>)
    requires Sized(ds) && MovEndTet(ds, t).Ok?
    requires forall i :: 0 <= i < |idx| ==> idx[i] < t
    ensures t < ds.numTets
    ensures forall i :: 0 <= i < |idx| ==> idx[i] < MovEndTet(ds, t).value.numTets
    ensures TetsAt(MovEndTet(ds, t).value, idx) == TetsAt(ds, idx)
  {
    MovEndTetNodes(ds, t);
    var r := MovEndTet(ds, t).value;
    MovedTetsBelow(ds, r, t);
    PickBelow(Tets(r), Tets(ds), t, idx);
  }

  predicate StrictlyAsc(s: seq<nat>) {
    forall i, j :: 0 <= i < j < |s| ==> s[i] < s[j]
  }

  /** Clearing a delete flag leaves the tetrahedra alone. */
  lemma ClearFlagTets(ds: TetDs, ds1: TetDs)
    requires Sized(ds) && ds1.nodes == ds.nodes && ds1.numTets == ds.numTets && Sized(ds1)
    ensures Tets(ds1) == Tets(ds)
  {
  }

  /** The structure after popping the last delete-list entry and clearing
      its flag. */
  function PopDel(ds: TetDs): (r: TetDs)
    requires ds.toDel != [] && ds.toDel[|ds.toDel| - 1] < |ds.del|
    ensures r.nodes == ds.nodes && r.numTets == ds.numTets && r.toDel == ds.toDel[..|ds.toDel| - 1]
    ensures Sized(ds) ==> Sized(r)
  {
    ds.(toDel := ds.toDel[..|ds.toDel| - 1], del := ds.del[ds.toDel[|ds.toDel| - 1] := false])
  }

  /** One turn of the pop loop. */
  lemma CleanLoopStep(ds: TetDs)
    requires ds.toDel != [] && CleanLoop(ds).Ok?
    ensures var t := ds.toDel[|ds.toDel| - 1];
      t < |ds.del| && MovEndTet(PopDel(ds), t).Ok? &&
      CleanLoop(ds) == CleanLoop(MovEndTet(PopDel(ds), t).value)
  {
  }

  /** Dropping the last entry of a strictly ascending list leaves a
      strictly ascending list below that entry. */
  lemma AscPrefix(s: seq<nat>)
    requires StrictlyAsc(s) && s != []
    ensures var rest := s[..|s| - 1];
      StrictlyAsc(rest) && forall i :: 0 <= i < |rest| ==> rest[i] < s[|s| - 1]
  {
  }

  /** Taking away one element and then a multiset is taking away both. */
  lemma SubtractTwice<T>(m: multiset<T>, x: T, a: multiset<T>)
    ensures (m - multiset{x}) - a == m - (a + multiset{x})
  {
  }

  /** With distinct in-range slots listed in ascending order, the pop loop
      removes exactly the listed tetrahedra: the survivors are the old ones
      minus the deleted ones. */
  lemma {:induction false} CleanLoopRemoves(ds: TetDs)
    requires Sized(ds) && StrictlyAsc(ds.toDel)
    requires forall i :: 0 <= i < |ds.toDel| ==> ds.toDel[i] < ds.numTets
    requires CleanLoop(ds).Ok?
    ensures multiset(Tets(CleanLoop(ds).value)) == multiset(Tets(ds)) - TetsAt(ds, ds.toDel)
    decreases |ds.toDel|
  {
    if ds.toDel != [] {
      var n := |ds.toDel|;
      var t := ds.toDel[n - 1];
      var rest := ds.toDel[..n - 1];
      CleanLoopStep(ds);
      var ds1 := PopDel(ds);
      var ds2 := MovEndTet(ds1, t).value;
      CleanLoopRemovesStep(ds, ds1, ds2);
      CleanLoopRemoves(ds2);
      assert TetsAt(ds, ds.toDel) == TetsAt(ds, rest) + multiset{TetNodes(ds, t)};
      SubtractTwice(multiset(Tets(ds)), TetNodes(ds, t), TetsAt(ds, rest));
    }
  }

  /** The facts one turn of the pop loop contributes. */
  lemma CleanLoopRemovesStep(ds: TetDs, ds1: TetDs, ds2: TetDs)
    requires Sized(ds) && StrictlyAsc(ds.toDel) && ds.toDel != []
    requires forall i :: 0 <= i < |ds.toDel| ==> ds.toDel[i] < ds.numTets
    requires ds1 == PopDel(ds) && MovEndTet(ds1, ds.toDel[|ds.toDel| - 1]).Ok?
    requires ds2 == MovEndTet(ds1, ds.toDel[|ds.toDel| - 1]).value
    ensures var t, rest := ds.toDel[|ds.toDel| - 1], ds.toDel[..|ds.toDel| - 1];
      Sized(ds2) && ds2.toDel == rest && StrictlyAsc(rest) &&
      (forall i :: 0 <= i < |rest| ==> rest[i] < ds2.numTets) &&
      multiset(Tets(ds2)) == multiset(Tets(ds)) - multiset{TetNodes(ds, t)} &&
      TetsAt(ds2, rest) == TetsAt(ds, rest)
  {
    var n := |ds.toDel|;
    var t := ds.toDel[n - 1];
    var rest := ds.toDel[..n - 1];
    ClearFlagTets(ds, ds1);
    MovEndTetMultiset(ds1, t);
    AscPrefix(ds.toDel);
    TetsAtBelow(ds1, t, rest);
    TetsAtSameTets(ds, ds1, rest);
  }

  /** `TetsAt` reads only the tetrahedra. */
  lemma TetsAtSameTets(ds: TetDs, ds1: TetDs, idx: seq<nat>)
    requires Sized(ds) && Sized(ds1) && ds1.nodes == ds.nodes && ds1.numTets == ds.numTets
    requires forall i :: 0 <= i < |idx| ==> idx[i] < ds.numTets
    ensures TetsAt(ds1, idx) == TetsAt(ds, idx)
  {
    assert Tets(ds1) == Tets(ds);
  }

  /** Taking position `j` out of the list takes one copy of its entry out
      of the pick. */
  lemma {:induction false} PickRemoveAt<T>(xs: seq<T>, b: seq<nat>, j: nat)
    requires j < |b| && forall i :: 0 <= i < |b| ==> b[i] < |xs|
    ensures Pick(xs, b) == Pick(xs, b[..j] + b[j + 1..]) + multiset{xs[b[j]]}
    decreases |b|
  {
    var n := |b|;
    if j == n - 1 {
      assert b[..j] + b[j + 1..] == b[..n - 1];
    } else {
      var b', x := b[..n - 1], b[n - 1];
      var c' := b'[..j] + b'[j + 1..];
      RemoveAtBounded(b', j, |xs|);
      assert b == b' + [x];
      assert b[..j] + b[j + 1..] == c' + [x];
      PickSnoc(xs, b', x);
      PickSnoc(xs, c', x);
      PickRemoveAt(xs, b', j);
    }
  }

  /** Appending one position adds its entry to the pick. */
  lemma PickSnoc<T>(xs: seq<T>, a: seq<nat>, x: nat)
    requires x < |xs| && forall i :: 0 <= i < |a| ==> a[i] < |xs|
    ensures Pick(xs, a + [x]) == Pick(xs, a) + multiset{xs[x]}
  {
    assert (a + [x])[..|a|] == a;
  }

  /** Taking out position `j` takes one copy of its entry out of the
      multiset. */
  lemma RemoveAtMultiset<T>(b: seq<T>, j: nat)
    requires j < |b|
    ensures multiset(b[..j] + b[j + 1..]) == multiset(b) - multiset{b[j]}
  {
    assert b == b[..j] + [b[j]] + b[j + 1..];
  }

  /** An element of a list's multiset sits at some position. */
  lemma IndexOf<T>(b: seq<T>, x: T) returns (j: nat)
    requires x in multiset(b)
    ensures j < |b| && b[j] == x
  {
    assert x in b;
    j :| 0 <= j < |b| && b[j] == x;
  }

  /** Dropping position `j` keeps the remaining positions in range. */
  lemma RemoveAtBounded(b: seq<nat>, j: nat, bound: nat)
    requires j < |b| && forall i :: 0 <= i < |b| ==> b[i] < bound
    ensures var c := b[..j] + b[j + 1..]; forall i :: 0 <= i < |c| ==> c[i] < bound
  {
    var c := b[..j] + b[j + 1..];
    forall i | 0 <= i < |c| ensures c[i] < bound {
      if i < j { assert c[i] == b[i]; } else { assert c[i] == b[i + 1]; }
    }
  }

  /** A pick depends only on the multiset of positions. */
  lemma {:induction false} PickPerm<T>(xs: seq<T>, a: seq<nat>, b: seq<nat>)
    requires multiset(a) == multiset(b)
    requires forall i :: 0 <= i < |a| ==> a[i] < |xs|
    requires forall i :: 0 <= i < |b| ==> b[i] < |xs|
    ensures Pick(xs, a) == Pick(xs, b)
    decreases |a|
  {
    if a == [] {
      assert |multiset(b)| == 0;
    } else {
      var n := |a|;
      var a', x := a[..n - 1], a[n - 1];
      assert a == a' + [x];
      var j := IndexOf(b, x);
      var c := b[..j] + b[j + 1..];
      RemoveAtMultiset(b, j);
      assert multiset(a') == multiset(c);
      RemoveAtBounded(b, j, |xs|);
      PickPerm(xs, a', c);
      PickSnoc(xs, a', x);
      PickRemoveAt(xs, b, j);
    }
  }

  /** Two equal entries of a list show up twice in its multiset. */
  lemma CountTwice(s: seq<nat>, i: nat, j: nat)
    requires i < j < |s| && s[i] == s[j]
    ensures multiset(s)[s[i]] >= 2
  {
    assert s == s[..j] + [s[j]] + s[j + 1..];
    assert s[i] in multiset(s[..j]) by {
      assert s[..j][i] == s[i];
    }
  }

  /** No index is listed twice. */
  ghost predicate NoRepeats(s: seq<nat>) {
    forall x :: multiset(s)[x] <= 1
  }

  /** Sorting a list without repeats makes it strictly ascending, with the
      same entries. */
  lemma SortAscStrict(s: seq<nat>, bound: nat)
    requires NoRepeats(s) && forall i :: 0 <= i < |s| ==> s[i] < bound
    ensures StrictlyAsc(SortAsc(s))
    ensures forall i :: 0 <= i < |SortAsc(s)| ==> SortAsc(s)[i] < bound
  {
    var r := SortAsc(s);
    forall i, j | 0 <= i < j < |r| ensures r[i] < r[j] {
      if r[i] == r[j] {
        CountTwice(r, i, j);
        assert false;
      }
    }
    forall i | 0 <= i < |r| ensures r[i] < bound {
      assert r[i] in multiset(s);
    }
  }

  /** `clean_to_del` on a structure whose delete list names distinct
      tetrahedra removes exactly those: the surviving tetrahedra are the old
      ones minus the listed ones, and there are that many fewer. */
  lemma CleanToDelRemoves(ds: TetDs)
    requires Sized(ds) && NoRepeats(ds.toDel)
    requires forall i :: 0 <= i < |ds.toDel| ==> ds.toDel[i] < ds.numTets
    requires CleanToDel(ds).Ok?
    ensures multiset(Tets(CleanToDel(ds).value)) == multiset(Tets(ds)) - TetsAt(ds, ds.toDel)
    ensures CleanToDel(ds).value.numTets == ds.numTets - |ds.toDel|
  {
    var s := SortAsc(ds.toDel);
    SortAscStrict(ds.toDel, ds.numTets);
    var ds' := ds.(toDel := s);
    assert Tets(ds') == Tets(ds);
    CleanLoopRemoves(ds');
    TetsAtSameTets(ds, ds', s);
    PickPerm(Tets(ds), s, ds.toDel);
  }
}
