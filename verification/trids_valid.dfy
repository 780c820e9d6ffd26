/** The invariant of the 2D half-edge structure and the proofs that the
    mutators keep it: twins form an involution that pairs each live hedge
    with a live hedge of another triangle running the other way, tombstoned
    hedges carry `INACTIVE`, and the arrays hold three entries per slot. */
module TriDsValid {
  import opened Base
  import opened Node
  import opened Geometry
  import opened TriDs

  /** The twin link of hedge `h` is consistent. */
  predicate Linked(ds: TriDs, h: nat)
    requires Sized(ds) && h < |ds.nodes|
  {
    var t := ds.twins[h];
    if ds.nodes[h].Deleted? then t == INACTIVE
    else
      t < |ds.nodes| && t / 3 != h / 3 && !ds.nodes[t].Deleted? && ds.twins[t] == h &&
      ds.nodes[t] == ds.nodes[Next(h)] && ds.nodes[Next(t)] == ds.nodes[h]
  }

  predicate Valid(ds: TriDs) {
    Sized(ds) && forall h :: 0 <= h < |ds.nodes| ==> Linked(ds, h)
  }

  /** In a valid structure the twin of a live hedge is a different hedge
      whose twin is the original one, and it reverses the edge. */
  lemma TwinReversesEdge(ds: TriDs, h: nat)
    requires Valid(ds) && LiveHedge(ds, h)
    ensures Twin(ds, h) < |ds.nodes| && Twin(ds, h) != h
    ensures Twin(ds, Twin(ds, h)) == h
    ensures StartNode(ds, Twin(ds, h)) == EndNode(ds, h)
    ensures EndNode(ds, Twin(ds, h)) == StartNode(ds, h)
  {
    assert Linked(ds, h);
  }

  /** A live hedge's triangle is live all round: tombstoning is per triangle. */
  lemma LiveTriangle(ds: TriDs, h: nat)
    requires Valid(ds) && LiveHedge(ds, h)
    ensures LiveHedge(ds, Next(h)) && LiveHedge(ds, Prev(h))
  {
    assert Linked(ds, h);
    var n := Next(h);
    assert Linked(ds, n);
    assert Next(n) == Prev(h);
  }

  /** A triangle with one tombstoned node has only tombstoned nodes. */
  lemma DeletedIsWhole(ds: TriDs, t: nat)
    requires Valid(ds) && t < Slots(ds)
    ensures TriIsDeleted(ds, t) ==> TriNodes(ds, t) == [Deleted, Deleted, Deleted]
  {
    var h0, h1, h2 := 3 * t, 3 * t + 1, 3 * t + 2;
    if !(ds.nodes[h0].Deleted? && ds.nodes[h1].Deleted? && ds.nodes[h2].Deleted?) {
      var h := if !ds.nodes[h0].Deleted? then h0 else if !ds.nodes[h1].Deleted? then h1 else h2;
      LiveTriangle(ds, h);
      assert {h, Next(h), Prev(h)} == {h0, h1, h2};
      assert !TriIsDeleted(ds, t);
    }
  }

  /** `Linked` only looks at the hedge, its successor, its twin and the
      twin's successor: a structure that agrees there agrees on it. */
  lemma LinkedFrame(ds: TriDs, ds': TriDs, h: nat)
    requires Sized(ds) && Sized(ds') && h < |ds.nodes| && h < |ds'.nodes|
    requires Linked(ds, h)
    requires ds'.nodes[h] == ds.nodes[h] && ds'.twins[h] == ds.twins[h]
    requires ds'.nodes[Next(h)] == ds.nodes[Next(h)]
    requires !ds.nodes[h].Deleted? ==>
      var t := ds.twins[h];
      t < |ds'.nodes| && ds'.nodes[t] == ds.nodes[t] && ds'.twins[t] == ds.twins[t] &&
      ds'.nodes[Next(t)] == ds.nodes[Next(t)]
    ensures Linked(ds', h)
  {
  }

  /** A valid structure passes `is_sound`. */
  lemma ValidIsSound(ds: TriDs)
    requires Valid(ds)
    ensures IsSound(ds) == Ok(true)
  {
    forall h | 0 <= h < |ds.nodes| && LiveHedge(ds, h)
      ensures ds.twins[h] < |ds.nodes| &&
        StartNode(ds, ds.twins[h]) == StartNode(ds, Next(h)) &&
        StartNode(ds, Next(ds.twins[h])) == StartNode(ds, h)
    {
      assert Linked(ds, h);
    }
  }

  /** Index arithmetic for a block of hedges appended at a multiple of 3. */
  lemma Shifted(n: nat, k: nat)
    requires n % 3 == 0
    ensures Next(n + k) == n + Next(k)
    ensures (n + k) / 3 == n / 3 + k / 3
  {
  }

  /** The twelve hedges of `add_init_tri`, on their own, are consistently
      linked, with no hedge its own twin. */
  lemma InitBlockLinked(a: nat, b: nat, c: nat, k: nat)
    requires k < 12
    ensures INIT_TWINS[k] < 12 && INIT_TWINS[k] / 3 != k / 3 && INIT_TWINS[INIT_TWINS[k]] == k
    ensures InitNodes(a, b, c)[INIT_TWINS[k]] == InitNodes(a, b, c)[Next(k)]
    ensures InitNodes(a, b, c)[Next(INIT_TWINS[k])] == InitNodes(a, b, c)[k]
    ensures !InitNodes(a, b, c)[k].Deleted?
  {
    if k == 0 {} else if k == 1 {} else if k == 2 {} else if k == 3 {}
    else if k == 4 {} else if k == 5 {} else if k == 6 {} else if k == 7 {}
    else if k == 8 {} else if k == 9 {} else if k == 10 {} else {}
  }

  /** One appended hedge of `add_init_tri` is linked. */
  lemma InitHedgeLinked(ds': TriDs, n: nat, a: nat, b: nat, c: nat, k: nat)
    requires Sized(ds') && n % 3 == 0 && |ds'.nodes| == n + 12 && k < 12
    requires ds'.nodes[n..] == InitNodes(a, b, c)
    requires forall j :: 0 <= j < 12 ==> ds'.twins[n + j] == n + INIT_TWINS[j]
    ensures Linked(ds', n + k)
  {
    InitBlockLinked(a, b, c, k);
    InitBlockLinked(a, b, c, INIT_TWINS[k]);
    AppendedLinked(ds', n, InitNodes(a, b, c), INIT_TWINS, k);
  }

  /** A hedge of a block appended at a multiple of 3 is linked when the
      block, read on its own with twins `tw`, links it. */
  lemma AppendedLinked(ds: TriDs, n: nat, block: seq<VertexNode>, tw: seq<nat>, k: nat)
    requires Sized(ds) && n % 3 == 0 && |ds.nodes| == n + |block| && |tw| == |block|
    requires ds.nodes[n..] == block && k < |block| && Next(k) < |block|
    requires forall j :: 0 <= j < |tw| ==> ds.twins[n + j] == n + tw[j]
    requires tw[k] < |block| && Next(tw[k]) < |block| && tw[k] / 3 != k / 3 && tw[tw[k]] == k
    requires !block[k].Deleted? && !block[tw[k]].Deleted?
    requires block[tw[k]] == block[Next(k)] && block[Next(tw[k])] == block[k]
    ensures Linked(ds, n + k)
  {
    var tk := tw[k];
    Shifted(n, k);
    Shifted(n, tk);
    InitSliceAt(ds.nodes, n, block, k);
    InitSliceAt(ds.nodes, n, block, tk);
    InitSliceAt(ds.nodes, n, block, Next(k));
    InitSliceAt(ds.nodes, n, block, Next(tk));
    assert ds.twins[n + k] == n + tk;
    assert ds.twins[n + tk] == n + k;
    LinkedOf(ds, n + k, n + tk);
  }

  /** Reading an appended block through its offset. */
  lemma InitSliceAt(s: seq<VertexNode>, n: nat, block: seq<VertexNode>, j: nat)
    requires n <= |s| && s[n..] == block && j < |block|
    ensures n + j < |s| && s[n + j] == block[j]
  {
    assert s[n..][j] == s[n + j];
  }

  /** `Linked` from its parts, for a live hedge `h` with twin `t`. */
  lemma LinkedOf(ds: TriDs, h: nat, t: nat)
    requires Sized(ds) && h < |ds.nodes| && t < |ds.nodes|
    requires ds.twins[h] == t && ds.twins[t] == h && t / 3 != h / 3
    requires !ds.nodes[h].Deleted? && !ds.nodes[t].Deleted?
    requires ds.nodes[t] == ds.nodes[Next(h)] && ds.nodes[Next(t)] == ds.nodes[h]
    ensures Linked(ds, h)
  {
  }

  /** Appending hedges leaves the links of the old hedges intact. */
  lemma PrefixLinked(ds: TriDs, ds': TriDs, h: nat)
    requires Valid(ds) && Sized(ds') && h < |ds.nodes| <= |ds'.nodes|
    requires ds'.nodes[..|ds.nodes|] == ds.nodes && ds'.twins[..|ds.nodes|] == ds.twins
    ensures Linked(ds', h)
  {
    var n := |ds.nodes|;
    assert Linked(ds, h);
    assert ds'.nodes[h] == ds.nodes[..n][h];
    assert ds'.twins[h] == ds.twins[..n][h];
    assert ds'.nodes[Next(h)] == ds.nodes[..n][Next(h)];
    if !ds.nodes[h].Deleted? {
      var t := ds.twins[h];
      assert ds'.nodes[t] == ds.nodes[..n][t] && ds'.twins[t] == ds.twins[..n][t];
      assert ds'.nodes[Next(t)] == ds.nodes[..n][Next(t)];
    }
    LinkedFrame(ds, ds', h);
  }

  /** `add_init_tri` on a valid structure without live triangles yields a
      valid structure; its twelve twins form a fixed-point-free involution
      in which each twin reverses its edge. */
  lemma AddInitTriValid(ds: TriDs, a: nat, b: nat, c: nat)
    requires Valid(ds) && ds.numTris == 0
    ensures AddInitTri(ds, a, b, c).Ok?
    ensures Valid(AddInitTri(ds, a, b, c).value.0)
  {
    var r := AddInitTri(ds, a, b, c);
    var ds' := r.value.0;
    var n := |ds.nodes|;
    assert ds'.nodes[..n] == ds.nodes;
    assert ds'.nodes[n..] == InitNodes(a, b, c);
    assert Sized(ds');
    assert n % 3 == 0 && |ds'.nodes| == n + 12 && |ds.twins| == n;
    assert ds'.twins[..n] == ds.twins;
    assert forall j :: 0 <= j < 12 ==> ds'.twins[n + j] == n + INIT_TWINS[j];
    forall h | 0 <= h < |ds'.nodes|
      ensures Linked(ds', h)
    {
      if h < n {
        PrefixLinked(ds, ds', h);
      } else {
        InitHedgeLinked(ds', n, a, b, c, h - n);
      }
    }
  }

  /** The guard of `flip_1_to_3` compares with `>`: the index one past the
      last slot passes it, and the call then panics on the arrays instead of
      returning the error. */
  lemma FlipOneToThreeOnePastEnd(ds: TriDs, v: nat)
    requires Sized(ds)
    ensures FlipOneToThree(ds, Slots(ds), v).IsPanic()
    ensures forall i: nat :: i > Slots(ds) ==> FlipOneToThree(ds, i, v).IsError()
  {
  }
}
