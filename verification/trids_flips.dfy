/** The flips of the 2D half-edge structure keep its invariant: each proof
    names the hedges a flip rewrites, checks their new links one by one, and
    frames the rest with `LinkedFrame`. */
module TriFlips {
  import opened Base
  import opened Node
  import opened Geometry
  import opened TriDs
  import opened TriDsValid

  /** Two hedges of different slots, each the other's twin, running in
      opposite directions, are both linked. */
  lemma LinkedPair(ds: TriDs, h: nat, t: nat)
    requires Sized(ds) && h < |ds.nodes| && t < |ds.nodes|
    requires ds.twins[h] == t && ds.twins[t] == h && h / 3 != t / 3
    requires !ds.nodes[h].Deleted? && !ds.nodes[t].Deleted?
    requires ds.nodes[t] == ds.nodes[Next(h)] && ds.nodes[Next(t)] == ds.nodes[h]
    ensures Linked(ds, h) && Linked(ds, t)
  {
  }

  /** A hedge and its successor lie in the same slot of the array. */
  lemma NextStays(h: nat, n: nat)
    requires n % 3 == 0 && h < n
    ensures Next(h) < n && Next(h) / 3 == h / 3 && 3 * (h / 3) + 2 < n
  {
  }

  /** The hedges of one slot are a hedge, its successor and its
      predecessor. */
  lemma SameSlot(h: nat, g: nat)
    requires h / 3 == g / 3
    ensures h == g || h == Next(g) || h == Prev(g)
  {
  }

  /** The outer twins of slot `idx` are three different hedges of other
      slots. */
  predicate OuterTwinsApart(ds: TriDs, idx: nat)
    requires Sized(ds) && idx < Slots(ds)
  {
    var ba, cb, ac := ds.twins[3 * idx], ds.twins[3 * idx + 1], ds.twins[3 * idx + 2];
    ba < |ds.nodes| && cb < |ds.nodes| && ac < |ds.nodes| &&
    ba / 3 != idx && cb / 3 != idx && ac / 3 != idx &&
    ba != cb && cb != ac && ba != ac
  }

  /** What a valid structure says about a live slot `idx` (triangle abc) and
      its outer twins ba, cb, ac: they are three live hedges of other slots,
      each pointing back and running the other way. */
  predicate SlotLinked(ds: TriDs, idx: nat)
    requires Sized(ds) && idx < Slots(ds)
  {
    var ab, bc, ca := 3 * idx, 3 * idx + 1, 3 * idx + 2;
    var ba, cb, ac := ds.twins[ab], ds.twins[bc], ds.twins[ca];
    !ds.nodes[ab].Deleted? && !ds.nodes[bc].Deleted? && !ds.nodes[ca].Deleted? &&
    OuterTwinsApart(ds, idx) &&
    ds.twins[ba] == ab && ds.twins[cb] == bc && ds.twins[ac] == ca &&
    !ds.nodes[ba].Deleted? && !ds.nodes[cb].Deleted? && !ds.nodes[ac].Deleted? &&
    ds.nodes[ba] == ds.nodes[bc] && ds.nodes[Next(ba)] == ds.nodes[ab] &&
    ds.nodes[cb] == ds.nodes[ca] && ds.nodes[Next(cb)] == ds.nodes[bc] &&
    ds.nodes[ac] == ds.nodes[ab] && ds.nodes[Next(ac)] == ds.nodes[ca]
  }

  lemma ValidSlotLinked(ds: TriDs, idx: nat)
    requires Valid(ds) && idx < Slots(ds) && !ds.nodes[3 * idx].Deleted?
    ensures SlotLinked(ds, idx)
  {
    LiveTriangle(ds, 3 * idx);
    assert Next(3 * idx) == 3 * idx + 1 && Prev(3 * idx) == 3 * idx + 2;
    assert Linked(ds, 3 * idx) && Linked(ds, 3 * idx + 1) && Linked(ds, 3 * idx + 2);
  }

  /** The hedges a 1->3 flip of slot `idx` (triangle abc, new vertex d) does
      not rewrite keep their nodes and twins, and the arrays grow by one
      triangle pair. */
  ghost predicate OneToThreeFrame(ds: TriDs, ds': TriDs, idx: nat)
    requires Sized(ds) && idx < Slots(ds)
  {
    var ab, bd, da, n := 3 * idx, 3 * idx + 1, 3 * idx + 2, |ds.nodes|;
    var ba, cb, ac := ds.twins[ab], ds.twins[bd], ds.twins[da];
    ds'.numTris == ds.numTris + 2 && ds'.numDeleted == ds.numDeleted &&
    |ds'.nodes| == n + 6 && |ds'.twins| == n + 6 &&
    (forall h :: 0 <= h < n && h != da ==> ds'.nodes[h] == ds.nodes[h]) &&
    (forall h :: 0 <= h < n && h != ab && h != bd && h != da && h != ba && h != cb && h != ac ==>
      ds'.twins[h] == ds.twins[h])
  }

  /** The nodes a 1->3 flip writes: slot `idx` becomes abd and bcd, cad are
      appended at `n`; the outer twins ba, cb, ac keep their nodes. */
  ghost predicate OneToThreeNodes(ds: TriDs, ds': TriDs, idx: nat, v: nat)
    requires Sized(ds) && idx < Slots(ds) && OuterTwinsApart(ds, idx)
  {
    var ab, bd, da, n := 3 * idx, 3 * idx + 1, 3 * idx + 2, |ds.nodes|;
    var ba, cb, ac := ds.twins[ab], ds.twins[bd], ds.twins[da];
    var a, b, c, d := ds.nodes[ab], ds.nodes[bd], ds.nodes[da], Casual(v);
    ds'.numTris == ds.numTris + 2 && ds'.numDeleted == ds.numDeleted &&
    |ds'.nodes| == n + 6 && |ds'.twins| == n + 6 &&
    ds'.nodes[ab] == a && ds'.nodes[bd] == b && ds'.nodes[da] == d &&
    ds'.nodes[ba] == ds.nodes[ba] && ds'.nodes[Next(ba)] == ds.nodes[Next(ba)] &&
    ds'.nodes[cb] == ds.nodes[cb] && ds'.nodes[Next(cb)] == ds.nodes[Next(cb)] &&
    ds'.nodes[ac] == ds.nodes[ac] && ds'.nodes[Next(ac)] == ds.nodes[Next(ac)] &&
    ds'.nodes[n] == b && ds'.nodes[n + 1] == c && ds'.nodes[n + 2] == d &&
    ds'.nodes[n + 3] == c && ds'.nodes[n + 4] == a && ds'.nodes[n + 5] == d
  }

  /** The twins a 1->3 flip writes: the outer twins ba, cb, ac point at ab,
      bc, ca and the inner pairs bd/db, cd/dc, ad/da are mutual twins. */
  ghost predicate OneToThreeTwins(ds: TriDs, ds': TriDs, idx: nat)
    requires Sized(ds) && idx < Slots(ds) && OuterTwinsApart(ds, idx)
    requires |ds'.twins| == |ds.twins| + 6
  {
    var ab, bd, da, n := 3 * idx, 3 * idx + 1, 3 * idx + 2, |ds.nodes|;
    var ba, cb, ac := ds.twins[ab], ds.twins[bd], ds.twins[da];
    ds'.twins[ab] == ba && ds'.twins[bd] == n + 2 && ds'.twins[da] == n + 4 &&
    ds'.twins[ba] == ab && ds'.twins[cb] == n && ds'.twins[ac] == n + 3 &&
    ds'.twins[n] == cb && ds'.twins[n + 1] == n + 5 && ds'.twins[n + 2] == bd &&
    ds'.twins[n + 3] == ac && ds'.twins[n + 4] == da && ds'.twins[n + 5] == n + 1
  }

  /** The structure `flip_1_to_3` returns, written out: slot `idx` rewritten
      to abd, bcd and cad appended, and the twins of the source. */
  function OneToThreeResult(ds: TriDs, idx: nat, v: nat): TriDs
    requires Sized(ds) && idx < Slots(ds) && OuterTwinsApart(ds, idx)
  {
    var ab := 3 * idx;
    var (a, b, c, d) := (ds.nodes[ab], ds.nodes[ab + 1], ds.nodes[ab + 2], Casual(v));
    TriDs(ds.nodes[ab + 2 := d] + [b, c, d, c, a, d],
          FlipOneToThreeTwins(ds.twins, ab, ds.twins[ab], ds.twins[ab + 1], ds.twins[ab + 2], |ds.nodes|),
          ds.numTris + 2, ds.numDeleted)
  }

  lemma FlipOneToThreeIs(ds: TriDs, idx: nat, v: nat)
    requires Sized(ds) && idx < Slots(ds) && OuterTwinsApart(ds, idx)
    ensures FlipOneToThree(ds, idx, v) == Ok((OneToThreeResult(ds, idx, v), [idx, ds.numTris, ds.numTris + 1]))
  {
    var ab := 3 * idx;
    var (a, b, c, d) := (ds.nodes[ab], ds.nodes[ab + 1], ds.nodes[ab + 2], Casual(v));
    var w := WriteTri(ds, idx, a, b, d);
    assert w.nodes == ds.nodes[ab + 2 := d];
    assert w.nodes + [b, c, d] + [c, a, d] == ds.nodes[ab + 2 := d] + [b, c, d, c, a, d];
  }

  lemma OneToThreeResultFrame(ds: TriDs, idx: nat, v: nat)
    requires Sized(ds) && idx < Slots(ds) && OuterTwinsApart(ds, idx)
    ensures OneToThreeFrame(ds, OneToThreeResult(ds, idx, v), idx)
  {
  }

  lemma OneToThreeResultNodes(ds: TriDs, idx: nat, v: nat)
    requires Sized(ds) && idx < Slots(ds) && OuterTwinsApart(ds, idx)
    ensures OneToThreeNodes(ds, OneToThreeResult(ds, idx, v), idx, v)
  {
    var n := |ds.nodes|;
    var ba, cb, ac := ds.twins[3 * idx], ds.twins[3 * idx + 1], ds.twins[3 * idx + 2];
    NextStays(ba, n);
    NextStays(cb, n);
    NextStays(ac, n);
  }

  lemma OneToThreeResultTwins(ds: TriDs, idx: nat, v: nat)
    requires Sized(ds) && idx < Slots(ds) && OuterTwinsApart(ds, idx)
    ensures |OneToThreeResult(ds, idx, v).twins| == |ds.twins| + 6
    ensures OneToThreeTwins(ds, OneToThreeResult(ds, idx, v), idx)
  {
  }

  /** After a 1->3 flip, the rewritten hedge ab and its outer twin ba are linked. */
  lemma OneToThreeOuterAb(ds: TriDs, ds': TriDs, idx: nat, v: nat, h: nat)
    requires Sized(ds) && idx < Slots(ds) && SlotLinked(ds, idx)
    requires OneToThreeNodes(ds, ds', idx, v) && OneToThreeTwins(ds, ds', idx)
    requires var (ab, bd, da, n) := (3 * idx, 3 * idx + 1, 3 * idx + 2, |ds.nodes|);
      var (ba, cb, ac) := (ds.twins[ab], ds.twins[bd], ds.twins[da]);
      h == ab || h == ba
    ensures Sized(ds') && h < |ds'.nodes| && Linked(ds', h)
  {
    var ab, bd, da, n := 3 * idx, 3 * idx + 1, 3 * idx + 2, |ds.nodes|;
    var ba, cb, ac := ds.twins[ab], ds.twins[bd], ds.twins[da];
    NextStays(ba, n);
    LinkedPair(ds', ab, ba);
  }

  /** After a 1->3 flip, the appended hedge bc and its outer twin cb are linked. */
  lemma OneToThreeOuterBc(ds: TriDs, ds': TriDs, idx: nat, v: nat, h: nat)
    requires Sized(ds) && idx < Slots(ds) && SlotLinked(ds, idx)
    requires OneToThreeNodes(ds, ds', idx, v) && OneToThreeTwins(ds, ds', idx)
    requires var (ab, bd, da, n) := (3 * idx, 3 * idx + 1, 3 * idx + 2, |ds.nodes|);
      var (ba, cb, ac) := (ds.twins[ab], ds.twins[bd], ds.twins[da]);
      h == n || h == cb
    ensures Sized(ds') && h < |ds'.nodes| && Linked(ds', h)
  {
    var ab, bd, da, n := 3 * idx, 3 * idx + 1, 3 * idx + 2, |ds.nodes|;
    var ba, cb, ac := ds.twins[ab], ds.twins[bd], ds.twins[da];
    Shifted(n, 0);
    NextStays(cb, n);
    LinkedPair(ds', n, cb);
  }

  /** After a 1->3 flip, the appended hedge ca and its outer twin ac are linked. */
  lemma OneToThreeOuterCa(ds: TriDs, ds': TriDs, idx: nat, v: nat, h: nat)
    requires Sized(ds) && idx < Slots(ds) && SlotLinked(ds, idx)
    requires OneToThreeNodes(ds, ds', idx, v) && OneToThreeTwins(ds, ds', idx)
    requires var (ab, bd, da, n) := (3 * idx, 3 * idx + 1, 3 * idx + 2, |ds.nodes|);
      var (ba, cb, ac) := (ds.twins[ab], ds.twins[bd], ds.twins[da]);
      h == n + 3 || h == ac
    ensures Sized(ds') && h < |ds'.nodes| && Linked(ds', h)
  {
    var ab, bd, da, n := 3 * idx, 3 * idx + 1, 3 * idx + 2, |ds.nodes|;
    var ba, cb, ac := ds.twins[ab], ds.twins[bd], ds.twins[da];
    Shifted(n, 3);
    NextStays(ac, n);
    LinkedPair(ds', n + 3, ac);
  }

  /** After a 1->3 flip, the inner pair bd/db are linked. */
  lemma OneToThreeInnerBd(ds: TriDs, ds': TriDs, idx: nat, v: nat, h: nat)
    requires Sized(ds) && idx < Slots(ds) && SlotLinked(ds, idx)
    requires OneToThreeNodes(ds, ds', idx, v) && OneToThreeTwins(ds, ds', idx)
    requires var (ab, bd, da, n) := (3 * idx, 3 * idx + 1, 3 * idx + 2, |ds.nodes|);
      var (ba, cb, ac) := (ds.twins[ab], ds.twins[bd], ds.twins[da]);
      h == bd || h == n + 2
    ensures Sized(ds') && h < |ds'.nodes| && Linked(ds', h)
  {
    var ab, bd, da, n := 3 * idx, 3 * idx + 1, 3 * idx + 2, |ds.nodes|;
    var ba, cb, ac := ds.twins[ab], ds.twins[bd], ds.twins[da];
    Shifted(n, 2);
    LinkedPair(ds', bd, n + 2);
  }

  /** After a 1->3 flip, the inner pair da/ad are linked. */
  lemma OneToThreeInnerDa(ds: TriDs, ds': TriDs, idx: nat, v: nat, h: nat)
    requires Sized(ds) && idx < Slots(ds) && SlotLinked(ds, idx)
    requires OneToThreeNodes(ds, ds', idx, v) && OneToThreeTwins(ds, ds', idx)
    requires var (ab, bd, da, n) := (3 * idx, 3 * idx + 1, 3 * idx + 2, |ds.nodes|);
      var (ba, cb, ac) := (ds.twins[ab], ds.twins[bd], ds.twins[da]);
      h == da || h == n + 4
    ensures Sized(ds') && h < |ds'.nodes| && Linked(ds', h)
  {
    var ab, bd, da, n := 3 * idx, 3 * idx + 1, 3 * idx + 2, |ds.nodes|;
    var ba, cb, ac := ds.twins[ab], ds.twins[bd], ds.twins[da];
    Shifted(n, 4);
    LinkedPair(ds', da, n + 4);
  }

  /** After a 1->3 flip, the inner pair cd/dc are linked. */
  lemma OneToThreeInnerCd(ds: TriDs, ds': TriDs, idx: nat, v: nat, h: nat)
    requires Sized(ds) && idx < Slots(ds) && SlotLinked(ds, idx)
    requires OneToThreeNodes(ds, ds', idx, v) && OneToThreeTwins(ds, ds', idx)
    requires var (ab, bd, da, n) := (3 * idx, 3 * idx + 1, 3 * idx + 2, |ds.nodes|);
      var (ba, cb, ac) := (ds.twins[ab], ds.twins[bd], ds.twins[da]);
      h == n + 1 || h == n + 5
    ensures Sized(ds') && h < |ds'.nodes| && Linked(ds', h)
  {
    var ab, bd, da, n := 3 * idx, 3 * idx + 1, 3 * idx + 2, |ds.nodes|;
    var ba, cb, ac := ds.twins[ab], ds.twins[bd], ds.twins[da];
    Shifted(n, 1);
    Shifted(n, 5);
    LinkedPair(ds', n + 1, n + 5);
  }

  /** A hedge a 1->3 flip does not touch stays linked. */
  lemma OneToThreeUntouched(ds: TriDs, ds': TriDs, idx: nat, h: nat)
    requires Sized(ds) && Sized(ds') && idx < Slots(ds) && SlotLinked(ds, idx)
    requires OneToThreeFrame(ds, ds', idx)
    requires h < |ds.nodes| && h / 3 != idx && Linked(ds, h)
    requires h != ds.twins[3 * idx] && h != ds.twins[3 * idx + 1] && h != ds.twins[3 * idx + 2]
    ensures Linked(ds', h)
  {
    var n := |ds.nodes|;
    var ab, bd, da := 3 * idx, 3 * idx + 1, 3 * idx + 2;
    NextStays(h, n);
    assert h != ab && h != bd && h != da && Next(h) != da;
    if !ds.nodes[h].Deleted? {
      var t := ds.twins[h];
      NextStays(t, n);
      assert ds.twins[t] == h;
      assert t != ab && t != bd && t != da;
      assert t != ds.twins[ab] && t != ds.twins[bd] && t != ds.twins[da];
      assert t / 3 != idx;
      assert Next(t) != da;
    }
    LinkedFrame(ds, ds', h);
  }

  /** Every hedge after a 1->3 flip is linked. */
  lemma OneToThreeHedge(ds: TriDs, ds': TriDs, idx: nat, v: nat, h: nat)
    requires Valid(ds) && idx < Slots(ds) && SlotLinked(ds, idx)
    requires OneToThreeFrame(ds, ds', idx)
    requires OneToThreeNodes(ds, ds', idx, v) && OneToThreeTwins(ds, ds', idx)
    requires h < |ds'.nodes|
    ensures Sized(ds') && Linked(ds', h)
  {
    var ab, bd, da, n := 3 * idx, 3 * idx + 1, 3 * idx + 2, |ds.nodes|;
    var ba, cb, ac := ds.twins[ab], ds.twins[bd], ds.twins[da];
    if h == ab || h == ba {
      OneToThreeOuterAb(ds, ds', idx, v, h);
    } else if h == n || h == cb {
      OneToThreeOuterBc(ds, ds', idx, v, h);
    } else if h == n + 3 || h == ac {
      OneToThreeOuterCa(ds, ds', idx, v, h);
    } else if h == bd || h == n + 2 {
      OneToThreeInnerBd(ds, ds', idx, v, h);
    } else if h == da || h == n + 4 {
      OneToThreeInnerDa(ds, ds', idx, v, h);
    } else if h == n + 1 || h == n + 5 {
      OneToThreeInnerCd(ds, ds', idx, v, h);
    } else {
      assert Linked(ds, h);
      OneToThreeUntouched(ds, ds', idx, h);
    }
  }

  /** `flip_1_to_3` on a live slot of a valid structure succeeds and yields a
      valid structure: the outer twins point at the rewritten or appended
      copies of their edges and the three inner pairs are mutual twins. */
  lemma FlipOneToThreeValid(ds: TriDs, idx: nat, v: nat)
    requires Valid(ds) && idx < Slots(ds) && !ds.nodes[3 * idx].Deleted?
    ensures FlipOneToThree(ds, idx, v).Ok?
    ensures Valid(FlipOneToThree(ds, idx, v).value.0)
  {
    ValidSlotLinked(ds, idx);
    FlipOneToThreeIs(ds, idx, v);
    var ds' := OneToThreeResult(ds, idx, v);
    OneToThreeResultFrame(ds, idx, v);
    OneToThreeResultNodes(ds, idx, v);
    OneToThreeResultTwins(ds, idx, v);
    forall h | 0 <= h < |ds'.nodes|
      ensures Linked(ds', h)
    {
      OneToThreeHedge(ds, ds', idx, v, h);
    }
    OneToThreeHedge(ds, ds', idx, v, 0);
  }
}
