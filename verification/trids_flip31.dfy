/** What the 3->1 flip writes: the triangle bounded by the three outer edges
    takes the first slot and the two other slots are tombstoned. The twin
    links and the kept invariant are in `TriFlipThreeToOneValid`. */
module TriFlipThreeToOne {
  import opened Base
  import opened Node
  import opened Geometry
  import opened TriDs

  /** The three outer edges `flip_3_to_1` picked. */
  function PickedEdges(ds: TriDs, t0: nat, t1: nat, t2: nat, reflex: nat, vertices: seq<Pt2>, orient: Orient2)
    : seq<(VertexNode, nat)>
    requires FlipThreeToOne(ds, t0, t1, t2, reflex, vertices, orient).Ok?
  {
    NewTriEdges(ds, t0, t1, t2, reflex, vertices, orient).value
  }

  /** The structure before the two slots are tombstoned: the three edges of
      slot `t0` written and linked. */
  function Linked3(ds: TriDs, t0: nat, t1: nat, t2: nat, reflex: nat, vertices: seq<Pt2>, orient: Orient2): (r: TriDs)
    requires FlipThreeToOne(ds, t0, t1, t2, reflex, vertices, orient).Ok?
    ensures |r.nodes| == |ds.nodes| && |r.twins| == |ds.twins|
  {
    var es := PickedEdges(ds, t0, t1, t2, reflex, vertices, orient);
    var h0 := 3 * t0;
    var d1 := LinkEdge(ds, h0, es[0].0, es[0].1).value;
    var d2 := LinkEdge(d1, h0 + 1, es[1].0, es[1].1).value;
    LinkEdge(d2, h0 + 2, es[2].0, es[2].1).value
  }

  lemma FlipThreeToOneIs(ds: TriDs, t0: nat, t1: nat, t2: nat, reflex: nat, vertices: seq<Pt2>, orient: Orient2)
    requires FlipThreeToOne(ds, t0, t1, t2, reflex, vertices, orient).Ok?
    ensures SlotReadable(ds, t1) && SlotReadable(ds, t2)
    ensures var d3 := Linked3(ds, t0, t1, t2, reflex, vertices, orient);
      var d5 := Tombstone(Tombstone(d3, t1), t2);
      FlipThreeToOne(ds, t0, t1, t2, reflex, vertices, orient).value.0 ==
        d5.(numTris := ds.numTris - 2, numDeleted := ds.numDeleted + 2)
  {
  }

  /** Tombstoning two different slots writes `Deleted` and `INACTIVE` there
      and nothing elsewhere. */
  lemma TombstoneTwo(d: TriDs, t1: nat, t2: nat)
    requires 3 * t1 + 2 < |d.nodes| && 3 * t1 + 2 < |d.twins|
    requires 3 * t2 + 2 < |d.nodes| && 3 * t2 + 2 < |d.twins| && t1 != t2
    ensures var r := Tombstone(Tombstone(d, t1), t2);
      TriNodes(r, t1) == [Deleted, Deleted, Deleted] && TriNodes(r, t2) == [Deleted, Deleted, Deleted] &&
      r.twins[3 * t1 .. 3 * t1 + 3] == [INACTIVE, INACTIVE, INACTIVE] &&
      r.twins[3 * t2 .. 3 * t2 + 3] == [INACTIVE, INACTIVE, INACTIVE]
  {
    var r := Tombstone(Tombstone(d, t1), t2);
    assert r.nodes[3 * t1] == Deleted && r.nodes[3 * t1 + 1] == Deleted && r.nodes[3 * t1 + 2] == Deleted;
    assert r.twins[3 * t1] == INACTIVE && r.twins[3 * t1 + 1] == INACTIVE && r.twins[3 * t1 + 2] == INACTIVE;
  }

  /** Tombstoning two slots leaves every hedge of the other slots alone. */
  lemma TombstoneTwoFrame(d: TriDs, t1: nat, t2: nat, h: nat)
    requires 3 * t1 + 2 < |d.nodes| && 3 * t1 + 2 < |d.twins|
    requires 3 * t2 + 2 < |d.nodes| && 3 * t2 + 2 < |d.twins|
    requires h < |d.nodes| && h / 3 != t1 && h / 3 != t2
    ensures Tombstone(Tombstone(d, t1), t2).nodes[h] == d.nodes[h]
    ensures h < |d.twins| ==> Tombstone(Tombstone(d, t1), t2).twins[h] == d.twins[h]
  {
  }

  /** The three `LinkEdge` calls write the start nodes of slot `t0`. */
  lemma Linked3Slot(ds: TriDs, t0: nat, t1: nat, t2: nat, reflex: nat, vertices: seq<Pt2>, orient: Orient2)
    requires FlipThreeToOne(ds, t0, t1, t2, reflex, vertices, orient).Ok?
    ensures 3 * t0 + 2 < |ds.nodes|
    ensures var es := PickedEdges(ds, t0, t1, t2, reflex, vertices, orient);
      var d3 := Linked3(ds, t0, t1, t2, reflex, vertices, orient);
      d3.nodes[3 * t0] == es[0].0 && d3.nodes[3 * t0 + 1] == es[1].0 && d3.nodes[3 * t0 + 2] == es[2].0
  {
  }

  /** The three `LinkEdge` calls leave the nodes of the other slots alone. */
  lemma Linked3Frame(ds: TriDs, t0: nat, t1: nat, t2: nat, reflex: nat, vertices: seq<Pt2>, orient: Orient2)
    requires FlipThreeToOne(ds, t0, t1, t2, reflex, vertices, orient).Ok?
    ensures var d3 := Linked3(ds, t0, t1, t2, reflex, vertices, orient);
      forall h :: 0 <= h < |ds.nodes| && h / 3 != t0 ==> d3.nodes[h] == ds.nodes[h]
  {
  }

  /** Tombstoning two slots other than `t0` keeps the nodes of slot `t0`. */
  lemma TombstoneTwoKeeps(d: TriDs, t0: nat, t1: nat, t2: nat, e0: VertexNode, e1: VertexNode, e2: VertexNode)
    requires 3 * t0 + 2 < |d.nodes| && t0 != t1 && t0 != t2
    requires 3 * t1 + 2 < |d.nodes| && 3 * t1 + 2 < |d.twins|
    requires 3 * t2 + 2 < |d.nodes| && 3 * t2 + 2 < |d.twins|
    requires d.nodes[3 * t0] == e0 && d.nodes[3 * t0 + 1] == e1 && d.nodes[3 * t0 + 2] == e2
    ensures TriNodes(Tombstone(Tombstone(d, t1), t2), t0) == [e0, e1, e2]
  {
    TombstoneTwoFrame(d, t1, t2, 3 * t0);
    TombstoneTwoFrame(d, t1, t2, 3 * t0 + 1);
    TombstoneTwoFrame(d, t1, t2, 3 * t0 + 2);
  }

  /** After `flip_3_to_1` on three different slots, slot `t0` holds the
      start nodes of the picked edges in order. */
  lemma FlipThreeToOneNewTri(ds: TriDs, t0: nat, t1: nat, t2: nat, reflex: nat, vertices: seq<Pt2>, orient: Orient2)
    requires t0 != t1 && t0 != t2 && t1 != t2
    requires FlipThreeToOne(ds, t0, t1, t2, reflex, vertices, orient).Ok?
    ensures SlotReadable(ds, t0)
    ensures var es := PickedEdges(ds, t0, t1, t2, reflex, vertices, orient);
      TriNodes(FlipThreeToOne(ds, t0, t1, t2, reflex, vertices, orient).value.0, t0) == [es[0].0, es[1].0, es[2].0]
  {
    FlipThreeToOneIs(ds, t0, t1, t2, reflex, vertices, orient);
    var d3 := Linked3(ds, t0, t1, t2, reflex, vertices, orient);
    var es := PickedEdges(ds, t0, t1, t2, reflex, vertices, orient);
    Linked3Slot(ds, t0, t1, t2, reflex, vertices, orient);
    TombstoneTwoKeeps(d3, t0, t1, t2, es[0].0, es[1].0, es[2].0);
  }

  /** After `flip_3_to_1` on three different slots, slots `t1` and `t2`
      are tombstoned: `Deleted` nodes and `INACTIVE` twins. */
  lemma FlipThreeToOneTombs(ds: TriDs, t0: nat, t1: nat, t2: nat, reflex: nat, vertices: seq<Pt2>, orient: Orient2)
    requires t0 != t1 && t0 != t2 && t1 != t2
    requires FlipThreeToOne(ds, t0, t1, t2, reflex, vertices, orient).Ok?
    ensures SlotReadable(ds, t1) && SlotReadable(ds, t2)
    ensures var ds' := FlipThreeToOne(ds, t0, t1, t2, reflex, vertices, orient).value.0;
      TriNodes(ds', t1) == [Deleted, Deleted, Deleted] && TriNodes(ds', t2) == [Deleted, Deleted, Deleted]
    ensures var ds' := FlipThreeToOne(ds, t0, t1, t2, reflex, vertices, orient).value.0;
      ds'.twins[3 * t1 .. 3 * t1 + 3] == [INACTIVE, INACTIVE, INACTIVE] &&
      ds'.twins[3 * t2 .. 3 * t2 + 3] == [INACTIVE, INACTIVE, INACTIVE]
  {
    FlipThreeToOneIs(ds, t0, t1, t2, reflex, vertices, orient);
    var d3 := Linked3(ds, t0, t1, t2, reflex, vertices, orient);
    TombstoneTwo(d3, t1, t2);
  }

  /** `flip_3_to_1` leaves the nodes of every slot other than the three it
      works on unchanged. */
  lemma FlipThreeToOneFrame(ds: TriDs, t0: nat, t1: nat, t2: nat, reflex: nat, vertices: seq<Pt2>, orient: Orient2)
    requires t0 != t1 && t0 != t2 && t1 != t2
    requires FlipThreeToOne(ds, t0, t1, t2, reflex, vertices, orient).Ok?
    ensures var ds' := FlipThreeToOne(ds, t0, t1, t2, reflex, vertices, orient).value.0;
      |ds'.nodes| == |ds.nodes| &&
      forall h :: 0 <= h < |ds.nodes| && h / 3 != t0 && h / 3 != t1 && h / 3 != t2 ==> ds'.nodes[h] == ds.nodes[h]
  {
    FlipThreeToOneIs(ds, t0, t1, t2, reflex, vertices, orient);
    var d3 := Linked3(ds, t0, t1, t2, reflex, vertices, orient);
    Linked3Frame(ds, t0, t1, t2, reflex, vertices, orient);
    forall h | 0 <= h < |ds.nodes| && h / 3 != t0 && h / 3 != t1 && h / 3 != t2
      ensures Tombstone(Tombstone(d3, t1), t2).nodes[h] == ds.nodes[h]
    {
      TombstoneTwoFrame(d3, t1, t2, h);
    }
  }
}
