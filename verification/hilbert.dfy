/** The spatial sort that orders the vertices before insertion: a worklist
    of boxes, each split at its midpoint into quadrants (octants in 3D) that
    are pushed in the order a Hilbert curve visits them. A box holding one
    index emits it, an empty box emits nothing. Coordinates are reals; the
    source's `f64` midpoint is taken as exact. The source loop has no bound,
    so the model runs on fuel and reports `Diverge` when it runs out. */
module Hilbert {
  import opened Base
  import opened Geometry

  /** Every index in `s` names a vertex. */
  predicate Valid(n: nat, s: seq<nat>) {
    forall i :: 0 <= i < |s| ==> s[i] < n
  }

  // ---------------------------------------------------------------------
  // 2D: bounding box

  predicate Below2(lo: Pt2, hi: Pt2, p: Pt2) {
    lo.x <= p.x && lo.y <= p.y && p.x <= hi.x && p.y <= hi.y
  }

  /** `find_min_max_2d` over a non-empty list of valid indices. */
  function MinMax2(vs: seq<Pt2>, idx: seq<nat>): (r: (Pt2, Pt2))
    requires |idx| > 0 && Valid(|vs|, idx)
    ensures forall i :: 0 <= i < |idx| ==> Below2(r.0, r.1, vs[idx[i]])
    ensures exists i :: 0 <= i < |idx| && r.0.x == vs[idx[i]].x
    ensures exists i :: 0 <= i < |idx| && r.0.y == vs[idx[i]].y
    ensures exists i :: 0 <= i < |idx| && r.1.x == vs[idx[i]].x
    ensures exists i :: 0 <= i < |idx| && r.1.y == vs[idx[i]].y
  {
    if |idx| == 1 then (vs[idx[0]], vs[idx[0]])
    else
      var (lo, hi) := MinMax2(vs, idx[..|idx| - 1]);
      var v := vs[idx[|idx| - 1]];
      var lo' := Pt2(if lo.x > v.x then v.x else lo.x, if lo.y > v.y then v.y else lo.y);
      var hi' := Pt2(if hi.x < v.x then v.x else hi.x, if hi.y < v.y then v.y else hi.y);
      assert forall i :: 0 <= i < |idx| - 1 ==> idx[..|idx| - 1][i] == idx[i];
      (lo', hi')
  }

  /** `find_min_max_2d`: reads `indices[0]` and every listed vertex, so an
      empty list or an index past the vertices panics. */
  function FindMinMax2(vs: seq<Pt2>, idx: seq<nat>): (r: Result<(Pt2, Pt2)>)
    ensures r.Err? ==> r.IsPanic()
    ensures r.Ok? <==> |idx| > 0 && Valid(|vs|, idx)
    ensures r.Ok? ==> r.value == MinMax2(vs, idx)
  {
    if |idx| == 0 then Crash("index out of bounds: indices_to_add")
    else if !Valid(|vs|, idx) then Crash("index out of bounds: vertices")
    else Ok(MinMax2(vs, idx))
  }

  // ---------------------------------------------------------------------
  // 2D: one subdivision

  /** The quadrant a point falls in: 0 = a (low x, low y), 1 = b (low x,
      high y), 2 = c (high x, high y), 3 = d (high x, low y); a coordinate
      strictly below the midpoint is low. */
  function Quadrant(p: Pt2, sx: real, sy: real): (r: nat)
    ensures r < 4
  {
    if p.x < sx then (if p.y < sy then 0 else 1)
    else if p.y < sy then 3 else 2
  }

  /** What quadrant `q` means. */
  predicate InQuadrant(p: Pt2, sx: real, sy: real, q: nat) {
    (q == 0 && p.x < sx && p.y < sy) || (q == 1 && p.x < sx && sy <= p.y) ||
    (q == 2 && sx <= p.x && sy <= p.y) || (q == 3 && sx <= p.x && p.y < sy)
  }

  lemma QuadrantMeans(p: Pt2, sx: real, sy: real, q: nat)
    ensures Quadrant(p, sx, sy) == q <==> InQuadrant(p, sx, sy, q)
  {
  }

  function Sum4(parts: seq<seq<nat>>): multiset<nat>
    requires |parts| == 4
  {
    multiset(parts[0]) + multiset(parts[1]) + multiset(parts[2]) + multiset(parts[3])
  }

  /** Every entry of `s` names a vertex in quadrant `q`. */
  predicate PartOk2(vs: seq<Pt2>, s: seq<nat>, sx: real, sy: real, q: nat) {
    forall i :: 0 <= i < |s| ==> s[i] < |vs| && InQuadrant(vs[s[i]], sx, sy, q)
  }

  lemma PartOkPush2(vs: seq<Pt2>, s: seq<nat>, sx: real, sy: real, q: nat, x: nat)
    requires PartOk2(vs, s, sx, sy, q) && x < |vs| && InQuadrant(vs[x], sx, sy, q)
    ensures PartOk2(vs, s + [x], sx, sy, q)
  {
    assert forall i :: 0 <= i < |s| ==> (s + [x])[i] == s[i];
  }

  /** Appends `x` to part `q`. */
  function Push4(parts: seq<seq<nat>>, q: nat, x: nat): (r: seq<seq<nat>>)
    requires |parts| == 4 && q < 4
    ensures |r| == 4 && Sum4(r) == Sum4(parts) + multiset{x}
    ensures r[q] == parts[q] + [x]
    ensures forall k :: 0 <= k < 4 && k != q ==> r[k] == parts[k]
  {
    var r := parts[q := parts[q] + [x]];
    assert Sum4(r) == Sum4(parts) + multiset{x} by {
      if q == 0 {} else if q == 1 {} else if q == 2 {} else {}
    }
    r
  }

  /** The partition loop of one subdivision: each index is pushed, in input
      order, to the list of its quadrant. */
  function Split2(vs: seq<Pt2>, idx: seq<nat>, sx: real, sy: real): (r: seq<seq<nat>>)
    requires Valid(|vs|, idx)
    ensures |r| == 4 && Sum4(r) == multiset(idx)
    ensures forall q :: 0 <= q < 4 ==> PartOk2(vs, r[q], sx, sy, q)
  {
    if idx == [] then [[], [], [], []]
    else
      var pre := idx[..|idx| - 1];
      var x := idx[|idx| - 1];
      assert idx == pre + [x];
      assert Valid(|vs|, pre) by {
        assert forall i :: 0 <= i < |pre| ==> pre[i] == idx[i];
      }
      var parts := Split2(vs, pre, sx, sy);
      var q := Quadrant(vs[x], sx, sy);
      QuadrantMeans(vs[x], sx, sy, q);
      PartOkPush2(vs, parts[q], sx, sy, q, x);
      var r := Push4(parts, q, x);
      assert multiset(idx) == multiset(pre) + multiset{x};
      assert forall k :: 0 <= k < 4 ==> PartOk2(vs, r[k], sx, sy, k) by {
        forall k | 0 <= k < 4 ensures PartOk2(vs, r[k], sx, sy, k) {
          if k != q {
            assert r[k] == parts[k];
          }
        }
      }
      r
  }

  /** The box of quadrant `q` of the box `lo`..`hi` split at `sx`, `sy`. */
  function Box2(lo: Pt2, hi: Pt2, sx: real, sy: real, q: nat): (r: (Pt2, Pt2)) {
    if q == 0 then (lo, Pt2(sx, sy))
    else if q == 1 then (Pt2(lo.x, sy), Pt2(sx, hi.y))
    else if q == 2 then (Pt2(sx, sy), hi)
    else (Pt2(sx, lo.y), Pt2(hi.x, sy))
  }

  /** The push order of the four quadrants for each rotation state 0..7, as
      (state of the quadrant, quadrant); the last pushed is split first. A
      state outside 0..7 matches no branch and pushes nothing. */
  const ORDER2: seq<seq<(nat, nat)>> := [
    [(3, 0), (0, 1), (0, 2), (7, 3)],
    [(6, 3), (1, 2), (1, 1), (2, 0)],
    [(5, 1), (2, 2), (2, 3), (1, 0)],
    [(0, 0), (3, 3), (3, 2), (4, 1)],
    [(7, 2), (4, 3), (4, 0), (3, 1)],
    [(2, 1), (5, 0), (5, 3), (6, 2)],
    [(1, 3), (6, 0), (6, 1), (5, 2)],
    [(4, 2), (7, 1), (7, 0), (0, 3)]]

  function Order2(rot: nat): seq<(nat, nat)> {
    if rot < |ORDER2| then ORDER2[rot] else []
  }

  /** Every state 0..7 pushes each quadrant exactly once and hands out
      states in 0..7 again. */
  predicate OrderOk2(o: seq<(nat, nat)>) {
    |o| == 4 && (forall k :: 0 <= k < 4 ==> o[k].0 < 8 && o[k].1 < 4) &&
    forall k, k' :: 0 <= k < k' < 4 ==> o[k].1 != o[k'].1
  }

  lemma {:induction false} Order2Total(rot: nat)
    requires rot < 8
    ensures OrderOk2(Order2(rot))
  {
    var o := ORDER2[rot];
    if rot == 0 {} else if rot == 1 {} else if rot == 2 {} else if rot == 3 {}
    else if rot == 4 {} else if rot == 5 {} else if rot == 6 {} else {}
  }

  datatype Cell2 = Cell2(rot: nat, lo: Pt2, hi: Pt2, idx: seq<nat>)

  /** The child cell for entry `e` = (state, quadrant) of the push order. */
  function Kid2(c: Cell2, parts: seq<seq<nat>>, sx: real, sy: real, e: (nat, nat)): Cell2
    requires |parts| == 4 && e.1 < 4
  {
    var b := Box2(c.lo, c.hi, sx, sy, e.1);
    Cell2(e.0, b.0, b.1, parts[e.1])
  }

  /** The cells a subdivision of `c` into `parts` at `sx`, `sy` pushes, in
      the push order `o`. */
  function Kids2(c: Cell2, parts: seq<seq<nat>>, sx: real, sy: real, o: seq<(nat, nat)>): (r: seq<Cell2>)
    requires |parts| == 4
  {
    if |o| == 4 && o[0].1 < 4 && o[1].1 < 4 && o[2].1 < 4 && o[3].1 < 4 then
      [Kid2(c, parts, sx, sy, o[0]), Kid2(c, parts, sx, sy, o[1]),
       Kid2(c, parts, sx, sy, o[2]), Kid2(c, parts, sx, sy, o[3])]
    else []
  }

  /** The midpoint of a cell's box, where it is split. */
  function Mid2(c: Cell2): Pt2 {
    Pt2((c.lo.x + c.hi.x) / 2.0, (c.lo.y + c.hi.y) / 2.0)
  }

  /** A cell the sort itself can produce. */
  predicate CellOk2(n: nat, c: Cell2) {
    c.rot < 8 && Valid(n, c.idx)
  }

  predicate WorkOk2(n: nat, work: seq<Cell2>) {
    forall i :: 0 <= i < |work| ==> CellOk2(n, work[i])
  }

  /** The indices still waiting in the worklist. */
  function Pending2(work: seq<Cell2>): multiset<nat> {
    if work == [] then multiset{} else Pending2(work[..|work| - 1]) + multiset(work[|work| - 1].idx)
  }

  lemma {:induction false} PendingAppend2(a: seq<Cell2>, b: seq<Cell2>)
    ensures Pending2(a + b) == Pending2(a) + Pending2(b)
    decreases |b|
  {
    if b != [] {
      var b' := b[..|b| - 1];
      var e := multiset(b[|b| - 1].idx);
      assert (a + b)[..|a + b| - 1] == a + b';
      assert (a + b)[|a + b| - 1] == b[|b| - 1];
      assert Pending2(a + b) == Pending2(a + b') + e;
      PendingAppend2(a, b');
      assert Pending2(b) == Pending2(b') + e;
    } else {
      assert a + b == a;
    }
  }

  lemma Pending4(a: Cell2, b: Cell2, c: Cell2, d: Cell2)
    ensures Pending2([a, b, c, d]) == multiset(a.idx) + multiset(b.idx) + multiset(c.idx) + multiset(d.idx)
  {
    assert [a, b, c, d][..3] == [a, b, c];
    assert [a, b, c][..2] == [a, b];
    assert [a, b][..1] == [a];
    assert [a][..0] == [];
    assert Pending2([a]) == multiset(a.idx);
    assert Pending2([a, b]) == multiset(a.idx) + multiset(b.idx);
    assert Pending2([a, b, c]) == multiset(a.idx) + multiset(b.idx) + multiset(c.idx);
  }

  lemma WorkAppend2(n: nat, a: seq<Cell2>, b: seq<Cell2>)
    requires WorkOk2(n, a) && WorkOk2(n, b)
    ensures WorkOk2(n, a + b)
  {
    assert forall i :: 0 <= i < |a| + |b| ==> (a + b)[i] == if i < |a| then a[i] else b[i - |a|];
  }

  /** Taking the last cell off the worklist. */
  lemma Pop2(n: nat, work: seq<Cell2>)
    requires WorkOk2(n, work) && work != []
    ensures WorkOk2(n, work[..|work| - 1]) && CellOk2(n, work[|work| - 1])
    ensures Pending2(work) == Pending2(work[..|work| - 1]) + multiset(work[|work| - 1].idx)
  {
    assert forall i :: 0 <= i < |work| - 1 ==> work[..|work| - 1][i] == work[i];
  }

  /** A subdivision hands all its indices on to its children, and the
      children are cells the sort can produce. */
  lemma KidsOk2(vs: seq<Pt2>, c: Cell2, parts: seq<seq<nat>>, sx: real, sy: real, o: seq<(nat, nat)>)
    requires |parts| == 4 && OrderOk2(o)
    requires forall q :: 0 <= q < 4 ==> PartOk2(vs, parts[q], sx, sy, q)
    ensures WorkOk2(|vs|, Kids2(c, parts, sx, sy, o))
    ensures Pending2(Kids2(c, parts, sx, sy, o)) == Sum4(parts)
  {
    var k0, k1, k2, k3 := Kid2(c, parts, sx, sy, o[0]), Kid2(c, parts, sx, sy, o[1]),
      Kid2(c, parts, sx, sy, o[2]), Kid2(c, parts, sx, sy, o[3]);
    assert Kids2(c, parts, sx, sy, o) == [k0, k1, k2, k3];
    Pending4(k0, k1, k2, k3);
    PermutedSum4(parts, o[0].1, o[1].1, o[2].1, o[3].1);
  }

  /** Position `k` of the push order takes part `o[k].1`. */
  lemma KidsAt2(c: Cell2, parts: seq<seq<nat>>, sx: real, sy: real, o: seq<(nat, nat)>, k: nat)
    requires |parts| == 4 && OrderOk2(o) && k < 4
    ensures |Kids2(c, parts, sx, sy, o)| == 4 && Kids2(c, parts, sx, sy, o)[k].idx == parts[o[k].1]
  {
    var k0, k1, k2, k3 := Kid2(c, parts, sx, sy, o[0]), Kid2(c, parts, sx, sy, o[1]),
      Kid2(c, parts, sx, sy, o[2]), Kid2(c, parts, sx, sy, o[3]);
    assert Kids2(c, parts, sx, sy, o) == [k0, k1, k2, k3];
  }

  /** Adding up the four lists in any order gives the same multiset. */
  lemma PermutedSum4(parts: seq<seq<nat>>, q0: nat, q1: nat, q2: nat, q3: nat)
    requires |parts| == 4 && q0 < 4 && q1 < 4 && q2 < 4 && q3 < 4
    requires q0 != q1 && q0 != q2 && q0 != q3 && q1 != q2 && q1 != q3 && q2 != q3
    ensures multiset(parts[q0]) + multiset(parts[q1]) + multiset(parts[q2]) + multiset(parts[q3]) == Sum4(parts)
  {
    var a, b, c, d := multiset(parts[0]), multiset(parts[1]), multiset(parts[2]), multiset(parts[3]);
    var s := [a, b, c, d];
    assert multiset(parts[q0]) == s[q0] && multiset(parts[q1]) == s[q1];
    assert multiset(parts[q2]) == s[q2] && multiset(parts[q3]) == s[q3];
  }

  /** One round of the loop: pop a cell; split it if it holds more than one
      index, emit its index if it holds one, drop it if it is empty. */
  function Step2(vs: seq<Pt2>, work: seq<Cell2>, out: seq<nat>): (seq<Cell2>, seq<nat>)
    requires WorkOk2(|vs|, work) && work != []
  {
    var c := work[|work| - 1];
    var rest := work[..|work| - 1];
    Pop2(|vs|, work);
    var m := Mid2(c);
    if |c.idx| > 1 then (rest + Kids2(c, Split2(vs, c.idx, m.x, m.y), m.x, m.y, Order2(c.rot)), out)
    else if |c.idx| == 1 then (rest, out + [c.idx[0]])
    else (rest, out)
  }

  /** A round keeps the worklist well formed, only appends to the output,
      and moves indices from the worklist to the output without losing or
      inventing any. */
  lemma Step2Ok(vs: seq<Pt2>, work: seq<Cell2>, out: seq<nat>)
    requires WorkOk2(|vs|, work) && work != []
    ensures WorkOk2(|vs|, Step2(vs, work, out).0)
    ensures |out| <= |Step2(vs, work, out).1| && Step2(vs, work, out).1[..|out|] == out
    ensures multiset(Step2(vs, work, out).1) + Pending2(Step2(vs, work, out).0) == multiset(out) + Pending2(work)
  {
    var c := work[|work| - 1];
    var rest := work[..|work| - 1];
    Pop2(|vs|, work);
    if |c.idx| > 1 {
      var m := Mid2(c);
      var parts := Split2(vs, c.idx, m.x, m.y);
      var ch := Kids2(c, parts, m.x, m.y, Order2(c.rot));
      Order2Total(c.rot);
      KidsOk2(vs, c, parts, m.x, m.y, Order2(c.rot));
      WorkAppend2(|vs|, rest, ch);
      PendingAppend2(rest, ch);
    } else if |c.idx| == 1 {
      assert c.idx == [c.idx[0]];
      assert (out + [c.idx[0]])[..|out|] == out;
    }
  }

  // ---------------------------------------------------------------------
  // 2D: coincident points

  /** `x` and `y` are entries of `m` at the same point: two indices of equal
      vertices, or one index present twice. */
  ghost predicate Twins2(vs: seq<Pt2>, m: multiset<nat>, x: nat, y: nat) {
    x in m && y in m && x < |vs| && y < |vs| && vs[x] == vs[y] && (x != y || m[x] >= 2)
  }

  lemma TwinsSize2(vs: seq<Pt2>, m: multiset<nat>, x: nat, y: nat)
    requires Twins2(vs, m, x, y)
    ensures |m| >= 2
  {
    var p := multiset{x, y};
    if x != y {
      assert p <= m;
    } else {
      assert p <= m;
    }
    assert m == p + (m - p);
  }

  /** An index lands in no part but the one of its quadrant. */
  lemma OnlyInQuadrant2(vs: seq<Pt2>, idx: seq<nat>, sx: real, sy: real, z: nat, k: nat)
    requires Valid(|vs|, idx) && z < |vs| && k < 4 && k != Quadrant(vs[z], sx, sy)
    ensures multiset(Split2(vs, idx, sx, sy)[k])[z] == 0
  {
    var p := Split2(vs, idx, sx, sy)[k];
    if z in multiset(p) {
      var i :| 0 <= i < |p| && p[i] == z;
      assert PartOk2(vs, p, sx, sy, k);
      QuadrantMeans(vs[z], sx, sy, k);
    }
  }

  /** All copies of an index land in the part of its quadrant. */
  lemma AllInQuadrant2(vs: seq<Pt2>, idx: seq<nat>, sx: real, sy: real, z: nat)
    requires Valid(|vs|, idx) && z < |vs|
    ensures multiset(Split2(vs, idx, sx, sy)[Quadrant(vs[z], sx, sy)])[z] == multiset(idx)[z]
  {
    var parts := Split2(vs, idx, sx, sy);
    var q := Quadrant(vs[z], sx, sy);
    assert multiset(idx)[z] == multiset(parts[0])[z] + multiset(parts[1])[z] + multiset(parts[2])[z] + multiset(parts[3])[z];
    if q != 0 { OnlyInQuadrant2(vs, idx, sx, sy, z, 0); }
    if q != 1 { OnlyInQuadrant2(vs, idx, sx, sy, z, 1); }
    if q != 2 { OnlyInQuadrant2(vs, idx, sx, sy, z, 2); }
    if q != 3 { OnlyInQuadrant2(vs, idx, sx, sy, z, 3); }
  }

  /** Splitting keeps two entries at the same point together. */
  lemma SplitKeepsTwins2(vs: seq<Pt2>, idx: seq<nat>, sx: real, sy: real, x: nat, y: nat)
    requires Valid(|vs|, idx) && Twins2(vs, multiset(idx), x, y)
    ensures Twins2(vs, multiset(Split2(vs, idx, sx, sy)[Quadrant(vs[x], sx, sy)]), x, y)
  {
    AllInQuadrant2(vs, idx, sx, sy, x);
    AllInQuadrant2(vs, idx, sx, sy, y);
  }

  /** Some waiting cell holds two entries at the same point. */
  ghost predicate Stuck2(vs: seq<Pt2>, work: seq<Cell2>) {
    exists i: nat, x: nat, y: nat :: i < |work| && Twins2(vs, multiset(work[i].idx), x, y)
  }

  /** A round never unsticks the worklist: a cell with twins has at least
      two entries, so it is split, and one child takes both. */
  lemma Step2Stuck(vs: seq<Pt2>, work: seq<Cell2>, out: seq<nat>)
    requires WorkOk2(|vs|, work) && work != [] && Stuck2(vs, work)
    ensures Stuck2(vs, Step2(vs, work, out).0)
  {
    var c := work[|work| - 1];
    var rest := work[..|work| - 1];
    Pop2(|vs|, work);
    var i: nat, x: nat, y: nat :| i < |work| && Twins2(vs, multiset(work[i].idx), x, y);
    if i == |work| - 1 {
      TwinsSize2(vs, multiset(c.idx), x, y);
      var m := Mid2(c);
      var parts := Split2(vs, c.idx, m.x, m.y);
      var q := Quadrant(vs[x], m.x, m.y);
      SplitKeepsTwins2(vs, c.idx, m.x, m.y, x, y);
      Order2Total(c.rot);
      var o := Order2(c.rot);
      var ch := Kids2(c, parts, m.x, m.y, o);
      var k := KidOf(o, q);
      KidsAt2(c, parts, m.x, m.y, o, k);
      assert (rest + ch)[|rest| + k] == ch[k];
      assert Step2(vs, work, out).0 == rest + ch;
    } else {
      assert rest[i] == work[i];
      if |c.idx| > 1 {
        var m := Mid2(c);
        assert (rest + Kids2(c, Split2(vs, c.idx, m.x, m.y), m.x, m.y, Order2(c.rot)))[i] == rest[i];
      }
    }
  }

  /** The position in a state's push order that takes quadrant `q`. */
  lemma KidOf(o: seq<(nat, nat)>, q: nat) returns (k: nat)
    requires OrderOk2(o) && q < 4
    ensures k < 4 && o[k].1 == q
  {
    if o[0].1 == q { k := 0; }
    else if o[1].1 == q { k := 1; }
    else if o[2].1 == q { k := 2; }
    else {
      assert o[3].1 == q by {
        assert o[0].1 != o[1].1 && o[0].1 != o[2].1 && o[1].1 != o[2].1;
      }
      k := 3;
    }
  }

  /** Two entries of `idx` at the same point: two indices of equal vertices,
      or one index given twice. */
  ghost predicate Coincident2(vs: seq<Pt2>, idx: seq<nat>) {
    exists i: nat, j: nat :: i < j < |idx| && idx[i] < |vs| && idx[j] < |vs| && vs[idx[i]] == vs[idx[j]]
  }

  lemma CoincidentStuck2(vs: seq<Pt2>, idx: seq<nat>, lo: Pt2, hi: Pt2)
    requires Valid(|vs|, idx) && Coincident2(vs, idx)
    ensures Stuck2(vs, [Cell2(0, lo, hi, idx)])
  {
    var i: nat, j: nat :| i < j < |idx| && idx[i] < |vs| && idx[j] < |vs| && vs[idx[i]] == vs[idx[j]];
    var m := multiset(idx);
    if idx[i] == idx[j] {
      assert multiset{idx[i], idx[j]} <= m by {
        assert idx == idx[..i] + [idx[i]] + idx[i + 1..j] + [idx[j]] + idx[j + 1..];
      }
    }
    var w := [Cell2(0, lo, hi, idx)];
    assert Twins2(vs, multiset(w[0].idx), idx[i], idx[j]);
  }

  /** `sort_along_hilbert_curve_2d`, given the number of loop rounds it may
      take. It panics on an empty list or an index past the vertices; when
      it finishes it has put its input in some order; and two entries at
      the same point keep it from ever finishing, since every subdivision
      puts both in the same quadrant. */
  method HilbertSort2(vs: seq<Pt2>, idx: seq<nat>, fuel: nat) returns (r: Result<seq<nat>>)
    ensures r.IsPanic() <==> |idx| == 0 || !Valid(|vs|, idx)
    ensures r.Err? ==> r.IsPanic() || r.fault.Diverge?
    ensures r.Ok? ==> multiset(r.value) == multiset(idx)
    ensures Valid(|vs|, idx) && Coincident2(vs, idx) ==> r.Err? && r.fault.Diverge?
  {
    var box := FindMinMax2(vs, idx);
    if box.Err? {
      return Err(box.fault);
    }
    var (lo, hi) := box.value;
    var work := [Cell2(0, lo, hi, idx)];
    var out: seq<nat> := [];
    assert Pending2(work) == multiset(idx) by {
      assert work[..0] == [];
    }
    if Coincident2(vs, idx) {
      CoincidentStuck2(vs, idx, lo, hi);
    }
    var f := fuel;
    while work != []
      invariant WorkOk2(|vs|, work)
      invariant multiset(out) + Pending2(work) == multiset(idx)
      invariant Coincident2(vs, idx) ==> Stuck2(vs, work)
      decreases f
    {
      if f == 0 {
        return Err(Diverge("spatial sort did not finish"));
      }
      Step2Ok(vs, work, out);
      if Coincident2(vs, idx) {
        Step2Stuck(vs, work, out);
      }
      work, out := Step2(vs, work, out).0, Step2(vs, work, out).1;
      f := f - 1;
    }
    return Ok(out);
  }

  // ---------------------------------------------------------------------
  // 3D: bounding box

  predicate Below3(lo: Pt3, hi: Pt3, p: Pt3) {
    lo.x <= p.x && lo.y <= p.y && lo.z <= p.z && p.x <= hi.x && p.y <= hi.y && p.z <= hi.z
  }

  /** The bounding-box loop at the top of `sort_along_hilbert_curve_3d`. */
  function MinMax3(vs: seq<Pt3>, idx: seq<nat>): (r: (Pt3, Pt3))
    requires |idx| > 0 && Valid(|vs|, idx)
    ensures forall i :: 0 <= i < |idx| ==> Below3(r.0, r.1, vs[idx[i]])
    ensures exists i :: 0 <= i < |idx| && r.0.x == vs[idx[i]].x
    ensures exists i :: 0 <= i < |idx| && r.0.y == vs[idx[i]].y
    ensures exists i :: 0 <= i < |idx| && r.0.z == vs[idx[i]].z
    ensures exists i :: 0 <= i < |idx| && r.1.x == vs[idx[i]].x
    ensures exists i :: 0 <= i < |idx| && r.1.y == vs[idx[i]].y
    ensures exists i :: 0 <= i < |idx| && r.1.z == vs[idx[i]].z
  {
    if |idx| == 1 then (vs[idx[0]], vs[idx[0]])
    else
      var (lo, hi) := MinMax3(vs, idx[..|idx| - 1]);
      var v := vs[idx[|idx| - 1]];
      var lo' := Pt3(if lo.x > v.x then v.x else lo.x, if lo.y > v.y then v.y else lo.y,
        if lo.z > v.z then v.z else lo.z);
      var hi' := Pt3(if hi.x < v.x then v.x else hi.x, if hi.y < v.y then v.y else hi.y,
        if hi.z < v.z then v.z else hi.z);
      assert forall i :: 0 <= i < |idx| - 1 ==> idx[..|idx| - 1][i] == idx[i];
      (lo', hi')
  }

  // ---------------------------------------------------------------------
  // 3D: one subdivision

  /** A `[usize; 3]` index: an octant as (x, y, z) halves, 0 = low,
      1 = high. */
  datatype Tri = Tri(b0: nat, b1: nat, b2: nat) {
    function At(k: nat): nat
      requires k < 3
    {
      if k == 0 then b0 else if k == 1 then b1 else b2
    }
  }

  predicate Bits(s: Tri) {
    s.b0 <= 1 && s.b1 <= 1 && s.b2 <= 1
  }

  /** `s[k] = 1 - s[k]`; on bits the subtraction cannot underflow. */
  function Toggle(s: Tri, k: nat): (r: Tri)
    requires Bits(s) && k < 3
    ensures Bits(r) && r.At(k) == 1 - s.At(k)
    ensures forall j :: 0 <= j < 3 && j != k ==> r.At(j) == s.At(j)
  {
    if k == 0 then s.(b0 := 1 - s.b0)
    else if k == 1 then s.(b1 := 1 - s.b1)
    else s.(b2 := 1 - s.b2)
  }

  /** The octant `sep_ind[b0][b1][b2]`, numbered 4 b0 + 2 b1 + b2. */
  function Oct(s: Tri): (r: nat)
    requires Bits(s)
    ensures r < 8
  {
    4 * s.b0 + 2 * s.b1 + s.b2
  }

  /** The octant a point falls in; a coordinate strictly below the midpoint
      is low. */
  function Octant(p: Pt3, m: Pt3): (r: nat)
    ensures r < 8
  {
    4 * (if p.x < m.x then 0 else 1) + 2 * (if p.y < m.y then 0 else 1) + (if p.z < m.z then 0 else 1)
  }

  /** What octant `q` means: its three bits say which halves. */
  predicate InOctant(p: Pt3, m: Pt3, q: nat) {
    q < 8 && (q / 4 == 0 <==> p.x < m.x) && (q / 2 % 2 == 0 <==> p.y < m.y) && (q % 2 == 0 <==> p.z < m.z)
  }

  lemma OctantMeans(p: Pt3, m: Pt3, q: nat)
    ensures Octant(p, m) == q <==> InOctant(p, m, q)
  {
  }

  /** The indices held in a list of parts. */
  function SumParts(parts: seq<seq<nat>>): multiset<nat> {
    if parts == [] then multiset{} else multiset(parts[0]) + SumParts(parts[1..])
  }

  lemma {:induction false} SumPartsUpdate(parts: seq<seq<nat>>, o: nat, v: seq<nat>)
    requires o < |parts|
    ensures SumParts(parts[o := v]) + multiset(parts[o]) == SumParts(parts) + multiset(v)
    decreases |parts|
  {
    var u := parts[o := v];
    assert SumParts(u) == multiset(u[0]) + SumParts(u[1..]);
    assert SumParts(parts) == multiset(parts[0]) + SumParts(parts[1..]);
    if o > 0 {
      assert u[0] == parts[0] && u[1..] == parts[1..][o - 1 := v];
      assert parts[1..][o - 1] == parts[o];
      SumPartsUpdate(parts[1..], o - 1, v);
      var a, b := SumParts(u) + multiset(parts[o]), SumParts(parts) + multiset(v);
      forall x ensures a[x] == b[x] {
        assert (SumParts(u[1..]) + multiset(parts[o]))[x] == (SumParts(parts[1..]) + multiset(v))[x];
      }
    } else {
      assert u[0] == v && u[1..] == parts[1..];
    }
  }

  lemma {:induction false} SumPartsEmpty(parts: seq<seq<nat>>)
    requires forall q :: 0 <= q < |parts| ==> parts[q] == []
    ensures SumParts(parts) == multiset{}
    decreases |parts|
  {
    if parts != [] {
      SumPartsEmpty(parts[1..]);
    }
  }

  /** Appends `x` to part `q` of eight. */
  function Push8(parts: seq<seq<nat>>, q: nat, x: nat): (r: seq<seq<nat>>)
    requires |parts| == 8 && q < 8
    ensures |r| == 8 && SumParts(r) == SumParts(parts) + multiset{x}
    ensures r[q] == parts[q] + [x]
    ensures forall k :: 0 <= k < 8 && k != q ==> r[k] == parts[k]
  {
    var r := parts[q := parts[q] + [x]];
    SumPartsUpdate(parts, q, parts[q] + [x]);
    forall y ensures SumParts(r)[y] == (SumParts(parts) + multiset{x})[y] {
      assert (SumParts(r) + multiset(parts[q]))[y] == (SumParts(parts) + multiset(parts[q] + [x]))[y];
    }
    r
  }

  /** Every entry of `s` names a vertex in octant `q`. */
  predicate PartOk3(vs: seq<Pt3>, s: seq<nat>, m: Pt3, q: nat) {
    forall i :: 0 <= i < |s| ==> s[i] < |vs| && InOctant(vs[s[i]], m, q)
  }

  lemma PartOkPush3(vs: seq<Pt3>, s: seq<nat>, m: Pt3, q: nat, x: nat)
    requires PartOk3(vs, s, m, q) && x < |vs| && InOctant(vs[x], m, q)
    ensures PartOk3(vs, s + [x], m, q)
  {
    assert forall i :: 0 <= i < |s| ==> (s + [x])[i] == s[i];
  }

  /** The partition loop of one 3D subdivision: each index is pushed, in
      input order, to the list of its octant. */
  function Split3(vs: seq<Pt3>, idx: seq<nat>, m: Pt3): (r: seq<seq<nat>>)
    requires Valid(|vs|, idx)
    ensures |r| == 8 && SumParts(r) == multiset(idx)
    ensures forall q :: 0 <= q < 8 ==> PartOk3(vs, r[q], m, q)
  {
    if idx == [] then [[], [], [], [], [], [], [], []]
    else
      var pre := idx[..|idx| - 1];
      var x := idx[|idx| - 1];
      assert idx == pre + [x];
      assert Valid(|vs|, pre) by {
        assert forall i :: 0 <= i < |pre| ==> pre[i] == idx[i];
      }
      var parts := Split3(vs, pre, m);
      var q := Octant(vs[x], m);
      OctantMeans(vs[x], m, q);
      PartOkPush3(vs, parts[q], m, q, x);
      var r := Push8(parts, q, x);
      assert multiset(idx) == multiset(pre) + multiset{x};
      assert forall k :: 0 <= k < 8 ==> PartOk3(vs, r[k], m, k) by {
        forall k | 0 <= k < 8 ensures PartOk3(vs, r[k], m, k) {
          if k != q {
            assert r[k] == parts[k];
          }
        }
      }
      r
  }

  /** A row of the direction table: which bit of the sub-octant to flip
      after each of the eight children (`next_modif`), and each child's
      direction (`dir`). */
  datatype Plan3 = Plan3(flip: seq<nat>, dirs: seq<nat>)

  /** Eight entries, each naming one of the three axes. */
  predicate Axes8(s: seq<nat>) {
    |s| == 8 && forall k :: 0 <= k < 8 ==> s[k] < 3
  }

  lemma Axes8Of(s: seq<nat>)
    requires |s| == 8 && s[0] < 3 && s[1] < 3 && s[2] < 3 && s[3] < 3
    requires s[4] < 3 && s[5] < 3 && s[6] < 3 && s[7] < 3
    ensures Axes8(s)
  {
    forall k | 0 <= k < 8 ensures s[k] < 3 {
      if k < 4 {
        if k < 2 { if k == 0 {} else {} } else { if k == 2 {} else {} }
      } else {
        if k < 6 { if k == 4 {} else {} } else { if k == 6 {} else {} }
      }
    }
  }

  predicate PlanOk(p: Plan3) {
    Axes8(p.flip) && Axes8(p.dirs)
  }

  /** The table matched on `(dir, start[dir])`; other keys find no row and
      the source's `unwrap` panics. */
  function Table3(dir: nat, b: nat): Option<Plan3> {
    if dir == 0 && b == 0 then Some(Plan3([1, 2, 1, 0, 1, 2, 1, 0], [1, 2, 2, 0, 0, 2, 2, 1]))
    else if dir == 0 && b == 1 then Some(Plan3([2, 1, 2, 0, 2, 1, 2, 0], [2, 1, 1, 0, 0, 1, 1, 2]))
    else if dir == 1 && b == 0 then Some(Plan3([2, 0, 2, 1, 2, 0, 2, 1], [2, 0, 0, 1, 1, 0, 0, 2]))
    else if dir == 1 && b == 1 then Some(Plan3([0, 2, 0, 1, 0, 2, 0, 1], [0, 2, 2, 1, 1, 2, 2, 0]))
    else if dir == 2 && b == 0 then Some(Plan3([0, 1, 0, 2, 0, 1, 0, 2], [0, 1, 1, 2, 2, 1, 1, 0]))
    else if dir == 2 && b == 1 then Some(Plan3([1, 0, 1, 2, 1, 0, 1, 2], [1, 0, 0, 2, 2, 0, 0, 1]))
    else None
  }

  /** The octants the eight children visit, from step `i` on. */
  function Visited(i: nat, sub: Tri, p: Plan3): set<nat>
    requires i <= 8 && Bits(sub) && PlanOk(p)
    decreases 8 - i
  {
    if i == 8 then {} else {Oct(sub)} + Visited(i + 1, Toggle(sub, p.flip[i]), p)
  }

  /** The sub-octant at step `i` of the children loop started from `s`. */
  function SubAt(s: Tri, p: Plan3, i: nat): (r: Tri)
    requires Bits(s) && PlanOk(p) && i <= 8
    ensures Bits(r)
  {
    if i == 0 then s else Toggle(SubAt(s, p, i - 1), p.flip[i - 1])
  }

  lemma {:induction false} VisitedSubAt(s: Tri, p: Plan3, j: nat, i: nat)
    requires Bits(s) && PlanOk(p) && j <= i < 8
    ensures Oct(SubAt(s, p, i)) in Visited(j, SubAt(s, p, j), p)
    decreases 8 - j
  {
    if j < i {
      assert SubAt(s, p, j + 1) == Toggle(SubAt(s, p, j), p.flip[j]);
      VisitedSubAt(s, p, j + 1, i);
    }
  }

  lemma ToggleAt(s: Tri, k: nat, j: nat)
    requires Bits(s) && k < 3 && j < 3
    ensures Toggle(s, k).At(j) == if j == k then 1 - s.At(j) else s.At(j)
  {
  }

  /** Flipping the same bit twice undoes it. */
  lemma ToggleTwice(s: Tri, k: nat)
    requires Bits(s) && k < 3
    ensures Toggle(Toggle(s, k), k) == s
  {
  }

  /** Flips of different bits commute. */
  lemma ToggleSwap(s: Tri, k: nat, j: nat)
    requires Bits(s) && k < 3 && j < 3
    ensures Toggle(Toggle(s, k), j) == Toggle(Toggle(s, j), k)
  {
  }

  /** The flip rows all have the Gray-code shape a, b, a, c, a, b, a, c with
      three different bits. */
  predicate GrayRow(f: seq<nat>, a: nat, b: nat, c: nat) {
    a < 3 && b < 3 && c < 3 && a != b && a != c && b != c && f == [a, b, a, c, a, b, a, c]
  }

  /** `s` with bit `a`, then `b`, then `c` flipped where asked. */
  function Flip3(s: Tri, a: nat, b: nat, c: nat, fa: bool, fb: bool, fc: bool): (r: Tri)
    requires Bits(s) && a < 3 && b < 3 && c < 3
    ensures Bits(r)
  {
    var u := if fa then Toggle(s, a) else s;
    var v := if fb then Toggle(u, b) else u;
    if fc then Toggle(v, c) else v
  }

  /** The first four steps of a Gray-code row flip nothing, `a`, `a b`
      and `b`. */
  lemma GrayLow(s: Tri, p: Plan3, a: nat, b: nat, c: nat)
    requires Bits(s) && PlanOk(p) && GrayRow(p.flip, a, b, c)
    ensures SubAt(s, p, 0) == Flip3(s, a, b, c, false, false, false)
    ensures SubAt(s, p, 1) == Flip3(s, a, b, c, true, false, false)
    ensures SubAt(s, p, 2) == Flip3(s, a, b, c, true, true, false)
    ensures SubAt(s, p, 3) == Flip3(s, a, b, c, false, true, false)
  {
    assert SubAt(s, p, 1) == Toggle(s, a);
    assert SubAt(s, p, 2) == Toggle(Toggle(s, a), b);
    assert SubAt(s, p, 3) == Toggle(Toggle(Toggle(s, a), b), a);
    ToggleSwap(s, a, b);
    ToggleTwice(Toggle(s, b), a);
  }

  /** The last four steps flip `b c`, `a b c`, `a c` and `c`. */
  lemma GrayHigh(s: Tri, p: Plan3, a: nat, b: nat, c: nat)
    requires Bits(s) && PlanOk(p) && GrayRow(p.flip, a, b, c)
    ensures SubAt(s, p, 4) == Flip3(s, a, b, c, false, true, true)
    ensures SubAt(s, p, 5) == Flip3(s, a, b, c, true, true, true)
    ensures SubAt(s, p, 6) == Flip3(s, a, b, c, true, false, true)
    ensures SubAt(s, p, 7) == Flip3(s, a, b, c, false, false, true)
  {
    GrayLow(s, p, a, b, c);
    var s4 := Toggle(Toggle(s, b), c);
    assert SubAt(s, p, 4) == s4;
    var s5 := Toggle(s4, a);
    assert SubAt(s, p, 5) == s5;
    ToggleSwap(Toggle(s, b), c, a);
    ToggleSwap(s, b, a);
    assert s5 == Toggle(Toggle(Toggle(s, a), b), c);
    var s6 := Toggle(s5, b);
    assert SubAt(s, p, 6) == s6;
    ToggleSwap(Toggle(s, a), b, c);
    ToggleTwice(Toggle(Toggle(s, a), c), b);
    assert s6 == Toggle(Toggle(s, a), c);
    var s7 := Toggle(s6, a);
    assert SubAt(s, p, 7) == s7;
    ToggleSwap(s, a, c);
    ToggleTwice(Toggle(s, c), a);
  }

  /** Every octant number is the number of some three bits. */
  lemma OctOf(q: nat) returns (t: Tri)
    requires q < 8
    ensures Bits(t) && Oct(t) == q
  {
    if q < 4 {
      t := if q < 2 then Tri(0, 0, q) else Tri(0, 1, q - 2);
    } else {
      t := if q < 6 then Tri(1, 0, q - 4) else Tri(1, 1, q - 6);
    }
  }

  /** With three different bits, some choice of flips reaches any octant. */
  lemma FlipReaches(s: Tri, a: nat, b: nat, c: nat, q: nat) returns (fa: bool, fb: bool, fc: bool)
    requires Bits(s) && a < 3 && b < 3 && c < 3 && a != b && a != c && b != c && q < 8
    ensures Oct(Flip3(s, a, b, c, fa, fb, fc)) == q
  {
    var t := OctOf(q);
    fa, fb, fc := t.At(a) != s.At(a), t.At(b) != s.At(b), t.At(c) != s.At(c);
    var u := FlipTo(s, a, fa, t.At(a));
    var v := FlipTo(u, b, fb, t.At(b));
    var r := FlipTo(v, c, fc, t.At(c));
    assert r.At(a) == t.At(a) && r.At(b) == t.At(b);
    SameBits(r, t, a, b, c);
  }

  /** One step of `Flip3`: toggling bit `k` exactly when it differs from
      `target` sets it to `target` and keeps the others. */
  lemma FlipTo(s: Tri, k: nat, f: bool, target: nat) returns (u: Tri)
    requires Bits(s) && k < 3 && target <= 1 && f == (target != s.At(k))
    ensures u == (if f then Toggle(s, k) else s)
    ensures Bits(u) && u.At(k) == target
    ensures forall j :: 0 <= j < 3 && j != k ==> u.At(j) == s.At(j)
  {
    u := if f then Toggle(s, k) else s;
  }

  /** Two triples agreeing at three different positions are equal. */
  lemma SameBits(r: Tri, t: Tri, a: nat, b: nat, c: nat)
    requires a < 3 && b < 3 && c < 3 && a != b && a != c && b != c
    requires r.At(a) == t.At(a) && r.At(b) == t.At(b) && r.At(c) == t.At(c)
    ensures r == t
  {
    assert r.At(0) == t.At(0) && r.At(1) == t.At(1) && r.At(2) == t.At(2);
  }

  /** Along a Gray-code row the eight steps flip every subset of the three
      bits exactly once, so every octant is visited. */
  lemma GrayCovers(s: Tri, p: Plan3, a: nat, b: nat, c: nat, q: nat)
    requires Bits(s) && PlanOk(p) && GrayRow(p.flip, a, b, c) && q < 8
    ensures q in Visited(0, s, p)
  {
    GrayLow(s, p, a, b, c);
    GrayHigh(s, p, a, b, c);
    var fa, fb, fc := FlipReaches(s, a, b, c, q);
    var i: nat;
    if !fa && !fb && !fc { i := 0; }
    else if fa && !fb && !fc { i := 1; }
    else if fa && fb && !fc { i := 2; }
    else if !fa && fb && !fc { i := 3; }
    else if !fa && fb && fc { i := 4; }
    else if fa && fb && fc { i := 5; }
    else if fa && !fb && fc { i := 6; }
    else { i := 7; }
    assert Oct(SubAt(s, p, i)) == q;
    VisitedSubAt(s, p, 0, i);
  }

  /** Each key `(dir, start[dir])` a well-formed cell can present finds a
      row, and the row's children cover all eight octants. */
  lemma Table3Total(dir: nat, s: Tri)
    requires dir < 3 && Bits(s)
    ensures Table3(dir, s.At(dir)).Some? && PlanOk(Table3(dir, s.At(dir)).value)
    ensures forall q :: 0 <= q < 8 ==> q in Visited(0, s, Table3(dir, s.At(dir)).value)
  {
    var p := Table3(dir, s.At(dir)).value;
    var a, b, c;
    if dir == 0 && s.At(dir) == 0 { a, b, c := 1, 2, 0; }
    else if dir == 0 { a, b, c := 2, 1, 0; }
    else if dir == 1 && s.At(dir) == 0 { a, b, c := 2, 0, 1; }
    else if dir == 1 { a, b, c := 0, 2, 1; }
    else if s.At(dir) == 0 { a, b, c := 0, 1, 2; }
    else { a, b, c := 1, 0, 2; }
    assert GrayRow(p.flip, a, b, c);
    Axes8Of(p.flip);
    Axes8Of(p.dirs);
    forall q | 0 <= q < 8 ensures q in Visited(0, s, p) {
      GrayCovers(s, p, a, b, c, q);
    }
  }

  datatype Cell3 = Cell3(start: Tri, dir: nat, lo: Pt3, hi: Pt3, idx: seq<nat>)

  /** The split coordinates `pt_x`, `pt_y`, `pt_z` of a box. */
  datatype Grid3 = Grid3(xs: seq<real>, ys: seq<real>, zs: seq<real>)

  function Mid3(c: Cell3): Pt3 {
    Pt3((c.lo.x + c.hi.x) / 2.0, (c.lo.y + c.hi.y) / 2.0, (c.lo.z + c.hi.z) / 2.0)
  }

  function GridOf(c: Cell3): (g: Grid3)
    ensures |g.xs| == 3 && |g.ys| == 3 && |g.zs| == 3
  {
    var m := Mid3(c);
    Grid3([c.lo.x, m.x, c.hi.x], [c.lo.y, m.y, c.hi.y], [c.lo.z, m.z, c.hi.z])
  }

  predicate GridOk(g: Grid3) {
    |g.xs| == 3 && |g.ys| == 3 && |g.zs| == 3
  }

  /** The child pushed at step `i`: the box of sub-octant `sub`, holding
      that octant's list. */
  function Kid3(i: nat, sub: Tri, st: Tri, parts: seq<seq<nat>>, p: Plan3, g: Grid3): (r: Cell3)
    requires i < 8 && Bits(sub) && |parts| == 8 && PlanOk(p) && GridOk(g)
    ensures r.start == st && r.dir == p.dirs[i] && r.idx == parts[Oct(sub)]
  {
    Cell3(st, p.dirs[i], Pt3(g.xs[sub.b0], g.ys[sub.b1], g.zs[sub.b2]),
      Pt3(g.xs[sub.b0 + 1], g.ys[sub.b1 + 1], g.zs[sub.b2 + 1]), parts[Oct(sub)])
  }

  /** The `for i in 0..8` loop from step `i` on: the child for sub-octant
      `sub` takes that octant's list (leaving it empty) and the start bits
      `st`; then one bit of `sub` flips, and two of `st`. */
  function KidsFrom3(i: nat, sub: Tri, st: Tri, parts: seq<seq<nat>>, p: Plan3, g: Grid3): (r: seq<Cell3>)
    requires i <= 8 && Bits(sub) && Bits(st) && |parts| == 8 && PlanOk(p) && GridOk(g)
    ensures |r| == 8 - i
    decreases 8 - i
  {
    if i == 8 then []
    else
      [Kid3(i, sub, st, parts, p, g)] +
      KidsFrom3(i + 1, Toggle(sub, p.flip[i]), Toggle(Toggle(st, p.flip[i]), p.dirs[i]), parts[Oct(sub) := []], p, g)
  }

  /** The octant lists left over after step `i` on. */
  function Left3(i: nat, sub: Tri, parts: seq<seq<nat>>, p: Plan3): (r: seq<seq<nat>>)
    requires i <= 8 && Bits(sub) && |parts| == 8 && PlanOk(p)
    ensures |r| == 8
    decreases 8 - i
  {
    if i == 8 then parts else Left3(i + 1, Toggle(sub, p.flip[i]), parts[Oct(sub) := []], p)
  }

  lemma {:induction false} LeftCleared3(i: nat, sub: Tri, parts: seq<seq<nat>>, p: Plan3, q: nat)
    requires i <= 8 && Bits(sub) && |parts| == 8 && PlanOk(p) && q < 8 && q in Visited(i, sub, p)
    ensures Left3(i, sub, parts, p)[q] == []
    decreases 8 - i
  {
    if i < 8 {
      var o := Oct(sub);
      var sub' := Toggle(sub, p.flip[i]);
      if q in Visited(i + 1, sub', p) {
        LeftCleared3(i + 1, sub', parts[o := []], p, q);
      } else {
        assert q == o;
        LeftKeeps3(i + 1, sub', parts[o := []], p, q);
      }
    }
  }

  lemma {:induction false} LeftKeeps3(i: nat, sub: Tri, parts: seq<seq<nat>>, p: Plan3, q: nat)
    requires i <= 8 && Bits(sub) && |parts| == 8 && PlanOk(p) && q < 8 && parts[q] == []
    ensures Left3(i, sub, parts, p)[q] == []
    decreases 8 - i
  {
    if i < 8 {
      LeftKeeps3(i + 1, Toggle(sub, p.flip[i]), parts[Oct(sub) := []], p, q);
    }
  }

  /** A cell the 3D sort itself can produce. */
  predicate CellOk3(n: nat, c: Cell3) {
    Bits(c.start) && c.dir < 3 && Valid(n, c.idx)
  }

  predicate WorkOk3(n: nat, work: seq<Cell3>) {
    forall i :: 0 <= i < |work| ==> CellOk3(n, work[i])
  }

  function Pending3(work: seq<Cell3>): multiset<nat> {
    if work == [] then multiset{} else Pending3(work[..|work| - 1]) + multiset(work[|work| - 1].idx)
  }

  lemma {:induction false} PendingAppend3(a: seq<Cell3>, b: seq<Cell3>)
    ensures Pending3(a + b) == Pending3(a) + Pending3(b)
    decreases |b|
  {
    if b != [] {
      var b' := b[..|b| - 1];
      var e := multiset(b[|b| - 1].idx);
      assert (a + b)[..|a + b| - 1] == a + b';
      assert (a + b)[|a + b| - 1] == b[|b| - 1];
      assert Pending3(a + b) == Pending3(a + b') + e;
      PendingAppend3(a, b');
      assert Pending3(b) == Pending3(b') + e;
    } else {
      assert a + b == a;
    }
  }

  lemma PendingCons3(x: Cell3, rest: seq<Cell3>)
    ensures Pending3([x] + rest) == multiset(x.idx) + Pending3(rest)
  {
    PendingAppend3([x], rest);
    assert Pending3([x]) == multiset(x.idx) by {
      assert [x][..0] == [];
    }
  }

  lemma WorkAppend3(n: nat, a: seq<Cell3>, b: seq<Cell3>)
    requires WorkOk3(n, a) && WorkOk3(n, b)
    ensures WorkOk3(n, a + b)
  {
    assert forall i :: 0 <= i < |a| + |b| ==> (a + b)[i] == if i < |a| then a[i] else b[i - |a|];
  }

  lemma Pop3(n: nat, work: seq<Cell3>)
    requires WorkOk3(n, work) && work != []
    ensures WorkOk3(n, work[..|work| - 1]) && CellOk3(n, work[|work| - 1])
    ensures Pending3(work) == Pending3(work[..|work| - 1]) + multiset(work[|work| - 1].idx)
  {
    assert forall i :: 0 <= i < |work| - 1 ==> work[..|work| - 1][i] == work[i];
  }

  /** Moving one octant's list from the leftovers to the children keeps
      the balance. */
  lemma Rebalance(all: multiset<nat>, d: multiset<nat>, rest: multiset<nat>, left: multiset<nat>, sum': multiset<nat>, sum: multiset<nat>)
    requires all == d + rest && rest + left == sum' && sum' + d == sum + multiset{}
    ensures all + left == sum
  {
    forall x ensures (all + left)[x] == sum[x] {
      assert (rest + left)[x] == sum'[x];
      assert (sum' + d)[x] == (sum + multiset{})[x];
    }
  }

  /** Step `i` of the loop: one child, then the rest from step `i + 1`. */
  lemma KidsFromStep3(i: nat, sub: Tri, st: Tri, parts: seq<seq<nat>>, p: Plan3, g: Grid3)
    requires i < 8 && Bits(sub) && Bits(st) && |parts| == 8 && PlanOk(p) && GridOk(g)
    ensures KidsFrom3(i, sub, st, parts, p, g) ==
      [Kid3(i, sub, st, parts, p, g)] +
      KidsFrom3(i + 1, Toggle(sub, p.flip[i]), Toggle(Toggle(st, p.flip[i]), p.dirs[i]), parts[Oct(sub) := []], p, g)
    ensures Left3(i, sub, parts, p) == Left3(i + 1, Toggle(sub, p.flip[i]), parts[Oct(sub) := []], p)
  {
  }

  /** The children are cells the sort can produce. */
  lemma {:induction false} KidsFromWork3(n: nat, i: nat, sub: Tri, st: Tri, parts: seq<seq<nat>>, p: Plan3, g: Grid3)
    requires i <= 8 && Bits(sub) && Bits(st) && |parts| == 8 && PlanOk(p) && GridOk(g)
    requires forall q :: 0 <= q < 8 ==> Valid(n, parts[q])
    ensures WorkOk3(n, KidsFrom3(i, sub, st, parts, p, g))
    decreases 8 - i
  {
    if i < 8 {
      var o := Oct(sub);
      var sub' := Toggle(sub, p.flip[i]);
      var st' := Toggle(Toggle(st, p.flip[i]), p.dirs[i]);
      var parts' := parts[o := []];
      var kid := Kid3(i, sub, st, parts, p, g);
      assert forall q :: 0 <= q < 8 ==> Valid(n, parts'[q]);
      KidsFromWork3(n, i + 1, sub', st', parts', p, g);
      KidsFromStep3(i, sub, st, parts, p, g);
      assert Valid(n, parts[o]);
      assert CellOk3(n, kid);
      WorkAppend3(n, [kid], KidsFrom3(i + 1, sub', st', parts', p, g));
    }
  }

  /** The children hand on every index the octant lists held, minus what is
      left over. */
  lemma {:induction false} KidsFromPending3(i: nat, sub: Tri, st: Tri, parts: seq<seq<nat>>, p: Plan3, g: Grid3)
    requires i <= 8 && Bits(sub) && Bits(st) && |parts| == 8 && PlanOk(p) && GridOk(g)
    ensures Pending3(KidsFrom3(i, sub, st, parts, p, g)) + SumParts(Left3(i, sub, parts, p)) == SumParts(parts)
    decreases 8 - i
  {
    if i < 8 {
      var o := Oct(sub);
      var sub' := Toggle(sub, p.flip[i]);
      var st' := Toggle(Toggle(st, p.flip[i]), p.dirs[i]);
      var parts' := parts[o := []];
      var kid := Kid3(i, sub, st, parts, p, g);
      var rest := KidsFrom3(i + 1, sub', st', parts', p, g);
      var left := Left3(i + 1, sub', parts', p);
      KidsFromPending3(i + 1, sub', st', parts', p, g);
      KidsFromStep3(i, sub, st, parts, p, g);
      PendingCons3(kid, rest);
      SumPartsUpdate(parts, o, []);
      assert kid.idx == parts[o];
      Rebalance(Pending3([kid] + rest), multiset(parts[o]), Pending3(rest), SumParts(left), SumParts(parts'), SumParts(parts));
    }
  }

  /** One subdivision hands all its indices on to its eight children. */
  lemma Kids3Ok(vs: seq<Pt3>, c: Cell3)
    requires CellOk3(|vs|, c)
    ensures Table3(c.dir, c.start.At(c.dir)).Some? && PlanOk(Table3(c.dir, c.start.At(c.dir)).value)
    ensures WorkOk3(|vs|, KidsFrom3(0, c.start, c.start, Split3(vs, c.idx, Mid3(c)), Table3(c.dir, c.start.At(c.dir)).value, GridOf(c)))
    ensures Pending3(KidsFrom3(0, c.start, c.start, Split3(vs, c.idx, Mid3(c)), Table3(c.dir, c.start.At(c.dir)).value, GridOf(c))) == multiset(c.idx)
  {
    Table3Total(c.dir, c.start);
    var p := Table3(c.dir, c.start.At(c.dir)).value;
    var parts := Split3(vs, c.idx, Mid3(c));
    assert forall q :: 0 <= q < 8 ==> Valid(|vs|, parts[q]) by {
      forall q | 0 <= q < 8 ensures Valid(|vs|, parts[q]) {
        assert PartOk3(vs, parts[q], Mid3(c), q);
      }
    }
    KidsFromWork3(|vs|, 0, c.start, c.start, parts, p, GridOf(c));
    KidsFromPending3(0, c.start, c.start, parts, p, GridOf(c));
    var left := Left3(0, c.start, parts, p);
    forall q | 0 <= q < 8 ensures left[q] == [] {
      LeftCleared3(0, c.start, parts, p, q);
    }
    SumPartsEmpty(left);
  }

  /** One round of the 3D loop. */
  function Step3(vs: seq<Pt3>, work: seq<Cell3>, out: seq<nat>): (seq<Cell3>, seq<nat>)
    requires WorkOk3(|vs|, work) && work != []
  {
    var c := work[|work| - 1];
    var rest := work[..|work| - 1];
    Pop3(|vs|, work);
    if |c.idx| > 1 then
      Table3Total(c.dir, c.start);
      var p := Table3(c.dir, c.start.At(c.dir)).value;
      (rest + KidsFrom3(0, c.start, c.start, Split3(vs, c.idx, Mid3(c)), p, GridOf(c)), out)
    else if |c.idx| == 1 then (rest, out + [c.idx[0]])
    else (rest, out)
  }

  lemma Step3Ok(vs: seq<Pt3>, work: seq<Cell3>, out: seq<nat>)
    requires WorkOk3(|vs|, work) && work != []
    ensures WorkOk3(|vs|, Step3(vs, work, out).0)
    ensures multiset(Step3(vs, work, out).1) + Pending3(Step3(vs, work, out).0) == multiset(out) + Pending3(work)
  {
    var c := work[|work| - 1];
    var rest := work[..|work| - 1];
    Pop3(|vs|, work);
    if |c.idx| > 1 {
      Kids3Ok(vs, c);
      var ch := KidsFrom3(0, c.start, c.start, Split3(vs, c.idx, Mid3(c)), Table3(c.dir, c.start.At(c.dir)).value, GridOf(c));
      WorkAppend3(|vs|, rest, ch);
      PendingAppend3(rest, ch);
      assert Step3(vs, work, out).0 == rest + ch;
    } else if |c.idx| == 1 {
      assert c.idx == [c.idx[0]];
    }
  }

  /** `sort_along_hilbert_curve_3d`, given the number of loop rounds it may
      take: it panics on an empty list or an index past the vertices, and
      when it finishes it has put its input in some order. */
  method HilbertSort3(vs: seq<Pt3>, idx: seq<nat>, fuel: nat) returns (r: Result<seq<nat>>)
    ensures r.IsPanic() <==> |idx| == 0 || !Valid(|vs|, idx)
    ensures r.Err? ==> r.IsPanic() || r.fault.Diverge?
    ensures r.Ok? ==> multiset(r.value) == multiset(idx)
  {
    if |idx| == 0 {
      return Crash("index out of bounds: indices_to_add");
    }
    if !Valid(|vs|, idx) {
      return Crash("index out of bounds: vertices");
    }
    var (lo, hi) := MinMax3(vs, idx);
    var work := [Cell3(Tri(0, 0, 0), 0, lo, hi, idx)];
    var out: seq<nat> := [];
    assert Pending3(work) == multiset(idx) by {
      assert work[..0] == [];
    }
    var f := fuel;
    while work != []
      invariant WorkOk3(|vs|, work)
      invariant multiset(out) + Pending3(work) == multiset(idx)
      decreases f
    {
      if f == 0 {
        return Err(Diverge("spatial sort did not finish"));
      }
      Step3Ok(vs, work, out);
      work, out := Step3(vs, work, out).0, Step3(vs, work, out).1;
      f := f - 1;
    }
    return Ok(out);
  }
}
