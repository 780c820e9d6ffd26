/** The flat-array vertex parser of the WASM binding and the size guard
    `triangulate` applies before building anything. */
module Wasm {
  import opened Base
  import opened Geometry

  /** `chunks_exact(2)` mapped to points. */
  function Pairs(flat: seq<real>): (r: seq<Pt2>)
    requires |flat| % 2 == 0
    ensures |r| == |flat| / 2
    ensures forall i :: 0 <= i < |r| ==> r[i] == Pt2(flat[2 * i], flat[2 * i + 1])
    decreases |flat|
  {
    if flat == [] then []
    else
      var rest := Pairs(flat[2..]);
      assert forall i :: 1 <= i < |rest| + 1 ==> rest[i - 1] == Pt2(flat[2 * i], flat[2 * i + 1]);
      [Pt2(flat[0], flat[1])] + rest
  }

  /** `parse_vertices_2d`: an odd number of coordinates is refused; otherwise
      coordinate pairs become vertices, in order. */
  function ParseVertices2d(flat: seq<real>): (r: Result<seq<Pt2>>)
    ensures r.Err? <==> |flat| % 2 != 0
    ensures r.Err? ==> r.IsError()
    ensures r.Ok? ==> (|r.value| == |flat| / 2 &&
      forall i :: 0 <= i < |r.value| ==> r.value[i] == Pt2(flat[2 * i], flat[2 * i + 1]))
  {
    if |flat| % 2 != 0 then Fail("Vertices must have even length (pairs of x, y)")
    else Ok(Pairs(flat))
  }

  /** The flat layout `[x1, y1, x2, y2, ...]` of a vertex list. */
  function Flatten(vs: seq<Pt2>): (r: seq<real>)
    ensures |r| == 2 * |vs|
    ensures forall i :: 0 <= i < |vs| ==> r[2 * i] == vs[i].x && r[2 * i + 1] == vs[i].y
  {
    if vs == [] then []
    else
      var rest := Flatten(vs[1..]);
      assert forall i :: 1 <= i < |vs| ==> rest[2 * (i - 1)] == vs[i].x && rest[2 * (i - 1) + 1] == vs[i].y;
      [vs[0].x, vs[0].y] + rest
  }

  /** Parsing the flat layout of a vertex list gives the list back. */
  lemma ParseFlatten(vs: seq<Pt2>)
    ensures ParseVertices2d(Flatten(vs)) == Ok(vs)
  {
    var f := Flatten(vs);
    var r := ParseVertices2d(f);
    assert r.Ok? && |r.value| == |vs|;
    forall i | 0 <= i < |vs| ensures r.value[i] == vs[i] {
      assert r.value[i] == Pt2(f[2 * i], f[2 * i + 1]);
    }
    assert r.value == vs;
  }

  /** Flattening what was parsed gives the input array back. */
  lemma FlattenParse(flat: seq<real>)
    requires |flat| % 2 == 0
    ensures ParseVertices2d(flat).Ok? && Flatten(ParseVertices2d(flat).value) == flat
  {
    var vs := ParseVertices2d(flat).value;
    var f := Flatten(vs);
    assert |f| == |flat|;
    forall k | 0 <= k < |flat| ensures f[k] == flat[k] {
      var i := k / 2;
      assert vs[i] == Pt2(flat[2 * i], flat[2 * i + 1]);
      if k == 2 * i {
        assert f[2 * i] == vs[i].x;
      } else {
        assert k == 2 * i + 1 && f[2 * i + 1] == vs[i].y;
      }
    }
  }

  /** The input checks of `triangulate`: the parse error, then fewer than
      three vertices is refused before any triangulation is built. On
      success the vertices handed to `insert_vertices` are returned. */
  function Triangulate2dInput(flat: seq<real>): (r: Result<seq<Pt2>>)
    ensures r.Err? ==> r.IsError()
    ensures r.Ok? <==> |flat| % 2 == 0 && |flat| >= 6
    ensures r.Ok? ==> Flatten(r.value) == flat
  {
    var vs :- ParseVertices2d(flat);
    FlattenParse(flat);
    if |vs| < 3 then Fail("At least 3 vertices are required for 2D triangulation")
    else Ok(vs)
  }
}
