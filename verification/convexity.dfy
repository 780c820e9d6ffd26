/** The convexity test used by the 2D flip decision: the orientation sign
    decides, and a real dot product breaks the collinear tie. */
module Convexity {
  import opened Base
  import opened Geometry

  function Minus(p: Pt2, q: Pt2): Pt2 {
    Pt2(p.x - q.x, p.y - q.y)
  }

  function Dot(u: Pt2, v: Pt2): real {
    u.x * v.x + u.y * v.y
  }

  /** `is_convex(v0, v1, v2)`: whether the angle at `v1` between `v0` and
      `v2` is convex. A left turn is convex, a right turn is not; on a line
      the angle is convex exactly when `v0` and `v2` lie on the same side of
      `v1`, i.e. when the two arms from `v1` make an acute angle. */
  function IsConvex(orient: Orient2, v0: Pt2, v1: Pt2, v2: Pt2): (r: bool)
    ensures orient(v0, v1, v2) == 1 ==> r
    ensures orient(v0, v1, v2) == -1 ==> !r
    ensures orient(v0, v1, v2) == 0 ==> (r <==> Dot(Minus(v0, v1), Minus(v2, v1)) > 0.0)
    ensures orient(v0, v1, v2) == 0 && (v1 == v0 || v1 == v2) ==> !r
  {
    var sign := orient(v0, v1, v2);
    if sign > 0 then true
    else if sign < 0 then false
    else
      var v1v0 := Minus(v1, v0);
      var v1v2 := Minus(v1, v2);
      Dot(v1v0, v1v2) > 0.0
  }

  /** On a line the answer does not depend on which end is called `v0`. */
  lemma CollinearSymmetric(orient: Orient2, v0: Pt2, v1: Pt2, v2: Pt2)
    requires orient(v0, v1, v2) == 0 && orient(v2, v1, v0) == 0
    ensures IsConvex(orient, v0, v1, v2) == IsConvex(orient, v2, v1, v0)
  {
    assert Dot(Minus(v0, v1), Minus(v2, v1)) == Dot(Minus(v2, v1), Minus(v0, v1));
  }
}
