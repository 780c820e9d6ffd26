/** Points and the geometric predicates, which the source takes from an
    exact-arithmetic foreign library. The model never looks inside a
    predicate: each one is a function parameter returning a sign. */
module Geometry {
  import opened Base

  datatype Pt2 = Pt2(x: real, y: real)
  datatype Pt3 = Pt3(x: real, y: real, z: real)

  /** `orient_2d(a, b, c)`: 1 when a, b, c turn counter-clockwise. */
  type Orient2 = (Pt2, Pt2, Pt2) -> Sign

  /** Swapping the last two arguments of a 2D orientation flips its sign. */
  ghost predicate Antisymmetric2(orient: Orient2) {
    forall a: Pt2, b: Pt2, c: Pt2 :: orient(a, c, b) == -orient(a, b, c)
  }

  /** `orient_3d(a, b, c, d)`: the sign of the orientation of the
      tetrahedron a, b, c, d. */
  type Orient3 = (Pt3, Pt3, Pt3, Pt3) -> Sign

  /** Swapping the second and third arguments of a 3D orientation flips its
      sign. */
  ghost predicate Antisymmetric3(orient: Orient3) {
    forall a: Pt3, b: Pt3, c: Pt3, d: Pt3 :: orient(a, c, b, d) == -orient(a, b, c, d)
  }
}
