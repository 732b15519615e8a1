/**
 * Coordinates as the macros read them from the CAD kernel: a vertex is the
 * triple (X, Y, Z) and a 2D point the pair (X, Y). Floating point is modelled
 * by exact reals.
 */
module Geometry {

  datatype Vec3 = Vec3(x: real, y: real, z: real)

  datatype Vec2 = Vec2(x: real, y: real)

  /** An edge given by its two end vertices, as (Vertexes[0], Vertexes[1]). */
  type Segment = (Vec3, Vec3)

  function Minus(a: Vec3, b: Vec3): (r: Vec3)
    ensures r.x + b.x == a.x && r.y + b.y == a.y && r.z + b.z == a.z
  {
    Vec3(a.x - b.x, a.y - b.y, a.z - b.z)
  }

  /** Python's `<` on 3-tuples of floats: lexicographic. */
  predicate Less(a: Vec3, b: Vec3) {
    a.x < b.x || (a.x == b.x && (a.y < b.y || (a.y == b.y && a.z < b.z)))
  }

  predicate LessEq(a: Vec3, b: Vec3) {
    Less(a, b) || a == b
  }

  /** The tuple order is total: two triples that are not ordered either way are equal. */
  lemma LessTrichotomy(a: Vec3, b: Vec3)
    ensures Less(a, b) || Less(b, a) || a == b
    ensures !(Less(a, b) && Less(b, a))
  {
  }
}
