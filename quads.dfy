/**
 * Texture coordinates of the two triangles a sprite is drawn with, and what it means for six
 * of them to cover the unit square exactly once.
 */
module Quads {

  datatype UV = UV(u: real, v: real)

  predicate IsCorner(p: UV) {
    (p.u == 0.0 || p.u == 1.0) && (p.v == 0.0 || p.v == 1.0)
  }

  /** Twice the signed area of triangle `a b c`; its sign is the winding order. */
  function Orientation(a: UV, b: UV, c: UV): real {
    (b.u - a.u) * (c.v - a.v) - (b.v - a.v) * (c.u - a.u)
  }

  /** Two orientations of one sign, neither of them zero. */
  predicate SameWinding(o1: real, o2: real) {
    (o1 > 0.0 && o2 > 0.0) || (o1 < 0.0 && o2 < 0.0)
  }

  /** The corner of the unit square a triangle on three distinct corners leaves out. */
  function MissingCorner(a: UV, b: UV, c: UV): UV {
    UV(2.0 - a.u - b.u - c.u, 2.0 - a.v - b.v - c.v)
  }

  /**
   * A triangle list of two triangles over corners of the unit square that tiles the square:
   * both triangles are non-degenerate with the same winding, and the corners they leave out are
   * diagonally opposite, so they share the other diagonal and lie on either side of it.
   */
  predicate TilesUnitSquare(t: seq<UV>) {
    && |t| == 6
    && (forall k :: 0 <= k < 6 ==> IsCorner(t[k]))
    && SameWinding(Orientation(t[0], t[1], t[2]), Orientation(t[3], t[4], t[5]))
    && MissingCorner(t[0], t[1], t[2]).u + MissingCorner(t[3], t[4], t[5]).u == 1.0
    && MissingCorner(t[0], t[1], t[2]).v + MissingCorner(t[3], t[4], t[5]).v == 1.0
  }
}
