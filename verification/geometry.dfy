/** Points, the search rectangle, and the transcendental functions the optimiser
    relies on. Coordinates are mathematical reals; the source uses `float`. */
module Geometry {

  /** A firefly position, the source's `struct Pos`. */
  datatype Pos = Pos(x: real, y: real)

  /** The search rectangle. In the source these are the globals
      xmin, xmax, ymin, ymax. */
  datatype Bounds = Bounds(xmin: real, xmax: real, ymin: real, ymax: real) {

    /** The rectangle is non-empty on both axes. */
    predicate Valid() {
      xmin <= xmax && ymin <= ymax
    }

    /** SCALEX, the width of the rectangle. */
    function ScaleX(): real {
      xmax - xmin
    }

    /** SCALEY, the height of the rectangle. */
    function ScaleY(): real {
      ymax - ymin
    }
  }

  predicate InBounds(p: Pos, b: Bounds) {
    b.xmin <= p.x <= b.xmax && b.ymin <= p.y <= b.ymax
  }

  function Square(v: real): real {
    v * v
  }

  /** The squared distance between two points. */
  function SquaredDistance(a: Pos, b: Pos): real {
    Square(a.x - b.x) + Square(a.y - b.y)
  }

  /** `std::exp` and `std::sqrt`, which have no counterpart over Dafny's reals:
      they are supplied by the caller as arbitrary total functions. */
  datatype Transcendentals = Transcendentals(exp: real -> real, sqrt: real -> real)

  /** `euclid`: the Euclidean distance, with the square root left abstract.
      Whatever the square root is, the order of the points does not matter,
      and a point is at distance sqrt(0) from itself. */
  function Euclid(m: Transcendentals, a: Pos, b: Pos): (d: real)
    ensures d == m.sqrt(SquaredDistance(b, a))
    ensures a == b ==> d == m.sqrt(0.0)
  {
    assert Square(a.x - b.x) == Square(b.x - a.x);
    assert Square(a.y - b.y) == Square(b.y - a.y);
    m.sqrt(SquaredDistance(a, b))
  }

  /** The distance does not depend on the order of its arguments, whatever the
      square root is. */
  lemma EuclidSymmetric(m: Transcendentals, a: Pos, b: Pos)
    ensures Euclid(m, a, b) == Euclid(m, b, a)
  {
    // Euclid(m, b, a) is sqrt of SquaredDistance(a, b), by Euclid's contract.
  }
}
