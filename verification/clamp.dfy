/** The boundary clamp `positionUpdateCheck`: a point that left the search
    rectangle is pulled back onto it, each axis on its own. */
module Clamp {
  import opened Geometry

  function Dist(a: real, b: real): real {
    if a < b then b - a else a - b
  }

  /** One axis of the clamp, in the order the source applies it: first raise a
      value below `lo` to `lo`, then lower a value above `hi` to `hi`. When
      `lo > hi` the second step wins and the result is `hi`. */
  function ClampAxis(v: real, lo: real, hi: real): (r: real)
    ensures lo <= hi ==> lo <= r <= hi
    ensures lo <= v <= hi ==> r == v
    ensures lo > hi ==> r == hi
  {
    var raised := if v < lo then lo else v;
    if raised > hi then hi else raised
  }

  /** `positionUpdateCheck`: four guarded assignments to a copy of the point. */
  function PositionUpdateCheck(p: Pos, b: Bounds): (q: Pos)
    ensures b.Valid() ==> InBounds(q, b)
    ensures InBounds(p, b) ==> q == p
    ensures q.x == ClampAxis(p.x, b.xmin, b.xmax)
    ensures q.y == ClampAxis(p.y, b.ymin, b.ymax)
  {
    var p1 := if p.x < b.xmin then p.(x := b.xmin) else p;
    var p2 := if p1.x > b.xmax then p1.(x := b.xmax) else p1;
    var p3 := if p2.y < b.ymin then p2.(y := b.ymin) else p2;
    if p3.y > b.ymax then p3.(y := b.ymax) else p3
  }

  /** On a non-empty interval the clamped value is the point of the interval
      nearest to the input: the clamp is the Euclidean projection per axis. */
  lemma ClampAxisNearest(v: real, lo: real, hi: real, w: real)
    requires lo <= w <= hi
    ensures Dist(ClampAxis(v, lo, hi), v) <= Dist(w, v)
  {
  }

  /** A larger input never clamps to a smaller output. */
  lemma ClampAxisMonotone(v: real, w: real, lo: real, hi: real)
    requires v <= w
    ensures ClampAxis(v, lo, hi) <= ClampAxis(w, lo, hi)
  {
  }

  /** Clamping twice is clamping once, for every rectangle, even an inverted one. */
  lemma PositionUpdateCheckIdempotent(p: Pos, b: Bounds)
    ensures PositionUpdateCheck(PositionUpdateCheck(p, b), b) == PositionUpdateCheck(p, b)
  {
  }

  /** On a valid rectangle the points the clamp leaves alone are exactly the
      points inside it. */
  lemma FixedPointIffInBounds(p: Pos, b: Bounds)
    requires b.Valid()
    ensures PositionUpdateCheck(p, b) == p <==> InBounds(p, b)
  {
  }
}
