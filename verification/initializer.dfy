/** Population initialisation: `valueGenerator` and `initPosXY`. Each call of
    the source's `generateRandom` is one element of an explicit draw stream
    `rng`, read from a cursor `k`. */
module Initializer {
  import opened Geometry

  /** Every draw lies in [-1, 1], the range the source's distribution is built on. */
  ghost predicate ValidDraws(rng: nat -> real) {
    forall k: nat :: -1.0 <= rng(k) <= 1.0
  }

  /** r * d with r in [-1, 1] and d >= 0 lies in [-d, d]. */
  lemma ScaledDraw(r: real, d: real)
    ensures -1.0 <= r <= 1.0 && 0.0 <= d ==> -d <= r * d <= d
  {
    if -1.0 <= r <= 1.0 && 0.0 <= d {
      assert 0.0 <= (1.0 - r) * d;
      assert 0.0 <= (1.0 + r) * d;
    }
  }

  /** `valueGenerator(low, high)` with the draw `r` made explicit. Because the
      draw ranges over [-1, 1] and not [0, 1], the value ranges over
      [2 * low - high, high]: up to a full width below `low`. */
  function ValueGenerator(low: real, high: real, r: real): (v: real)
    ensures -1.0 <= r <= 1.0 && low <= high ==> 2.0 * low - high <= v <= high
  {
    var width := high - low;
    ScaledDraw(r, width);
    low + r * width
  }

  /** Both ends of [2 * low - high, high] are reached, and on a non-degenerate
      interval the lower end lies outside [low, high]. */
  lemma ValueGeneratorExtremes(low: real, high: real)
    ensures ValueGenerator(low, high, -1.0) == 2.0 * low - high
    ensures ValueGenerator(low, high, 1.0) == high
    ensures low < high ==> ValueGenerator(low, high, -1.0) < low
  {
  }

  /** The box initial positions can fall in: the search rectangle widened by its
      own width to the left and its own height downward. */
  predicate InInitBox(p: Pos, b: Bounds) {
    2.0 * b.xmin - b.xmax <= p.x <= b.xmax && 2.0 * b.ymin - b.ymax <= p.y <= b.ymax
  }

  /** `initPosXY`: `n` fireflies, the i-th built from draws k + 2i (x) and
      k + 2i + 1 (y), in the order the source evaluates them. */
  function InitPosXY(b: Bounds, n: nat, rng: nat -> real, k: nat): (ps: seq<Pos>)
    ensures |ps| == n
    ensures forall i :: 0 <= i < n ==>
              ps[i].x == ValueGenerator(b.xmin, b.xmax, rng(k + 2 * i)) &&
              ps[i].y == ValueGenerator(b.ymin, b.ymax, rng(k + 2 * i + 1))
    ensures ValidDraws(rng) && b.Valid() ==> forall i :: 0 <= i < n ==> InInitBox(ps[i], b)
    decreases n
  {
    if n == 0 then []
    else
      var front := InitPosXY(b, n - 1, rng, k);
      var i := n - 1;
      front + [Pos(ValueGenerator(b.xmin, b.xmax, rng(k + 2 * i)),
                   ValueGenerator(b.ymin, b.ymax, rng(k + 2 * i + 1)))]
  }

  /** The initial population is not clamped: with every draw at -1 the first
      firefly starts outside a non-degenerate rectangle. So the in-bounds
      guarantee of the optimiser only covers fireflies that have moved. */
  lemma InitialMayBeOutOfBounds(b: Bounds, n: nat)
    requires b.xmin < b.xmax && 1 <= n
    ensures var rng := (k: nat) => -1.0;
            ValidDraws(rng) && !InBounds(InitPosXY(b, n, rng, 0)[0], b)
  {
    var rng := (k: nat) => -1.0;
    var ps := InitPosXY(b, n, rng, 0);
    ValueGeneratorExtremes(b.xmin, b.xmax);
    assert ps[0].x == ValueGenerator(b.xmin, b.xmax, -1.0);
  }
}
