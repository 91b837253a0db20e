/** The firefly move rule `posUpdate`: firefly `a` moves toward the brighter
    firefly `b` by an attractiveness-weighted step plus a random walk, and the
    result is clamped back into the search rectangle. */
module Motion {
  import opened Geometry
  import opened Clamp

  /** The optimiser constants beta0, Gamma, alfa0 and delta. */
  datatype Params = Params(beta0: real, gamma: real, alfa0: real, delta: real)

  /** exp(t) with t = -Gamma * d^2: how the light of a firefly fades at
      distance d. */
  function Decay(pa: Params, m: Transcendentals, d: real): real {
    m.exp(-pa.gamma * Square(d))
  }

  /** beta0 * exp(-Gamma * euclid(a, b)^2), with exp and sqrt abstract. */
  function Attractiveness(pa: Params, m: Transcendentals, a: Pos, b: Pos): real {
    pa.beta0 * Decay(pa, m, Euclid(m, a, b))
  }

  /** The pull between two fireflies is the same in both directions, even though
      only the dimmer one ever moves. */
  lemma AttractivenessSymmetric(pa: Params, m: Transcendentals, a: Pos, b: Pos)
    ensures Attractiveness(pa, m, a, b) == Attractiveness(pa, m, b, a)
  {
    EuclidSymmetric(m, a, b);
  }

  /** The random-walk factor alfa0 * delta * (r - 0.5); it is multiplied by
      SCALEX on one axis and by SCALEY on the other. */
  function Noise(pa: Params, r: real): real {
    pa.alfa0 * pa.delta * (r - 0.5)
  }

  /** One coordinate of the attraction step: from `a` a fraction `beta` of the
      way toward `c`. */
  function Toward(a: real, c: real, beta: real): real {
    a + beta * (c - a)
  }

  /** A step of any size toward the point itself, or of size zero, stays put. */
  lemma TowardStays(a: real, c: real, beta: real)
    ensures c == a || beta == 0.0 ==> Toward(a, c, beta) == a
  {
  }

  /** The draw 0.5 cancels the random walk on both axes. */
  lemma NoNoiseAtCentre(pa: Params, b: Bounds)
    ensures Noise(pa, 0.5) * b.ScaleX() == 0.0 && Noise(pa, 0.5) * b.ScaleY() == 0.0
  {
    assert Noise(pa, 0.5) == pa.alfa0 * pa.delta * 0.0;
  }

  /** `Xnew` before the clamp: the attraction step plus the random walk, with one
      draw `r` for both axes. With the draw at 0.5 only the attraction step is
      left; with no attraction, or toward a firefly at the same place, only the
      random walk is left. */
  function Candidate(pa: Params, m: Transcendentals, b: Bounds, flya: Pos, flyb: Pos, r: real): (c: Pos)
    ensures var beta := Attractiveness(pa, m, flya, flyb);
            r == 0.5 ==> c == Pos(Toward(flya.x, flyb.x, beta), Toward(flya.y, flyb.y, beta))
    ensures Attractiveness(pa, m, flya, flyb) == 0.0 || flya == flyb ==>
              c == Pos(flya.x + Noise(pa, r) * b.ScaleX(), flya.y + Noise(pa, r) * b.ScaleY())
  {
    var beta := Attractiveness(pa, m, flya, flyb);
    NoNoiseAtCentre(pa, b);
    TowardStays(flya.x, flyb.x, beta);
    TowardStays(flya.y, flyb.y, beta);
    Pos(Toward(flya.x, flyb.x, beta) + Noise(pa, r) * b.ScaleX(),
        Toward(flya.y, flyb.y, beta) + Noise(pa, r) * b.ScaleY())
  }

  /** `posUpdate`: the candidate, passed through `positionUpdateCheck`. The
      result is always in a valid rectangle and is left alone by a second clamp. */
  function PosUpdate(pa: Params, m: Transcendentals, b: Bounds, flya: Pos, flyb: Pos, r: real): (q: Pos)
    ensures b.Valid() ==> InBounds(q, b)
    ensures PositionUpdateCheck(q, b) == q
  {
    var raw := Candidate(pa, m, b, flya, flyb, r);
    PositionUpdateCheckIdempotent(raw, b);
    PositionUpdateCheck(raw, b)
  }

  /** The random-walk displacement of the two axes comes from the same draw, so
      before clamping it is always parallel to the diagonal (SCALEX, SCALEY):
      independent draws per axis would not have this property. */
  lemma SharedDraw(pa: Params, m: Transcendentals, b: Bounds, flya: Pos, flyb: Pos, r: real)
    ensures var c := Candidate(pa, m, b, flya, flyb, r);
            var beta := Attractiveness(pa, m, flya, flyb);
            (c.x - Toward(flya.x, flyb.x, beta)) * b.ScaleY()
            == (c.y - Toward(flya.y, flyb.y, beta)) * b.ScaleX()
  {
    var n := Noise(pa, r);
    assert n * b.ScaleX() * b.ScaleY() == n * b.ScaleY() * b.ScaleX();
  }

  /** With draws in [-1, 1] the walk factor lies in [-1.5, 0.5] times
      alfa0 * delta: the walk is three times wider toward the lower corner
      than toward the upper one. */
  lemma NoiseRange(pa: Params, r: real)
    requires -1.0 <= r <= 1.0
    requires pa.alfa0 >= 0.0 && pa.delta >= 0.0
    ensures -1.5 * (pa.alfa0 * pa.delta) <= Noise(pa, r) <= 0.5 * (pa.alfa0 * pa.delta)
  {
    var ad := pa.alfa0 * pa.delta;
    assert ad >= 0.0;
    assert Noise(pa, r) == ad * (r - 0.5);
    assert ad * (r - 0.5) + 1.5 * ad == ad * (r + 1.0);
    assert 0.5 * ad - ad * (r - 0.5) == ad * (1.0 - r);
  }

  /** A step with beta in [0, 1] stays on the segment between a and c. */
  lemma Between(a: real, c: real, beta: real)
    requires 0.0 <= beta <= 1.0
    ensures a <= c ==> a <= Toward(a, c, beta) <= c
    ensures c <= a ==> c <= Toward(a, c, beta) <= a
  {
    var d := c - a;
    var e := 1.0 - beta;
    assert 0.0 <= e;
    if a <= c {
      assert 0.0 <= beta * d;
      assert 0.0 <= e * d;
      assert e * d == d - beta * d;
    } else {
      assert 0.0 <= beta * (-d);
      assert 0.0 <= e * (-d);
      assert e * (-d) == beta * d - d;
    }
  }

  /** With the draw at its centre (r = 0.5) there is no random walk, and a move
      between two in-bounds fireflies with attractiveness in [0, 1] lands on the
      segment from `a` toward `b`; the clamp then leaves it alone. */
  lemma MoveWithoutNoise(pa: Params, m: Transcendentals, b: Bounds, flya: Pos, flyb: Pos)
    requires InBounds(flya, b) && InBounds(flyb, b)
    requires 0.0 <= Attractiveness(pa, m, flya, flyb) <= 1.0
    ensures var beta := Attractiveness(pa, m, flya, flyb);
            PosUpdate(pa, m, b, flya, flyb, 0.5)
            == Pos(Toward(flya.x, flyb.x, beta), Toward(flya.y, flyb.y, beta))
  {
    var beta := Attractiveness(pa, m, flya, flyb);
    var n := Noise(pa, 0.5);
    assert n == pa.alfa0 * pa.delta * 0.0;
    assert n * b.ScaleX() == 0.0 && n * b.ScaleY() == 0.0;
    var c := Candidate(pa, m, b, flya, flyb, 0.5);
    assert c == Pos(Toward(flya.x, flyb.x, beta), Toward(flya.y, flyb.y, beta));
    Between(flya.x, flyb.x, beta);
    Between(flya.y, flyb.y, beta);
    assert InBounds(c, b);
  }
}
