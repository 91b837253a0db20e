/** firefly_function.cpp: the optimiser applied to the test function
    f(x, y) = x * y on a rectangle (the source uses [-5, 5] x [-5, 5]). */
module FireflyFunction {
  import opened Geometry
  import opened Motion
  import opened Initializer
  import opened Population
  import opened Sweep

  /** `func`: the product of the coordinates. It is zero on the axes, positive
      in the quadrants where both coordinates share a sign, and negative in the
      other two, where the minimum of the square lies. */
  function Func(p: Pos): (r: real)
    ensures p.x == 0.0 || p.y == 0.0 ==> r == 0.0
    ensures (p.x > 0.0 && p.y > 0.0) || (p.x < 0.0 && p.y < 0.0) ==> r > 0.0
    ensures (p.x > 0.0 && p.y < 0.0) || (p.x < 0.0 && p.y > 0.0) ==> r < 0.0
  {
    p.x * p.y
  }

  /** `function`: the batched objective. The source writes the product out
      again instead of calling `func`; the two agree element by element. */
  method Function(ps: seq<Pos>) returns (vs: seq<real>)
    ensures Paired(Func, Swarm(ps, vs))
  {
    vs := [];
    var i := 0;
    while i < |ps|
      invariant i <= |ps|
      invariant |vs| == i
      invariant forall k :: 0 <= k < i ==> vs[k] == Func(ps[k])
    {
      vs := vs + [ps[i].x * ps[i].y];
      i := i + 1;
    }
  }

  function Min(a: real, b: real): real {
    if a <= b then a else b
  }

  /** The smallest product over the four corners of the rectangle. */
  function CornerMin(b: Bounds): real {
    Min(Min(Func(Pos(b.xmin, b.ymin)), Func(Pos(b.xmin, b.ymax))),
        Min(Func(Pos(b.xmax, b.ymin)), Func(Pos(b.xmax, b.ymax))))
  }

  /** The corner where `CornerMin` is reached. */
  function CornerArgMin(b: Bounds): (c: Pos)
    ensures b.Valid() ==> InBounds(c, b)
    ensures Func(c) == CornerMin(b)
  {
    var left := if Func(Pos(b.xmin, b.ymin)) <= Func(Pos(b.xmin, b.ymax))
                then Pos(b.xmin, b.ymin) else Pos(b.xmin, b.ymax);
    var right := if Func(Pos(b.xmax, b.ymin)) <= Func(Pos(b.xmax, b.ymax))
                 then Pos(b.xmax, b.ymin) else Pos(b.xmax, b.ymax);
    if Func(left) <= Func(right) then left else right
  }

  /** With y fixed, the cost at an x in [lo, hi] is at least the smaller of
      the costs at the two ends. */
  lemma BetweenEndsX(v: real, lo: real, hi: real, w: real)
    requires lo <= v <= hi
    ensures Func(Pos(v, w)) >= Min(Func(Pos(lo, w)), Func(Pos(hi, w)))
  {
    if w >= 0.0 {
      assert (v - lo) * w >= 0.0;
    } else {
      assert (hi - v) * (-w) >= 0.0;
    }
  }

  /** With x fixed, the same holds along the y axis. */
  lemma BetweenEndsY(w: real, v: real, lo: real, hi: real)
    requires lo <= v <= hi
    ensures Func(Pos(w, v)) >= Min(Func(Pos(w, lo)), Func(Pos(w, hi)))
  {
    if w >= 0.0 {
      assert w * (v - lo) >= 0.0;
    } else {
      assert (-w) * (hi - v) >= 0.0;
    }
  }

  /** x * y is linear in each coordinate, so on the rectangle it is smallest at
      a corner: every in-bounds point costs at least `CornerMin`. */
  lemma FuncLowerBound(p: Pos, b: Bounds)
    requires InBounds(p, b)
    ensures Func(p) >= CornerMin(b)
  {
    BetweenEndsX(p.x, b.xmin, b.xmax, p.y);
    BetweenEndsY(b.xmin, p.y, b.ymin, b.ymax);
    BetweenEndsY(b.xmax, p.y, b.ymin, b.ymax);
    assert p == Pos(p.x, p.y);
  }

  /** On the source's square [-5, 5] x [-5, 5] the least cost is -25, reached
      at the corners (5, -5) and (-5, 5). */
  lemma SquareMinimum(p: Pos)
    requires InBounds(p, Bounds(-5.0, 5.0, -5.0, 5.0))
    ensures Func(p) >= -25.0
    ensures Func(Pos(5.0, -5.0)) == -25.0 && Func(Pos(-5.0, 5.0)) == -25.0
  {
    var b := Bounds(-5.0, 5.0, -5.0, 5.0);
    FuncLowerBound(p, b);
    assert CornerMin(b) == -25.0;
  }

  /** `runFireFly` of firefly_function.cpp, without its printing: initialise
      from draws 0 .. 2n - 1, score, then run the generations from draw 2n.
      The final population stays paired, no firefly's cost is above its
      starting cost, a firefly that moved is inside the rectangle and so costs
      no less than the corner minimum, and with no generation every firefly
      keeps its starting position. */
  method RunFireFly(b: Bounds, pa: Params, m: Transcendentals, fireflies: nat, evolutions: nat, rng: nat -> real)
    returns (s: Swarm)
    ensures |s.pos| == fireflies && Paired(Func, s)
    ensures var init := InitPosXY(b, fireflies, rng, 0);
            forall i :: 0 <= i < fireflies ==> s.cost[i] <= Func(init[i])
    ensures var init := InitPosXY(b, fireflies, rng, 0);
            b.Valid() ==> forall i :: 0 <= i < fireflies && s.pos[i] != init[i] ==>
                            InBounds(s.pos[i], b) && s.cost[i] >= CornerMin(b)
    ensures evolutions == 0 ==> s.pos == InitPosXY(b, fireflies, rng, 0)
  {
    var init := InitPosXY(b, fireflies, rng, 0);
    var costs := Function(init);
    var o := Optimizer(b, pa, m, Func);
    var k;
    s, k := RunGenerations(o, Swarm(init, costs), evolutions, rng, 2 * fireflies);
    forall i | 0 <= i < fireflies && b.Valid() && s.pos[i] != init[i]
      ensures s.cost[i] >= CornerMin(b)
    {
      FuncLowerBound(s.pos[i], b);
    }
  }

  /** The run of the hand-computed example below: the source's square and
      constants, attractiveness fixed at beta0 * 0.5, and the product objective. */
  function ExampleOptimizer(): Optimizer {
    Optimizer(Bounds(-5.0, 5.0, -5.0, 5.0), Params(1.0, 0.01, 1.0, 0.97),
              Transcendentals(t => 0.5, t => t), Func)
  }

  /** One move of the example: half-way from (1, 1) to (2, -2) with the draw at
      0.5, which cancels the random walk. */
  lemma ExampleMove()
    ensures Move(ExampleOptimizer(), Pos(1.0, 1.0), Pos(2.0, -2.0), 0.5) == Pos(1.5, -0.5)
  {
    var o := ExampleOptimizer();
    assert Attractiveness(o.params, o.math, Pos(1.0, 1.0), Pos(2.0, -2.0)) == 0.5;
    assert Noise(o.params, 0.5) == 0.0;
    assert Candidate(o.params, o.math, o.bounds, Pos(1.0, 1.0), Pos(2.0, -2.0), 0.5) == Pos(1.5, -0.5);
  }

  /** A hand-computed sweep of two fireflies. Firefly 0 at (1, 1), cost 1, is
      worse than firefly 1 at (2, -2), cost -4: it moves to (1.5, -0.5), cost
      -0.75, and keeps the move, consuming one draw. Firefly 1 is the better
      one and never moves. */
  lemma TwoFireflyGeneration()
    ensures Generation(ExampleOptimizer(), Swarm([Pos(1.0, 1.0), Pos(2.0, -2.0)], [1.0, -4.0]), 2, _ => 0.5, 0)
            == (Swarm([Pos(1.5, -0.5), Pos(2.0, -2.0)], [-0.75, -4.0]), 1)
  {
    var o := ExampleOptimizer();
    var s := Swarm([Pos(1.0, 1.0), Pos(2.0, -2.0)], [1.0, -4.0]);
    var rng: nat -> real := _ => 0.5;
    var moved := Swarm([Pos(1.5, -0.5), Pos(2.0, -2.0)], [-0.75, -4.0]);
    ExampleMove();
    assert rng(0) == 0.5 && s.pos[0] == Pos(1.0, 1.0) && s.pos[1] == Pos(2.0, -2.0);
    assert o.objective(Pos(1.5, -0.5)) == -0.75;
    assert s.pos[0 := Pos(1.5, -0.5)] == moved.pos;
    assert s.cost[0 := -0.75] == moved.cost;
    assert Step(o, s, 0, 1, rng, 0) == (moved, 1);
    assert Row(o, s, 0, 2, rng, 0) == (moved, 1);
    assert Row(o, moved, 1, 2, rng, 1) == (moved, 1);
  }
}
