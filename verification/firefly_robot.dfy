/** firefly_robot.cpp: the optimiser applied to a potential field for path
    planning (repulsion from an obstacle, attraction to a goal). The field is
    the optimiser's objective and is taken as given. */
module FireflyRobot {
  import opened Geometry
  import opened Initializer
  import opened Population
  import opened Sweep

  /** `runFireFly` of firefly_robot.cpp: initialise from draws 0 .. 2n - 1,
      score with the batched objective, run the generations from draw 2n, and
      return the positions. No firefly ends with a higher cost than it started
      with, a firefly that moved is inside the rectangle, with valid draws every
      returned point is in the initialiser's box, and with no generation the
      initial positions come back unchanged. */
  method RunFireFly(o: Optimizer, fireflies: nat, evolutions: nat, rng: nat -> real)
    returns (path: seq<Pos>)
    ensures |path| == fireflies
    ensures var init := InitPosXY(o.bounds, fireflies, rng, 0);
            forall i :: 0 <= i < fireflies ==> o.objective(path[i]) <= o.objective(init[i])
    ensures var init := InitPosXY(o.bounds, fireflies, rng, 0);
            o.bounds.Valid() ==>
              forall i :: 0 <= i < fireflies && path[i] != init[i] ==> InBounds(path[i], o.bounds)
    ensures ValidDraws(rng) && o.bounds.Valid() ==>
              forall i :: 0 <= i < fireflies ==> InInitBox(path[i], o.bounds)
    ensures evolutions == 0 ==> path == InitPosXY(o.bounds, fireflies, rng, 0)
  {
    var init := InitPosXY(o.bounds, fireflies, rng, 0);
    var costs := Evaluate(o.objective, init);
    var s, k := RunGenerations(o, Swarm(init, costs), evolutions, rng, 2 * fireflies);
    path := s.pos;
  }
}
