/** The optimiser's state: the positions and costs of the fireflies, the
    invariant that pairs them, and how one state may relate to a later one. */
module Population {
  import opened Geometry

  /** `actualPositions` and `actualValueFunction`: two parallel vectors, the
      k-th cost belonging to the k-th position. */
  datatype Swarm = Swarm(pos: seq<Pos>, cost: seq<real>) {
    predicate WellFormed() {
      |pos| == |cost|
    }
  }

  /** Every cost is the objective at its position. */
  predicate Paired(f: Pos -> real, s: Swarm) {
    s.WellFormed() && forall k :: 0 <= k < |s.pos| ==> s.cost[k] == f(s.pos[k])
  }

  /** The batched objective `function` of firefly_robot.cpp: one value per
      position, in order. Its output with its input is a paired swarm. */
  method Evaluate(f: Pos -> real, ps: seq<Pos>) returns (vs: seq<real>)
    ensures Paired(f, Swarm(ps, vs))
  {
    vs := [];
    var i := 0;
    while i < |ps|
      invariant i <= |ps|
      invariant |vs| == i
      invariant forall k :: 0 <= k < i ==> vs[k] == f(ps[k])
    {
      vs := vs + [f(ps[i])];
      i := i + 1;
    }
  }

  /** Firefly m has the same position and cost in both states. */
  predicate Kept(s0: Swarm, s: Swarm, m: nat)
    requires m < |s0.pos| && m < |s0.cost| && m < |s.pos| && m < |s.cost|
  {
    s.pos[m] == s0.pos[m] && s.cost[m] == s0.cost[m]
  }

  /** Firefly m has a strictly lower cost in `s` than in `s0`, and (when the
      rectangle is valid) a position inside it. */
  predicate Improved(b: Bounds, s0: Swarm, s: Swarm, m: nat)
    requires m < |s0.pos| && m < |s0.cost| && m < |s.pos| && m < |s.cost|
  {
    s.cost[m] < s0.cost[m] && (b.Valid() ==> InBounds(s.pos[m], b))
  }

  /** `s` is a possible later state of `s0`: same population size, and each
      firefly either untouched or moved to an in-bounds position of strictly
      lower cost. */
  predicate Progress(b: Bounds, s0: Swarm, s: Swarm) {
    && s0.WellFormed() && s.WellFormed() && |s.pos| == |s0.pos|
    && forall m: nat :: m < |s.pos| ==> Kept(s0, s, m) || Improved(b, s0, s, m)
  }

  lemma ProgressReflexive(b: Bounds, s: Swarm)
    requires s.WellFormed()
    ensures Progress(b, s, s)
  {
    forall m: nat | m < |s.pos|
      ensures Kept(s, s, m)
    {
    }
  }

  /** Progress composes: the untouched/improved alternative survives a second
      stretch of the run. */
  lemma ProgressTransitive(b: Bounds, s0: Swarm, s1: Swarm, s2: Swarm)
    requires Progress(b, s0, s1) && Progress(b, s1, s2)
    ensures Progress(b, s0, s2)
  {
    forall m: nat | m < |s2.pos|
      ensures Kept(s0, s2, m) || Improved(b, s0, s2, m)
    {
      assert Kept(s0, s1, m) || Improved(b, s0, s1, m);
      assert Kept(s1, s2, m) || Improved(b, s1, s2, m);
    }
  }

  /** Under progress no cost rises, and a firefly whose position changed is
      inside a valid rectangle. */
  lemma ProgressConsequences(b: Bounds, s0: Swarm, s: Swarm)
    requires Progress(b, s0, s)
    ensures forall m :: 0 <= m < |s.pos| ==> s.cost[m] <= s0.cost[m]
    ensures b.Valid() ==> forall m :: 0 <= m < |s.pos| && s.pos[m] != s0.pos[m] ==> InBounds(s.pos[m], b)
  {
    forall m | 0 <= m < |s.pos|
      ensures s.cost[m] <= s0.cost[m]
      ensures b.Valid() && s.pos[m] != s0.pos[m] ==> InBounds(s.pos[m], b)
    {
      assert Kept(s0, s, m) || Improved(b, s0, s, m);
    }
  }

  /** The best (lowest) cost of a non-empty population. */
  function MinCost(cs: seq<real>): (r: real)
    requires |cs| > 0
    ensures forall k :: 0 <= k < |cs| ==> r <= cs[k]
    ensures exists k :: 0 <= k < |cs| && cs[k] == r
  {
    if |cs| == 1 then cs[0]
    else
      var rest := MinCost(cs[1..]);
      assert forall k :: 1 <= k < |cs| ==> cs[k] == cs[1..][k - 1];
      if cs[0] <= rest then cs[0] else rest
  }

  /** If no cost rises, the best cost does not rise either. */
  lemma MinCostNonIncreasing(before: seq<real>, after: seq<real>)
    requires |before| == |after| > 0
    requires forall k :: 0 <= k < |after| ==> after[k] <= before[k]
    ensures MinCost(after) <= MinCost(before)
  {
    var k :| 0 <= k < |before| && before[k] == MinCost(before);
    assert MinCost(after) <= after[k];
  }
}
