/** The optimiser loop `runFireFly`: generations of an all-pairs sweep with
    greedy, immediately visible updates. `Step`, `Row`, `Generation` and
    `Evolve` define the sweep functionally, in the source's order (ascending
    fly_i, then ascending fly_j); `RunGenerations` is the source's triple loop,
    proved to compute exactly that. */
module Sweep {
  import opened Geometry
  import opened Motion
  import opened Population

  /** Everything fixed for one run: the rectangle, the constants, exp and sqrt,
      and the objective `func`. */
  datatype Optimizer = Optimizer(bounds: Bounds, params: Params, math: Transcendentals, objective: Pos -> real)

  /** `posUpdate(actualPositions[i], actualPositions[j])` with draw `r`. */
  function Move(o: Optimizer, a: Pos, b: Pos, r: real): Pos {
    PosUpdate(o.params, o.math, o.bounds, a, b, r)
  }

  /** The body of the innermost loop for the pair (i, j), reading draw `k`.
      Firefly i tries to move only when it is strictly worse than j, which
      consumes one draw; the candidate is taken exactly when it is strictly
      better than firefly i's current cost. */
  function Step(o: Optimizer, s: Swarm, i: nat, j: nat, rng: nat -> real, k: nat): (res: (Swarm, nat))
    requires s.WellFormed() && i < |s.pos| && j < |s.pos|
    ensures Progress(o.bounds, s, res.0)
    ensures (i == j || s.cost[i] <= s.cost[j]) ==> res == (s, k)
    ensures i != j && s.cost[i] > s.cost[j] ==> res.1 == k + 1
    ensures forall m: nat :: m < |s.pos| && m != i ==> Kept(s, res.0, m)
    ensures Kept(s, res.0, i)
            || (res.0.pos[i] == Move(o, s.pos[i], s.pos[j], rng(k))
                && res.0.cost[i] == o.objective(res.0.pos[i])
                && res.0.cost[i] < s.cost[i])
    ensures var candidate := Move(o, s.pos[i], s.pos[j], rng(k));
            i != j && s.cost[i] > s.cost[j] && o.objective(candidate) < s.cost[i] ==>
              res == (Swarm(s.pos[i := candidate], s.cost[i := o.objective(candidate)]), k + 1)
    ensures var candidate := Move(o, s.pos[i], s.pos[j], rng(k));
            i != j && s.cost[i] > s.cost[j] && o.objective(candidate) >= s.cost[i] ==>
              res == (s, k + 1)
    ensures Paired(o.objective, s) ==> Paired(o.objective, res.0)
  {
    if i != j && s.cost[i] > s.cost[j] then
      var candidate := Move(o, s.pos[i], s.pos[j], rng(k));
      var value := o.objective(candidate);
      if value < s.cost[i] then
        (Swarm(s.pos[i := candidate], s.cost[i := value]), k + 1)
      else
        ProgressReflexive(o.bounds, s);
        (s, k + 1)
    else
      ProgressReflexive(o.bounds, s);
      (s, k)
  }

  /** The pairs (i, 0), ..., (i, j - 1), in that order. Only firefly i can
      change, and at most one draw is read per pair. */
  function Row(o: Optimizer, s: Swarm, i: nat, j: nat, rng: nat -> real, k: nat): (res: (Swarm, nat))
    requires s.WellFormed() && i < |s.pos| && j <= |s.pos|
    ensures Progress(o.bounds, s, res.0)
    ensures forall m: nat :: m < |s.pos| && m != i ==> Kept(s, res.0, m)
    ensures Paired(o.objective, s) ==> Paired(o.objective, res.0)
    ensures k <= res.1 <= k + j
    decreases j
  {
    if j == 0 then
      ProgressReflexive(o.bounds, s);
      (s, k)
    else
      var (t, k1) := Row(o, s, i, j - 1, rng, k);
      var res := Step(o, t, i, j - 1, rng, k1);
      ProgressTransitive(o.bounds, s, t, res.0);
      KeptTransitive(s, t, res.0, i);
      res
  }

  /** Fireflies other than i untouched over two stretches are untouched over both. */
  lemma KeptTransitive(s0: Swarm, s1: Swarm, s2: Swarm, i: nat)
    requires s0.WellFormed() && s1.WellFormed() && s2.WellFormed()
    requires |s0.pos| == |s1.pos| == |s2.pos|
    requires forall m: nat :: m < |s0.pos| && m != i ==> Kept(s0, s1, m)
    requires forall m: nat :: m < |s1.pos| && m != i ==> Kept(s1, s2, m)
    ensures forall m: nat :: m < |s0.pos| && m != i ==> Kept(s0, s2, m)
  {
    forall m: nat | m < |s0.pos| && m != i
      ensures Kept(s0, s2, m)
    {
      assert Kept(s0, s1, m) && Kept(s1, s2, m);
    }
  }

  /** The rows of fireflies 0, ..., i - 1: the first i iterations of the fly_i
      loop of one generation. */
  function Generation(o: Optimizer, s: Swarm, i: nat, rng: nat -> real, k: nat): (res: (Swarm, nat))
    requires s.WellFormed() && i <= |s.pos|
    ensures Progress(o.bounds, s, res.0)
    ensures Paired(o.objective, s) ==> Paired(o.objective, res.0)
    ensures k <= res.1 <= k + i * |s.pos|
    decreases i
  {
    if i == 0 then
      ProgressReflexive(o.bounds, s);
      (s, k)
    else
      var (t, k1) := Generation(o, s, i - 1, rng, k);
      var res := Row(o, t, i - 1, |t.pos|, rng, k1);
      ProgressTransitive(o.bounds, s, t, res.0);
      assert (i - 1) * |s.pos| + |s.pos| == i * |s.pos|;
      res
  }

  /** `g` complete generations. */
  function Evolve(o: Optimizer, s: Swarm, g: nat, rng: nat -> real, k: nat): (res: (Swarm, nat))
    requires s.WellFormed()
    ensures Progress(o.bounds, s, res.0)
    ensures Paired(o.objective, s) ==> Paired(o.objective, res.0)
    ensures k <= res.1 <= k + g * (|s.pos| * |s.pos|)
    decreases g
  {
    if g == 0 then
      ProgressReflexive(o.bounds, s);
      (s, k)
    else
      var (t, k1) := Evolve(o, s, g - 1, rng, k);
      var res := Generation(o, t, |t.pos|, rng, k1);
      ProgressTransitive(o.bounds, s, t, res.0);
      assert (g - 1) * (|s.pos| * |s.pos|) + |s.pos| * |s.pos| == g * (|s.pos| * |s.pos|);
      res
  }

  /** What a whole run promises: the size stays, costs stay paired with
      positions, no cost rises, the best cost does not rise, a firefly that
      moved is in bounds, and with no generation nothing changes. */
  lemma EvolveGuarantees(o: Optimizer, s0: Swarm, g: nat, rng: nat -> real, k0: nat, s: Swarm, k: nat)
    requires s0.WellFormed()
    requires (s, k) == Evolve(o, s0, g, rng, k0)
    ensures |s.pos| == |s.cost| == |s0.pos|
    ensures Paired(o.objective, s0) ==> Paired(o.objective, s)
    ensures forall m :: 0 <= m < |s.pos| ==> s.cost[m] <= s0.cost[m]
    ensures |s0.pos| > 0 ==> MinCost(s.cost) <= MinCost(s0.cost)
    ensures o.bounds.Valid() ==>
              forall m :: 0 <= m < |s.pos| && s.pos[m] != s0.pos[m] ==> InBounds(s.pos[m], o.bounds)
    ensures g == 0 ==> s == s0 && k == k0
  {
    ProgressConsequences(o.bounds, s0, s);
    if |s0.pos| > 0 {
      MinCostNonIncreasing(s0.cost, s.cost);
    }
  }

  /** One more fly_j iteration extends a partial row by that pair's step. */
  lemma RowNext(o: Optimizer, s0: Swarm, i: nat, j: nat, rng: nat -> real, k0: nat, s: Swarm, k: nat)
    requires s0.WellFormed() && i < |s0.pos| && j < |s0.pos|
    requires (s, k) == Row(o, s0, i, j, rng, k0)
    ensures s.WellFormed() && i < |s.pos| && j < |s.pos|
    ensures Row(o, s0, i, j + 1, rng, k0) == Step(o, s, i, j, rng, k)
  {
  }

  /** The fly_j loop of `runFireFly` for one fly_i, updating the population
      in place: it computes `Row` over all n partners. */
  method SweepRow(o: Optimizer, s0: Swarm, flyI: nat, rng: nat -> real, k0: nat) returns (s: Swarm, k: nat)
    requires s0.WellFormed() && flyI < |s0.pos|
    ensures (s, k) == Row(o, s0, flyI, |s0.pos|, rng, k0)
    ensures forall m: nat :: m < |s0.pos| && m != flyI ==> Kept(s0, s, m)
  {
    s, k := s0, k0;
    var n := |s0.pos|;
    var flyJ := 0;
    while flyJ < n
      invariant flyJ <= n
      invariant (s, k) == Row(o, s0, flyI, flyJ, rng, k0)
      invariant s.WellFormed() && |s.pos| == n
    {
      RowNext(o, s0, flyI, flyJ, rng, k0, s, k);
      if flyI != flyJ {
        if s.cost[flyI] > s.cost[flyJ] {
          var newPos := Move(o, s.pos[flyI], s.pos[flyJ], rng(k));
          k := k + 1;
          var newValue := o.objective(newPos);
          if newValue < s.cost[flyI] {
            s := Swarm(s.pos[flyI := newPos], s.cost[flyI := newValue]);
          }
        }
      }
      flyJ := flyJ + 1;
    }
  }

  /** After one generation no cost is higher than before it, and so neither
      is the best cost. */
  lemma GenerationGuarantees(o: Optimizer, s0: Swarm, rng: nat -> real, k0: nat, s: Swarm, k: nat)
    requires s0.WellFormed()
    requires (s, k) == Generation(o, s0, |s0.pos|, rng, k0)
    ensures |s.cost| == |s0.cost|
    ensures forall m :: 0 <= m < |s0.pos| ==> s.cost[m] <= s0.cost[m]
    ensures |s0.pos| > 0 ==> MinCost(s.cost) <= MinCost(s0.cost)
  {
    ProgressConsequences(o.bounds, s0, s);
    if |s0.pos| > 0 {
      MinCostNonIncreasing(s0.cost, s.cost);
    }
  }

  /** One more fly_i iteration extends a partial generation by that row. */
  lemma GenerationNext(o: Optimizer, s0: Swarm, i: nat, rng: nat -> real, k0: nat, s: Swarm, k: nat)
    requires s0.WellFormed() && i < |s0.pos|
    requires (s, k) == Generation(o, s0, i, rng, k0)
    ensures s.WellFormed() && i < |s.pos|
    ensures Generation(o, s0, i + 1, rng, k0) == Row(o, s, i, |s.pos|, rng, k)
  {
  }

  /** The fly_i loop of one generation: it computes `Generation` over all n
      fireflies. */
  method SweepGeneration(o: Optimizer, s0: Swarm, rng: nat -> real, k0: nat) returns (s: Swarm, k: nat)
    requires s0.WellFormed()
    ensures (s, k) == Generation(o, s0, |s0.pos|, rng, k0)
  {
    s, k := s0, k0;
    var n := |s0.pos|;
    var flyI := 0;
    while flyI < n
      invariant flyI <= n
      invariant (s, k) == Generation(o, s0, flyI, rng, k0)
      invariant s.WellFormed() && |s.pos| == n
    {
      GenerationNext(o, s0, flyI, rng, k0, s, k);
      s, k := SweepRow(o, s, flyI, rng, k);
      flyI := flyI + 1;
    }
  }

  /** The generation loop of `runFireFly`: it computes `Evolve`. */
  method SweepGenerations(o: Optimizer, s0: Swarm, evolutions: nat, rng: nat -> real, k0: nat)
    returns (s: Swarm, k: nat)
    requires s0.WellFormed()
    ensures (s, k) == Evolve(o, s0, evolutions, rng, k0)
  {
    s, k := s0, k0;
    var g := 0;
    while g < evolutions
      invariant g <= evolutions
      invariant (s, k) == Evolve(o, s0, g, rng, k0)
      invariant s.WellFormed() && |s.pos| == |s0.pos|
    {
      s, k := SweepGeneration(o, s, rng, k);
      g := g + 1;
    }
  }

  /** The optimisation loop of `runFireFly` on a given starting population and
      draw cursor, run through `SweepGenerations`: it keeps every promise of
      `EvolveGuarantees`. */
  method RunGenerations(o: Optimizer, s0: Swarm, evolutions: nat, rng: nat -> real, k0: nat)
    returns (s: Swarm, k: nat)
    requires s0.WellFormed()
    ensures |s.pos| == |s.cost| == |s0.pos|
    ensures Paired(o.objective, s0) ==> Paired(o.objective, s)
    ensures forall m :: 0 <= m < |s.pos| ==> s.cost[m] <= s0.cost[m]
    ensures |s0.pos| > 0 ==> MinCost(s.cost) <= MinCost(s0.cost)
    ensures o.bounds.Valid() ==>
              forall m :: 0 <= m < |s.pos| && s.pos[m] != s0.pos[m] ==> InBounds(s.pos[m], o.bounds)
    ensures evolutions == 0 ==> s == s0 && k == k0
  {
    s, k := SweepGenerations(o, s0, evolutions, rng, k0);
    EvolveGuarantees(o, s0, evolutions, rng, k0, s, k);
  }
}
