# Firefly optimiser — a Dafny model

This project models the core of a C++ Firefly Algorithm optimiser. The same
optimiser appears in two programs: `firefly_function.cpp` minimises the test
function `x * y` on [-5, 5] x [-5, 5], and `firefly_robot.cpp` minimises a
potential field for robot path planning on [0, 50] x [0, 50]. Both programs
share the same parts, and each part is modelled once:

- the boundary clamp `positionUpdateCheck`: module `Clamp`;
- the move rule `posUpdate`: module `Motion`;
- the initialiser `valueGenerator` / `initPosXY`: module `Initializer`;
- the batched objective `function`: `Population.Evaluate` for the robot and
  `FireflyFunction.Function` for the product;
- the optimisation loop of `runFireFly`: module `Sweep`.

The two programs differ in their objective `func`, in their constants (the
rectangle, EVOLUTIONS: 500 for the test function and 100 for the robot, and the
obstacle radius obsR: 5 and 3), and in what `runFireFly` returns or prints: the
test-function program prints the costs after every generation. Modules
`FireflyFunction` and `FireflyRobot` hold what is specific to each; the
constants are parameters of the model.

Coordinates and costs are Dafny `real`s. The globals of the source (bounds,
FIREFLYS, EVOLUTIONS, beta0, Gamma, alfa0, delta) become explicit parameters:
`Bounds`, `Params`, and the `Optimizer` record. No contract requires a valid
rectangle, because the source computes a result for any rectangle. Contracts
about staying inside the rectangle are therefore conditional on
`Bounds.Valid()`.

Three things are abstracted:

- `std::exp` and `std::sqrt` are arbitrary total functions (`Transcendentals`).
- The robot's potential field is an arbitrary objective `Pos -> real`.
- Each call of `generateRandom` reads the next element of an explicit draw
  stream `rng: nat -> real`, at a cursor. `initPosXY` reads draws
  `0 .. 2n-1`, x before y for each firefly. The sweep then reads one draw per
  attempted move, starting at draw `2n`.

The optimisation loop is written twice:

- Functionally: `Step` handles one pair (i, j). `Row` runs fly_j over
  `0 .. j-1`. `Generation` runs fly_i over `0 .. i-1`. `Evolve` runs whole
  generations.
- Imperatively: `SweepRow`, `SweepGeneration` and `SweepGenerations` are the
  source's three nested loops with in-place, immediately visible updates.
  Each is proved to compute the functional version.

The functional version carries the run's invariants. Every firefly is either
untouched, or was moved to an in-bounds position with strictly lower cost
(`Population.Progress`). Costs stay paired with positions (`Paired`). The
population size never changes.

`valueGenerator` computes `low + r * (high - low)` with `r` in [-1, 1], so
initial coordinates lie in [2·low − high, high], and the initial population is
never clamped. The in-bounds guarantee therefore covers only fireflies that
have moved. `Initializer.InitialMayBeOutOfBounds` shows an initial firefly
outside the rectangle.

## Model

| member | source | states |
|---|---|---|
| Clamp.ClampAxis | firefly_robot.cpp:115-123 | one axis of the clamp lands in [lo, hi] when lo ≤ hi, leaves in-range values alone, and yields hi when the interval is inverted |
| Clamp.PositionUpdateCheck | firefly_robot.cpp:110-136 | the clamped point lies inside a valid rectangle, an in-bounds point is returned unchanged, and each coordinate of the result depends only on the same coordinate of the input |
| Clamp.ClampAxisNearest | firefly_function.cpp:104-112 | the clamped value is the point of [lo, hi] nearest to the input, so the clamp is a projection |
| Clamp.ClampAxisMonotone | firefly_function.cpp:114-122 | a larger input never clamps to a smaller output |
| Clamp.PositionUpdateCheckIdempotent | firefly_function.cpp:99-125 | clamping twice equals clamping once, for every rectangle |
| Clamp.FixedPointIffInBounds | firefly_robot.cpp:113-135 | on a valid rectangle, the points the clamp leaves unchanged are exactly the in-bounds points |
| Geometry.Euclid | firefly_robot.cpp:57-61 | `euclid` is the square root of the squared coordinate differences; whatever the square root is, it does not depend on the order of the points, and a point is at distance sqrt(0) from itself |
| Geometry.EuclidSymmetric | firefly_robot.cpp:57-61 | `euclid` is symmetric in its two points, whatever the square root is |
| Motion.AttractivenessSymmetric | firefly_robot.cpp:145-148 | the attractiveness beta0·exp(−Gamma·d²) is the same for (a, b) and (b, a) |
| Motion.Candidate | firefly_robot.cpp:145-149 | `Xnew` before the clamp, one draw for both axes: at draw 0.5 it is the attraction step a + β(b − a) alone; with β = 0 or b = a it is a plus the random walk alfa0·delta·(r − 0.5)·(SCALEX, SCALEY) alone |
| Motion.PosUpdate | firefly_robot.cpp:140-152 | every candidate position lies inside a valid rectangle and is a fixed point of the clamp |
| Motion.SharedDraw | firefly_robot.cpp:146-149 | one draw feeds both axes: before the clamp, the random-walk displacement is parallel to (SCALEX, SCALEY) |
| Motion.NoiseRange | firefly_function.cpp:134-138 | with draws in [-1, 1], the walk factor alfa0·delta·(r − 0.5) lies in [−1.5, 0.5]·alfa0·delta, skewed toward the lower corner |
| Motion.MoveWithoutNoise | firefly_function.cpp:129-141 | with the draw at 0.5 and attractiveness in [0, 1], a move between in-bounds fireflies lands on the segment from a toward b, untouched by the clamp |
| Initializer.ValueGenerator | firefly_function.cpp:68-72 | with a draw in [-1, 1] and low ≤ high, the value lies in [2·low − high, high] |
| Initializer.ValueGeneratorExtremes | firefly_robot.cpp:74-78 | both ends of [2·low − high, high] are reached, and the lower end lies below low on a non-degenerate interval |
| Initializer.InitPosXY | firefly_function.cpp:145-157 | n positions whose i-th x and y come from draws 2i and 2i+1 after the cursor; with valid draws each lies in the widened initial box |
| Initializer.InitialMayBeOutOfBounds | firefly_robot.cpp:156-168 | the initial population is not clamped: with draws at −1 the first firefly starts outside the rectangle |
| Population.Evaluate | firefly_robot.cpp:82-96 | the batched objective returns one value per position, in order, each equal to the objective at that position |
| Population.MinCostNonIncreasing | firefly_function.cpp:185-188 | if no cost rises, the population's best cost does not rise |
| Sweep.Step | firefly_robot.cpp:186-198 | for pair (i, j): nothing changes and no draw is read when i = j or cost[i] ≤ cost[j]; otherwise one draw is read, and firefly i takes the candidate of that draw, with its cost, exactly when that cost is strictly lower than cost[i], else nothing changes; no other firefly changes and pairing is preserved |
| Sweep.Row | firefly_robot.cpp:183-201 | the fly_j loop for one fly_i changes no firefly but i, keeps pairing and progress, and reads at most one draw per pair |
| Sweep.Generation | firefly_function.cpp:169-193 | a generation keeps every firefly untouched or improved and in bounds, preserves pairing, and reads at most n draws per firefly |
| Sweep.Evolve | firefly_robot.cpp:177-203 | any number of generations keeps size, pairing, and the untouched-or-improved relation to the start, and reads at most g·n² draws |
| Sweep.EvolveGuarantees | firefly_robot.cpp:174-205 | after a run no cost is higher than at the start, the best cost is not higher, a moved firefly is in bounds, pairing holds, and zero generations return the start |
| Sweep.SweepRow | firefly_function.cpp:172-192 | the in-place fly_j loop computes the functional `Row` and touches no firefly but fly_i |
| Sweep.SweepGeneration | firefly_function.cpp:169-193 | the in-place fly_i loop computes the functional `Generation` |
| Sweep.GenerationGuarantees | firefly_function.cpp:166-203 | after each generation no cost, and so not the best cost, is higher than before it |
| Sweep.SweepGenerations | firefly_robot.cpp:177-203 | the in-place generation loop computes the functional `Evolve` |
| Sweep.RunGenerations | firefly_robot.cpp:177-205 | the optimisation loop keeps size and pairing, never raises a cost or the best cost, leaves moved fireflies in bounds, and with zero generations returns its input |
| FireflyFunction.Func | firefly_function.cpp:91-95 | `func` is x·y: zero on the axes, positive where both coordinates share a strict sign, negative where they have opposite strict signs |
| FireflyFunction.Function | firefly_function.cpp:76-87 | the batched product, written out separately in the source, agrees with `func` element by element |
| FireflyFunction.CornerArgMin | firefly_function.cpp:91-95 | some corner of a valid rectangle attains the corner minimum of x·y |
| FireflyFunction.FuncLowerBound | firefly_function.cpp:91-95 | on the rectangle, x·y is never below its smallest corner value |
| FireflyFunction.SquareMinimum | firefly_function.cpp:11-14 | on [-5, 5]², x·y ≥ −25, reached at (5, −5) and (−5, 5) |
| FireflyFunction.ExampleMove | firefly_function.cpp:129-141 | hand-computed move: with attractiveness 0.5 and draw 0.5, (1, 1) moves toward (2, −2) to exactly (1.5, −0.5) |
| FireflyFunction.TwoFireflyGeneration | firefly_function.cpp:175-189 | hand-computed generation of two fireflies: the worse one moves and keeps the move using one draw, while the better one does not move for pair (1, 0) |
| FireflyFunction.RunFireFly | firefly_function.cpp:160-204 | the final population is paired with x·y, no cost exceeds its initial cost, moved fireflies are in bounds and cost at least the corner minimum, and zero generations keep the initial positions |
| FireflyRobot.RunFireFly | firefly_robot.cpp:171-206 | the returned path has FIREFLYS points, none with a higher cost than its initial point; moved points are in bounds, all points are in the initial box under valid draws, and zero generations return the initial positions |

## Left out

- Plotting and output are not modelled: `gen_circle`, `plot2D`, `main` and all printing. In firefly_function.cpp, `runFireFly` returns nothing and prints the costs after each generation. The model returns the final population instead.
- `generateRandom`'s `std::random_device` and uniform distribution are not modelled. Draws come from an explicit stream, and only their range [-1, 1] is assumed, where a property needs it. Independence and uniformity of draws are not modelled.
- `std::exp` and `std::sqrt` are uninterpreted, because Dafny's reals have no such functions. So no contract bounds the attractiveness. `Motion.MoveWithoutNoise` takes "attractiveness in [0, 1]" as a hypothesis.
- The robot's potential field `K1 / euclid(Obs, p) + K2 * euclid(Goal, p)` is left as an arbitrary objective. Its constants (obstacle, goal, K1 = 1/obsR, K2) and its singularity at the obstacle centre are not modelled.
- Population.Evaluate: for the robot, the model's batched objective calls the objective itself. The source writes the formula out again in `function`, so the model does not check that this copy matches `func`.
- IEEE `float` semantics are not modelled: rounding, infinities and NaN ordering.
- Convergence is not modelled: how close the final costs come to the optimum, or how near the path comes to the goal. These are statistical claims.
- FIREFLYS and EVOLUTIONS are natural numbers here. The source's `int` loops would simply run zero times for negative values.
- Determinism for a fixed seed needs no proof: every operation is a function of its explicit draw stream.
