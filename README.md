# Orbital simulation core, modelled in Dafny

This project models the engine of a small orbital simulator written in C++.
The simulator holds a planetary system of "core" bodies copied from a table:
the Sun and planets, or Alpha Centauri. It can add a black hole and many
light "asteroids". Each frame it advances every body by one time step of
Newtonian gravity.

The model covers these pieces of the source:

- the `OrbitalSim` class of `OrbitalSim.cpp`, covering:
  - the constructor, which picks a table, fixes the counts, may tweak
    Jupiter's mass in the shared table, builds the black hole and fills the
    body array;
  - `update`, the in-place physics step;
  - asteroid placement, as a step that writes one body;
  - the accessors;
- the `OrbitalBody` record of `OrbitalBody.cpp`, with its setters and
  getters;
- the older C-style builder of `orbitalSim.cpp`: `makeOrbitalSim`, and the
  stubs `updateOrbitalSim` and `placeAsteroid`.

Modules:

- `Vectors` (vectors.dfy) models raylib's `Vector3` and its operations
  over `real`. The Euclidean length is a function `norm` that is only
  known to satisfy `IsEuclideanLength`: it is non-negative and its square
  is the dot product.
- `Bodies` (body.dfy) holds two things. `Body` is the value an array slot
  holds. `OrbitalBody` is a class with one setter and one getter per
  field.
- `Ephemerides` (ephemerides.dfy) holds the table rows, the system
  identifiers and the Jupiter tweak.
- `Physics` (physics.dfy) gives the step of `update` as functions on
  `seq<Body>`. The accumulation is written as the same nested loops over
  pairs (`PairStep`, `Row`, `Rows`), and the integration as semi-implicit
  Euler. These are proved:
  - the accumulation gives every body its reference total pull
    (`TotalPull`): a core body is pulled by every other body, a non-core
    body only by the core bodies;
  - the pull of one body on another points towards it, with coefficient
    G·m/len³ (`PullTowards`);
  - the step changes no mass, radius or colour;
  - the mass-weighted accelerations cancel pair by pair;
  - total momentum over all bodies is conserved;
  - two equal-mass bodies that mirror each other through the origin still
    do so after a step (`MirroredStep`).
- `Simulation` (simulation.dfy) holds the `OrbitalSim` class. Its
  constructor is proved to build exactly `Layout(...)`, and `Update` to
  leave exactly `Step(...)` in the body array.
- `Legacy` (legacy.dfy) holds the struct-based builder of `orbitalSim.cpp`.

Behaviours of the code that the model keeps on purpose:

- **The skipped slot.** With a black hole, the fill loop copies the black
  hole into slot `bodyNumCore - 1` and then increments `i` a second time.
  So slot `bodyNumCore` is never written and keeps a default-constructed
  body. With a black hole and `n > 0` asteroids requested, only `n - 1`
  asteroids are placed (`Simulation.LayoutSlots`). The loop still ends when
  `n == 0`.
- **The Jupiter tweak compounds.** The tweak multiplies the mass in the
  global solar table itself, not in a copy. A second construction that asks
  for it makes Jupiter 1000 times heavier again
  (`Simulation.TweakJupiterTwice`).
- **Unset fields.**
  - The constructor never stores its `timeStep` argument and never sets
    `time`. Only `partyTime`, the counts and the body array are set.
  - The black hole's velocity is never set.
  - An asteroid keeps the acceleration of the slot it is placed in.

  In the model these values are whatever the fields or the
  default-constructed bodies hold. `blank` is the body `blacky` starts
  from. `blanks(k)` is the body the fresh array holds at index k.
- **Dependence on the solar table.** The black hole's position is always
  `solarSystem[3] - solarSystem[6]`, whatever system is chosen. The black
  hole is also built when none is requested, so the solar table must have
  at least 7 rows and the chosen table at least one.

Where the specification of the system and the code differ, the model follows
the code:

- **Unknown `system`.** The specification says an unknown identifier falls
  back to a default system. The code's `default` branch leaves the table
  address `NULL` and the core count unset, and then reads through it.
  The model therefore requires `system` to be `SOLAR` or `ALPHACENTAURI`.
- **When the tweak applies.** The specification describes the tweak as
  applied once, before copying. The code writes the shared table.
- **Direction of the pull.** The specification's pair step adds
  +G/len²·(mass(j)/len)·(p_i − p_j) to body i, which points from j to i
  and so pushes the bodies apart. The code multiplies by −1.0
  (`OrbitalSim.cpp`, line 172), so body i is pulled towards j. The model
  keeps the code's sign, and `Physics.PullTowards` states that the pull
  attracts.
- **Order of the clock.** The specification advances `time` after the
  integration; the code advances it first. Nothing in between reads it, so
  the end state is the same.
- **Momentum.** The specification expects momentum to be conserved only
  approximately, and only over the core bodies. In the code every visited
  pair adds opposite mass-weighted accelerations, core–asteroid pairs included.
  So in exact arithmetic the momentum of **all** bodies is conserved
  exactly (`Physics.MomentumConserved`).

Two places in the source do not compile as written; the model follows
their evident intent:

- `update` writes `sim->bodyNumCore` where it means the `bodyNumCore` field;
- it writes `getPosition` where it means the call `getPosition()`.

`OrbitalBody.h` declares the mass as a vector and leaves out some
accessors. The model follows `OrbitalBody.cpp`, where the mass is a float.

## Model

| member | source | states |
|---|---|---|
| Vectors.LengthPositive | OrbitalSim.cpp:165-172 | the length of a difference vector is positive exactly when the two positions differ, so the unguarded divisions by the distance are defined for bodies that are apart |
| Vectors.LengthSymmetric | OrbitalSim.cpp:165-168 | the distance from i to j equals the distance from j to i |
| Vectors.ScaledPairCancels | OrbitalSim.cpp:171-182 | the partial acceleration weighted by mass(j)/len and by -mass(i)/len, then multiplied by mass(i) and mass(j), sums to zero |
| Bodies.OrbitalBody.constructor | OrbitalSim.cpp:71 | a default-constructed body holds the unspecified default body it is given |
| Bodies.OrbitalBody.SetAcceleration | OrbitalBody.cpp:14-17 | the acceleration becomes the argument and no other field changes |
| Bodies.OrbitalBody.SetVelocity | OrbitalBody.cpp:19-22 | the velocity becomes the argument and no other field changes |
| Bodies.OrbitalBody.SetPosition | OrbitalBody.cpp:24-27 | the position becomes the argument and no other field changes |
| Bodies.OrbitalBody.SetMass | OrbitalBody.cpp:29-32 | the mass becomes the argument and no other field changes |
| Bodies.OrbitalBody.SetColor | OrbitalBody.cpp:34-37 | the colour becomes the argument and no other field changes |
| Bodies.OrbitalBody.SetRadius | OrbitalBody.cpp:39-42 | the radius becomes the argument and no other field changes |
| Bodies.OrbitalBody.GetAcceleration | OrbitalBody.cpp:44-47 | returns the acceleration and changes nothing |
| Bodies.OrbitalBody.GetMass | OrbitalBody.cpp:49-52 | returns the mass and changes nothing |
| Bodies.OrbitalBody.GetVelocity | OrbitalBody.cpp:55-58 | returns the velocity and changes nothing |
| Bodies.OrbitalBody.GetRadius | OrbitalBody.cpp:60-63 | returns the radius and changes nothing |
| Bodies.OrbitalBody.GetPosition | OrbitalBody.cpp:66-69 | returns the position and changes nothing |
| Bodies.OrbitalBody.GetColor | OrbitalBody.cpp:71-74 | returns the colour and changes nothing |
| Bodies.AccessorsRoundTrip | OrbitalBody.cpp:14-74 | after setting all six fields, every getter returns the last value given to its setter, and the body's state is exactly those six values |
| Ephemerides.TweakJupiter | OrbitalSim.cpp:47-48 | the tweak keeps the table's length; `TweakJupiterCompounds` states what it changes |
| Ephemerides.TweakJupiterCompounds | OrbitalSim.cpp:47-48 | the tweak changes only entry 5 and only its mass, multiplying it by 1000, keeps the table's length, and applying it twice multiplies the mass by 1000000 |
| Physics.ZeroAccelerations | OrbitalSim.cpp:155-158 | every acceleration is zero and nothing else differs |
| Physics.PairStep | OrbitalSim.cpp:165-182 | one pair step changes only the accelerations, and only those of bodies i and j |
| Physics.PairStepPulls | OrbitalSim.cpp:165-182 | one pair step adds to body i exactly the pull of j and to body j exactly the pull of i (the increments `DeltaOnFirst` and `DeltaOnSecond`); `PullTowards` gives the direction and size of each pull |
| Physics.PullTowards | OrbitalSim.cpp:165-177 | the pull of s on k is (p_s − p_k) scaled by (G/len²)·(mass(s)/len), where len is the distance from k to s; that coefficient is positive for a positive mass, so the pull points from k towards s with size G·mass(s)/len² |
| Physics.PairStepSecond | OrbitalSim.cpp:179-182 | the update of body j, computed from the vector from j to i with factor -mass(i)/len, equals j's pull towards i |
| Physics.Row | OrbitalSim.cpp:162-183 | the inner loop changes only accelerations |
| Physics.RowEffect | OrbitalSim.cpp:162-183 | the inner loop for body i, from j on, adds to body i the pulls of bodies j.. and to each later body k the pull of i, and leaves the earlier bodies' accelerations alone |
| Physics.Rows | OrbitalSim.cpp:160-184 | the outer loop changes only accelerations |
| Physics.RowsEffect | OrbitalSim.cpp:160-184 | the outer loop from row i on adds to every body's acceleration exactly its pending pulls from the remaining rows |
| Physics.Accumulate | OrbitalSim.cpp:160-184 | the accumulation changes only accelerations |
| Physics.AccumulateIsTotalPull | OrbitalSim.cpp:155-184 | after zeroing and accumulating, a core body holds the sum of the pulls of all other bodies and a non-core body the sum of the pulls of the core bodies only: asteroid–asteroid pairs contribute nothing |
| Physics.Integrate | OrbitalSim.cpp:188-196 | the new velocity is v + a·dt, the new position is p + v'·dt with the NEW velocity, and no other field changes |
| Physics.IntegrateAll | OrbitalSim.cpp:186-197 | every body, core or not, is integrated and the length is kept |
| Physics.Step | OrbitalSim.cpp:155-197 | the step keeps the number of bodies; `StepKeepsMatter`, `StepFollowsPulls`, `MomentumConserved` and `MirroredStep` state its other properties |
| Physics.StepKeepsMatter | OrbitalSim.cpp:149-198 | the step keeps the number of bodies and every mass, radius and colour |
| Physics.StepFollowsPulls | OrbitalSim.cpp:155-197 | after the step, body k's acceleration is its total pull, its velocity is the old velocity plus that pull times dt, and its position is the old position plus the new velocity times dt |
| Physics.PairDeltasCancel | OrbitalSim.cpp:171-182 | mass(i)·Δacc(i) + mass(j)·Δacc(j) = 0 for the two increments of one pair |
| Physics.PairStepBalanced | OrbitalSim.cpp:175-182 | one pair step does not change the net force (the sum of mass times acceleration) |
| Physics.RowBalanced | OrbitalSim.cpp:162-183 | the inner loop does not change the net force |
| Physics.RowsBalanced | OrbitalSim.cpp:160-184 | the outer loop does not change the net force |
| Physics.NetForceVanishes | OrbitalSim.cpp:155-184 | after zeroing and accumulating, the mass-weighted accelerations of all bodies sum to zero |
| Physics.MomentumAfterIntegrate | OrbitalSim.cpp:186-197 | integration changes the total momentum by exactly dt times the net force |
| Physics.MomentumConserved | OrbitalSim.cpp:149-198 | one step leaves the total momentum of all bodies unchanged |
| Physics.PullsOpposite | OrbitalSim.cpp:171-182 | for two bodies of equal mass, the pull of i on j is the negation of the pull of j on i |
| Physics.MirroredKinematics | OrbitalSim.cpp:186-197 | semi-implicit Euler commutes with reflection through the origin: reflected position, velocity and acceleration give the reflected new velocity and position |
| Physics.MirroredStep | OrbitalSim.cpp:149-198 | two core bodies of equal mass, placed at p and −p with p ≠ 0 and moving at v and −v, are apart, and after one step they again have equal masses, positions p′ and −p′ and velocities v′ and −v′; so the mirror symmetry holds after every step while the bodies stay apart |
| Simulation.CopyEntry | OrbitalSim.cpp:93-98 | a copied row has zero acceleration; `CopyCoreBody` states that the loop's six setter calls produce the copy |
| Simulation.BlackHole | OrbitalSim.cpp:71-77 | the black hole has zero acceleration and keeps the velocity of the default body it starts from; `MakeBlackHole` states that the setter calls on `blacky` produce it, and `LayoutSlots` that it sits at index tableSize |
| Simulation.Asteroid | OrbitalSim.cpp:125-136 | an asteroid keeps the acceleration of its slot; `AsteroidOrbit` and `PlaceAsteroid` state the rest |
| Simulation.Layout | OrbitalSim.cpp:80-105 | the layout has tableSize + (1 with a black hole) + asteroidsNum slots; `LayoutSlots` states what each slot holds |
| Simulation.LayoutSlots | OrbitalSim.cpp:62-105 | the layout of the loop holds, in order: tableSize + (1 with a black hole) + asteroidsNum slots; each table row copied with zero acceleration; the black hole at index tableSize; the untouched default body at tableSize + 1 when asteroids follow; asteroids from then on, each drawn for its own slot; and asteroidsNum − 1 of them with a black hole |
| Simulation.AsteroidOrbit | OrbitalSim.cpp:126-136 | an asteroid starts in the plane y = 0 with its horizontal velocity at right angles to its position; for a true angle, at distance r with horizontal speed v |
| Simulation.MakeBlackHole | OrbitalSim.cpp:71-77 | blacky is a default body given position solar[3] − solar[6], zero acceleration, 100000 times the first row's mass, its radius and dark grey, with its velocity left as default |
| Simulation.OrbitalSim.constructor | OrbitalSim.cpp:26-106 | bodyNumCore is the table size plus one with a black hole; bodyNum = bodyNumCore + asteroidsNum; the solar table's Jupiter mass is multiplied by 1000 only for SOLAR with the tweak; the body array is exactly the layout; partyTime is stored; the source's defaults (SOLAR, no black hole, no tweak, no asteroids, no party mode) are the parameters' defaults |
| Simulation.OrbitalSim.LayOutBodies | OrbitalSim.cpp:80-105 | the fill loop with its extra increment leaves exactly the layout in the array, the skipped slot still holding its default body |
| Simulation.OrbitalSim.FillBodies | OrbitalSim.cpp:80-105 | the fill loop leaves in the array exactly a layout given slot by slot: table copies, the black hole, the skipped default body and asteroids drawn over their default bodies |
| Simulation.OrbitalSim.CopyCoreBody | OrbitalSim.cpp:91-99 | a core slot receives the table row's position, velocity, mass, radius and colour and a zero acceleration; no other slot changes |
| Simulation.OrbitalSim.PlaceAsteroid | OrbitalSim.cpp:108-137 | the slot gets mass 1e12, radius 2e3, position (r cos φ, 0, r sin φ), a random colour with alpha 126 in party mode and grey otherwise, and velocity (−v sin φ, vy, v cos φ); its acceleration and every other slot are unchanged |
| Simulation.OrbitalSim.Update | OrbitalSim.cpp:149-198 | time grows by exactly timeStep; the counts, the array, partyTime and timeStep are kept; the bodies become exactly the specified step |
| Simulation.OrbitalSim.GetTimeStep | OrbitalSim.cpp:200-203 | returns the time step |
| Simulation.OrbitalSim.GetTime | OrbitalSim.cpp:205-208 | returns the simulated time |
| Simulation.OrbitalSim.GetBodyNumCore | OrbitalSim.cpp:210-213 | returns the core body count |
| Simulation.OrbitalSim.GetBodyNum | OrbitalSim.cpp:215-218 | returns the body count |
| Simulation.OrbitalSim.SetTimeStep | OrbitalSim.cpp:220-223 | the time step becomes the argument and no other field changes |
| Simulation.MainSimulation | main.cpp:39 | the construction with only a time step and ALPHACENTAURI takes the defaults of OrbitalSim.cpp:26-31: no black hole and no asteroids, so bodyNum = bodyNumCore = the Alpha Centauri table's size; every body is that table's row with zero acceleration; the solar table is untouched; partyTime is false |
| Simulation.TweakJupiterTwice | OrbitalSim.cpp:47-48 | two tweaked solar constructions leave Jupiter 1000 times heavier in the first simulation and 1000000 times in the second and in the table |
| Simulation.ZeroAllAccelerations | OrbitalSim.cpp:155-158 | the first loop leaves exactly the zeroed bodies |
| Simulation.AccumulateAccelerations | OrbitalSim.cpp:160-184 | the nested loops leave exactly the specified accumulation |
| Simulation.AccumulateRow | OrbitalSim.cpp:162-183 | the inner loop for body i leaves exactly the specified row |
| Simulation.AccumulatePair | OrbitalSim.cpp:165-182 | one inner pass, computed with the source's (−1)·G/len² and (−1)·mass(i)/len factors, leaves exactly the specified pair step |
| Simulation.PairUpdate | OrbitalSim.cpp:171-182 | the source's two in-place acceleration updates are the pair step of the specification |
| Simulation.IntegrateAllBodies | OrbitalSim.cpp:186-197 | the last loop leaves exactly every body integrated |
| Legacy.OrbitalSim.constructor | orbitalSim.h:24-30 | the struct's storage holds the given array of bodies |
| Legacy.MakeOrbitalSim | orbitalSim.cpp:51-74 | a fresh simulation with bodyNum equal to the table size, as many bodies, time 0 and the given time step; each body copies its row's colour, mass, velocity, position and radius; no acceleration is written, so each keeps what its fresh memory held |
| Legacy.UpdateOrbitalSim | orbitalSim.cpp:77-79 | nothing in the simulation changes |
| Legacy.PlaceAsteroid | orbitalSim.cpp:24-47 | the body keeps every field |

## Left out

- Floating point: every `float` is a `real`, so rounding, overflow and NaN are not modelled. `G` is the exact decimal 6.6743e-11.
- `Vector3Length`: its square root is not computed. It is the parameter `norm`, known only to satisfy `IsEuclideanLength`.
- Asteroid sampling: the `rand()`-driven numerics of `placeAsteroid`, `getRandomFloat` and `getRandomUChar` (`logf`, `sqrtf`, `cosf`, `sinf`, and the unsigned-char arithmetic) are left out. They belong to the random draw and to float rounding. A function `draw(centerMass, slot)` supplies r, cos φ, sin φ, v, vy and the colour channels.
- The random stream: `rand()` hands out one shared stream in call order. The model draws for each slot from the function `draw`; it does not model that successive placements depend on one another.
- Simulation.OrbitalSim.Update: requires that every pair it visits is at distinct positions. The source divides without a guard, and a zero distance has no defined result in exact arithmetic.
- The default constructor of `OrbitalBody` is not part of this model, because no definition of it is shown. Default-constructed bodies hold the parameters `blank` (for `blacky`) and `blanks(k)` (for index k of the fresh array).
- `ephemerides.h` is not part of this model: the two tables, and therefore their sizes, are arrays passed in by the caller.
- Integer widths: `bodyNum`, `bodyNumCore` and the unsigned `asteroidsNum` are unbounded naturals, so an overflow of their sum is not modelled.
- The header-only members of `OrbitalSim.h` are left out because nothing defines or assigns them. These are the fields `system`, `tweakJupiterMass`, `setBlackHole` and `asteroidsNum`, and the method `getPartyTime`.
- Rendering (`render3D`, `render2D`, the view files) is left out: it is raylib drawing and clock/locale calls.
- `main.cpp` is left out apart from its construction of the simulation (`Simulation.MainSimulation`): the rest is the window loop and the time-step update from the measured frame rate.
- Memory management: `new`, `malloc`, `free` and `freeOrbitalSim` are replaced by Dafny allocation.
- Legacy.PlaceAsteroid: it does not model its calls to `rand()`; only the fact that it writes nothing is modelled. Its argument, the address of one body, is entry `k` of an array.
- Legacy.OrbitalSim: the array of addresses of separately allocated bodies is an array of body values. Nothing else refers to those bodies, so no aliasing is lost.
