# Bouncing-circles screensaver: the particle update, in Dafny

The repository holds four SDL screensavers. Each fills a vector with random
circles (`generateRandomCircles`) and then moves them once per frame
(`moveCircles`):

- `ScreenSeq.cpp`: 640×480, at most 100 circles. Bounce lines are at 0 and `W − 2R` (the "anchor" box).
- `p1.cpp`: 640×480, at most 750 circles. Bounce lines are at `R` and `W − R` (the "interior" box).
- `ScreenSeq_mac.cpp`: 1800×1000, at most 750 circles, interior box. After the wall pass it runs an O(n²) collision pass.
- `ScreenSeq_mac_parallel.cpp`: 1800×1000, interior box. The wall loop runs under `#pragma omp parallel for` with two threads.

The model has one set of definitions, parameterised by a `Config`: width,
height, radius, maximum speed, maximum count, spawn offset and bounce
policy. Each program is a module that fixes those constants.

| module | file | contents |
|---|---|---|
| `Circles` | circles.dfy | `Circle`, `Color`, `Config`, the two bounce policies, `Result`/`Error` |
| `Generation` | generation.dfy | the count check; generation from a sequence of `rand()` draws |
| `Motion` | motion.dfy | the per-axis and per-circle wall step; the sequential wall loop |
| `Parallel` | parallel.dfy | the parallel wall loop under any schedule of its iterations |
| `Trajectory` | trajectory.dfy | many frames: bounded trajectories, the two-frame cycle |
| `Pairs` | pairs.dfy | the order in which the collision pass visits pairs |
| `Collision` | collision.dfy | the collision pass: guarded, and as written |
| `Raster` | raster.dfy | the lattice points `drawFilledCircle` paints |
| `P1`, `ScreenSeq`, `ScreenSeqMac`, `ScreenSeqMacParallel` | p1.dfy, screen_seq.dfy, screen_seq_mac.dfy, screen_seq_mac_parallel.dfy | each program's constants, with its properties stated in its own numbers |

The random source is a sequence of non-negative draws. Each circle uses
seven of them, in the order x, y, dx, dy, red, green, blue. The
floating-point push that separates colliding circles is a parameter
(`Nudge`). It receives both centres and returns both new centres, so it
cannot change a velocity or a colour.

## Model

| member | source | states |
|---|---|---|
| `Generation.SpawnCircle` | ScreenSeq_mac.cpp:72-77 | a circle built from seven draws lies in the spawn box: each coordinate is in `[offset, offset + W − 2R)`, each speed in `[−S, S]`, each channel in `[0, 255]` |
| `Generation.SpawnReachesEveryCircle` | ScreenSeq_mac.cpp:73-77 | the generator reaches the whole box: every circle in it comes out of some seven draws |
| `Generation.Generate` | ScreenSeq_mac.cpp:64-80 | `generateRandomCircles(n)` gives exactly n circles; circle i is built from draws 7i..7i+6, and every circle is in the spawn box |
| `Generation.Initialize` | ScreenSeq_mac.cpp:183-190 | a count outside `[1, MAX]` is rejected with `InvalidCount` and no circle is made; otherwise exactly `count` circles, all in the spawn box |
| `Motion.AxisStep` | ScreenSeq_mac.cpp:86-97 | one axis moves by exactly its old velocity; the velocity is negated when the new coordinate is at or past a bounce line and unchanged otherwise; its magnitude is kept |
| `Motion.Tick` | ScreenSeq_mac.cpp:84-98 | the wall pass steps every circle from its own state and keeps the count; `Motion.MoveCircles` and every parallel schedule (`Parallel.ScheduleMatchesSequential`) are proved equal to it |
| `Motion.StepCircle` | p1.cpp:94-105 | each axis of a circle evolves on its own (x from `(x, dx)` only, y from `(y, dy)` only); the colour and both speed magnitudes are kept |
| `Motion.MoveCircles` | ScreenSeq_mac.cpp:84-98 | the in-place ascending loop gives the same vector as stepping every circle on its own; colours and speed magnitudes are kept |
| `Motion.TickIsLocal` | p1.cpp:92-106 | circle i's next state is the same whatever the other circles are |
| `Parallel.StepAt` | ScreenSeq_mac_parallel.cpp:91-103 | one iteration of the parallel loop writes only its own element, which it steps from that element's own state; every other element is unchanged |
| `Parallel.Run` | ScreenSeq_mac_parallel.cpp:88-104 | running iterations in a given order keeps the count (its contract states only this); what it computes is pinned by `Parallel.RunEffect` and `Parallel.ScheduleMatchesSequential` |
| `Parallel.RunEffect` | ScreenSeq_mac_parallel.cpp:88-104 | after any set of distinct iterations, an element has been stepped from its original value if its index was scheduled, and is untouched otherwise |
| `Parallel.ScheduleMatchesSequential` | ScreenSeq_mac_parallel.cpp:88-104 | any order that runs each iteration exactly once gives the sequential result |
| `Parallel.TwoThreadSplit` | ScreenSeq_mac_parallel.cpp:88-89 | splitting the indices at any k between two threads gives the sequential result, whichever thread finishes first |
| `Parallel.RunSchedule` | ScreenSeq_mac_parallel.cpp:86-105 | running the loop body on the shared vector in any schedule yields the sequential wall pass |
| `Trajectory.IterCircleAxes` | p1.cpp:94-105 | over any number of frames, each axis follows its own one-axis trajectory, and the colour never changes |
| `Trajectory.IterateIsPerCircle` | p1.cpp:92-106 | k frames of the whole store equal k frames of each circle on its own |
| `Trajectory.AxisStaysAboveLower` | ScreenSeq.cpp:69-78 | a coordinate that starts on or above the lower line, with speed at most S, never drops more than S below that line |
| `Trajectory.AxisStaysInBand` | p1.cpp:94-105 | a coordinate that starts between the lines, with speed at most S, stays within S of the band forever |
| `Trajectory.AxisStaysBelow` | ScreenSeq.cpp:72-74 | a coordinate that starts at most some ceiling at or above the upper line, with speed at most S, never goes more than S above that ceiling |
| `Trajectory.AxisTwoCycle` | ScreenSeq.cpp:72-78 | a coordinate that is past a line now, and still past one after its next move, alternates between p and p + v forever |
| `Trajectory.GeneratedStaysInBounds` | p1.cpp:78-106 | when the spawn box starts on the lower bounce line, every generated circle stays within S of the bounce box on both axes for any number of frames |
| `Trajectory.GeneratedStaysAboveLower` | ScreenSeq.cpp:56-79 | when the spawn box starts on or above the lower line, no generated circle ever goes more than S below it |
| `Pairs.RowsBelowContents` | ScreenSeq_mac.cpp:101-104 | the pairs visited before outer index i are exactly the pairs i' < j < n with i' < i, in strictly ascending order |
| `Pairs.AllPairsExactlyOnce` | ScreenSeq_mac.cpp:101-104 | the collision pass visits every unordered pair i < j exactly once, in ascending (i, j) order, and nothing else |
| `Collision.Collide` | ScreenSeq_mac.cpp:111-129 | a colliding pair has both components of both velocities negated; every other circle, and every colour, is unchanged |
| `Collision.ResolvePair` | ScreenSeq_mac.cpp:105-130 | a pair with squared distance above `4R²` leaves the state untouched; a touching pair is recorded and collided |
| `Collision.Pass` | ScreenSeq_mac.cpp:101-132 | the guarded pass keeps the count and every colour |
| `Collision.PassVelocities` | ScreenSeq_mac.cpp:101-115 | after the pass, each velocity is its starting value negated once per touching pair the circle was in, so an even count restores it |
| `Collision.PassFrame` | ScreenSeq_mac.cpp:101-132 | a circle that was in no touching pair leaves the pass exactly as it entered, position, velocity and colour |
| `Collision.AsWrittenFailsOnlyOnCoincidence` | ScreenSeq_mac.cpp:117-129 | the unguarded pass fails exactly when the guarded pass meets a touching pair with coincident centres, names the first such pair, and otherwise gives the same store |
| `Collision.ResolvePairAsWritten` | ScreenSeq_mac.cpp:105-129 | one pair as written fails exactly when the pair touches with squared distance 0, and names that pair; otherwise it keeps the count. What it computes on success is pinned by `Collision.AsWrittenFailsOnlyOnCoincidence` |
| `Collision.PassAsWritten` | ScreenSeq_mac.cpp:101-132 | the unguarded pass keeps the count when it succeeds, and a failure names a pair i < j of the store; its relation to the guarded pass is `Collision.AsWrittenFailsOnlyOnCoincidence` |
| `Collision.CoincidentCentresCounterexample` | ScreenSeq_mac.cpp:118-123 | two circles with the same centre: the unguarded pass fails on pair (0, 1); the guarded one reverses both and leaves them in place |
| `Collision.ExaminePair` | ScreenSeq_mac.cpp:105-130 | one inner-loop iteration: it hits exactly when the integer squared distance is at most `4R²`, and then collides the pair |
| `Collision.ScanRow` | ScreenSeq_mac.cpp:103-131 | the inner loop for row i extends the pass from the rows below i to the rows up to i |
| `Collision.CollisionPass` | ScreenSeq_mac.cpp:101-132 | the loop nest equals the guarded pass over the ascending pair order; it keeps the count and every colour, each velocity is negated once per recorded hit, and a circle in no recorded hit comes out unchanged |
| `Raster.FilledCirclePoints` | p1.cpp:110-125 | the emitted points are exactly the lattice points (cx+x, cy+y) with x² + y² ≤ r² inside the (2r+1)-square; each comes once, in row-major order; the centre is included when r ≥ 0 |
| `P1.Initialize` | p1.cpp:186-193 | the count check accepts exactly 1..750; generated circles have x in [20, 619], y in [20, 459], speeds in [−5, 5] |
| `P1.MoveCircles` | p1.cpp:90-107 | x and y move by exactly the old dx and dy; dx is negated iff the new x ≤ 20 or ≥ 620, dy iff the new y ≤ 20 or ≥ 460; colour is kept |
| `P1.TrajectoryBounded` | p1.cpp:81-105 | from any generated state, every circle stays in x ∈ [15, 625] and y ∈ [15, 465] for any number of frames |
| `P1.PaintCircle` | p1.cpp:162-165 | a circle at (x, y) is painted as the radius-20 disk centred at (x + 20, y + 20) |
| `ScreenSeqMacParallel.Initialize` | ScreenSeq_mac_parallel.cpp:154-161 | the count check accepts exactly 1..750; read sequentially, generation gives x in [20, 1779], y in [20, 979], speeds in [−5, 5] |
| `ScreenSeqMacParallel.MoveCircles` | ScreenSeq_mac_parallel.cpp:86-105 | under any schedule, each circle is updated from its own state alone: dx is negated iff the new x ≤ 20 or ≥ 1780, dy iff the new y ≤ 20 or ≥ 980; colour and speed magnitudes are kept |
| `ScreenSeqMacParallel.TrajectoryBounded` | ScreenSeq_mac_parallel.cpp:74-103 | from any generated state, x stays in [15, 1785] and y in [15, 985] for any number of frames |
| `ScreenSeq.Initialize` | ScreenSeq.cpp:115-121 | the count check accepts exactly 1..100; generated circles have x in [20, 619], y in [20, 459], speeds in [−5, 5] |
| `ScreenSeq.MoveCircles` | ScreenSeq.cpp:67-80 | dx is negated iff the new x ≤ 0 or ≥ 600, dy iff the new y ≤ 0 or ≥ 440; colour and speed magnitudes are kept |
| `ScreenSeq.TrajectoryBounded` | ScreenSeq.cpp:58-78 | from any generated state, every circle stays in x ∈ [−5, 624] and y ∈ [−5, 464] for any number of frames; the top is the spawn range's top plus one speed, because spawns above the bounce line are allowed |
| `ScreenSeq.OvershootSticks` | ScreenSeq.cpp:58-78 | a generated circle with x ≥ 605 alternates between x and x + dx forever and never goes below 600; likewise y ≥ 445 against 440 |
| `ScreenSeq.OvershootExample` | ScreenSeq.cpp:58-60 | the draws (590, 0, 8, …) give x = 610 and dx = 3, and that circle shuttles between 610 and 613 forever |
| `ScreenSeq.AlignedTrajectoryBounded` | ScreenSeq.cpp:58-78 | with the spawn box moved onto the anchor box, every generated circle stays in x ∈ [−5, 605] and y ∈ [−5, 445] |
| `ScreenSeqMac.Initialize` | ScreenSeq_mac.cpp:183-190 | the count check accepts exactly 1..750; generated circles have x in [20, 1779], y in [20, 979], speeds in [−5, 5] |
| `ScreenSeqMac.MoveCircles` | ScreenSeq_mac.cpp:82-133 | a guarded frame keeps the count and every colour; the frame is the wall pass followed by the guarded collision pass, and `hits` are that pass's touching pairs; each velocity is its wall-pass value negated once per touching pair; a circle in no touching pair ends as the wall pass left it; \|dx\| and \|dy\| never change |
| `ScreenSeqMac.MoveCirclesAsWritten` | ScreenSeq_mac.cpp:82-133 | one frame as written keeps the count when it succeeds, and a failure names a pair i < j; `ScreenSeqMac.AsWrittenAgreesUnlessCoincident` pins when it fails and what it returns |
| `ScreenSeqMac.AsWrittenAgreesUnlessCoincident` | ScreenSeq_mac.cpp:100-132 | the unguarded frame fails exactly when a touching pair has coincident centres, and otherwise equals the guarded frame |
| `ScreenSeqMac.IdenticalDrawsBreakFrame` | ScreenSeq_mac.cpp:70-129 | two circles generated from the same seven draws have coincident centres after the wall pass, and the unguarded frame fails on them |

## Findings

| source | as written | input that shows it | evidently intended | confidence | as-written member | corrected member |
|---|---|---|---|---|---|---|
| ScreenSeq.cpp:58-59 | the spawn range is `rand() % 600 + 20`, which is [20, 619]; the upper bounce line for the anchor is 600 (and [20, 459] against 440 for y) | draws (590, 0, 8, …) give x = 610, dx = 3; the circle reverses on every frame, shuttles between 610 and 613, and is drawn partly off screen forever | the spawn box lies inside the bounce box; the later programs do this by bouncing at [R, W − R] | medium; not executed | `ScreenSeq.OvershootSticks` | `ScreenSeq.AlignedTrajectoryBounded` |
| ScreenSeq_mac.cpp:118-123 | a touching pair with squared distance 0 takes `sqrt(0) = 0` and divides by it; NaN is then added to the int coordinates | two touching circles whose centres coincide after the wall pass, i.e. equal `x + dx` and equal `y + dy`. With 750 circles spread over the 1760×960 spawn box there are 280,875 pairs and 1,689,600 positions, so a coincidence is to be expected within a few frames (an estimate, not a proof). The exhibited input is two circles built from the same seven draws (`ScreenSeqMac.IdenticalDrawsBreakFrame`) | skip the push for that pair and still reverse both velocities | high; not executed | `Collision.CoincidentCentresCounterexample` | `Collision.CollisionPass` |

The guarded pass (`Collision.Pass` and `Collision.CollisionPass`) is what `ScreenSeqMac.MoveCircles` uses. `ScreenSeq.AlignedCfg` is `ScreenSeq.Cfg` with spawn offset 0 instead of 20. `Trajectory.GeneratedStaysInBounds` proves the same bound for every configuration whose spawn box starts on the lower bounce line. That covers the two interior-box programs without a collision pass (`P1`, `ScreenSeqMacParallel`) as they are written, and `ScreenSeq` with the spawn range moved. `ScreenSeq.TrajectoryBounded` gives the looser bound that holds for `ScreenSeq` as written.

Two differences between the programs shape the model:

- `ScreenSeq.cpp` bounces at `[0, W − 2R]`, the other three programs at `[R, W − R]`. Each module keeps its own program's test.
- `ScreenSeq_mac.cpp:118-123` has no zero-distance guard. `Collision.PassAsWritten` keeps that code, and the guarded `Collision.Pass` is the fix listed under Findings.

## Left out

- SDL plumbing has no logic to model. This covers `init`, `close`, `render` beyond the painted point set, event polling, `SDL_Delay` pacing, and the `SDL_GetTicks` frame counters and float averages.
- `renderText` and the TTF font handling in `p1.cpp` are I/O.
- `std::rand`, `srand`, `time` and `atoi` are not modelled. The draws are a sequence argument and the parsed count is an int argument. `Generation.Generate` requires seven draws per circle, because `rand()` never runs out.
- `Collision.Collide`: states nothing about where the pushed circles end up, because the push uses `sqrt`, float normalisation and float-to-int truncation. The push aims to leave the centres 2R apart (`overlap = 2R − distance`); that is not proved.
- The parallel `generateRandomCircles` in `ScreenSeq_mac_parallel.cpp:70-82` is left out. It races on `push_back` and `rand()`, so its behaviour is undefined. Only the sequential reading is modelled.
- Thread scheduling is not modelled as threads. The parallel loop is any order of its iterations (`Parallel.Run`).
- 32-bit `int` arithmetic is modelled by unbounded integers. For the three wall-only programs, the bounded-trajectory lemmas keep every coordinate within [−5, 1785], far inside the 32-bit range. `ScreenSeqMac` has no such bound, because the push is abstract, so overflow of the squared distance is not examined there.
- `ScreenSeqMac.MoveCircles`: states no bound on positions over many frames, for the same reason.
- Every render call in `render` offsets the stored point by `+ R`. This appears only in `P1.PaintCircle`; it has no effect on the motion.
