# smurves curve engine in Dafny

smurves generates batches of smooth random curves y = f(x). Each curve is built from projectile
trajectories flown under a constant vertical "force", one per segment. The segments are split at
randomly drawn grid indices ("change points"), and the force direction flips at each one. Curves
that leave the y-interval are deleted, and the generator tops the batch up until the requested
number of in-bounds curves exists.

This project models the discrete, index-level engine of both variants in the repository:

- the current `smurves/smurves.py`: `surgebinder`, `deletion`, `generator`, the position part of
  `trajectory`, and the argument rules of `check` that the engine relies on;
- the older root `smurves.py`: over-generation, change points drawn without replacement behind the
  flat-start index, the segment loop with its `horizontal_start`, and the final relabel, filter,
  flip and truncate.

Modules, one per concern:

- `Wrappers` (wrappers.dfy): `Option`, `Result` and the two failures. `EmptyRange` is Python's
  `sample` refusing an empty or too small range. `OracleExhausted` means the finite draws ran out.
- `Grid` (grid.dfy): Python `int()` truncation, clamped slicing, the linear measurement grid.
- `Kinematics` (kinematics.dfy): `trajectory` as a closed-form function of the grid index.
- `Forces` (forces.dfy): `force_max`, its rescaling at change points, and the force draws of both
  variants.
- `ChangePoints` (changepoints.dfy): the sampling ranges, the current variant's rejection sampler
  with minimum spacing, `np.sort`, and the older variant's draw without replacement.
- `Curves` (curves.dfy): the bounds check, `deletion`, relabelling to the log grid, the y flip.
- `Stitching` (stitching.dfy): the per-curve segment loop shared by both variants. It carries the
  loop state from segment to segment and assembles the curve.
- `Generator` (generator.dfy): one curve of the current variant, the batch with deletion after
  every append, and the top-up loop of `surgebinder`.
- `Legacy` (legacy.dfy): the older `surgebinder`.

Randomness is an oracle passed in as data:

- `Unit` is a fraction in [0, 1] standing for one `random()`, so `uniform(a, b)` is `a + (b - a) * u`.
- `TruncNormal` is a value in [-2, 2] from `truncnorm.rvs(a=-2, b=2)`.
- `randint` and `sample(range, 1)` read raw naturals modulo the range's width.
- `choice([-1, 1])` is a boolean.
- The launch is a unit velocity `(vx, vy)` with `vx > 0`, standing for `deg2rad(uniform(-90, 90))`.

Each curve's force draws are a total stream `nat -> ForceDraw`. Change-point candidates and the
per-curve draws of a batch are finite sequences. When these run out, the model returns
`OracleExhausted`; this is how it represents a run of the source that never ends.

Angles are replaced by exact velocity components: a launch `(vx, vy)`, the next segment
launched at `(vx, -vy_final)`, speed squared `vx^2 + vy^2`. With `vx > 0`, this is what
`velocity * cos(arctan(-vy/vx))` and `velocity * sin(...)` compute over the reals.

Where the documented design and the code differ, the model follows the code:

- The first `force_max` of a curve divides by `x_interval[1]` squared, not by the remaining distance
  `x_interval[1] - x_interval[0]`. The speed is 1 there (smurves/smurves.py:617).
- The current sampler draws each candidate from the whole range again (`sample(range, 1)`); only
  the spacing test rejects repeats (smurves/smurves.py:598-605).
- The force drawn after a segment is capped by `min(save_force, force_max) * change_ratio`
  (smurves/smurves.py:689-690). A change-point segment is capped by
  `min(force_max, save_force * change_ratio)` instead (smurves/smurves.py:652-654). Both are modelled
  as written.
- The current flat-start index is `int(N * (sf - x0) / (x1 - x0))` with N the number of grid
  positions, so it can equal N. The older one is `floor(sf / step_size)` measured from 0, not from
  x0 (smurves.py:231).

## Model

| member | source | states |
|---|---|---|
| Grid.PyInt | smurves/smurves.py:580-588 | `int()` of a float truncates toward zero: the result brackets its argument from below for non-negative values and from above for negative ones |
| Grid.PyIntOfFraction | smurves/smurves.py:585-588 | `int(N * f)` for a fraction f in [0, 1] is an index in [0, N] |
| Grid.PySlice | smurves/smurves.py:634-637 | Python slicing clamps both ends to the length: in range it is the Dafny slice, past the end it is empty or the suffix |
| Grid.LinearGrid | smurves/smurves.py:214-217 | the grid has `n_measure` positions, the i-th at `x0 + i * step_size` |
| Grid.LinearGridShape | smurves/smurves.py:214-217 | the grid starts at x0, ends exactly at x1, has equal gaps of `step_size` and is strictly increasing |
| Kinematics.Trajectory | smurves/smurves.py:864-900 | a flight over `partial_steps` returns one point fewer than it is given. The first is the start point, each later point sits at its grid x, and the last point is the final grid position. The horizontal velocity is kept |
| Kinematics.TrajectoryHeights | smurves/smurves.py:873-889 | every measured point after the first lies at the projectile height for its elapsed time `(horizontal_start + i * step_size) / vx` |
| Kinematics.FlatFlight | smurves/smurves.py:656-668 | a zero-force segment launched horizontally stays at its start height, ends there and passes its launch on unchanged |
| Kinematics.JoinIsSmooth | smurves/smurves.py:893-897 | the next segment, with flipped direction and launch `(vx, -vy_final)`, starts with the same vertical rate the previous one ended with |
| Forces.Uniform | smurves/smurves.py:623 | `uniform(a, b)` lies between a and b in either order |
| Forces.ForceMax | smurves/smurves.py:616-621 | from a horizontal launch inside the y-interval the bound force is non-negative |
| Forces.BoundForce | smurves/smurves.py:677-682 | `2 * spread / rest_time^2` is non-negative for a non-negative spread |
| Forces.ScaleForceMax | smurves/smurves.py:641-642 | rescaling by `len(steps) / len(partial_steps)` never shrinks a non-negative `force_max` |
| Forces.SegmentForce | smurves/smurves.py:643-658 | a change-point segment's force is 0 during the flat start. Otherwise it lies in [0, force_max], capped by `save_force * change_ratio` when a ratio is set, the part is not the first and the saved force is non-zero |
| Forces.CarryForce | smurves/smurves.py:683-690 | the force drawn after a segment lies in [0, force_max], or in [0, min(save_force, force_max) * ratio] when a ratio is set and the saved force is non-zero |
| Forces.LegacyDraw | smurves.py:260-265 | the older draw, truncated-normal or uniform, lies between 0 and `force_max` |
| Forces.LegacySegmentForce | smurves.py:286-295 | in the older variant a change-point segment is flat while the flat start is pending and otherwise draws in [0, force_max] |
| Forces.RestTimeCancels | smurves/smurves.py:677-682 | half the bound force times the squared rest time gives back the spread |
| Forces.ForceMaxReachesBound | smurves/smurves.py:616-621 | flown horizontally with `force_max`, the projectile reaches the y bound in its direction at `rest_time` |
| Forces.SpreadReachesBound | smurves/smurves.py:618-621 | a force whose half-square rise equals the spread lands on the bound |
| Forces.DrawnForceEndsBetween | smurves/smurves.py:616-623 | a uniformly drawn force ends the flight between the start height and that bound |
| Forces.FractionOfRise | smurves/smurves.py:623 | scaling the force by a fraction scales the rise, so the end height stays between start and bound |
| ChangePoints.Sort | smurves/smurves.py:606 | `np.sort` returns an ascending permutation of its input |
| ChangePoints.InsertKeepsSpacing | smurves/smurves.py:606 | inserting a point far enough from all others keeps every pair at least `change_spacing` apart |
| ChangePoints.SortKeepsSpacing | smurves/smurves.py:598-606 | sorting keeps every pair of accepted points as far apart as before |
| ChangePoints.SortedSpacedIncreases | smurves/smurves.py:606 | sorted, pairwise well-spaced points increase by at least the spacing |
| ChangePoints.Pick | smurves/smurves.py:599 | `sample(range(lo, hi), 1)` lies in [lo, hi) |
| ChangePoints.RejectionLoop | smurves/smurves.py:597-605 | the loop agrees with the reference walk `Accept`. On success it keeps the seeds in front, adds exactly `sample_number` points from the range, and leaves every pair well spaced |
| ChangePoints.SampleChangePoints | smurves/smurves.py:590-606 | fails with `EmptyRange` exactly when points are wanted from an empty range, and otherwise succeeds exactly when the reference walk does. On success it returns a sorted permutation of the accepted points, strictly increasing by the spacing, with the flat seed first |
| ChangePoints.DrawnInGrid | smurves/smurves.py:579-606 | sorted points drawn from a range inside the grid, after a seed inside it, are grid indices, and all but the last lie before the end |
| ChangePoints.AppendKeepsSpacing | smurves/smurves.py:600-604 | a candidate that passes the spacing test keeps the accepted set well spaced |
| ChangePoints.SeedComesFirst | smurves/smurves.py:594-606 | the flat seed, at or below every drawn point, is first after sorting |
| ChangePoints.SampleNumber | smurves/smurves.py:590 | `randint(0, direction_maximum + 1)` is at most `direction_maximum` |
| ChangePoints.FlatChange | smurves/smurves.py:582-585 | the flat-start index lies in [0, N]: 0 at x0 and N at x1 |
| ChangePoints.LowerRange | smurves/smurves.py:579-587 | the lower end is at least the flat index and stays in [0, N] |
| ChangePoints.HigherRange | smurves/smurves.py:588 | the upper end lies in [0, N] |
| ChangePoints.LegacyFlatChange | smurves.py:231 | the older flat index is the floor of `start_force / step_size` |
| ChangePoints.LegacyLowerRange | smurves.py:228-233 | the older lower end is non-negative and shifted to at least the flat index |
| ChangePoints.Range | smurves.py:236 | `range(lo, hi)` holds exactly the integers in [lo, hi), each once |
| ChangePoints.SampleWithout | smurves.py:238 | `sample(pool, k)` returns k distinct members of the pool |
| ChangePoints.LegacyChangePoints | smurves.py:235-244 | fails with `EmptyRange` exactly when more points are wanted than the range holds. Otherwise it returns the flat index followed by k strictly increasing points from [lo, hi), sorted overall when the flat index is at or below lo |
| ChangePoints.LegacyResultFacts | smurves.py:238-244 | the flat index prepended to the sorted draw keeps the draw increasing, inside the range, and sorted overall when the flat index is at or below lo |
| Curves.Filter | smurves/smurves.py:369-378 | the kept curves are all in bounds, and none is dropped exactly when every curve is in bounds |
| Curves.FilterMembers | smurves/smurves.py:371-374 | a curve is kept exactly when it is in the batch and within the y-interval |
| Curves.FilterAppend | smurves/smurves.py:703-707 | filtering a concatenation filters each part |
| Curves.FilterKeepsAll | smurves/smurves.py:369-378 | a batch of in-bounds curves passes unchanged |
| Curves.FilterIdempotent | smurves/smurves.py:703-707 | deleting again removes nothing more |
| Curves.Deletion | smurves/smurves.py:369-379 | `deletion` keeps the in-bounds curves in order. `delete_flag` is set exactly when some curve is out of bounds, which is exactly when the list shrinks |
| Curves.OutOfBounds | smurves/smurves.py:369-375 | `remove` lists, ascending, exactly the out-of-bounds indices |
| Curves.DeleteDescending | smurves/smurves.py:376-377 | deleting those indices from the highest down leaves the in-bounds curves in order |
| Curves.Relabel | smurves/smurves.py:312-315 | relabelling replaces every x by the grid value at its index and keeps the y column |
| Curves.RelabelKeepsBounds | smurves/smurves.py:312-315 | relabelling does not change whether a curve is in bounds, and doing it twice is doing it once |
| Curves.FlipY | smurves/smurves.py:317-319 | the flip reverses the y column and keeps the x column |
| Curves.FlipYInvolution | smurves.py:362-364 | flipping twice restores the curve, and a flipped curve is in bounds exactly when the original is |
| Curves.FlipAll | smurves/smurves.py:317-319 | every curve of the batch is flipped, in order |
| Curves.RelabelAll | smurves/smurves.py:312-315 | every curve of the batch is relabelled, in order |
| Stitching.DrawAtChange | smurves/smurves.py:640-658 | a change-point force is 0 during the flat start and, in the current variant with a positive ratio, at most `ratio * save_force` |
| Stitching.DrawAfter | smurves/smurves.py:683-690 | the force drawn after a segment is at most `ratio * save_force` when capped, and in [0, force_max] otherwise |
| Stitching.FlySegment | smurves/smurves.py:661-670 | a segment records the slice it covers and the flight `trajectory` returns for it |
| Stitching.ForceFor | smurves/smurves.py:640-658 | a segment without change point keeps the carried force. A change-point segment is flat during the flat start, and otherwise keeps the ratio cap against `save_force` |
| Stitching.SegmentFor | smurves/smurves.py:632-670 | one loop pass covers `steps[counter:cp + 1]`, or the rest of the grid after the last change point. It starts where the carry says, with the carried force when no change point is left, and keeps the ratio cap |
| Stitching.CarryAfter | smurves/smurves.py:670-690 | the next pass starts at the last point with the exit launch and flipped direction. `save_force` is the force just flown, the counter moves to the change point, and the flat start ends |
| Stitching.ChainAt | smurves/smurves.py:632-698 | every stitched segment is flown, and consecutive segments are linked and respect the ratio cap |
| Stitching.Stitch | smurves/smurves.py:632-698 | the loop flies one segment per change point plus a final one, each linked to the previous |
| Stitching.Assemble | smurves/smurves.py:693-702 | the curve is the segments' points followed by the last point of the final segment |
| Stitching.ChainStartsAtStart | smurves/smurves.py:693-702 | the assembled curve's first point is the first segment's start point, whether or not that segment measures a point |
| Stitching.CurveStartsAtStart | smurves/smurves.py:625-702 | a stitched curve starts exactly at the point the loop starts from |
| Stitching.SegmentsOnGrid | smurves/smurves.py:632-702 | a linked chain ending at the grid's end yields one point per remaining grid position, each at its grid x |
| Stitching.Initial | smurves/smurves.py:616-630 | the loop starts at index 0 from the convergence point. `force_max` uses speed 1 and distance `x_interval[1]`, and the first force lies in [0, force_max] |
| Stitching.CurveOnGrid | smurves/smurves.py:625-702 | a curve starting at x0 has its j-th point at the j-th grid position |
| Stitching.SegmentsInOrder | smurves/smurves.py:670-674 | the i-th segment is part i, its direction alternates from the initial one, and it starts at the previous segment's last point and exit launch |
| Stitching.RatioAlongCurve | smurves/smurves.py:644-654 | with a positive change ratio, each segment's force is at most ratio times the previous positive force |
| Stitching.FlatStartIsLevel | smurves/smurves.py:656-658 | with a flat start the first segment is flat with force 0 and ends at the first change point, and no later segment is flat. Launched horizontally, it stays at the start height |
| Stitching.SegmentLength | smurves/smurves.py:634-637 | a segment contributes one point per grid position of its slice except the last |
| Stitching.SegmentsLength | smurves/smurves.py:632-702 | a chain ending at the grid's end covers the grid from its first index |
| Stitching.CurveLength | smurves.py:267-334 | every curve has exactly one point per grid position, wherever its convergence point lies |
| Generator.Steps | smurves/smurves.py:214-217 | the current grid has N positions from x0 to x1 |
| Generator.Convergence | smurves/smurves.py:566-569 | the start is the given convergence point or a uniform draw on the left edge inside the y-interval |
| Generator.Direction | smurves/smurves.py:608 | the initial direction is 1 or -1 |
| Generator.Start | smurves/smurves.py:608-630 | a curve starts at grid index 0 from its convergence point with the drawn launch, flat exactly when a flat start is configured |
| Generator.FlatSeed | smurves/smurves.py:581-585 | the flat seed exists exactly with a flat start and lies in [0, N] |
| Generator.Lower | smurves/smurves.py:579-587 | the sampling range starts in [0, N], at or above the flat seed |
| Generator.Higher | smurves/smurves.py:588 | the sampling range ends in [0, N] |
| Generator.DrawChangePoints | smurves/smurves.py:577-606 | the change points of one curve are valid for the segment loop and strictly increasing by the spacing. There are `sample_number` of them plus the flat seed, which comes first; the others lie in the range. It fails exactly when the range is empty or the candidates run out, with `EmptyRange` in the first case and `OracleExhausted` otherwise |
| Generator.DrawnFrom | smurves/smurves.py:594-606 | after sorting, every change point is the flat seed or drawn from the range |
| Generator.MakeCurve | smurves/smurves.py:566-703 | one curve is the stitched flight over change points drawn as `sample` draws them (increasing by the spacing, `sample_number` of them plus the flat seed first, the others in the range), with its j-th point at the j-th grid position and its first point the convergence point. It fails exactly when those change points cannot be drawn, for that reason |
| Generator.Extend | smurves/smurves.py:566-707 | the appended curve is the stitched flight over the change points drawn for it. Appending it and running `deletion` over the whole list leaves the filter of everything made so far. It fails exactly when the curve's change points cannot be drawn, for that reason |
| Generator.Append | smurves/smurves.py:703-707 | appending a grid-aligned curve and running `deletion` over the whole list keeps every made curve on the grid and leaves the filter of everything made so far |
| Generator.Generate | smurves/smurves.py:563-719 | `generator(n)` makes n curves and returns the in-bounds ones in order. It succeeds exactly when n draws remain and every one of them can be drawn. Otherwise it stops at the first curve whose draws are missing (`OracleExhausted`) or cannot be drawn (that curve's own error), and reports the curves made before it |
| Generator.KeepFiltering | smurves/smurves.py:703-707 | deleting after each append equals deleting once at the end |
| Generator.OutputGrid | smurves/smurves.py:309-315 | the output x values are the linear grid, or the log grid when `log_scale` is set |
| Generator.FinishCurve | smurves/smurves.py:309-319 | the final relabel and flip keep a curve's length |
| Generator.FinishKeeps | smurves/smurves.py:309-319 | a grid-aligned in-bounds curve becomes a finished output: N points on the output grid, in bounds |
| Generator.Finish | smurves/smurves.py:309-319 | every kept curve is finished, in order |
| Generator.Surgebinder | smurves/smurves.py:242-306 | the top-up loop ends with exactly the requested number of curves. They are the in-bounds curves of everything made, in order, and each is finished. Every curve made lies on the grid and came from drawable draws. A failure stops at the first missing or undrawable draws, with that curve's error |
| Generator.KeptOnGrid | smurves/smurves.py:369-379 | deletion keeps grid alignment |
| Legacy.OverGeneration | smurves.py:192-197 | the older variant makes `request * max(1, 2 * direction_maximum * (2 if random_launch))` curves, at least the request |
| Legacy.LegacySteps | smurves.py:185-189 | the older grid has N positions starting at x0 |
| Legacy.LegacyStep | smurves.py:186-187 | the step size is positive |
| Legacy.LegacyConvergence | smurves.py:219-222 | the start is the given point or a uniform draw on the left edge |
| Legacy.LegacySetting | smurves.py:311 | after the first segment, `horizontal_start` is the convergence point's x |
| Legacy.LegacyFlat | smurves.py:231 | the flat index exists exactly with a flat start |
| Legacy.LegacyLower | smurves.py:228-233 | the older range starts non-negative, at or above the flat index |
| Legacy.LegacyHigher | smurves.py:235 | the older range ends in [0, N] |
| Legacy.GridChangePoints | smurves.py:226-244 | the older change points are valid for the segment loop: the flat index first, then k strictly increasing draws from the range. Failure happens exactly when the range or the draws are too short, with the matching error |
| Legacy.GridFacts | smurves.py:238-244 | a successful older draw read as grid indices is valid for the segment loop |
| Legacy.LegacyCps | smurves.py:226-244 | the older change points of one curve are valid for the segment loop |
| Legacy.LegacyIndices | smurves.py:231-244 | a flat index past the grid can only be the last change point |
| Legacy.LegacyStart | smurves.py:246-270 | the older loop starts at index 0 from the convergence point, flat exactly with a flat start |
| Legacy.LegacyCurve | smurves.py:219-334 | an older curve fails exactly when its change points do. It has N points, starts exactly at the convergence point, and lies on the grid when that point is at x0 |
| Legacy.CurveShape | smurves.py:267-334 | the older assembled curve has N points, starts at the loop's start point, and lies on the grid when it starts at x0 |
| Legacy.LegacyMake | smurves.py:218-334 | one older curve is exactly the curve stitched over its drawn change points. It fails exactly when those change points cannot be drawn, and otherwise has N points |
| Legacy.LegacyBatch | smurves.py:217-334 | the over-generated batch succeeds exactly when every curve's draws are present and its change points can be drawn, and every curve has N points. Otherwise it stops at the first curve whose draws are missing (`OracleExhausted`) or cannot be drawn (that curve's own error), and reports the curves made before it |
| Legacy.LegacyRelabel | smurves.py:345-352 | with `log_scale` every curve is relabelled to the log grid; otherwise nothing changes |
| Legacy.LegacyFlip | smurves.py:361-364 | with right convergence every curve's y column is reversed; otherwise nothing changes |
| Legacy.FlipKeeps | smurves.py:361-364 | flipping keeps lengths and keeps in-bounds curves in bounds |
| Legacy.LegacySurgebinder | smurves.py:190-368 | the older `surgebinder` returns the first min(request, kept) curves of the flipped, filtered, relabelled batch. There are at most `request` of them, each in bounds with N points. A failure stops at the first missing or undrawable draws, with that curve's error |

## Left out

- Transcendental functions (`sin`, `cos`, `arctan`, `sqrt`, `deg2rad`) are replaced by exact
  velocity components. `logarithmic` (`log10`, `logspace`) is not modelled: the log grid is a
  given sequence of N values.
- Floating-point rounding is not modelled; all arithmetic is over exact reals.
- `force_max` divides by `rest_time` squared. When a segment ends at the last grid position,
  `rest_time` is 0 and the source gets an infinite or undefined bound; the model defines it as 0.
  A force drawn then only ever flies segments of a single grid position, which yield no point,
  so no position of a curve depends on it. In the older variant the first segment can itself be
  that single position, when the given convergence point lies at `x_interval[1]` and the first
  change point is 0. The next bound and every force after it would then be infinite or undefined
  (smurves.py:312-316). This is not modelled: `Legacy.LegacyValid` requires a given convergence
  point away from `x_interval[1]`.
- The first `force_max` of a curve uses `rest_time = x_interval[1]`. An x-interval ending at 0
  makes that bound infinite or undefined in the source (smurves/smurves.py:617-623,
  smurves.py:255-265), and with it the first force drawn from it. This is not modelled:
  `Generator.Valid` and `Legacy.LegacyValid` require `x_interval[1] != 0`.
- Progress printing and the `print_points`/`perc`/`done_curves` bookkeeping are not modelled.
- `check` (smurves/smurves.py:1022-1102) becomes the precondition `Generator.Valid`; its error
  messages and type tests are not modelled. The model also requires at least two grid positions,
  `x0 < x1` and `x1 != 0`. The bound `change_spacing <= n_measure / direction_maximum` is not required,
  because a spacing the range cannot satisfy only exhausts the candidate draws.
- The older variant validates nothing. `Legacy.LegacyValid` requires `x1 != 0`, a given convergence
  point whose x is not `x1`, change percentiles in [0, 1],
  a non-negative `start_force` (a negative one would index from the end) and a log grid of length N.
- The unused draw `allowed = range(0, randint(...))` is not modelled, since nothing reads it.
- The negated `force` after each segment is overwritten by the next draw before use, so it is not
  modelled.
- `sample` is modelled as removal at the raw pick's index, modulo the remaining pool. Which
  permutation Python's algorithm produces is not modelled.
- A rejection loop that never finds enough well-spaced candidates runs forever in the source. The
  model returns `OracleExhausted` when the finite candidate draws run out.
- With `log_scale`, the current generator replaces the convergence x by its `log10`
  (smurves/smurves.py:570-573), and both variants move the flat start to the log grid (smurves/smurves.py:235-239,
  smurves.py:209-215).
  Neither is modelled: the curves are always built on the linear grid and relabelled at the end.
- Generator.Generate: does not tie each made curve to its own draws, because that equation unfolds
  the whole segment loop for every curve of the batch. `Generator.MakeCurve` states it for one
  curve: its change points and the stitched flight over them.
- Generator.Surgebinder: the same weakening as `Generator.Generate`. It states that the result is
  the finished filter of the curves made, that every made curve lies on the grid, and where and why
  a failure stops.
- Legacy.LegacyBatch: does not state which curve each draw produces; `Legacy.LegacyCurve` states
  that for one curve.
- Legacy.LegacySurgebinder: the same weakening as `Legacy.LegacyBatch`. It states that the made
  curves number the over-generation count and have N points each.
- Legacy.LegacyCurve: the older curve is stated to lie on the grid only when its convergence point
  has x equal to x0. A given convergence point elsewhere still yields N points, but the first one
  is off the grid.
- Kinematics.Trajectory: the returned velocity is represented by the exit launch only; the
  intermediate per-point velocities are not returned.
