# brushsplat: the stroke optimiser and the curve geometry, in Dafny

brushsplat paints an approximation of a reference image out of brush
strokes. Each stroke is a quadratic Bézier curve with a radius at each of
its three control points, a colour and an opacity. The optimiser runs one
stroke at a time:

- It samples a target pixel in proportion to the remaining per-pixel colour
  difference.
- It draws 100 candidate strokes: fresh strokes at the target, or variations
  of the last stroke that was kept. The first cheapest candidate is kept.
- It refines that stroke by finite-difference gradient descent inside a
  bounding box until the cost change is small.
- It then either commits the stroke, recomputing the difference map, or
  discards it and restores the canvas.

A separate GPU path resamples a curve with Catmull-Rom splines and turns it
into a ribbon vertex buffer.

The project models these parts:

- `Util` (`util.ts`): `clamp` and `randBetween`, with the random draw passed
  in as `u`.
- `JsMath`: the `Math.floor`, `Math.ceil`, `Math.round`, `Math.abs`,
  `Math.min` and `Math.max` calls the optimiser makes, over exact reals.
- `ColorDifference` (`colorDifference.ts`):
  - the squared RGB distance and `cheapLightness`;
  - `computeDifferenceMap`, a method that fills an `array<int>` in place and
    returns its total;
  - `computeCostOfPatch`, nested loops over a box with the global and local
    row-major index formulas.
- `Strokes` (`Stroke.ts`): the stroke record, `sampleQuadBezier`, and the
  segment walk of `draw` as the sequence of fill commands it issues (start
  cap, then a ribbon quad and a joint disc per non-degenerate segment).
- `Optimizer` (`BrushOptimizer.ts`):
  - the clamped candidate generators as functions of their draws;
  - inverse-CDF target sampling;
  - the best-of-100 selection;
  - the refinement step (bounding box, probes, gradients, descent, cost
    bookkeeping, convergence test);
  - commit/discard.

  The class `BrushOptimizer` has the source's fields. Its methods change them
  in place and write the canvas, a `Canvas` object holding an RGBA byte
  sequence.

  Each state-changing method is proved against a specification function of
  the old state and canvas: `Started`, `Optimized`, `StepOutcome`,
  `Finalized`, and `Frame` for one frame of `loop`. Each also preserves the session invariant `Valid()`:
  - sizes agree with the configuration;
  - the difference map and its total describe the current image;
  - a stroke under refinement has a background, parameters in range, and
    fewer than 1000 steps.
- `CatmullRom` (`sampleCatmullRom.ts`): the basis polynomial, and the
  resampling loops proved equal to a recursive definition.
- `MeshLine` (`buildMeshLineBuffer.ts`): the vertex-buffer loop over an
  `array<real>`, proved to write each point's two offset vertices at offset
  `4 i`.

Pixel buffers are sequences of bytes (`Byte`, 0..255). Distances, costs,
`totalDifference` and `lastCost` are integers, since the squared distance of
byte differences is an integer. Geometry, colours and draws are `real`.

These are parameters, not definitions:

- every `Math.random()` draw, as a real in [0, 1);
- the values of `randBetweenExponential`, `Math.cos` and `Math.sin`, as
  opaque reals inside the draw records;
- `Math.sqrt`;
- the canvas rasteriser, `Raster`, which only has to keep the buffer
  length;
- `vec2.normalize`.

`optimizeStroke` (`BrushOptimizer.ts:251-257`) clamps radii, colour
channels and alpha but never positions; the model does the same.

## Model

| member | source | states |
|---|---|---|
| JsMath.Floor | src/lib/optimization/BrushOptimizer.ts:197-198 | the result is the greatest integer not above the argument |
| JsMath.Ceil | src/lib/optimization/BrushOptimizer.ts:202-203 | the result is the least integer not below the argument |
| JsMath.Round | src/lib/optimization/BrushOptimizer.ts:500-502 | the result is within one half of the argument, halves rounding up |
| JsMath.Abs | src/lib/optimization/BrushOptimizer.ts:273 | the result is non-negative and is the argument or its negation |
| JsMath.Min3 | src/lib/optimization/BrushOptimizer.ts:191-192 | the result is at most each argument and equals one of them |
| JsMath.Max3 | src/lib/optimization/BrushOptimizer.ts:189-194 | the result is at least each argument and equals one of them |
| Util.Clamp | src/lib/optimization/util.ts:1 | with min <= max the result lies in [min, max]; a value already inside is unchanged; with min > max the result is max; never above max |
| Util.ClampIdempotent | src/lib/optimization/util.ts:1 | clamping twice is clamping once |
| Util.ClampMonotone | src/lib/optimization/util.ts:1 | clamp is monotone in the value |
| Util.ClampNonExpansive | src/lib/optimization/util.ts:1 | clamping never moves two values further apart: the distance of the clamped values is at most the distance of the values |
| Util.RandBetween | src/lib/optimization/util.ts:3 | with a draw in [0, 1) and min <= max the result is in [min, max], below max when min < max, and min for the draw 0 |
| Util.ScaleByDraw | src/lib/optimization/BrushOptimizer.ts:349 | a draw in [0, 1) scales a non-negative total into [0, total), and a positive draw keeps a positive total positive |
| Util.SymmetricJitter | src/lib/optimization/util.ts:3 | a symmetric jitter `randBetween(-j, j)` with a draw in [0, 1) is at most j in absolute value, and the draws u and 1 - u give opposite jitters |
| ColorDifference.SrgbCartesianSq | src/lib/optimization/colorDifference.ts:4 | the distance is non-negative, zero exactly when all three differences are zero, and at least each squared difference |
| ColorDifference.SrgbCartesianSqBound | src/lib/optimization/colorDifference.ts:4 | differences of bytes give a distance of at most 3 * 255^2 |
| ColorDifference.CheapLightness | src/lib/optimization/colorDifference.ts:85-87 | a grey (r = g = b) has its own value as lightness, and channels in [0, 255] give a lightness in [0, 255] |
| ColorDifference.DifferenceMap | src/lib/optimization/colorDifference.ts:19-27 | the map has one entry per pixel |
| ColorDifference.DifferenceMapEntries | src/lib/optimization/colorDifference.ts:20-25 | entry i is the distance of channels 4i..4i+2 of the reference minus the current image |
| ColorDifference.DifferenceMapReadsOnlyRgb | src/lib/optimization/colorDifference.ts:20-23 | buffers that agree on every non-alpha byte of the first n pixels give the same map: alpha bytes and bytes past the map are never read |
| ColorDifference.IdenticalImagesHaveZeroDifference | src/lib/optimization/colorDifference.ts:17-29 | for a distance that is 0 on equal colours, an image against itself has every entry 0 and total 0 |
| ColorDifference.SquaredDifferenceMapNonNegative | src/lib/optimization/colorDifference.ts:17-29 | with the squared distance every entry and the total are non-negative |
| ColorDifference.ComputeDifferenceMap | src/lib/optimization/colorDifference.ts:6-30 | the output array is the difference map, each entry the distance of pixel i, and the returned total is the sum of the array |
| ColorDifference.IndicesInBounds | src/lib/optimization/colorDifference.ts:57-64 | for a box inside the image, every global and local pixel index of the box addresses a whole pixel of its buffer |
| ColorDifference.ComputeCostOfPatch | src/lib/optimization/colorDifference.ts:32-71 | the cost is the sum over all rows of the box of the row costs, each pixel compared at its global and its local index |
| ColorDifference.ComputeRowCost | src/lib/optimization/colorDifference.ts:56-67 | the inner loop's cost is the sum over the row's w pixels |
| ColorDifference.EmptyBoxCostsNothing | src/lib/optimization/colorDifference.ts:52-70 | a box of width 0 or height 0 costs 0 |
| ColorDifference.PatchCostCountsEveryPixel | src/lib/optimization/colorDifference.ts:55-68 | with a constant distance k, rows of the box cost rows * w * k: every pixel of the box is counted exactly once |
| ColorDifference.OriginBoxCostIsMapSum | src/lib/optimization/colorDifference.ts:6-71 | for a box at the origin as wide as the image, the patch cost is the sum of the difference map of the box's pixels |
| ColorDifference.OriginPatchCostIsMapSum | src/lib/optimization/colorDifference.ts:55-68 | the first rows rows of such a box cost the sum of the map entries of their rows * w pixels |
| ColorDifference.OriginRowIsMapSum | src/lib/optimization/colorDifference.ts:56-67 | the first n pixels of row y add their map entries to the sum over the rows above |
| ColorDifference.OriginPixelStep | src/lib/optimization/colorDifference.ts:57-66 | the pixel at the global and local index y * w + x adds its map entry to both sums |
| Strokes.Blend | src/lib/optimization/Stroke.ts:37-45 | the Bézier blend is the first value at t = 0, the last at t = 1, and a shared value when all three agree |
| Strokes.WeightsSumToOne | src/lib/optimization/Stroke.ts:37-40 | the weights (1-t)^2, 2(1-t)t and t^2 sum to 1 |
| Strokes.BlendWithin | src/lib/optimization/Stroke.ts:37-45 | for t in [0, 1] the blend of three values in [lo, hi] is in [lo, hi] |
| Strokes.SampleQuadBezier | src/lib/optimization/Stroke.ts:36-47 | the sample at t = 0 is p0 and at t = 1 is p2, in x, y and radius |
| Strokes.SampleAt | src/lib/optimization/Stroke.ts:56-58 | the sample of step 0 is p0 and that of step 20 (t = 20/20) is p2 |
| Strokes.UnitNormal | src/lib/optimization/Stroke.ts:66-67 | the normal (-dy/len, dx/len) is perpendicular to the segment |
| Strokes.Perpendicular | src/lib/optimization/Stroke.ts:66-67 | the same perpendicularity, as an equation |
| Strokes.LengthPositive | src/lib/optimization/Stroke.ts:63 | for a square root, the segment length is non-negative and positive exactly when the segment moves |
| Strokes.StepLengthPositive | src/lib/optimization/Stroke.ts:61-65 | the length between two samples is positive exactly when they differ in x or y |
| Strokes.Ribbon | src/lib/optimization/Stroke.ts:69-75 | the quad's two edges are centred on the previous and the current sample, each spanning twice the normal scaled by its sample's radius |
| Strokes.SegmentFills | src/lib/optimization/Stroke.ts:65-81 | a segment emits nothing exactly when its length is not positive, else a quad then the disc at the current sample |
| Strokes.SegmentIsPerpendicularRibbon | src/lib/optimization/Stroke.ts:65-75 | an emitted segment has a normal perpendicular to it |
| Strokes.StepEmitsIffMoved | src/lib/optimization/Stroke.ts:61-83 | a step emits nothing exactly when the two samples coincide |
| Strokes.StartCap | src/lib/optimization/Stroke.ts:49-54 | the start cap is the disc at p0 with p0's radius |
| Strokes.Step | src/lib/optimization/Stroke.ts:57-83 | each step emits zero or two commands |
| Strokes.SegmentsUpTo | src/lib/optimization/Stroke.ts:56-84 | n steps emit an even number of commands, at most 2n |
| Strokes.StrokeFills | src/lib/optimization/Stroke.ts:49-84 | a stroke emits between 1 and 41 commands, the first the start cap at p0 |
| Strokes.Draw | src/lib/optimization/Stroke.ts:29-87 | the drawing loop over i = 1..20 emits exactly `StrokeFills` |
| Strokes.StationaryStrokeDrawsOnlyCap | src/lib/optimization/Stroke.ts:56-84 | a stroke whose control points share a position emits no segment commands, only the cap |
| Strokes.DiscsOnCurve | src/lib/optimization/Stroke.ts:77-80 | every joint disc is the sample of some step 1..n, with its radius |
| Strokes.DiscRadiiWithin | src/lib/optimization/Stroke.ts:45 | control radii in [lo, hi] give every drawn disc a radius in [lo, hi] |
| Strokes.LastDiscAtEnd | src/lib/optimization/Stroke.ts:56-81 | when the last step moves, the last command is the disc at p2 with its radius |
| Optimizer.OrDefault | src/lib/optimization/BrushOptimizer.ts:52-56 | a given option wins over the fallback |
| Optimizer.Resolve | src/lib/optimization/BrushOptimizer.ts:52-59 | the size is the reference's; absent options take the defaults 1, [1, 400], [2, 16], 9 and [0.8, 1]; given ranges are kept |
| Optimizer.DefaultsAreValid | src/lib/optimization/BrushOptimizer.ts:52-56 | the defaults form a valid configuration |
| Optimizer.JitterStaysNear | src/lib/optimization/BrushOptimizer.ts:402-404 | a value in range jittered by at most j and clamped back moves by at most j |
| Optimizer.PerturbPoint | src/lib/optimization/BrushOptimizer.ts:401-405 | a perturbed point is on the canvas with its radius in the brush range |
| Optimizer.PerturbPointNear | src/lib/optimization/BrushOptimizer.ts:401-405 | a perturbed point is within 10 of the original in x and y and within 2 in radius |
| Optimizer.JitterChannel | src/lib/optimization/BrushOptimizer.ts:412-414 | a jittered colour channel is in [0, 255] |
| Optimizer.PerturbStroke | src/lib/optimization/BrushOptimizer.ts:395-418 | a perturbed stroke has every radius, channel and alpha in range and every point on the canvas |
| Optimizer.PerturbStaysNear | src/lib/optimization/BrushOptimizer.ts:395-418 | each point moves by at most 10 (radius 2), each channel by at most 10, alpha by at most 0.1 |
| Optimizer.AttachPoint | src/lib/optimization/BrushOptimizer.ts:424-425 | the base point is the start or the end of the stroke |
| Optimizer.GenerateConnectedStroke | src/lib/optimization/BrushOptimizer.ts:422-476 | a connected stroke has every field in range and every point on the canvas |
| Optimizer.ConnectedStrokeStartsAtEnd | src/lib/optimization/BrushOptimizer.ts:432-474 | it starts within 5 (radius 2) of the chosen end of the last stroke, with its colour within 10 and alpha within 0.1 |
| Optimizer.RoundedChannel | src/lib/optimization/BrushOptimizer.ts:500 | a randomized channel is a whole number in [0, 255] |
| Optimizer.RandomizeColor | src/lib/optimization/BrushOptimizer.ts:497-504 | all three channels are whole numbers in [0, 255] |
| Optimizer.RandomizedChannelNear | src/lib/optimization/BrushOptimizer.ts:500-502 | a channel moves by at most the jitter plus one half of rounding |
| Optimizer.BuildStrokePoints | src/lib/optimization/BrushOptimizer.ts:363-393 | p0 is the origin with its drawn radius; p1 and p2 are on the canvas with their drawn radii |
| Optimizer.FreshStroke | src/lib/optimization/BrushOptimizer.ts:144-155 | a fresh stroke starts at the target, lies on the canvas when the target does, and is in range for valid draws |
| Optimizer.Candidate | src/lib/optimization/BrushOptimizer.ts:134-156 | without a last stroke a candidate is fresh; every candidate is in range |
| Optimizer.FirstMinimumStep | src/lib/optimization/BrushOptimizer.ts:159-162 | a strictly cheaper cost replaces the best, a tie or a dearer one keeps it |
| Optimizer.FirstMinimum | src/lib/optimization/BrushOptimizer.ts:130-163 | the index is a first minimum: no cost is smaller and every earlier cost is strictly larger |
| Optimizer.FirstMinimumUnique | src/lib/optimization/BrushOptimizer.ts:159-162 | there is only one first minimum |
| Optimizer.FirstReachingExists | src/lib/optimization/BrushOptimizer.ts:350-357 | if some prefix sum reaches the target, a first one does |
| Optimizer.SampledPixelDiffers | src/lib/optimization/BrushOptimizer.ts:349-357 | for a positive target the first pixel whose prefix sum reaches it has a positive difference |
| Optimizer.SamplingFindsPixel | src/lib/optimization/BrushOptimizer.ts:349-358 | a target no larger than a positive total is reached by some pixel |
| Optimizer.RefinementBox | src/lib/optimization/BrushOptimizer.ts:189-203 | the box lies within the canvas and covers the padded extent of the control points except where a canvas edge cuts it |
| Optimizer.ClipStart | src/lib/optimization/BrushOptimizer.ts:197-198 | the box origin is on the canvas and at or before the padded minimum unless it is 0 |
| Optimizer.ClipLength | src/lib/optimization/BrushOptimizer.ts:202-203 | the box extent stays on the canvas and reaches the padded maximum unless it is cut at the edge |
| Optimizer.DescentStep | src/lib/optimization/BrushOptimizer.ts:234-257 | after a step every radius, channel and alpha is in range |
| Optimizer.ZeroGradientIsFixedPoint | src/lib/optimization/BrushOptimizer.ts:234-257 | a zero gradient leaves an in-range stroke unchanged |
| Optimizer.StepFollowsGradient | src/lib/optimization/BrushOptimizer.ts:234-257 | each of the thirteen parameters (six positions, three radii, three channels, alpha) moves against its gradient: a non-negative gradient never raises it and a non-positive one never lowers it |
| Optimizer.PositionFollowsGradient | src/lib/optimization/BrushOptimizer.ts:234-241 | the six position updates `x -= grad * posLearningRate` move against their gradients |
| Optimizer.ClampedFollowsGradient | src/lib/optimization/BrushOptimizer.ts:242-257 | radii, channels and alpha, stepped and clamped back into range, move against their gradients |
| Optimizer.PositionRatePositive | src/lib/optimization/BrushOptimizer.ts:234-235 | for an in-range stroke the position learning rate, learning rate times average radius over alpha, is positive |
| Optimizer.MoveAgainst | src/lib/optimization/BrushOptimizer.ts:236-241 | subtracting a gradient times a positive rate never moves a value in the gradient's direction |
| Optimizer.ClampAgainst | src/lib/optimization/BrushOptimizer.ts:242-257 | a clamped step against a gradient never goes uphill |
| Optimizer.ShouldFinalize | src/lib/optimization/BrushOptimizer.ts:272-273 | 1000 steps always finalize; two steps or fewer never do below the cap |
| Optimizer.ConvergenceThreshold | src/lib/optimization/BrushOptimizer.ts:272-273 | a cost change at or above 30 times the average radius keeps refining; no change after two steps finalizes |
| Optimizer.ProbeStep | src/lib/optimization/BrushOptimizer.ts:219-231 | probe steps are positive for positive radii, and 1 for radius and colour probes |
| Optimizer.Probe | src/lib/optimization/BrushOptimizer.ts:210-231 | probe k moves parameter k by its probe step and no other parameter |
| Optimizer.ClampRadii | src/lib/optimization/BrushOptimizer.ts:211-214 | only the radii change, they land in range, and an in-range stroke is unchanged |
| Optimizer.EstimatedGradients | src/lib/optimization/BrushOptimizer.ts:218-232 | gradient k is the cost difference of probe k over its probe step |
| Optimizer.CheaperProbePointsUphill | src/lib/optimization/BrushOptimizer.ts:218-232 | a cheaper probe gives a non-positive gradient, a dearer one a non-negative gradient |
| Optimizer.FullBox | src/lib/optimization/BrushOptimizer.ts:316-319 | the default box is the whole canvas |
| Optimizer.CropFullBox | src/lib/optimization/BrushOptimizer.ts:316-321 | `getImageData` of the whole canvas returns the image unchanged |
| Optimizer.FullBoxCostIsTotalDifference | src/lib/optimization/BrushOptimizer.ts:310-342 | the cost without a box is the total of the canvas's difference map, the quantity `totalDifference` holds |
| Optimizer.BoxFits | src/lib/optimization/BrushOptimizer.ts:316-321 | a box on the canvas lies inside a full image |
| Optimizer.Crop | src/lib/optimization/BrushOptimizer.ts:321 | a cropped patch holds 4 bytes per pixel of the box |
| Optimizer.CropPixel | src/lib/optimization/BrushOptimizer.ts:321-336 | the patch byte at a pixel's local index is the image byte at its global index |
| Optimizer.TargetOf | src/lib/optimization/BrushOptimizer.ts:354-356 | the target keeps the index, and x < width with y * width + x = index |
| Optimizer.Search | src/lib/optimization/BrushOptimizer.ts:350-358 | a found index is at or after the start and inside the map |
| Optimizer.SearchFindsFirst | src/lib/optimization/BrushOptimizer.ts:350-360 | the search returns the first pixel whose prefix sum reaches the target, or none when no prefix does |
| Optimizer.SearchReachesTarget | src/lib/optimization/BrushOptimizer.ts:349-358 | a target no larger than a positive total is found |
| Optimizer.PickTargetAt | src/lib/optimization/BrushOptimizer.ts:353-356 | a found index becomes the target at that index |
| Optimizer.PickTargetNone | src/lib/optimization/BrushOptimizer.ts:358-360 | when the search finds nothing there is no target |
| Optimizer.PickTargetReaches | src/lib/optimization/BrushOptimizer.ts:349-357 | with a positive total a target is found; it is the first pixel reaching the target value, and has a positive difference when the target value is positive |
| Optimizer.PickTargetFindsDifferingPixel | src/lib/optimization/BrushOptimizer.ts:344-361 | no target when the total is not positive; otherwise the first pixel whose prefix sum reaches u * total, on the canvas, with a positive difference for u > 0 |
| Optimizer.ReferenceColor | src/lib/optimization/BrushOptimizer.ts:487-495 | the sampled reference colour has channels in [0, 255] |
| Optimizer.Painted | src/lib/optimization/BrushOptimizer.ts:302-308 | painting keeps the image size |
| Optimizer.White | src/lib/optimization/BrushOptimizer.ts:61-66 | the filled canvas has every byte 255 |
| Optimizer.Canvas.constructor | src/lib/optimization/BrushOptimizer.ts:10 | the context holds the given pixels |
| Optimizer.BrushOptimizer.constructor | src/lib/optimization/BrushOptimizer.ts:39-81 | the configuration is resolved, the canvas is white, the current image is read from it, the difference map is current and no stroke is in progress |
| Optimizer.BrushOptimizer.ProbeCosts | src/lib/optimization/BrushOptimizer.ts:218-231 | there is one probe cost per probe |
| Optimizer.BrushOptimizer.DiscardedOf | src/lib/optimization/BrushOptimizer.ts:281-286 | a stroke whose cost exceeds the total difference is dropped with its background, and the background is shown |
| Optimizer.BrushOptimizer.CommittedOf | src/lib/optimization/BrushOptimizer.ts:289-299 | a kept stroke is painted, becomes the last successful stroke, the total is recomputed from the painted image and one more iteration is counted |
| Optimizer.BrushOptimizer.StepOutcomeOf | src/lib/optimization/BrushOptimizer.ts:259-275 | after a step the session finalizes exactly when the convergence test passes |
| Optimizer.BrushOptimizer.SelectionIsCheapest | src/lib/optimization/BrushOptimizer.ts:133-169 | the selected stroke is one of the candidates, its cost is its own cost, and no candidate is cheaper |
| Optimizer.BrushOptimizer.StartedOf | src/lib/optimization/BrushOptimizer.ts:165-169 | a started stroke has the selected cost as session cost and no steps taken |
| Optimizer.BrushOptimizer.RecomputeDifferenceMap | src/lib/optimization/BrushOptimizer.ts:478-485 | the map and the total describe the current image with the squared distance; nothing else changes |
| Optimizer.BrushOptimizer.DrawStrokeToCanvas | src/lib/optimization/BrushOptimizer.ts:302-308 | with a background the canvas shows the stroke painted on it; without one the canvas is unchanged |
| Optimizer.BrushOptimizer.CalculateCostWithStroke | src/lib/optimization/BrushOptimizer.ts:310-342 | the canvas shows the stroke and the cost is the squared distance of reference and canvas over the box, or over the whole canvas without one |
| Optimizer.BrushOptimizer.Evaluate | src/lib/optimization/BrushOptimizer.ts:210-216 | the cost in the box of the probe with its radii clamped to the brush range |
| Optimizer.BrushOptimizer.PickTargetPixel | src/lib/optimization/BrushOptimizer.ts:344-361 | the prefix-sum loop returns the target `PickTarget` defines, whose properties `PickTargetFindsDifferingPixel` states |
| Optimizer.BrushOptimizer.Candidates | src/lib/optimization/BrushOptimizer.ts:133-156 | there is one candidate per draw |
| Optimizer.BrushOptimizer.CandidateAt | src/lib/optimization/BrushOptimizer.ts:133-156 | candidate i is generated from draw i and the reference colour at the target |
| Optimizer.BrushOptimizer.CandidateCosts | src/lib/optimization/BrushOptimizer.ts:158 | there is one cost per candidate |
| Optimizer.BrushOptimizer.CandidateCostAt | src/lib/optimization/BrushOptimizer.ts:158 | cost j is the full-canvas cost of candidate j |
| Optimizer.BrushOptimizer.CandidateCostsStep | src/lib/optimization/BrushOptimizer.ts:158 | the costs of one more candidate extend the earlier costs |
| Optimizer.BrushOptimizer.CandidateCostsSnoc | src/lib/optimization/BrushOptimizer.ts:158 | appending a candidate appends its cost |
| Optimizer.BrushOptimizer.CandidateCostIsTotalDifference | src/lib/optimization/BrushOptimizer.ts:158 | a candidate's cost is the total difference the canvas would have with the candidate committed |
| Optimizer.BrushOptimizer.SelectionOf | src/lib/optimization/BrushOptimizer.ts:133-163 | the first minimum of the loop's costs, its cost and the last candidate's canvas are the selection, and the selected stroke is in range |
| Optimizer.BrushOptimizer.SelectCandidate | src/lib/optimization/BrushOptimizer.ts:129-163 | the best-of-100 loop ends with the selection: the first cheapest candidate, its cost and the canvas showing the last candidate |
| Optimizer.BrushOptimizer.BeginStroke | src/lib/optimization/BrushOptimizer.ts:126-171 | the session and canvas become `Started` of the old ones, keeping the invariant |
| Optimizer.BrushOptimizer.AdoptStroke | src/lib/optimization/BrushOptimizer.ts:167-169 | the chosen stroke and its cost are taken with no steps, and nothing else changes |
| Optimizer.BrushOptimizer.StartNewStroke | src/lib/optimization/BrushOptimizer.ts:120-172 | succeeds exactly when the total exceeds 0.001 and a target exists; on failure nothing changes; on success the session and canvas are `Started` for that target |
| Optimizer.BrushOptimizer.EvaluateProbes | src/lib/optimization/BrushOptimizer.ts:218-231 | the thirteen probe costs, in the order of the gradient fields |
| Optimizer.BrushOptimizer.RefineStroke | src/lib/optimization/BrushOptimizer.ts:208-260 | the step is `Refine` of the stroke, its result in range, and the canvas shows it |
| Optimizer.BrushOptimizer.CommitStep | src/lib/optimization/BrushOptimizer.ts:259-266 | the stepped stroke is taken, the session cost drops by the cost change, the step counter grows by one, and nothing else changes |
| Optimizer.BrushOptimizer.ApplyStep | src/lib/optimization/BrushOptimizer.ts:208-266 | one refinement step with its bookkeeping, as `CommitStep` states for `Refine` of the stroke |
| Optimizer.BrushOptimizer.DiscardStroke | src/lib/optimization/BrushOptimizer.ts:281-286 | the discard path of `Finalized`: background restored, stroke and background cleared, the rest unchanged |
| Optimizer.BrushOptimizer.CommitImprovesWhenEstimateExact | src/lib/optimization/BrushOptimizer.ts:281-294 | on the commit path the new total difference is the committed stroke's full-canvas cost, so it is no larger than the old total whenever `lastCost` equals that cost |
| Optimizer.BrushOptimizer.CommitStroke | src/lib/optimization/BrushOptimizer.ts:289-299 | the commit path of `Finalized`: stroke painted and kept as the last successful one, difference map recomputed, one more iteration |
| Optimizer.BrushOptimizer.CloseStroke | src/lib/optimization/BrushOptimizer.ts:296-299 | one more iteration, stroke and background cleared, nothing else changes |
| Optimizer.BrushOptimizer.FinalizeStroke | src/lib/optimization/BrushOptimizer.ts:278-300 | the session and canvas become `Finalized` of the old ones, keeping the invariant |
| Optimizer.BrushOptimizer.StepAndConclude | src/lib/optimization/BrushOptimizer.ts:208-275 | the session and canvas become `StepOutcome`: one step, then finalization when the convergence test passes |
| Optimizer.BrushOptimizer.OptimizeStroke | src/lib/optimization/BrushOptimizer.ts:174-276 | the session and canvas become `Optimized` of the old ones, keeping the invariant |
| Optimizer.BrushOptimizer.Stop | src/lib/optimization/BrushOptimizer.ts:89-95 | only `running` changes, to false |
| Optimizer.BrushOptimizer.RefineInRanges | src/lib/optimization/BrushOptimizer.ts:251-257 | a refinement step keeps radii, colour and alpha in range |
| Optimizer.BrushOptimizer.StepOutcomeKeepsReady | src/lib/optimization/BrushOptimizer.ts:208-275 | a step, finalized or not, leaves a canvas-sized background and any stroke in range, and does not change `running` |
| Optimizer.BrushOptimizer.OptimizedKeepsReady | src/lib/optimization/BrushOptimizer.ts:174-276 | `optimizeStroke` leaves the session ready for the next call and does not change `running` |
| Optimizer.BrushOptimizer.Refined | src/lib/optimization/BrushOptimizer.ts:112-114 | any number of `optimizeStroke` calls keep the session ready and do not change `running` |
| Optimizer.BrushOptimizer.FrameRunsOn | src/lib/optimization/BrushOptimizer.ts:101-118 | after a frame the session runs exactly when it ran before and has, or had, a stroke: a stopped one stays stopped, one refining a stroke keeps running, one without a stroke stops exactly when none is started |
| Optimizer.BrushOptimizer.OptimizedStuck | src/lib/optimization/BrushOptimizer.ts:188-206 | an `optimizeStroke` step on a stroke whose refinement box is empty changes neither session nor canvas |
| Optimizer.BrushOptimizer.RefinedFixed | src/lib/optimization/BrushOptimizer.ts:112-114 | a session and canvas that one `optimizeStroke` step leaves unchanged stay unchanged for any number of steps |
| Optimizer.BrushOptimizer.StuckStrokeFrameIsFixed | src/lib/optimization/BrushOptimizer.ts:101-118 | a running session whose stroke has an empty refinement box is a fixed point of `Frame`: it keeps running, the stroke is never finalized, and the canvas never changes |
| Optimizer.BrushOptimizer.Loop | src/lib/optimization/BrushOptimizer.ts:101-118 | the session and canvas become `Frame` of the old ones: unchanged when stopped; with a stroke, `iterationsPerFrame` `Optimized` steps; without one, `Started` at the picked target when the total exceeds 0.001 and a target exists, otherwise stopped with nothing else changed; the invariant holds |
| Optimizer.BrushOptimizer.Start | src/lib/optimization/BrushOptimizer.ts:83-87 | a running session is unchanged; a stopped one is set running and takes one `Frame`; the invariant holds |
| MeshLine.Before | src/lib/gpu/geometry/buildMeshLineBuffer.ts:27-29 | the neighbour before point i is point i - 1, or point 0 itself at the start |
| MeshLine.After | src/lib/gpu/geometry/buildMeshLineBuffer.ts:30-32 | the neighbour after point i is point i + 1, or the last point itself at the end |
| MeshLine.Normal | src/lib/gpu/geometry/buildMeshLineBuffer.ts:35 | the normal is perpendicular to the tangent |
| MeshLine.QuadUnchanged | src/lib/gpu/geometry/buildMeshLineBuffer.ts:40-41 | writes outside a point's four slots leave its vertices in place |
| MeshLine.BuildMeshLineBuffer | src/lib/gpu/geometry/buildMeshLineBuffer.ts:9-47 | the buffer holds 4n coordinates; one point gives [x - r, y, x + r, y]; otherwise slots 4i..4i+3 hold point i's left and right vertices |
| MeshLine.VerticesSymmetric | src/lib/gpu/geometry/buildMeshLineBuffer.ts:40-41 | a point's two vertices are symmetric about it |
| MeshLine.VerticesAcrossTangent | src/lib/gpu/geometry/buildMeshLineBuffer.ts:34-41 | each vertex is offset from its point at right angles to the tangent |
| CatmullRom.Basis | src/lib/gpu/geometry/sampleCatmullRom.ts:3-14 | the cubic is x1 at t = 0, x2 at t = 1, and constant on constant input |
| CatmullRom.Neighbours | src/lib/gpu/geometry/sampleCatmullRom.ts:30-37 | segment i uses points i and i + 1, with points i - 1 and i + 2 outside, duplicated at the ends |
| CatmullRom.Divisions | src/lib/gpu/geometry/sampleCatmullRom.ts:39-46 | the first k divisions give k samples |
| CatmullRom.SampleCatmullRom | src/lib/gpu/geometry/sampleCatmullRom.ts:16-57 | the nested loops return `Sampled`: the input for fewer than two points, else every segment's samples then the last point |
| CatmullRom.SegmentsLength | src/lib/gpu/geometry/sampleCatmullRom.ts:29-47 | m segments give m * nDivisons samples |
| CatmullRom.SampledShape | src/lib/gpu/geometry/sampleCatmullRom.ts:23-55 | fewer than two points come back unchanged; else (n - 1) * nDivisons + 1 points ending with the last control point |
| CatmullRom.DivisionsStartAtControlPoint | src/lib/gpu/geometry/sampleCatmullRom.ts:39-45 | the first sample of a segment is its first control point |
| CatmullRom.SegmentsPrefix | src/lib/gpu/geometry/sampleCatmullRom.ts:29-47 | later segments only append samples |
| CatmullRom.SampledPassesControlPoints | src/lib/gpu/geometry/sampleCatmullRom.ts:29-45 | sample i * nDivisons is control point i, so the curve passes through every control point, the first one first |
| CatmullRom.ConstantCurve | src/lib/gpu/geometry/sampleCatmullRom.ts:3-54 | a curve of identical points resamples to copies of that point |

## Left out

- The canvas 2D API is not modelled. `fillRect`, `arc`, `fill`, `putImageData` and `getImageData` are replaced by a pixel sequence plus the injected rasteriser `Raster`. Only its length-preserving shape is assumed, so nothing is proved about which pixels a stroke covers.
- The canvas always holds exactly `width * height` pixels.
- Reference bitmap decoding (`BrushOptimizer.ts:68-76`) is not modelled: the reference pixels are a parameter. The unreachable "unable to create reference canvas context" error is dropped with it.
- `randBetweenExponential` (`util.ts:5-7`), `Math.cos` and `Math.sin` are not modelled: their values are opaque reals in the draw records. Only the clamps applied to them are proved.
- Optimizer.FreshDrawsValid: the three radii `randBetweenExponential(lo, hi)` draws for a fresh stroke are assumed to lie in the brush radius range [lo, hi]. That is where lo * (hi / lo)^u lies for u in [0, 1) when 0 < lo <= hi. The ranges of a fresh stroke and of its candidates, and so the session invariant after `StartNewStroke`, rest on this assumption.
- `srgbCartesian` (`Math.hypot`) is not modelled, since it needs a square root over reals. The optimiser only uses the squared distance.
- Float32 and floating-point rounding are not modelled. Every real is exact, including the values stored in the difference map and the vertex buffer.
- Scheduling and UI are not modelled: `requestAnimationFrame`, `cancelAnimationFrame`, `frameHandle`, `destroy` and the `onStatusChange` messages. `Loop` is one frame.
- MeshLine.BuildMeshLineBuffer: `vec2.normalize` is a parameter with no properties, so the tangent is not shown to have unit length. The stated geometry holds for any normalisation.
- Optimizer.BrushOptimizer.CommitImprovesWhenEstimateExact: the total difference is shown not to grow only when `lastCost` equals the committed stroke's true cost. `lastCost` is a running estimate: each step subtracts a cost change measured inside the refinement box (`BrushOptimizer.ts:259-263`), and the commit test (`BrushOptimizer.ts:281`) compares that estimate with the total. A stroke can cover pixels outside the box, and which pixels it covers is not modelled, so the estimate can drift from the true cost and a commit can then make the total larger.
- Optimizer.BrushOptimizer.StuckStrokeFrameIsFixed: positions are never clamped, so a stroke whose padded extent lies wholly left of or above the canvas gets an empty refinement box. `optimizeStroke` then returns at once (`BrushOptimizer.ts:206`) and `loop` keeps calling it every frame without finalizing the stroke; the model keeps that behaviour. Whether a descent step can move a stroke that far is not shown.
- Optimizer.PickTargetFindsDifferingPixel: the difference of the picked pixel is positive only for a draw u > 0. With u = 0 the target value is 0, and the `>=` test accepts pixel 0 even when its difference is 0.
- Strokes are values. `new Stroke(...)` copies shallowly, so the radius clamps in `evaluate` (`BrushOptimizer.ts:212-214`) write into the live stroke. That aliasing has no effect, because the live stroke's radii are in range (`Valid()`) and `ClampRadii` leaves such a stroke unchanged.
- The in-place field updates of `optimizeStroke` (`BrushOptimizer.ts:236-257`) are one new stroke value.
- The `bestStroke === null` check (`BrushOptimizer.ts:165`) is not modelled: with 100 candidates it cannot fail.
- Configurations are required to be valid: the brush radius and alpha ranges are ordered with positive lower bounds. The code does not check its options.
- Optimizer.BrushOptimizer.EvaluateProbes: the thirteen `evaluate` calls are written as one loop over probe indices.
- `optimizeStroke`, `startNewStroke` and `finalizeStroke` are split into smaller methods with the same effect.
- CatmullRom.SampleCatmullRom: `nDivisons` is a natural number, so fractional or negative counts are not modelled. For fewer than two points it returns the same array object; here that is the same value.
- GPU pipeline, texture and buffer managers are not part of this model.
