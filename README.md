# Freeform layers of refl1d, modelled in Dafny

This project models the freeform-profile core of refl1d, `refl1d/mono.py`:

- monotone cubic Hermite interpolation with the Fritsch–Carlson slope limiter (`monospline`, `hermite`);
- the inflection counter (`count_inflections`, `inflections`);
- three layers that render into a slab buffer through it:
  - `FreeLayer`, an SLD section running through control points;
  - `FreeInterfaceW`, an interface whose width is the sum of its depth steps;
  - `FreeInterface`, an interface of given thickness whose depth steps are relative.

Numbers are exact reals. `monospline`'s limiter calls `sqrt`, and Dafny's reals have none, so a square root is a parameter `root` with the predicate `IsSqrt(root)`: for every r > 0, `root(r) > 0` and `root(r)*root(r) == r`.

Files:

- `search.dfy` (`Search`): numpy's `searchsorted`, left side.
- `cumulative.dfy` (`Cumulative`): `hstack((0, cumsum(s)))`.
- `spline.dfy` (`Spline`): the interpolation.
  - `Fit` holds the arrays `monospline` derives before its loop.
  - `Fit.Limited(k)` is the tangent array after k loop iterations.
  - The method `Limit` runs the loop in place on an array and is proved equal to `Fit.Tangents`.
  - `Monospline` is proved equal to the function `Interpolant`.
- `spline_facts.dfy` (`SplineFacts`): what the interpolation guarantees.
- `inflections.dfy` (`Inflections`): the inflection counter and its properties.
- `slabs.dfy` (`Slabs`): the slab buffer. It is a class whose `Extend` appends a record.
- `layers.dfy` (`Layers`): the three layers. Each is a datatype, its constructor a function returning a `Result` (the `ValueError`s become `ConfigError` values). Their `Render` methods modify the buffer and do the source's array work in place.
- `layer_facts.dfy` (`LayerFacts`): what the render rules guarantee.

The model follows the code as written, including where it departs from its own docstrings:

- `FreeLayer.render` calls `monospline(rho, rhoz, Pz)`, so the SLD values are the knot positions and the depths `[0, rhoz, 1]` are the values interpolated. The grid positions `Pz` are not rescaled to `[0, 1]` either. The model keeps both. `LayerFacts.FreeLayerSwappedExample` shows the result for a 100-unit layer between SLDs 0 and 6: the profile is 0 at depth 0 and 1 everywhere else, not a curve through the control SLDs.
- The `FreeLayer` docstring promises equally spaced control points when `rhoz` is omitted. The code has no such default: an empty `rhoz` gives two values for `len(rho)+2` knots. `FreeLayer.Render` therefore requires one z per value.
- The class docstrings of all three layers (mono.py lines 30-31, 78-79 and 151-152) promise a slope of zero at the ends. The limiter reads `alpha` and `beta` computed before the loop. So iteration 1 can rescale the tangent at the first real knot after iteration 0 zeroed it. `SplineFacts.LeftEndTangentMayBeNonZero` exhibits such a case. The tangent at the last real knot is zero, and `SplineFacts.EndTangentsVanish` proves it.

## Model

Helpers without contracts of their own are the per-point pieces of the rows below: `Spline.Cubic` and `Spline.HermiteAt` of `Spline.Hermite`, `Spline.InterpolantAt` of `Spline.Interpolant`, `Inflections.Deviation` of `Inflections.Deviations`, and `Layers.Mix` of `Layers.Blend`. Their properties are stated by the SplineFacts, Inflections and LayerFacts lemmas that name them.

| member | source | states |
|---|---|---|
| Search.SearchLeft | refl1d/mono.py:288 | the insertion index: every earlier element is below the probe, and the element at the index (if any) is at least the probe |
| Search.SearchLeftMonotone | refl1d/mono.py:129 | a larger probe is inserted no earlier, so the 1% crossing never comes after the 99% one |
| Search.SearchLeftFindsElement | refl1d/mono.py:288 | on strictly increasing input, searching for an element returns its own index |
| Search.SearchLeftPastEnd | refl1d/mono.py:288 | on strictly increasing input, a probe above the last element is inserted at the end |
| Cumulative.Running | refl1d/mono.py:122-123 | the cumulative sums are one longer than the steps, start at 0 and end at the total |
| Cumulative.RunningStep | refl1d/mono.py:122 | each cumulative sum is the previous one plus the step between them |
| Cumulative.RunningIncreasing | refl1d/mono.py:122 | positive steps give strictly increasing cumulative sums |
| Cumulative.RunningOrdered | refl1d/mono.py:123 | non-negative steps give cumulative sums ordered like their indices |
| Cumulative.RunningNonDecreasing | refl1d/mono.py:123 | non-negative steps give cumulative sums between 0 and the total, never decreasing |
| Spline.Widen | refl1d/mono.py:257 | the widened knots are the original ones with one knot added at each end |
| Spline.Pad | refl1d/mono.py:258 | the padded values are the original ones with one value added at each end |
| Spline.Diff | refl1d/mono.py:259-260 | the differences are one shorter than their input |
| Spline.Secants | refl1d/mono.py:261 | with positive widths, a secant is zero exactly where its value step is zero |
| Spline.InitialTangents | refl1d/mono.py:262-263 | one tangent per knot, zero at both synthetic knots |
| Spline.Ratios | refl1d/mono.py:264 | `alpha` and `beta` are each segment's left or right tangent over its secant |
| Spline.SquareSums | refl1d/mono.py:265 | `d` is the sum of the squared ratios, segment by segment |
| Spline.WidenIncreasing | refl1d/mono.py:257 | adding the synthetic knots keeps strictly increasing knots strictly increasing |
| Spline.Derive | refl1d/mono.py:259-265 | the derived arrays have the source's lengths and satisfy the relations between steps, secants, ratios and `d` |
| Spline.Prepare | refl1d/mono.py:257-265 | as Derive, for the widened knots; both synthetic segments have a zero value step |
| Spline.Fit.Step | refl1d/mono.py:268-273 | one loop iteration keeps the array length; its effect is stated by the Step lemmas of SplineFacts |
| Spline.Fit.Limited | refl1d/mono.py:267-273 | the tangents after k iterations keep one entry per knot |
| Spline.Fit.Tangents | refl1d/mono.py:267-273 | the tangents after the loop keep one entry per knot |
| Spline.SegmentIndex | refl1d/mono.py:288 | the evaluated segment has a right knot, every inner knot up to it lies below the query, and the next inner knot, if any, is at or above it |
| Spline.Width | refl1d/mono.py:289-290 | the segment width used is never below the 1e-10 floor |
| Spline.Hermite | refl1d/mono.py:280-297 | one value per query position |
| Spline.Interpolant | refl1d/mono.py:244-276 | one value per query position |
| Spline.StepInPlace | refl1d/mono.py:268-273 | the in-place loop body leaves the array equal to one Step of its old contents |
| Spline.Limit | refl1d/mono.py:267-273 | the in-place loop ends with exactly the tangents Tangents specifies |
| Spline.Monospline | refl1d/mono.py:244-276 | `monospline` returns exactly Interpolant at every query position |
| SplineFacts.CubicAtRightKnot | refl1d/mono.py:293-297 | the cubic reaches the right value at the right end of its segment |
| SplineFacts.CubicOnFlatSegment | refl1d/mono.py:293-297 | equal end values with zero tangents give a constant cubic |
| SplineFacts.SpacedIsIncreasing | refl1d/mono.py:290 | knots more than the width floor apart are strictly increasing |
| SplineFacts.SegmentAtKnot | refl1d/mono.py:288 | a query at knot j evaluates the segment ending at that knot |
| SplineFacts.SegmentPastEnd | refl1d/mono.py:288 | a query beyond the last knot evaluates the right synthetic segment |
| SplineFacts.StepTouchesOnlyPair | refl1d/mono.py:267-273 | iteration i changes no tangent except entries i and i+1 |
| SplineFacts.StepZeroesFlat | refl1d/mono.py:268-269 | on a flat segment or a zero ratio, both end tangents become zero |
| SplineFacts.StepRescales | refl1d/mono.py:270-273 | when d > 9, both end tangents become `3/sqrt(d)` times their ratio times the secant |
| SplineFacts.StepKeepsModerate | refl1d/mono.py:267-273 | when d <= 9 on a non-flat segment, the iteration changes nothing |
| SplineFacts.RescaledRatios | refl1d/mono.py:271-273 | the rescaled tangents have squared ratios summing to exactly 9 |
| SplineFacts.StepCapsSteep | refl1d/mono.py:270-273 | a steep segment comes out of its iteration on the Fritsch–Carlson circle of radius 3 |
| SplineFacts.Settled | refl1d/mono.py:267-273 | entry i is final once iteration i has run |
| SplineFacts.ZeroWhereFlat | refl1d/mono.py:268-269 | a segment found flat leaves a zero final tangent at its left knot |
| SplineFacts.EndTangentsVanish | refl1d/mono.py:257-269 | the final tangent is zero at both synthetic knots and at the last real knot |
| SplineFacts.EndsVanish | refl1d/mono.py:267-269 | flat first and last steps give zero tangents at the first knot and the last two |
| SplineFacts.LeftEndTangentMayBeNonZero | refl1d/mono.py:263-273 | for knots (0,0), (1,1), (2,11) the final tangent at the first real knot is not zero |
| SplineFacts.ExampleSteps | refl1d/mono.py:257-260 | the widened knots, values and steps of that example |
| SplineFacts.ExampleSecants | refl1d/mono.py:261 | the secants of that example |
| SplineFacts.SecantIsSlope | refl1d/mono.py:259-261 | each derived secant is the rise over the run of its segment |
| SplineFacts.DeriveSecants | refl1d/mono.py:259-261 | the derived secants are the value steps over positive widths |
| SplineFacts.SecantsAreSlopes | refl1d/mono.py:261 | a secant is the rise over the run |
| SplineFacts.ExampleTangents | refl1d/mono.py:262-263 | the initial tangents of that example |
| SplineFacts.ExampleRatios | refl1d/mono.py:264-265 | the ratios of that example: d = 30.5 > 9 on its second segment |
| SplineFacts.RescaledFirstKnot | refl1d/mono.py:267-273 | a steep second segment with non-zero ratios rescales the zeroed first-knot tangent to a non-zero value |
| SplineFacts.ExactAtKnots | refl1d/mono.py:288-297 | with knots more than the width floor apart, the curve passes through every knot |
| SplineFacts.HermiteAtKnot | refl1d/mono.py:288-297 | the piecewise cubic evaluates to the knot's value at each real knot |
| SplineFacts.KnotWidth | refl1d/mono.py:289-290 | the segment ending at a real knot is used at its true width |
| SplineFacts.HermiteOnFlatSegment | refl1d/mono.py:293-297 | a segment with equal end values and zero tangents evaluates to that value |
| SplineFacts.FlatPastLastKnot | refl1d/mono.py:257-297 | beyond the last knot the curve is flat at the last value |
| SplineFacts.FlatBeyondLastKnot | refl1d/mono.py:257-297 | at or beyond the last knot, given spaced knots at the knot itself, the curve is the last value |
| SplineFacts.PadConstant | refl1d/mono.py:258 | padding equal values gives equal values |
| SplineFacts.FlatFitTangents | refl1d/mono.py:267-269 | when every value step is zero, every final tangent is zero |
| SplineFacts.ConstantFit | refl1d/mono.py:260 | equal values give zero value steps |
| SplineFacts.ConstantValuesGiveZeroTangents | refl1d/mono.py:257-273 | equal values everywhere give zero final tangents everywhere |
| SplineFacts.ConstantValuesGiveConstantCurve | refl1d/mono.py:244-297 | equal values everywhere give a constant curve at every query position |
| SplineFacts.FlatCurve | refl1d/mono.py:288-297 | a fit with equal values evaluates to that value everywhere |
| Inflections.Deviations | refl1d/mono.py:221-223 | one deviation per interior point, each from the chord through its neighbours |
| Inflections.NonZero | refl1d/mono.py:224 | keeps the non-zero deviations, each as often as it occurs (as multisets), and is empty exactly when all are zero |
| Inflections.NonZeroAppend | refl1d/mono.py:224 | filtering distributes over concatenation, so the kept entries stay in their original order |
| Inflections.NonZeroSingle | refl1d/mono.py:224 | a single entry is kept exactly when it is non-zero |
| Inflections.SignChanges | refl1d/mono.py:225-226 | at most one sign change per neighbouring pair |
| Inflections.CountInflections | refl1d/mono.py:217-226 | none below four points, at most one per interior point after the first |
| Inflections.InflectionsOf | refl1d/mono.py:141-144 | counts on the cumulative sums: none below three steps, at most one per step after the second |
| Inflections.PositiveStepsDefineChords | refl1d/mono.py:142 | positive position steps make every chord well defined |
| Inflections.DeviationOnLine | refl1d/mono.py:221-223 | a point on the line through its neighbours deviates by zero |
| Inflections.CollinearHasNoInflections | refl1d/mono.py:217-226 | collinear points have no inflections |
| Inflections.OneSignHasNoChanges | refl1d/mono.py:225-226 | entries of one sign have no sign changes |
| Inflections.OneSidedHasNoInflections | refl1d/mono.py:217-226 | points all on one side of their chords have no inflections |
| Inflections.NonZeroKeepsNonZero | refl1d/mono.py:224 | dropping zeros from a sequence without zeros changes nothing |
| Inflections.ZigZagHasTwoInflections | refl1d/mono.py:217-226 | the zig-zag 0, 1, 0, 1, 0 has two inflections |
| Inflections.ZigZagStepsHaveTwoInflections | refl1d/mono.py:141-144 | the same zig-zag given by its steps has two inflections |
| Slabs.SlabBuffer.Extend | refl1d/mono.py:72 | `extend` appends one record after everything already written |
| Layers.Fill | refl1d/mono.py:91 | `[c]*n` has n entries, all c |
| Layers.SumFill | refl1d/mono.py:95 | n copies of c add up to n*c |
| Layers.Bracket | refl1d/mono.py:64-65 | the bracketed array starts and ends with the given ends around the original |
| Layers.Divided | refl1d/mono.py:126 | each quotient times the divisor gives back the entry |
| Layers.Scaled | refl1d/mono.py:201 | each entry is multiplied by the factor |
| Layers.Divisor | refl1d/mono.py:125 | the divisor is never zero, and is the last entry when that is non-zero |
| Layers.Patched | refl1d/mono.py:125 | only the last entry changes, to the divisor |
| Layers.Normalized | refl1d/mono.py:125-126 | the normalised fractions end at exactly 1 |
| Layers.Reciprocated | refl1d/mono.py:199-200 | the fractions keep their length |
| Layers.DivideInPlace | refl1d/mono.py:126 | the in-place division leaves the array equal to Divided of its old contents |
| Layers.ScaleInPlace | refl1d/mono.py:201 | the in-place scaling leaves the array equal to Scaled of its old contents |
| Layers.NormalizeInPlace | refl1d/mono.py:125-126 | the in-place patch and division give Normalized of the old contents |
| Layers.ReciprocateInPlace | refl1d/mono.py:199-200 | the in-place patch and scaling give Reciprocated of the old contents |
| Layers.Blend | refl1d/mono.py:131-132 | each blended SLD mixes the two neighbours by the fraction at that grid point |
| Layers.LowerCrossing | refl1d/mono.py:129 | the 1% crossing is a grid index or one past the end |
| Layers.UpperCrossing | refl1d/mono.py:129-130 | the 99% crossing is clamped to the last grid point and never precedes the 1% crossing |
| Layers.InterfaceSlabs | refl1d/mono.py:133-139 | an interface render writes exactly three records |
| Layers.WriteInterface | refl1d/mono.py:129-139 | the buffer gains exactly the three interface records, after what it held |
| Layers.FreeLayer.RhoProfile | refl1d/mono.py:64-66 | one SLD per grid position |
| Layers.FreeLayer.IrhoProfile | refl1d/mono.py:68-70 | one imaginary SLD per grid position |
| Layers.FreeLayer.Render | refl1d/mono.py:58-72 | the buffer gains one record with both interpolated profiles over the grid widths |
| Layers.NewFreeLayer | refl1d/mono.py:33-49 | construction succeeds exactly when each z list is empty or matches its values; the rho check comes first |
| Layers.FreeInterfaceW.Thickness | refl1d/mono.py:104-106 | the thickness is the last cumulative depth, non-negative for non-negative steps |
| Layers.FreeInterfaceW.SetThickness | refl1d/mono.py:107-110 | assigning 0 changes nothing; any other value is an error |
| Layers.FreeInterfaceW.Depths | refl1d/mono.py:122 | the knot depths start at 0, one more than the steps |
| Layers.FreeInterfaceW.Fractions | refl1d/mono.py:123-126 | the knot fractions end at exactly 1, one more than the steps |
| Layers.FreeInterfaceW.Profile | refl1d/mono.py:127-128 | one fraction per grid position |
| Layers.FreeInterfaceW.ComputeProfile | refl1d/mono.py:122-128 | the array steps compute exactly Profile |
| Layers.FreeInterfaceW.Render | refl1d/mono.py:118-139 | the buffer gains the three interface records of Profile, with the thickness as the total |
| Layers.DefaultFractionSteps | refl1d/mono.py:90-93 | a given `dp` is kept; otherwise ones, five of them when `dz` is missing too |
| Layers.EvenDepthSteps | refl1d/mono.py:94-95 | n equal depth steps adding up to 10 |
| Layers.NewFreeInterfaceW | refl1d/mono.py:81-103 | succeeds exactly when the defaulted lists match and `dp` is not empty without `dz`; the error kinds; a missing `dz` gives thickness 10 in equal steps |
| Layers.FreeInterface.Depths | refl1d/mono.py:197-201 | the stretched depths keep one entry per knot |
| Layers.FreeInterface.Fractions | refl1d/mono.py:198-200 | one fraction per knot |
| Layers.FreeInterface.Inflections | refl1d/mono.py:182-183 | fewer than three steps give no inflection |
| Layers.FreeInterface.Profile | refl1d/mono.py:202-203 | one fraction per grid position |
| Layers.FreeInterface.KnotsIncrease | refl1d/mono.py:197-201 | positive steps and thickness give a positive total and strictly increasing stretched depths |
| Layers.FreeInterface.ComputeProfile | refl1d/mono.py:196-203 | the in-place array steps compute exactly Profile |
| Layers.FreeInterface.Render | refl1d/mono.py:192-214 | the buffer gains the three interface records of Profile, with the given thickness |
| Layers.ScaledIncreasing | refl1d/mono.py:201 | scaling by a positive factor keeps knots strictly increasing |
| Layers.NewFreeInterface | refl1d/mono.py:154-183 | succeeds exactly when the defaulted lists match; a missing list is ones matching the other, five each when both are missing |
| LayerFacts.NormalizedEntries | refl1d/mono.py:125-126 | every normalised fraction but the last, times the divisor, is its cumulative sum |
| LayerFacts.NormalizedShape | refl1d/mono.py:123-126 | non-negative steps give fractions from 0 to 1, never decreasing, with or without the zero-total patch |
| LayerFacts.NormalizedZeroTotal | refl1d/mono.py:125-126 | a zero total leaves every fraction but the last at 0 |
| LayerFacts.NormalizedPositiveTotal | refl1d/mono.py:126 | a positive total gives fractions within [0, 1], never decreasing |
| LayerFacts.ReciprocatedIsNormalized | refl1d/mono.py:199-200 | multiplying by the reciprocal normalises exactly as dividing does |
| LayerFacts.InterfaceWFractionsShape | refl1d/mono.py:123-126 | `FreeInterfaceW`'s knot fractions run from 0 to 1 without decreasing |
| LayerFacts.InterfaceFractionsShape | refl1d/mono.py:198-200 | `FreeInterface`'s knot fractions run from 0 to 1 without decreasing |
| LayerFacts.ZeroStepsJumpAtEnd | refl1d/mono.py:123-126 | all-zero fraction steps give knots 0, …, 0, 1 |
| LayerFacts.DepthsSpanThickness | refl1d/mono.py:197-201 | the stretched depths run from 0 to the thickness, strictly increasing when renderable |
| LayerFacts.MixBetween | refl1d/mono.py:131-132 | a fraction in [0, 1] blends to a value between the neighbours, 0 giving the one below and 1 the one above |
| LayerFacts.InterfaceSlabsLayout | refl1d/mono.py:129-139 | the crossings sit where the profile first reaches 1% and 99%; the records are below, blended and above, and only the last carries the roughness |
| LayerFacts.BlendedPointsAreTransition | refl1d/mono.py:129-134 | on a non-decreasing profile, every blended grid point has a fraction from 1% up to 99%, and every grid point but the last with such a fraction is blended; the last is never blended, because of the clamp |
| LayerFacts.BlendStaysBetween | refl1d/mono.py:131-136 | fractions within [0, 1] keep every blended real and imaginary SLD between the neighbours' values, whether the SLD rises or falls |
| LayerFacts.FreeLayerPastRightSld | refl1d/mono.py:64-66 | a grid position past the right neighbour's SLD yields 1 |
| LayerFacts.FreeLayerPastRightSlds | refl1d/mono.py:64-66 | every grid position past the right neighbour's SLD yields 1 |
| LayerFacts.FreeLayerAtLeftSld | refl1d/mono.py:64-66 | a grid position equal to the left neighbour's SLD yields 0 |
| LayerFacts.FreeLayerStepProfile | refl1d/mono.py:58-66 | a grid starting at the left SLD and otherwise past the right SLD gives 0 then all ones |
| LayerFacts.FreeLayerSwappedExample | refl1d/mono.py:58-72 | for SLDs 0, 2, 4, 6 at depths 0, 0.25, 0.75, 1 of a 100-unit layer, the grid 0, 25, 50, 75, 100 yields 0, 1, 1, 1, 1 |
| LayerFacts.DefaultInterfaceW | refl1d/mono.py:90-95 | without `dz`, the knots run from depth 0 to 10 with fractions from 0 to 1 |

## Left out

- The square root is the parameter `root`, constrained by `IsSqrt`. Floating-point rounding, NaN and infinity are not modelled: values are exact reals.
- `Spline.Ratio`: where a secant is zero numpy yields NaN or infinity. The model stores 0 there. The loop never reads those entries, because its zero-step test comes first.
- `Spline.Monospline` requires strictly increasing knots. Duplicate knots divide by zero in the source, and unsorted knots send numpy's bisection to an unspecified segment. Neither is modelled.
- `Search.SearchLeft` is the first index whose element reaches the probe. On the sorted input numpy expects this is `searchsorted`. On a profile that is not monotone, numpy's bisection may return another index.
- `Layers.FreeLayer.Render` requires one z value per control value. The documented equal spacing does not exist in the code, where a mismatch fails inside `monospline`.
- `Layers.FreeLayer.Render` also requires the bracketed SLDs `[left, rho…, right]` and `[left, irho…, right]` to be strictly increasing, because they are the knot positions. This excludes every layer whose SLD falls or is not monotone across it. It also excludes equal neighbour `irho` values with no `irho` controls: two non-absorbing neighbours give knots `[0, 0]`. There numpy divides by zero and carries infinities, which exact reals do not model.
- `Layers.FreeInterfaceW.Render` requires every depth step to be positive. The parameter limits `(0, inf)` allow a zero step, which gives duplicate knots and a division by zero inside `monospline`.
- `Layers.FreeInterfaceW.Render` and `Layers.FreeInterface.Render` require the 1% crossing to lie inside the grid. The source then indexes past the end of `Pz`.
- `Layers.FreeInterface.Render` requires positive depth steps and a positive thickness. The source does not check `z[-1] != 0`, and zero steps give duplicate knots.
- The monotonicity promised by `monospline`'s docstring (no overshoot between knots) is not proved. The properties proved are interpolation at the knots, flatness beyond the ends and on constant data, and the per-segment limiter bound.
- `slabs.microslabs` and the neighbours' `sld(probe)` are inputs: a `Grid` of widths and positions, and an `Sld` per neighbour. Their computation lives outside this file.
- The `Extent` records hold `rho` and `irho` as flat sequences, where the source wraps each in a list (`[Prho]`).
- `FreeLayer`'s thickness is not read by `render` except through `microslabs`, which is an input here.
- All values are taken as floats. The defaults `[1]*5` and `[1]*len(dz)` are Python integers. The mystic `Parameter` code is not part of this model, so it is not known whether they stay integers. If they do, the in-place `p /= p[-1]`, `p *= 1/p[-1]` and `z *= thickness/z[-1]` would truncate or raise, depending on the numpy version.
- `parameters()`, the mystic `Parameter` wrappers and their limits are not modelled. Parameters are plain reals, and limits such as `(0, inf)` are not enforced by the constructors.
- `plot_inflection` (plotting) and `park/slurm.py` (job submission) are outside the model.
