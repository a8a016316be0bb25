# MGraphic in Dafny

A model of the core of MGraphic, a Swing component that plots functions on a
Cartesian surface. The model covers:

- **the function registry** (class `Plot.Graphic`, after `MGraphic`): a map from
  names to function records. `addFunction` sorts the caller's point array by
  abscissa in place and stores a record of that same array under the given
  name, or under the automatic name `"F" + size` when there is none. Explicit
  names of the form `F` followed by digits are refused. `getFunction` and
  `removeFunction` behave as map lookup and removal.
- **the view**: `setBounds` and `setScale` refuse inverted bounds and
  non-positive scales before they assign anything. The predicates
  `XAxisVisible` and `YAxisVisible` are `isXAxisVisible` and `isYAxisVisible`.
- **the coordinate transform** (module `Transform`): pixels per unit,
  axis-line offsets, `transformX` (linear mode), `transformY` and the two
  inverse transforms. Java's `Math.round` is modelled exactly as
  `floor(v + 1/2)`.
- **the label walks** of `writeYAxis` and `writeXAxis` (module `Ticks`):
  starting at the axis (or at pixel 0), the walk steps by
  `unitPixels * scale` pixels towards an edge of the surface. It emits a tick
  (position and label) while it is still inside. Labels are plain numbers, or
  powers of ten given by their exponent in bode mode.
- **the function record** (class `Functions.Function`, after `Function.java`):
  its constructor, its random colour, and its `toString`.
- **the sampler** (module `Sampler`, after `MGraphicFunctionPlot.java`):
  - the `Precision` levels and the `MathFunction` constructor, including the
    step computed from the bounds before their bode expansion;
  - the `addMathFunction` loop: starting at `xMin`, step by `offSet` while
    the abscissa is below `xMax`, and keep the points whose image lies in
    `[yMin, yMax]`;
  - the registration of the result.

Doubles are modelled as reals, so all arithmetic is exact. Several things
the program gets from its environment become parameters:

| in the program | in the model |
|---|---|
| the surface size (`getWidth`, `getHeight`) | int parameters |
| `Math.random` | a `Draw`: three reals in `[0, 1)` |
| `Double.toString` on a point coordinate | `showReal: real -> string` |
| `Math.pow(10, .)` in the `MathFunction` constructor | `pow10: real -> real` |
| the user's `calculateFunction` | `calculate: real -> Outcome`, a `Result<real>` whose `Err` is always an `Evaluation` (an exception it throws) |
| the user's `toString` | `text: Option<string>` (`None` when it returns null) |

Java exceptions become the `Err` side of `Common.Result`:
- `IllegalArgumentException` is `IllegalArgument`;
- `ReservedNameException` is `ReservedName(name)`;
- an exception raised while sampling is `Evaluation(reason)`.

Where the project's documentation and its code disagree, the model follows
the code:
- Bounds are stored as given by `setBounds` (MGraphic.java:315-321). In bode
  mode they are not expanded to powers of ten; only the sampler's
  `MathFunction` expands its own domain.
- Bounds errors and scale errors are the same exception type,
  `IllegalArgumentException` (MGraphic.java:284, 316). The model has one
  error kind for both.
- A `MathFunction` without a colour is registered with a random colour, not
  black: `addMathFunction` passes the missing colour on, and the `Function`
  constructor replaces it (MGraphicFunctionPlot.java:201, Function.java:33).
- `addMathFunction` returns nothing (MGraphicFunctionPlot.java:188).

A consequence of the code that the contracts make visible: the automatic name
depends only on the registry's size (`Text.AutoName`). After a removal it can equal a
name already in use, and `addFunction` then replaces that record, just as it
replaces the record of any repeated explicit name (`Plot.Graphic.AddFunction`
states `functions == old(functions)[key := record]`).

## Model

| member | source | states |
|---|---|---|
| Text.NatToStringRoundTrip | MGraphic/src/mgraphic/MGraphic.java:263 | the decimal text Java concatenates for a non-negative int reads back as that int, so distinct registry sizes give distinct texts |
| Text.NatToString | MGraphic/src/mgraphic/MGraphic.java:263 | the decimal text Java writes for a non-negative int: at least one digit, all ASCII digits, no leading zero |
| Text.NatToStringInjective | MGraphic/src/mgraphic/functions/Function.java:67 | two numbers with the same decimal text are equal |
| Text.SplitAtDigits | MGraphic/src/mgraphic/functions/Function.java:67 | a run of digits followed by a non-digit splits off in one way only, so a number written into text can be read back |
| Text.IsReserved | MGraphic/src/mgraphic/MGraphic.java:194 | a name is reserved exactly when the whole of it matches `F\d+`: an `F` and then one or more ASCII digits |
| Text.AutoName | MGraphic/src/mgraphic/MGraphic.java:263 | generateString yields "F" + size, a name of the reserved form F followed by digits |
| Text.AutoNameInjective | MGraphic/src/mgraphic/MGraphic.java:263 | different registry sizes give different automatic names |
| Sorting.CompareX | MGraphic/src/mgraphic/MGraphic.java:196-204 | the Sorter comparator returns 1, -1 or 0 exactly when the first abscissa is greater than, less than or equal to the second |
| Sorting.SortByX | MGraphic/src/mgraphic/MGraphic.java:206 | Arrays.sort leaves the array sorted by abscissa and a permutation of its old contents |
| Sorting.InsertLast | MGraphic/src/mgraphic/MGraphic.java:206 | one insertion step: a[..i+1] becomes a sorted permutation of what it held, a[i+1..] is unchanged, and the whole array keeps its multiset |
| Sorting.Swap | MGraphic/src/mgraphic/MGraphic.java:206 | exchanging two entries changes only those two entries and keeps the multiset |
| Sorting.SortedPermutationOfStrict | MGraphic/src/mgraphic/MGraphicFunctionPlot.java:192-201 | sorting points that already ascend strictly (every sampled function) gives them back in the same order |
| Sorting.SameFirst | MGraphic/src/mgraphic/MGraphicFunctionPlot.java:192-201 | a sorted permutation of strictly ascending points starts with the same point |
| Transform.Round | MGraphic/src/mgraphic/MGraphic.java:684 | Math.round lands within half a unit of its argument, a half rounding up |
| Transform.RoundMonotone | MGraphic/src/mgraphic/MGraphic.java:684 | Math.round never reverses the order of two values |
| Transform.RoundOfInt | MGraphic/src/mgraphic/MGraphic.java:684 | Math.round of a whole number is that number |
| Transform.UnitPixels | MGraphic/src/mgraphic/MGraphic.java:379-389 | getUnitPixeisX/Y are non-negative and, multiplied by the view width, within half a view width of the surface extent; this two-sided bound fixes the value as round(extent / width) |
| Transform.AxisOffset | MGraphic/src/mgraphic/MGraphic.java:356-358 | getAxisWidth is Math.round(abs(xMin) * unit), non-negative, and 0 on an empty surface, where the Java division gives NaN |
| Transform.TopEdgeAtFirstRow | MGraphic/src/mgraphic/MGraphic.java:410 | with the x-axis line at its computed row, the ordinate yMax maps to pixel row 0 or 1 |
| Transform.LeftEdgeAtFirstColumn | MGraphic/src/mgraphic/MGraphic.java:416 | with the y-axis line at its computed column, an abscissa xMin <= 0 maps to pixel column 0 or 1 |
| Transform.TransformX | MGraphic/src/mgraphic/MGraphic.java:667-669 | transformX (linear mode) is the column nearest to axisWidth + x * unit, a half rounded to the right |
| Transform.TransformY | MGraphic/src/mgraphic/MGraphic.java:683-685 | transformY is the row nearest to axisHeight - y * unit, a half rounded downwards |
| Transform.InverseX | MGraphic/src/mgraphic/MGraphic.java:698-701 | insverseTransformX (linear mode) is the abscissa whose product with the unit is the column's offset from the y-axis |
| Transform.InverseY | MGraphic/src/mgraphic/MGraphic.java:714-716 | insverseTransformY is the ordinate whose product with the unit is the row's offset above the x-axis |
| Transform.TransformXAtZero | MGraphic/src/mgraphic/MGraphic.java:667-669 | abscissa 0 maps to the y-axis column |
| Transform.TransformYAtZero | MGraphic/src/mgraphic/MGraphic.java:683-685 | ordinate 0 maps to the x-axis row |
| Transform.TransformXMonotone | MGraphic/src/mgraphic/MGraphic.java:667-669 | larger abscissae never map to columns further left |
| Transform.TransformYAntitone | MGraphic/src/mgraphic/MGraphic.java:683-685 | larger ordinates never map to rows further down |
| Transform.InverseXThenTransformX | MGraphic/src/mgraphic/MGraphic.java:698-701 | the abscissa under a pixel column maps back to exactly that column |
| Transform.InverseYThenTransformY | MGraphic/src/mgraphic/MGraphic.java:714-716 | the ordinate under a pixel row maps back to exactly that row |
| Transform.TransformXThenInverseX | MGraphic/src/mgraphic/MGraphic.java:698-701 | an abscissa taken to its column and back lies within half a pixel's worth of units of where it started |
| Transform.TransformYThenInverseY | MGraphic/src/mgraphic/MGraphic.java:714-716 | an ordinate taken to its row and back lies within half a pixel's worth of units of where it started |
| Ticks.WalkBack | MGraphic/src/mgraphic/MGraphic.java:528-538 | the walk "while (pos > 0) emit, pos -= step" emits exactly the positions start - k*step that are > 0, with labels advancing by delta per step |
| Ticks.WalkForward | MGraphic/src/mgraphic/MGraphic.java:544-554 | the walk "while (pos < limit) emit, pos += step" emits exactly the positions start + k*step below limit, with labels advancing by delta per step |
| Ticks.WalkBothWays | MGraphic/src/mgraphic/MGraphic.java:526-554 | the walk towards 0 followed by the walk from the same start towards the far edge, both labelled from the same origin |
| Ticks.BackTicksExtend | MGraphic/src/mgraphic/MGraphic.java:528-538 | one more iteration of the walk towards 0 keeps the ticks emitted so far and adds the next one |
| Ticks.ForwardTicksExtend | MGraphic/src/mgraphic/MGraphic.java:544-554 | one more iteration of the walk towards the far edge keeps the ticks emitted so far and adds the next one |
| Ticks.AdvanceTwice | MGraphic/src/mgraphic/MGraphic.java:532 | advancing a label twice is advancing it by the sum |
| Ticks.BackWalkEnds | MGraphic/src/mgraphic/MGraphic.java:528-538 | the walk towards 0 has an end only if its step is positive or its start is already <= 0 |
| Ticks.ForwardWalkEnds | MGraphic/src/mgraphic/MGraphic.java:544-554 | the walk towards the far edge has an end only if its step is positive or its start is already at or past the edge |
| Ticks.BackWalkFromOutside | MGraphic/src/mgraphic/MGraphic.java:528 | a walk towards 0 that starts at or below 0 emits nothing, whatever its step |
| Ticks.ForwardWalkFromOutside | MGraphic/src/mgraphic/MGraphic.java:544 | a walk towards the far edge that starts at or past it emits nothing, whatever its step |
| Ticks.BackWalkTick | MGraphic/src/mgraphic/MGraphic.java:528-538 | the k-th tick of the walk towards 0 is at start - k*step with the label advanced k times |
| Ticks.ForwardWalkTick | MGraphic/src/mgraphic/MGraphic.java:544-554 | the k-th tick of the walk towards the far edge is at start + k*step with the label advanced k times |
| Ticks.BackWalkAt | MGraphic/src/mgraphic/MGraphic.java:528 | every position before the last emitted one passed the loop test pos > 0 |
| Ticks.ForwardWalkAt | MGraphic/src/mgraphic/MGraphic.java:544 | every position before the last emitted one passed the loop test pos < limit |
| Ticks.BackWalkUnique | MGraphic/src/mgraphic/MGraphic.java:528-538 | the ticks of a walk towards 0 are determined by its start, step, first label and label step |
| Ticks.ForwardWalkUnique | MGraphic/src/mgraphic/MGraphic.java:544-554 | the ticks of a walk towards the far edge are determined by its arguments |
| Ticks.TwoWayWalkUnique | MGraphic/src/mgraphic/MGraphic.java:526-554 | the ticks of an axis crossing the surface are determined by its arguments |
| Ticks.BackWalkBounds | MGraphic/src/mgraphic/MGraphic.java:528-538 | every tick of the walk towards 0 lies in (0, start], and positions strictly decrease |
| Ticks.ForwardWalkBounds | MGraphic/src/mgraphic/MGraphic.java:544-554 | every tick of the walk towards the far edge lies in [start, limit), and positions strictly increase |
| Functions.RandomChannel | MGraphic/src/mgraphic/functions/Function.java:41 | (int)(Math.random()*255) is the integer part of the scaled draw, between 0 and 254 |
| Functions.GenerateColor | MGraphic/src/mgraphic/functions/Function.java:40-42 | a random colour has every channel between 0 and 254, so it is never pure white |
| Functions.Function.constructor | MGraphic/src/mgraphic/functions/Function.java:29-34 | the record keeps the very point array and the name it was given, and the given colour or else a random one |
| Functions.Function.Create | MGraphic/src/mgraphic/functions/Function.java:29-34 | construction fails with IllegalArgument exactly when the points or the name are null, and otherwise yields that record |
| Functions.Header | MGraphic/src/mgraphic/functions/Function.java:66-68 | toString's header: "Name:", the name, "Color:" with the three channels after r, g and b, then "Points:", on their own lines |
| Functions.HeaderDeterminesColor | MGraphic/src/mgraphic/functions/Function.java:66-68 | for one name, two colours with the same header are the same colour: the channels can be read back from toString |
| Functions.PointText | MGraphic/src/mgraphic/functions/Function.java:70 | a point's line is Point2D.Double's toString, "Point2D.Double[x, y]" |
| Functions.PointsText | MGraphic/src/mgraphic/functions/Function.java:69-70 | a line break and the point's line for every point, in array order |
| Functions.Function.ToString | MGraphic/src/mgraphic/functions/Function.java:63-74 | toString is the name and colour header followed by one line per point, in array order |
| Functions.PointsTextAppend | MGraphic/src/mgraphic/functions/Function.java:69-70 | the point lines of two runs of points are the lines of the first run followed by those of the second |
| Functions.PointsTextFirst | MGraphic/src/mgraphic/functions/Function.java:69-70 | the point lines start with the first point's line |
| Functions.OccurrencesAppend | MGraphic/src/mgraphic/functions/Function.java:69-70 | line breaks in a concatenation are those of its parts |
| Functions.OccurrencesAbsent | MGraphic/src/mgraphic/functions/Function.java:70 | a text without a line break counts none |
| Functions.PointTextOneLine | MGraphic/src/mgraphic/functions/Function.java:70 | a point whose coordinates render without line breaks renders on one line |
| Functions.PointsTextLineCount | MGraphic/src/mgraphic/functions/Function.java:69-70 | toString's point part has exactly one line break per point |
| Sampler.Precision.Count | MGraphic/src/mgraphic/MGraphicFunctionPlot.java:50-62 | each precision takes between 100 and 100000 samples |
| Sampler.PrecisionTenfold | MGraphic/src/mgraphic/MGraphicFunctionPlot.java:50-62 | LOW takes 100 samples and every level ten times the one below |
| Sampler.NewMathFunction | MGraphic/src/mgraphic/MGraphicFunctionPlot.java:108-121 | the step times the sample count is the width of the bounds as given; the domain is those bounds (linear) or their powers of ten (bode); the other fields are kept |
| Sampler.VisitCount | MGraphic/src/mgraphic/MGraphicFunctionPlot.java:192 | the number of abscissae the loop visits: all before it are below xMax, the next one is not |
| Sampler.VisitCountBounds | MGraphic/src/mgraphic/MGraphicFunctionPlot.java:192 | the ceiling of the domain width over the step is the first step count that reaches xMax |
| Sampler.LinearVisitCount | MGraphic/src/mgraphic/MGraphicFunctionPlot.java:117 | in linear mode over a non-empty domain the loop visits exactly as many abscissae as the precision count |
| Sampler.EmptyDomainNoVisit | MGraphic/src/mgraphic/MGraphicFunctionPlot.java:192 | when xMin >= xMax the loop body never runs |
| Sampler.Sample | MGraphic/src/mgraphic/MGraphicFunctionPlot.java:190-199 | the outcome of visiting the first n abscissae: the in-window points in visiting order, or the first failure, which is always an evaluation failure |
| Sampler.SamplePoints | MGraphic/src/mgraphic/MGraphicFunctionPlot.java:190-199 | the sampling loop returns the in-window points of the visited abscissae in order, or the first evaluation failure |
| Sampler.SampleErrorPersists | MGraphic/src/mgraphic/MGraphicFunctionPlot.java:194 | once an evaluation fails, sampling further abscissae still fails |
| Sampler.SampleOkIff | MGraphic/src/mgraphic/MGraphicFunctionPlot.java:194 | sampling succeeds exactly when no visited abscissa makes the function fail |
| Sampler.SampleFirstError | MGraphic/src/mgraphic/MGraphicFunctionPlot.java:194 | the error returned is that of the first failing abscissa |
| Sampler.SampleSound | MGraphic/src/mgraphic/MGraphicFunctionPlot.java:194-198 | every kept point is (x, f(x)) for a visited x, with f(x) in [yMin, yMax] |
| Sampler.SampleComplete | MGraphic/src/mgraphic/MGraphicFunctionPlot.java:194-198 | every visited x whose image is in [yMin, yMax] is kept |
| Sampler.SampleAscending | MGraphic/src/mgraphic/MGraphicFunctionPlot.java:192-198 | with a positive step the kept points ascend strictly in abscissa |
| Sampler.SampledDomain | MGraphic/src/mgraphic/MGraphicFunctionPlot.java:192-198 | every kept point lies in [xMin, xMax) and in the ordinate window, in strictly ascending order |
| Sampler.SampleLength | MGraphic/src/mgraphic/MGraphicFunctionPlot.java:196-198 | at most one point per visited abscissa, and exactly one each when every image is in the window |
| Plot.YLabelsOnTransform | MGraphic/src/mgraphic/MGraphic.java:526-554 | on a y-axis crossing the x-axis every label v is drawn at the row transformY(v) |
| Plot.XLabelsOnTransform | MGraphic/src/mgraphic/MGraphic.java:582-625 | on a linear x-axis crossing the y-axis every label v is drawn at the column transformX(v) |
| Plot.Graphic.Blank | MGraphic/src/mgraphic/MGraphic.java:142 | the widget starts with an empty registry |
| Plot.Graphic.New | MGraphic/src/mgraphic/MGraphic.java:138-146 | construction fails exactly on inverted bounds or a non-positive scale, and otherwise gives an empty registry with the bounds and scales given |
| Plot.Graphic.SetScale | MGraphic/src/mgraphic/MGraphic.java:283-287 | a non-positive scale is refused with nothing changed; otherwise both scales are set |
| Plot.Graphic.SetBounds | MGraphic/src/mgraphic/MGraphic.java:315-321 | inverted bounds are refused with nothing changed; otherwise all four bounds are set |
| Plot.Graphic.GetFunction | MGraphic/src/mgraphic/MGraphic.java:174 | a record is found exactly when the name is registered, and it carries that name |
| Plot.Graphic.AddFunction | MGraphic/src/mgraphic/MGraphic.java:192-214 | a reserved explicit name is refused with registry and points untouched; otherwise the points are sorted in place (a permutation) and a fresh record of that array, under the name or "F" + old size, with the given or a random colour, is stored at that key and nowhere else |
| Plot.Graphic.AddFunctionDefaultColor | MGraphic/src/mgraphic/MGraphic.java:230 | as AddFunction, with a random colour |
| Plot.Graphic.AddFunctionAutoName | MGraphic/src/mgraphic/MGraphic.java:241-247 | never fails: stores the sorted points under "F" + old size with a random colour and returns that name |
| Plot.Graphic.RemoveFunction | MGraphic/src/mgraphic/MGraphic.java:273 | returns what getFunction gave before; afterwards the name is absent and every other lookup is unchanged |
| Plot.Graphic.XAxisVisible | MGraphic/src/mgraphic/MGraphic.java:722 | the x-axis (y = 0) is visible exactly when yMin <= 0 <= yMax |
| Plot.Graphic.YAxisVisible | MGraphic/src/mgraphic/MGraphic.java:728 | the y-axis (x = 0) is visible exactly when xMin <= 0 <= xMax |
| Plot.Graphic.YStep | MGraphic/src/mgraphic/MGraphic.java:531 | the pixel step between y labels; with a positive scale it is positive exactly when the unit is |
| Plot.Graphic.XStep | MGraphic/src/mgraphic/MGraphic.java:587 | the pixel step between x labels; with a positive scale it is positive exactly when the unit is |
| Plot.Graphic.YLabelLoopsEnd | MGraphic/src/mgraphic/MGraphic.java:519-556 | the loops of writeYAxis end exactly when the y-axis is hidden, the unit is positive, or every walk starts outside the surface |
| Plot.Graphic.XLabelLoopsEnd | MGraphic/src/mgraphic/MGraphic.java:572-628 | the loops of writeXAxis end exactly when the x-axis is hidden, the unit is positive, or every walk starts outside the surface |
| Plot.Graphic.WriteYAxis | MGraphic/src/mgraphic/MGraphic.java:519-556 | on every input where its loops end: no labels unless the y-axis is visible; with the x-axis visible, the upward walk from the axis labelled 0, yScale, ... and then the downward walk labelled 0, -yScale, ...; otherwise the downward walk from row 0 labelled yMax, yMax - yScale, ... |
| Plot.Graphic.WriteXAxis | MGraphic/src/mgraphic/MGraphic.java:572-628 | on every input where its loops end: no labels unless the x-axis is visible; with the y-axis visible, the leftward walk labelled 0, -xScale, ... and then the rightward walk labelled 0, xScale, ... (decade exponents in bode mode); otherwise the rightward walk from column 0 labelled xMin, or 10^0 in bode mode |
| Plot.Graphic.YLabelLoopHangs | MGraphic/src/mgraphic/MGraphic.java:544-555 | on the other inputs no label sequence of any length is an outcome of writeYAxis: its loop never returns |
| Plot.Graphic.XLabelLoopHangs | MGraphic/src/mgraphic/MGraphic.java:608-625 | on the other inputs no label sequence of any length is an outcome of writeXAxis: its loop never returns |
| Plot.HangingAxesExample | MGraphic/src/mgraphic/MGraphic.java:379-389 | a concrete view on a 500-pixel surface where the unit rounds to 0, the axis sits at pixel 0 and the loops of writeYAxis (or, swapped, writeXAxis) do not end |
| Plot.Graphic.YLabelsWithoutUnit | MGraphic/src/mgraphic/MGraphic.java:519-556 | where the loops of writeYAxis do end with a unit of 0 or less, they write no label |
| Plot.Graphic.XLabelsWithoutUnit | MGraphic/src/mgraphic/MGraphic.java:572-628 | where the loops of writeXAxis do end with a unit of 0 or less, they write no label |
| Plot.Graphic.WriteYAxisGuarded | MGraphic/src/mgraphic/MGraphic.java:519-556 | writeYAxis with a positive-unit guard: it returns on every input, writes the walks of WriteYAxis when the unit is positive and no labels otherwise |
| Plot.Graphic.WriteXAxisGuarded | MGraphic/src/mgraphic/MGraphic.java:572-628 | writeXAxis with the same guard: it returns on every input, writes the walks of WriteXAxis when the unit is positive and no labels otherwise |
| Plot.RegistryKey | MGraphic/src/mgraphic/MGraphic.java:209 | the key addFunction stores under: the name given, or the reserved automatic name "F" + size when the name is null |
| Plot.Graphic.AddMathFunction | MGraphic/src/mgraphic/MGraphicFunctionPlot.java:188-203 | an evaluation failure (reported as such) or a reserved text aborts with the registry unchanged; otherwise a fresh record holding exactly the sampled points in sampling order is stored under the function's text, or under the automatic name when that text is null |

## Left out

- Painting: the Swing rendering is not modelled. That means `paint`, `drawFunctions`, `drawLine`, the fonts, the gridlines, the name labels and the mouse readout. The label walks keep the positions and labels they would draw, and leave out the drawing.
- The gridline drawn after each step is drawn at the next walk position, so it adds nothing beyond the walk itself.
- Label text: `DecimalFormat` and the two bode formats are not modelled. A label is a number, or the exponent of a power of ten.
- Spreadsheet import and export (`loadFromWorkBook`, `howManySheetsInFile`, `saveToWorkBook`) are file I/O, outside the core.
- `Function.appendToFile` and the `println` in `addMathFunction` write to a file and to the console.
- The getters, `getBode`, `setBode`, `showGrid` and the mouse listener are plain field accesses or UI wiring.
- `synchronized` blocks: the model is sequential, so concurrent registration is not modelled.
- Floating point: doubles are reals, and the float casts in the inverse transforms are not modelled.
  - Sums accumulate no rounding error: the sampling loop's `offSet += step` and the walks' `pos -= step` become exact multiples of the step.
  - Infinities and NaN do not arise. The one NaN the code relies on, an empty surface in getAxisWidth, is modelled.
- The `(int)` casts of the rounded `long` values are not modelled: results of 2^31 or more do not wrap.
- Bode mode in `transformX` and in the inverse abscissa transform (`Math.log10`, `Math.pow`) is not modelled. On the transform side, only the linear formula that bode mode feeds is modelled.
- In the sampler, `Math.pow(10, .)` is an opaque parameter.
- The view width is never zero: `Transform.UnitPixels` requires `lo < hi`. When `xMax == xMin` the Java division yields an infinity, and the requirement excludes that case.
- Plot.Graphic.WriteYAxis and Plot.Graphic.WriteXAxis (the code as written) require that their loops end (`YLabelLoopsEnd`, `XLabelLoopsEnd`); on the other inputs the Java loops never return, which the Findings below record. `Ticks.WalkBack` and `Ticks.WalkForward` likewise require a positive step or a start already outside. The guarded writers have no such requirement.
- `Sampler.SamplePoints` and `Plot.Graphic.AddMathFunction` require a positive step over a non-empty domain (`Terminates`), because otherwise the Java loop never terminates.
- A null point array passed to `addFunction` throws a NullPointerException inside `Arrays.sort`. That is not modelled: the parameter is a non-null `array`.
- A null element inside the point array makes the comparator throw inside `Arrays.sort` (MGraphic.java:206). That is not modelled: a `Point` is a value and cannot be null.
- `getFunction(null)` and `removeFunction(null)` throw a NullPointerException from the `Hashtable` (MGraphic.java:174, 273). That is not modelled: names there are plain strings.
- `Function`'s null checks are modelled in `Functions.Function.Create`.
- `calculateFunction`'s variable argument list is a single abscissa, which is how `addMathFunction` calls it.
- `mathFunction != null` in `addMathFunction` is always true once `mathFunction.getxMin()` has run, so the black fallback is unreachable.
- Sorting.SortByX: does not state stability. Arrays.sort keeps points of equal abscissa in their old order, and the contract only promises sorted order and the same multiset.

## Findings

| source | as written | input that shows it | evidently intended | confidence | as-written member | corrected member |
|---|---|---|---|---|---|---|
| MGraphic/src/mgraphic/MGraphic.java:544-555 | writeYAxis advances its row by `unitPixiesY*yScale`, which is 0 when getUnitPixeisY rounds to 0; with the y-axis visible and the walk starting inside the surface, `while(yInc<getHeight())` never advances | x in [-1, 1], y in [-1000, 1000], height 500: the unit is round(500/2000) = 0 and the x-axis row is 0, so yInc stays at 0 < 500 (`Plot.HangingAxesExample`) | painting returns; when a label step is 0 pixels no y labels are written | not executed | Plot.Graphic.YLabelLoopHangs | Plot.Graphic.WriteYAxisGuarded |
| MGraphic/src/mgraphic/MGraphic.java:608-625 | writeXAxis advances its column by `unitPixiesX*xScale`, which is 0 when getUnitPixeisX rounds to 0; with the x-axis visible and the walk starting inside the surface, `while(xInc<getWidth())` never advances | x in [-1000, 1000], y in [-1, 1], width 500: the unit is 0 and the y-axis column is 0, so xInc stays at 0 < 500 (`Plot.HangingAxesExample`) | painting returns; when a label step is 0 pixels no x labels are written | not executed | Plot.Graphic.XLabelLoopHangs | Plot.Graphic.WriteXAxisGuarded |

The guarded writers are the model's axis writers: they call the as-written
ones exactly when the unit is positive, and `YLabelsWithoutUnit` and
`XLabelsWithoutUnit` show that wherever the as-written loops end with a unit
of 0 they also write nothing, so the two agree on every input where the code
as written returns.
