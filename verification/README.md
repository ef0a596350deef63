# ThermoPlotter data layer in Dafny

ThermoPlotter reads thermodynamic measurement tables, groups repeated
measurements that lie close together along X into single points with error
bars, fits straight lines with standard errors and confidence intervals, and
lays out the axes of a plot. This project models that data layer as pure
functions over immutable records and proves what the code promises about it:

- `ListTools` — `GroupByProximity`: the points are stably sorted by X and cut
  into groups wherever the next X lies more than the threshold above the
  running mean of the open group.
- `Points` and `Series` — `DataPoint` with its error bars and `HasErrors`
  rules, and `DataSeries` with its extremes, appends, X translation and
  `GroupDataPoints`, which replaces each group by its mean point.
- `LinReg` — `LinearRegression`: residuals, mean-centring (`SetOrigin`), the
  fit bookkeeping, the sums of squares, the standard errors, the
  confidence-level table and the `MCErrorName` classifier.
- `DataReader` — the delimiter rules, the column transpose and the fan-out
  of already-read rows into one series per dependent column.
- `Plotting` — `Axis` and its mirror image on the opposite side, the tick
  settings, and `ThermoPlot.GetAxes`, which returns at least one horizontal
  and one vertical axis, making up a missing one from the data range; when
  an orientation is missing and there is no data to take a range from, it
  throws.
- `Errors` and `Numerics` — the shared `Result`/`Option` types (a thrown
  exception becomes `Fail`) and sums, means, minima and maxima over `real`.

Each mutable C# object (`DataSeries`, `DataPoint`, `LinearRegression`,
`Axis`) is a datatype, and every mutating method returns the updated value.
All `double` arithmetic is exact `real` arithmetic. The numerics library
calls enter as function parameters, assumed only to return (never to
throw) and nothing more:
- `SimpleRegression.Fit`, `WeightedRegression.Weighted`,
  `Statistics.StandardDeviation`, `Math.Sqrt` and `StudentT.InvCDF`.
- The lemmas that need a property of one of these (a non-negative square
  root, a monotone quantile) take it as a precondition.

The model follows the code as written, including where a tidier design
would differ:
- The constructors accept arrays of any lengths.
- An empty input to the grouping yields one empty group.
- Any threshold is accepted.
- The standard errors divide by `n - 2` and by the spread of X unchecked. The model demands those divisors be non-zero. It does not report them as input errors.

## Model

| member | source | states |
|---|---|---|
| Numerics.MinOf | DataSeries.cs:14-15 | LINQ `Min` of a non-empty sequence is at most every element and equal to one of them |
| Numerics.MaxOf | DataSeries.cs:16-17 | LINQ `Max` of a non-empty sequence is at least every element and equal to one of them |
| Numerics.MeanShift | LinReg.cs:82-84 | subtracting a constant from every value moves the `Average` by that constant |
| Points.NewDataPoint | DataSeries.cs:63-73 | a new point has the given X and Y, all four error components zero, and `HasErrors` false |
| Points.SetErrorBars | DataSeries.cs:80-87 | the two-argument form gives symmetric bars of magnitude abs(x) and abs(y), all components non-negative, position kept; a bar shows an error exactly when its argument is non-zero |
| Points.SetErrorBarsAsymmetric | DataSeries.cs:96-100 | the four-argument form stores each component's absolute value, so all are non-negative, position kept |
| Points.HasErrorsCharacterised | DataSeries.cs:102-104 | `HasErrors` holds iff a vertical or horizontal error is shown, iff some error component is positive |
| ListTools.SortByX | ListTools.cs:15 | `OrderBy(dp => dp.X)` gives a sorted permutation of the input that keeps the input order among equal X |
| ListTools.SortSortedIsIdentity | ListTools.cs:15 | sorting an already sorted list returns it unchanged |
| ListTools.GroupsConcatenateToSorted | ListTools.cs:14-24 | the groups, concatenated, are exactly the input stably sorted by X: nothing lost, duplicated or reordered |
| ListTools.EmptyInputOneEmptyGroup | ListTools.cs:14-24 | an empty input yields exactly one group, and it is empty |
| ListTools.GroupsNonEmpty | ListTools.cs:17-22 | a non-empty input yields only non-empty groups |
| ListTools.GroupsRespectThreshold | ListTools.cs:17-22 | inside a group each later point's X is at most the mean X of the points before it plus the threshold; each group after the first starts above the previous group's mean plus the threshold |
| ListTools.GroupsAreOrdered | ListTools.cs:15-24 | every X of an earlier group is at most every X of a later group |
| ListTools.GroupsAreSorted | ListTools.cs:15-24 | each group is sorted by X |
| ListTools.MeanBelowLaterGroup | ListTools.cs:17-20 | in split, ordered groups with a non-negative threshold an earlier group's mean X is below a later group's |
| ListTools.GroupMeansIncrease | ListTools.cs:12-25 | for a non-empty input and a non-negative threshold the groups' mean X values strictly increase |
| ListTools.WorkedExample | ListTools.cs:15-24 | X = 1, 2, 3, 10, 11, 12 with threshold 2 gives the groups {1, 2, 3} and {10, 11, 12} |
| Series.MinimumX | DataSeries.cs:14 | fails exactly on an empty series; otherwise at most every X and equal to one |
| Series.MinimumY | DataSeries.cs:15 | fails exactly on an empty series; otherwise at most every Y and equal to one |
| Series.MaximumX | DataSeries.cs:16 | fails exactly on an empty series; otherwise at least every X and equal to one |
| Series.MaximumY | DataSeries.cs:17 | fails exactly on an empty series; otherwise at least every Y and equal to one |
| Series.AddPoint | DataSeries.cs:23 | `AddDataPoint(x, y)` appends one point with that X and Y and no error bars at the end, earlier points and the name unchanged |
| Series.AddDataPoint | DataSeries.cs:24 | `AddDataPoint(dp)` appends exactly `dp` at the end, earlier points and the name unchanged |
| Series.TranslatePoints | DataSeries.cs:49-52 | every X moves by the value; Y, error bars, count, order and name unchanged |
| Series.TranslateRoundTrip | DataSeries.cs:49-52 | translating by d and then by -d restores the series exactly |
| Series.TranslateMovesRangeX | DataSeries.cs:49-52 | translation moves `MinimumX` and `MaximumX` by the same value |
| Series.Aggregate | DataSeries.cs:34-41 | a group's point lies at the group's mean X and Y with symmetric, non-negative error bars of twice the standard deviation |
| Series.AggregateGroups | DataSeries.cs:32-44 | the loop succeeds exactly when every group is non-empty and then yields one aggregate per group, in order |
| Series.GroupDataPointsFailsIffEmpty | DataSeries.cs:26-46 | grouping fails exactly on an empty series, whose single empty group reaches `Average` |
| Series.GroupDataPointsOnePerGroup | DataSeries.cs:26-46 | on a non-empty series the points are replaced by exactly one point per proximity group, at the group's means, the name kept |
| Series.GroupDataPointsIncreasing | DataSeries.cs:26-46 | with a non-negative window the grouped points' X values strictly increase |
| LinReg.NewRegression | LinReg.cs:49-70 | the constructors store the arrays, weights and name as given; unfitted, no headers, all numbers zero |
| LinReg.SetHeaders | LinReg.cs:72-76 | sets the two variable names and nothing else |
| LinReg.Residuals | LinReg.cs:31-47 | empty before a fit; afterwards one residual per X, with Y[i] equal to the fitted line at X[i] plus the residual |
| LinReg.SumOfSquared | LinReg.cs:210-215 | the sum of squares is non-negative |
| LinReg.SumOfSquaredZeros | LinReg.cs:210-215 | all-zero values have a zero sum of squares |
| LinReg.SumOfSquaredAppend | LinReg.cs:210-215 | the sum of squares of a concatenation is the sum of the parts' sums |
| LinReg.ArraySumSquareDeviation | LinReg.cs:222-232 | the summed squared deviation from the mean is non-negative |
| LinReg.SumSquareDeviationShiftInvariant | LinReg.cs:222-232 | adding a constant to every value leaves the summed squared deviation unchanged |
| LinReg.CenterX | LinReg.cs:80-85 | mode 0 records the mean of X as offset and replaces X by X[i] minus that mean, whose mean is then zero; nothing else changes |
| LinReg.CenterY | LinReg.cs:86-91 | mode 1 does the same for Y |
| LinReg.SetOrigin | LinReg.cs:78-97 | mode 0 centres X, mode 1 centres Y, mode 2 both, any other mode changes nothing; the untouched side and all other fields are kept |
| LinReg.SetOriginTwice | LinReg.cs:82-84 | centring X twice leaves X as after the first time and overwrites the X offset with zero |
| LinReg.FitSimple | LinReg.cs:107-113 | the unweighted fit takes slope and intercept from the fitter's (intercept, slope) pair and changes nothing else |
| LinReg.DesignRows | LinReg.cs:125 | the weighted fit's design matrix has one single-entry row per X value |
| LinReg.LinFitWeighted | LinReg.cs:123-133 | null weights throw `ArgumentNullException` in `Select`; an empty parameter vector throws at `Last()`; otherwise the slope is the last parameter and the intercept the first when there are two or more, else zero |
| LinReg.Fit | LinReg.cs:99-105 | a fit that returns always marks the model fitted; the unweighted fit fails only if the library fitter throws, which the model does not represent; only slope, intercept and the flag change |
| LinReg.MeanOriginWeightedFit | LinReg.cs:129-132 | with the mean origin and a one-element parameter vector the weighted fit has intercept zero and that element as slope |
| LinReg.ExactFitHasNoResidual | LinReg.cs:37-45 | a line through every point gives all-zero residuals and a zero residual sum of squares |
| LinReg.ConfidenceValue | LinReg.cs:197-204 | every level's significance lies strictly between 0 and 1 |
| LinReg.TQuantile | LinReg.cs:185 | every level's quantile lies strictly between 0.5 and 1 |
| LinReg.ConfidenceTable | LinReg.cs:197-204 | CL99 maps to 0.01, CL95 to 0.05, one standard deviation to 0.317, CL50 to 0.5; the quantile is 1 minus half the significance |
| LinReg.TQuantileDecreasing | LinReg.cs:185-204 | a level earlier in the declaration order asks for a strictly higher quantile, and only then |
| LinReg.DegreesOfFreedom | LinReg.cs:184 | the degrees of freedom are the number of X values minus two |
| LinReg.DegreesOfFreedomPreserved | LinReg.cs:184 | neither `SetOrigin` nor `Fit` changes the degrees of freedom |
| LinReg.GetFittingErrors | LinReg.cs:139-152 | (0, 0) before a fit; afterwards the standard errors computed from the residual sum of squares, the spread of X, the sum of squared X and the sample count |
| LinReg.StandardErrors | LinReg.cs:146-149 | the slope error is sqrt(SSR / (n - 2) / SSX) and the intercept error is that times sqrt(sum of squared X / n) |
| LinReg.FittingErrorsFormula | LinReg.cs:143-151 | after a fit the slope and intercept errors are those closed-form expressions in the model's own data |
| LinReg.GetConfidenceInterval | LinReg.cs:155-161 | before a fit the interval is (0, 0) for every level |
| LinReg.ConfidenceIntervalScaling | LinReg.cs:155-161 | each half-width is the matching standard error times the level's t statistic |
| LinReg.GetStandardDeviations | LinReg.cs:154 | before a fit the standard deviations are (0, 0) |
| LinReg.StandardDeviationsScaling | LinReg.cs:154-161 | each standard deviation is the matching standard error times the one-standard-deviation t statistic |
| LinReg.StandardDeviationsWithinCL95 | LinReg.cs:154-161 | with a non-negative square root and a monotone quantile, the standard deviations are no wider than the 95% interval's half-widths |
| LinReg.ComputeConfidenceIntervals | LinReg.cs:163-170 | stores exactly the pair `GetConfidenceInterval` returns, zeros before a fit, and changes nothing else |
| LinReg.FittingErrorsNonNegative | LinReg.cs:147-149 | with a non-negative square root both standard errors are non-negative |
| LinReg.TStatMonotone | LinReg.cs:183-185 | with a monotone quantile function a level earlier in the order has a t statistic at least as large |
| LinReg.ConfidenceIntervalsNest | LinReg.cs:155-161 | under those two conditions a wider level gives half-widths at least as large, for slope and intercept |
| LinReg.LowerChar | LinReg.cs:237 | ASCII upper-case letters become their lower-case forms; other characters are unchanged |
| LinReg.ToLower | LinReg.cs:237 | lowering keeps the length and lowers each character |
| LinReg.ToLowerIdempotent | LinReg.cs:237 | lowering twice is lowering once |
| LinReg.MCErrorName | LinReg.cs:235-243 | "dh" iff the lowered Y name has 'h'; else "ds" iff it has 's'; else "dg" iff it has 'g'; otherwise the lowered name itself |
| LinReg.MCErrorNameCases | LinReg.cs:237-243 | a null Y name gives "yvar"; the result ignores case; a name with 'H' gives "dh" |
| DataReader.GetDelimiter | DataReader.cs:80-86 | a tab anywhere gives Tab; else a space gives Space; else both '.' and ',' give Comma; else Unknown — each outcome iff its condition |
| DataReader.DelimiterString | DataReader.cs:96-105 | the text is one character long, and Unknown falls back to the tab's text; the exact texts of Tab, Space and Comma are stated by `DelimiterStringClassified` |
| DataReader.ChosenDelimiterOccurs | DataReader.cs:80-86 | a recognised delimiter's character occurs in the line it was chosen for |
| DataReader.DelimiterStringClassified | DataReader.cs:80-105 | Tab, Space and Comma give a tab, a space and a comma; classifying a delimiter's own text gives Tab and Space back, Unknown for a lone comma, and Tab for the fallback |
| DataReader.GetColumn | DataReader.cs:107-117 | the column has one entry per row, entry i being row i's entry at the column |
| DataReader.ToMatrix | DataReader.cs:119-130 | as many rows as the first data row has entries, each as long as the table, with matrix[i][j] equal to data[j][i] |
| DataReader.TransposeInvolution | DataReader.cs:119-130 | transposing a rectangular table with at least one column twice gives the table back |
| DataReader.FanOut | DataReader.cs:66-75 | one series per entry of the first row after the first, each unnamed, series k holding one error-free point (row[0], row[k + 1]) per row, in row order |
| DataReader.FanOutMatchesTranspose | DataReader.cs:66-75 | series k's X values are row 0 of the transpose and its Y values row k + 1 |
| Plotting.SetShowInside | ThermoPlot.cs:171 | setting `ShowInside` selects the inside style for true and the outside style for false and changes nothing else |
| Plotting.ShowInsideSetGet | ThermoPlot.cs:171-172 | reading `ShowInside` returns what was written; writing back what was read keeps the tick info exactly when its style is inside or outside |
| Plotting.GetCustomTickValues | ThermoPlot.cs:178-181 | no custom tick values are produced for any range |
| Plotting.OrientationExclusive | ThermoPlot.cs:84-102 | no axis is both horizontal and vertical; an axis is one of the two iff it has a position; the default axis is vertical and shows no legend and no unit |
| Plotting.OppositeSide | ThermoPlot.cs:128-135 | the opposite side always is a position, and differs from any given position |
| Plotting.GetOpposingAxis | ThermoPlot.cs:107-138 | range, legend, unit, visibility and both tick options copied; legend and unit shown only if shown before and not minimal; placed on the opposite side; not mirrored again and minimal |
| Plotting.OpposingKeepsOrientation | ThermoPlot.cs:128-135 | the mirror of a horizontal axis is horizontal, of a vertical one vertical, and an axis without a position becomes horizontal |
| Plotting.OpposingTwice | ThermoPlot.cs:128-135 | mirroring twice restores each of the four sides; an axis without a position ends at the bottom |
| Plotting.OpposingLabels | ThermoPlot.cs:98-126 | the mirror shows the legend (unit) iff the original does and is not minimal; the mirror of a mirror shows neither |
| Plotting.VisibleAxes | ThermoPlot.cs:23 | the filter never adds axes |
| Plotting.VisibleAxesFilter | ThermoPlot.cs:23 | without the flag every axis is kept in order; with it, exactly the visible axes remain |
| Plotting.Expand | ThermoPlot.cs:23-31 | the laid-out list has one entry per axis plus one per mirrored axis |
| Plotting.ExpandSlots | ThermoPlot.cs:23-31 | each axis keeps its order in the laid-out list and its mirror image follows it immediately |
| Plotting.ExpandMembers | ThermoPlot.cs:23-31 | every laid-out axis is a configured axis or the mirror image of one shown on the opposite side |
| Plotting.SeriesLow | ThermoPlot.cs:37-46 | a series' `MinimumX` or `MinimumY` is at most every coordinate along the axis and equal to one |
| Plotting.SeriesHigh | ThermoPlot.cs:38-47 | a series' `MaximumX` or `MaximumY` is at least every coordinate along the axis and equal to one |
| Plotting.DataRange | ThermoPlot.cs:37-47 | the range over all series throws exactly when there is no series or some series is empty |
| Plotting.DataRangeBounds | ThermoPlot.cs:37-47 | the range bounds every point of every series along the axis |
| Plotting.DataRangeAttained | ThermoPlot.cs:37-47 | both ends of the range are coordinates of actual points |
| Plotting.RangeAxis | ThermoPlot.cs:36-39 | a made-up axis has the given range and position and is otherwise a default axis |
| Plotting.AddMissing | ThermoPlot.cs:34-51 | an `if` block fails exactly when the axis is needed and there is no data; a needed axis is appended at its position over the data range, the rest kept |
| Plotting.AddMissingOutcome | ThermoPlot.cs:34-51 | an `if` block keeps the axes before it, adds at most one, and adds its orientation exactly when it was needed |
| Plotting.GetAxesOutcome | ThermoPlot.cs:19-54 | fails iff an orientation is missing and there is no data; otherwise the result has a horizontal and a vertical axis, starts with the laid-out axes, adds at most two, and none when both orientations are configured |
| Plotting.MissingHorizontalAxis | ThermoPlot.cs:34-42 | with a non-empty list of non-empty series laying out succeeds, and a made-up horizontal axis follows the laid-out axes at the bottom and spans the X values of all the data |
| Plotting.MissingVerticalAxis | ThermoPlot.cs:43-51 | with a non-empty list of non-empty series laying out succeeds, and a made-up vertical axis is last, on the left, and spans the Y values of all the data |
| Plotting.NewPlotHasNoAxes | ThermoPlot.cs:15-54 | laying out the axes of a new plot throws, as there is no data to take a range from |

## Left out

- `DataReader.ReadFile` (DataReader.cs:13-60): file reading and culture-dependent number parsing. The fan-out takes already-read rows.
- The library numerics are function parameters with no verified behaviour: least-squares fitting, `Math.Sqrt`, `StudentT.InvCDF` and `Statistics.StandardDeviation`. This includes the standard deviation of a one-element group.
- IEEE-754 doubles are not modelled: rounding, infinities, NaN and the single-precision `1f` constants of `GetFittingErrors`.
  - The NaN defaults of `StepSize` and `TickAnchor` are an absent value.
  - `UseCustomTickValues` is whether an anchor is set.
- LinReg.GetFittingErrors: requires at least one X value, not exactly two, and a non-zero spread of X once fitted. With no X values the C# code throws in `Average` inside `ArraySumSquareDeviation`; with exactly two values or a zero spread it divides by zero and yields an infinity or NaN.
- LinReg.Fit: the library calls are modelled as never throwing. `SimpleRegression.Fit` throws on X and Y arrays of unequal length or with fewer than two samples, which the constructors allow; the model's unweighted fit always succeeds instead.
- LinReg.TStat: `StudentT.InvCDF` throws for zero or negative degrees of freedom, that is with at most two X values, even before a fit; the model's `invCdf` parameter always returns a value, so `GetConfidenceInterval`, `GetStandardDeviations` and `ComputeConfidenceIntervals` do not fail there.
- LinReg.Residuals: requires at least as many Y values as X values once fitted, because the constructors do not check the lengths and a shorter Y array throws.
- LinReg.SetOrigin: requires non-empty arrays for the modes that centre them, where `Average` throws.
- DataReader.ToMatrix: requires a non-empty table whose rows are at least as long as the first. Otherwise the indexing throws.
- DataReader.FanOut: requires the same as `ToMatrix`.
- LinReg.SumOfSquared: the converse, that a zero sum of squares means every value is zero, is not stated. Only the all-zero direction and additivity are proved.
- LinReg.ToLower: lowers the ASCII letters only. Culture-specific case mapping of other characters is not modelled.
- LinReg.GetConfidenceInterval: its own contract covers only the unfitted case. The fitted case is stated by `ConfidenceIntervalScaling` and `FittingErrorsFormula`.
- `Fit` leaves the stored `SlopeError` and `InterceptError` of an earlier computation in place. This is kept as is; they change only through `ComputeConfidenceIntervals`.
- `Print` and `DataPoint.ToString` are console output and number formatting.
- The conversion to plotting-library objects (`GetOxyplotModel`, `GetOxyPlotAxis`) and the PDF export (`OxyTools.GetPDF`) wrap libraries that are not part of this model.
- `ViewController` is user-interface glue.
- `NCSSLinRegSlopeDeviation` and `FitWeighted` are never called.
- The static `SelectedConfidenceLevel`, `DecimalDigits` and header settings: the level is an explicit parameter and the others only affect output.
- Object identity is not modelled; values are copied. In C#, a `DataPoint` held by several lists is one object, so `TranslatePoints` on one series moves it in all of them, and a point added twice to the same list is shifted twice; here each entry is shifted once. A mirrored axis is a new object that shares only its `MajorTickOptions` and `MinorTickOptions` references with the original.
