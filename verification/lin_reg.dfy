/** The `LinearRegression` class of LinReg.cs: the bookkeeping around a
    straight-line fit. The class's mutable fields become a record that each
    operation returns anew. The library numerics are parameters without any
    assumed behaviour: `simpleFit` is MathNet's `SimpleRegression.Fit`
    (returning intercept, slope), `weightedFit` is
    `WeightedRegression.Weighted`, `sqrt` is `Math.Sqrt` and `invCdf` is
    `StudentT.InvCDF(location, scale, freedom, p)`. */
module LinReg {
  import opened Errors
  import opened Numerics

  datatype ConfidenceLevel = CL99 | CL95 | StandardDeviation | CL50

  datatype LinearRegression = LinearRegression(
    useMeanOrigin: bool,
    name: Option<string>,
    xVar: Option<string>,
    yVar: Option<string>,
    isFitted: bool,
    slope: real,
    intercept: real,
    slopeError: real,
    interceptError: real,
    xValues: seq<real>,
    yValues: seq<real>,
    weights: Option<seq<real>>,
    originOffsetX: real,
    originOffsetY: real)

  /** The three constructors: the arrays are stored as given (no length
      check), every number starts at zero and the model is not fitted. */
  function NewRegression(x: seq<real>, y: seq<real>, w: Option<seq<real>>, name: Option<string>): (r: LinearRegression)
    ensures r.xValues == x && r.yValues == y && r.weights == w && r.name == name
    ensures !r.isFitted && !r.useMeanOrigin
    ensures r.xVar.None? && r.yVar.None?
    ensures r.slope == 0.0 && r.intercept == 0.0 && r.slopeError == 0.0 && r.interceptError == 0.0
    ensures r.originOffsetX == 0.0 && r.originOffsetY == 0.0
  {
    LinearRegression(false, name, None, None, false, 0.0, 0.0, 0.0, 0.0, x, y, w, 0.0, 0.0)
  }

  /** `SetHeaders(v1, v2)`: names the two variables. */
  function SetHeaders(reg: LinearRegression, v1: Option<string>, v2: Option<string>): (r: LinearRegression)
    ensures r.xVar == v1 && r.yVar == v2
    ensures r.(xVar := reg.xVar, yVar := reg.yVar) == reg
  {
    reg.(xVar := v1, yVar := v2)
  }

  // ---------------------------------------------------------------------
  // Residuals
  // ---------------------------------------------------------------------

  /** The fitted line at `x`. */
  function Predict(reg: LinearRegression, x: real): real {
    reg.slope * x + reg.intercept
  }

  /** Empty before a fit; afterwards one residual per X value. The source
      indexes Y by the positions of X, so Y must be at least as long. */
  function Residuals(reg: LinearRegression): (r: seq<real>)
    requires reg.isFitted ==> |reg.yValues| >= |reg.xValues|
    ensures !reg.isFitted ==> r == []
    ensures reg.isFitted ==> |r| == |reg.xValues|
    ensures reg.isFitted ==> forall i :: 0 <= i < |r| ==> reg.yValues[i] == Predict(reg, reg.xValues[i]) + r[i]
  {
    if !reg.isFitted then []
    else
      var xs, ys := reg.xValues, reg.yValues;
      seq(|xs|, i requires 0 <= i < |xs| => ys[i] - (reg.slope * xs[i] + reg.intercept))
  }

  // ---------------------------------------------------------------------
  // LRM: the sums of squares
  // ---------------------------------------------------------------------

  /** `LRM.SumOfSquared`: the sum of the squares of the elements. */
  function SumOfSquared(s: seq<real>): (r: real)
    ensures r >= 0.0
    decreases |s|
  {
    if |s| == 0 then 0.0 else s[0] * s[0] + SumOfSquared(s[1..])
  }

  /** A sequence of zeros has a zero sum of squares. */
  lemma {:induction false} SumOfSquaredZeros(s: seq<real>)
    requires forall i :: 0 <= i < |s| ==> s[i] == 0.0
    ensures SumOfSquared(s) == 0.0
    decreases |s|
  {
    if |s| > 0 {
      SumOfSquaredZeros(s[1..]);
    }
  }

  /** The sum of squares of a concatenation is the sum of the parts'. */
  lemma {:induction false} SumOfSquaredAppend(s: seq<real>, t: seq<real>)
    ensures SumOfSquared(s + t) == SumOfSquared(s) + SumOfSquared(t)
    decreases |s|
  {
    if |s| > 0 {
      SumOfSquaredAppend(s[1..], t);
      assert (s + t)[1..] == s[1..] + t;
    } else {
      assert s + t == t;
    }
  }

  /** `LRM.ArraySumSquareDeviation`: the sum of squared distances from the
      mean (`Average` throws on an empty array). */
  function ArraySumSquareDeviation(s: seq<real>): (r: real)
    requires |s| > 0
    ensures r >= 0.0
  {
    SumOfSquared(Shift(s, -Mean(s)))
  }

  /** The spread about the mean does not depend on where the data sit. */
  lemma SumSquareDeviationShiftInvariant(s: seq<real>, c: real)
    requires |s| > 0
    ensures ArraySumSquareDeviation(Shift(s, c)) == ArraySumSquareDeviation(s)
  {
    MeanShift(s, c);
    var m := Mean(s);
    assert Shift(Shift(s, c), -(m + c)) == Shift(s, -m);
  }

  // ---------------------------------------------------------------------
  // SetOrigin
  // ---------------------------------------------------------------------

  /** Mode 0: the X values are centred on their mean, recorded as offset. */
  function CenterX(reg: LinearRegression): (r: LinearRegression)
    requires |reg.xValues| > 0
    ensures r.originOffsetX == Mean(reg.xValues)
    ensures |r.xValues| == |reg.xValues|
    ensures forall i :: 0 <= i < |reg.xValues| ==> r.xValues[i] == reg.xValues[i] - Mean(reg.xValues)
    ensures Mean(r.xValues) == 0.0
    ensures r.(xValues := reg.xValues, originOffsetX := reg.originOffsetX) == reg
  {
    var m := Mean(reg.xValues);
    MeanShift(reg.xValues, -m);
    reg.(originOffsetX := m, xValues := Shift(reg.xValues, -m))
  }

  /** Mode 1: the Y values are centred on their mean, recorded as offset. */
  function CenterY(reg: LinearRegression): (r: LinearRegression)
    requires |reg.yValues| > 0
    ensures r.originOffsetY == Mean(reg.yValues)
    ensures |r.yValues| == |reg.yValues|
    ensures forall i :: 0 <= i < |reg.yValues| ==> r.yValues[i] == reg.yValues[i] - Mean(reg.yValues)
    ensures Mean(r.yValues) == 0.0
    ensures r.(yValues := reg.yValues, originOffsetY := reg.originOffsetY) == reg
  {
    var m := Mean(reg.yValues);
    MeanShift(reg.yValues, -m);
    reg.(originOffsetY := m, yValues := Shift(reg.yValues, -m))
  }

  /** `SetOrigin(mode)`: 0 centres X, 1 centres Y, 2 does both (X first),
      any other mode changes nothing. */
  function SetOrigin(reg: LinearRegression, mode: int): (r: LinearRegression)
    requires (mode == 0 || mode == 2) ==> |reg.xValues| > 0
    requires (mode == 1 || mode == 2) ==> |reg.yValues| > 0
    ensures mode in {0, 2} ==> (|r.xValues| == |reg.xValues| &&
              forall i :: 0 <= i < |reg.xValues| ==> r.xValues[i] == reg.xValues[i] - Mean(reg.xValues))
    ensures mode in {1, 2} ==> (|r.yValues| == |reg.yValues| &&
              forall i :: 0 <= i < |reg.yValues| ==> r.yValues[i] == reg.yValues[i] - Mean(reg.yValues))
    ensures mode in {0, 2} ==> r.originOffsetX == Mean(reg.xValues) && Mean(r.xValues) == 0.0
    ensures mode in {1, 2} ==> r.originOffsetY == Mean(reg.yValues) && Mean(r.yValues) == 0.0
    ensures mode !in {0, 2} ==> r.xValues == reg.xValues && r.originOffsetX == reg.originOffsetX
    ensures mode !in {1, 2} ==> r.yValues == reg.yValues && r.originOffsetY == reg.originOffsetY
    ensures r.(xValues := reg.xValues, yValues := reg.yValues,
               originOffsetX := reg.originOffsetX, originOffsetY := reg.originOffsetY) == reg
  {
    if mode == 0 then CenterX(reg)
    else if mode == 1 then CenterY(reg)
    else if mode == 2 then CenterY(CenterX(reg))
    else reg
  }

  /** Centring X a second time leaves X as it was after the first time but
      overwrites the recorded offset with 0: the shifts do not compound. */
  lemma SetOriginTwice(reg: LinearRegression)
    requires |reg.xValues| > 0
    ensures SetOrigin(SetOrigin(reg, 0), 0) == SetOrigin(reg, 0).(originOffsetX := 0.0)
  {
    var once := SetOrigin(reg, 0);
    var twice := SetOrigin(once, 0);
    assert twice.xValues == once.xValues;
  }

  // ---------------------------------------------------------------------
  // Fit
  // ---------------------------------------------------------------------

  /** The private `Fit()`: ordinary least squares by the library. */
  function FitSimple(reg: LinearRegression, simpleFit: (seq<real>, seq<real>) -> (real, real)): (r: LinearRegression)
    ensures r.slope == simpleFit(reg.xValues, reg.yValues).1
    ensures r.intercept == simpleFit(reg.xValues, reg.yValues).0
    ensures r.(slope := reg.slope, intercept := reg.intercept) == reg
  {
    var (intercept, slope) := simpleFit(reg.xValues, reg.yValues);
    reg.(slope := slope, intercept := intercept)
  }

  /** The design matrix of `LinFitWeighted`: one single-column row per X. */
  function DesignRows(xs: seq<real>): (rows: seq<seq<real>>)
    ensures |rows| == |xs|
    ensures forall i :: 0 <= i < |xs| ==> rows[i] == [xs[i]]
  {
    seq(|xs|, i requires 0 <= i < |xs| => [xs[i]])
  }

  /** The parameters the weighted fitter returns for `reg`; an intercept
      column is requested unless the fit goes through the mean origin. */
  function WeightedParameters(reg: LinearRegression, weightedFit: (seq<seq<real>>, seq<real>, seq<real>, bool) -> seq<real>): seq<real>
    requires reg.weights.Some?
  {
    weightedFit(DesignRows(reg.xValues), reg.yValues, reg.weights.value, !reg.useMeanOrigin)
  }

  /** `LinFitWeighted`: `Weights.Select` throws `ArgumentNullException` on
      null weights, and `Last()` throws
      on an empty parameter vector; the slope is the last parameter and the
      intercept the first one if there are several, else 0. */
  function LinFitWeighted(reg: LinearRegression, weightedFit: (seq<seq<real>>, seq<real>, seq<real>, bool) -> seq<real>): (r: Result<LinearRegression>)
    ensures reg.weights.None? ==> r == Fail(ArgumentNull)
    ensures reg.weights.Some? ==> (r.Ok? <==> |WeightedParameters(reg, weightedFit)| > 0)
    ensures r.Ok? ==>
              var p := WeightedParameters(reg, weightedFit);
              && r.value.slope == p[|p| - 1]
              && (|p| == 1 ==> r.value.intercept == 0.0)
              && (|p| > 1 ==> r.value.intercept == p[0])
              && r.value.(slope := reg.slope, intercept := reg.intercept) == reg
  {
    if reg.weights.None? then Fail(ArgumentNull)
    else
      var p := WeightedParameters(reg, weightedFit);
      if |p| == 0 then Fail(EmptySequence)
      else Ok(reg.(slope := p[|p| - 1], intercept := if |p| > 1 then p[0] else 0.0))
  }

  /** `Fit(weighted)`: whichever fitter runs, a fit that returns marks the
      model fitted. Nothing else changes; in particular the previously
      computed errors are left as they were. */
  function Fit(reg: LinearRegression, weighted: bool,
               simpleFit: (seq<real>, seq<real>) -> (real, real),
               weightedFit: (seq<seq<real>>, seq<real>, seq<real>, bool) -> seq<real>): (r: Result<LinearRegression>)
    ensures !weighted ==> r.Ok?
    ensures r.Ok? ==> r.value.isFitted
    ensures weighted ==> (r.Fail? <==> LinFitWeighted(reg, weightedFit).Fail?)
    ensures r.Ok? ==> r.value.(slope := reg.slope, intercept := reg.intercept, isFitted := reg.isFitted) == reg
  {
    if weighted then
      match LinFitWeighted(reg, weightedFit)
      case Fail(f) => Fail(f)
      case Ok(fitted) => Ok(fitted.(isFitted := true))
    else Ok(FitSimple(reg, simpleFit).(isFitted := true))
  }

  /** With the mean origin the weighted fit asks for no intercept column; a
      single returned parameter then becomes the slope and the intercept is 0. */
  lemma MeanOriginWeightedFit(reg: LinearRegression, weightedFit: (seq<seq<real>>, seq<real>, seq<real>, bool) -> seq<real>,
                              simpleFit: (seq<real>, seq<real>) -> (real, real))
    requires reg.useMeanOrigin && reg.weights.Some?
    requires |weightedFit(DesignRows(reg.xValues), reg.yValues, reg.weights.value, false)| == 1
    ensures Fit(reg, true, simpleFit, weightedFit).Ok?
    ensures Fit(reg, true, simpleFit, weightedFit).value.intercept == 0.0
    ensures Fit(reg, true, simpleFit, weightedFit).value.slope == weightedFit(DesignRows(reg.xValues), reg.yValues, reg.weights.value, false)[0]
  {
  }

  /** A line through every point leaves a zero residual sum of squares. */
  lemma ExactFitHasNoResidual(reg: LinearRegression)
    requires reg.isFitted && |reg.yValues| >= |reg.xValues|
    requires forall i :: 0 <= i < |reg.xValues| ==> reg.yValues[i] == Predict(reg, reg.xValues[i])
    ensures forall i :: 0 <= i < |Residuals(reg)| ==> Residuals(reg)[i] == 0.0
    ensures SumOfSquared(Residuals(reg)) == 0.0
  {
    SumOfSquaredZeros(Residuals(reg));
  }

  // ---------------------------------------------------------------------
  // Confidence intervals
  // ---------------------------------------------------------------------

  /** `ConfidenceValue`: the two-sided significance 1 - confidence. */
  function ConfidenceValue(level: ConfidenceLevel): (a: real)
    ensures 0.0 < a < 1.0
  {
    match level
    case CL99 => 1.0 - 0.99
    case CL95 => 1.0 - 0.95
    case StandardDeviation => 1.0 - 0.683
    case CL50 => 1.0 - 0.5
  }

  /** `TQuantile`: the upper quantile of a two-sided interval. */
  function TQuantile(level: ConfidenceLevel): (q: real)
    ensures 0.5 < q < 1.0
  {
    1.0 - ConfidenceValue(level) / 2.0
  }

  /** The nominal coverage each level names. */
  function Coverage(level: ConfidenceLevel): real {
    match level
    case CL99 => 0.99
    case CL95 => 0.95
    case StandardDeviation => 0.683
    case CL50 => 0.5
  }

  /** Declaration order of the levels, widest first. */
  function Rank(level: ConfidenceLevel): nat {
    match level
    case CL99 => 0
    case CL95 => 1
    case StandardDeviation => 2
    case CL50 => 3
  }

  /** The significance table: CL99 is 0.01, CL95 0.05, one standard deviation
      0.317 and CL50 0.5, and the quantile is the centre of the coverage
      interval's upper end, (1 + coverage) / 2. */
  lemma ConfidenceTable(level: ConfidenceLevel)
    ensures ConfidenceValue(level) == 1.0 - Coverage(level)
    ensures TQuantile(level) == (1.0 + Coverage(level)) / 2.0
    ensures level == CL99 ==> ConfidenceValue(level) == 0.01
    ensures level == CL95 ==> ConfidenceValue(level) == 0.05
    ensures level == StandardDeviation ==> ConfidenceValue(level) == 0.317
    ensures level == CL50 ==> ConfidenceValue(level) == 0.5
  {
  }

  /** A wider level asks for a higher quantile. */
  lemma TQuantileDecreasing(a: ConfidenceLevel, b: ConfidenceLevel)
    ensures Rank(a) < Rank(b) <==> TQuantile(a) > TQuantile(b)
  {
  }

  /** `DegreesOfFreedom`: two parameters are fitted. */
  function DegreesOfFreedom(reg: LinearRegression): (d: int)
    ensures d + 2 == |reg.xValues|
  {
    |reg.xValues| - 2
  }

  /** Neither re-centring nor fitting changes the number of samples, so the
      degrees of freedom stay put. */
  lemma DegreesOfFreedomPreserved(reg: LinearRegression, mode: int, weighted: bool,
                                  simpleFit: (seq<real>, seq<real>) -> (real, real),
                                  weightedFit: (seq<seq<real>>, seq<real>, seq<real>, bool) -> seq<real>)
    requires (mode == 0 || mode == 2) ==> |reg.xValues| > 0
    requires (mode == 1 || mode == 2) ==> |reg.yValues| > 0
    ensures DegreesOfFreedom(SetOrigin(reg, mode)) == DegreesOfFreedom(reg)
    ensures Fit(reg, weighted, simpleFit, weightedFit).Ok? ==>
              DegreesOfFreedom(Fit(reg, weighted, simpleFit, weightedFit).value) == DegreesOfFreedom(reg)
  {
  }

  /** `TStat(level)`: the Student-t quantile for the level. */
  function TStat(reg: LinearRegression, level: ConfidenceLevel, invCdf: (real, real, real, real) -> real): real {
    invCdf(0.0, 1.0, DegreesOfFreedom(reg) as real, TQuantile(level))
  }

  /** What a fitted model needs for its standard errors to be real numbers:
      the source divides by n - 2 and by the spread of X, which in `double`
      would give an infinity or NaN instead. */
  ghost predicate ErrorsDefined(reg: LinearRegression) {
    reg.isFitted ==>
      && |reg.xValues| > 0
      && |reg.xValues| != 2
      && |reg.yValues| >= |reg.xValues|
      && ArraySumSquareDeviation(reg.xValues) != 0.0
  }

  lemma Reciprocal(a: real, b: real)
    requires a != 0.0
    ensures 1.0 / a * b == b / a
  {
  }

  lemma ProductNonNegative(a: real, b: real)
    requires a >= 0.0 && b >= 0.0
    ensures a * b >= 0.0
  {
  }

  lemma WiderScale(e: real, ta: real, tb: real, ca: real, cb: real)
    requires e >= 0.0 && tb <= ta && ca == e * ta && cb == e * tb
    ensures cb <= ca
  {
    assert e * ta - e * tb == e * (ta - tb);
    ProductNonNegative(e, ta - tb);
  }

  /** `GetFittingErrors`: (0, 0) before a fit; afterwards the standard error
      of the slope, sqrt(SSR / (n - 2) / SSX), and of the intercept, that
      times sqrt(sum of x squared / n). */
  function GetFittingErrors(reg: LinearRegression, sqrt: real -> real): (e: (real, real))
    requires ErrorsDefined(reg)
    ensures !reg.isFitted ==> e == (0.0, 0.0)
    ensures reg.isFitted ==>
              e == StandardErrors(SumOfSquared(Residuals(reg)), ArraySumSquareDeviation(reg.xValues),
                                  SumOfSquared(reg.xValues), |reg.xValues|, sqrt)
  {
    if !reg.isFitted then (0.0, 0.0)
    else StandardErrors(SumOfSquared(Residuals(reg)), ArraySumSquareDeviation(reg.xValues), SumOfSquared(reg.xValues), |reg.xValues|, sqrt)
  }

  /** The arithmetic of `GetFittingErrors` on its three sums and the number
      of samples, in the source's order of operations. */
  function StandardErrors(sumOfSquared: real, ssd: real, sumOfSquaredX: real, count: int, sqrt: real -> real): (e: (real, real))
    requires count != 0 && count != 2 && ssd != 0.0
    ensures e.0 == sqrt(sumOfSquared / (count as real - 2.0) / ssd)
    ensures e.1 == e.0 * sqrt(sumOfSquaredX / count as real)
  {
    var n := count as real;
    var oneOverXLength := 1.0 / (n - 2.0);
    Reciprocal(n - 2.0, sumOfSquared);
    Reciprocal(n, sumOfSquaredX);
    assert oneOverXLength * sumOfSquared / ssd == sumOfSquared / (n - 2.0) / ssd;
    var seSlope := sqrt(oneOverXLength * sumOfSquared / ssd);
    var seIntercept := seSlope * sqrt(1.0 / n * sumOfSquaredX);
    (seSlope, seIntercept)
  }

  /** After a fit the slope's standard error is sqrt(SSR / (n - 2) / SSX),
      SSR the residual and SSX the X sum of squares about the mean, and the
      intercept's is that times the root mean square of X. */
  lemma FittingErrorsFormula(reg: LinearRegression, sqrt: real -> real)
    requires ErrorsDefined(reg) && reg.isFitted
    ensures GetFittingErrors(reg, sqrt).0 ==
              sqrt(SumOfSquared(Residuals(reg)) / (|reg.xValues| as real - 2.0) / ArraySumSquareDeviation(reg.xValues))
    ensures GetFittingErrors(reg, sqrt).1 ==
              GetFittingErrors(reg, sqrt).0 * sqrt(SumOfSquared(reg.xValues) / |reg.xValues| as real)
  {
    var ssr, ssd, ssx := SumOfSquared(Residuals(reg)), ArraySumSquareDeviation(reg.xValues), SumOfSquared(reg.xValues);
    var e := StandardErrors(ssr, ssd, ssx, |reg.xValues|, sqrt);
    assert GetFittingErrors(reg, sqrt) == e;
  }

  /** `GetConfidenceInterval(level)`: both standard errors scaled by the
      level's t statistic; (0, 0) before a fit, whatever the level. */
  function GetConfidenceInterval(reg: LinearRegression, level: ConfidenceLevel,
                                 sqrt: real -> real, invCdf: (real, real, real, real) -> real): (ci: (real, real))
    requires ErrorsDefined(reg)
    ensures !reg.isFitted ==> ci == (0.0, 0.0)
  {
    var errors := GetFittingErrors(reg, sqrt);
    var tstat := TStat(reg, level, invCdf);
    (errors.0 * tstat, errors.1 * tstat)
  }

  /** Each interval half-width is the matching standard error times the
      level's t statistic. */
  lemma ConfidenceIntervalScaling(reg: LinearRegression, level: ConfidenceLevel,
                                  sqrt: real -> real, invCdf: (real, real, real, real) -> real)
    requires ErrorsDefined(reg)
    ensures GetConfidenceInterval(reg, level, sqrt, invCdf).0 == GetFittingErrors(reg, sqrt).0 * TStat(reg, level, invCdf)
    ensures GetConfidenceInterval(reg, level, sqrt, invCdf).1 == GetFittingErrors(reg, sqrt).1 * TStat(reg, level, invCdf)
  {
    hide GetFittingErrors;
  }

  /** `GetStandardDeviations`: the interval of one standard deviation;
      (0, 0) before a fit. */
  function GetStandardDeviations(reg: LinearRegression, sqrt: real -> real, invCdf: (real, real, real, real) -> real): (ci: (real, real))
    requires ErrorsDefined(reg)
    ensures !reg.isFitted ==> ci == (0.0, 0.0)
  {
    GetConfidenceInterval(reg, StandardDeviation, sqrt, invCdf)
  }

  /** `ComputeConfidenceIntervals(level)`: stores the pair that
      `GetConfidenceInterval` returns and changes nothing else. */
  function ComputeConfidenceIntervals(reg: LinearRegression, level: ConfidenceLevel,
                                      sqrt: real -> real, invCdf: (real, real, real, real) -> real): (r: LinearRegression)
    requires ErrorsDefined(reg)
    ensures (r.slopeError, r.interceptError) == GetConfidenceInterval(reg, level, sqrt, invCdf)
    ensures !reg.isFitted ==> r.slopeError == 0.0 && r.interceptError == 0.0
    ensures r.(slopeError := reg.slopeError, interceptError := reg.interceptError) == reg
  {
    var ci := GetConfidenceInterval(reg, level, sqrt, invCdf);
    reg.(slopeError := ci.0, interceptError := ci.1)
  }

  /** The t quantile grows with the probability, for `freedom` degrees. */
  ghost predicate QuantileMonotone(invCdf: (real, real, real, real) -> real, freedom: real) {
    forall p, q {:trigger invCdf(0.0, 1.0, freedom, p), invCdf(0.0, 1.0, freedom, q)} :: p <= q ==>
      invCdf(0.0, 1.0, freedom, p) <= invCdf(0.0, 1.0, freedom, q)
  }

  /** With a non-negative square root both standard errors are non-negative. */
  lemma FittingErrorsNonNegative(reg: LinearRegression, sqrt: real -> real)
    requires ErrorsDefined(reg)
    requires forall v :: sqrt(v) >= 0.0
    ensures GetFittingErrors(reg, sqrt).0 >= 0.0 && GetFittingErrors(reg, sqrt).1 >= 0.0
  {
    if reg.isFitted {
      FittingErrorsFormula(reg, sqrt);
      var e := GetFittingErrors(reg, sqrt);
      ProductNonNegative(e.0, sqrt(SumOfSquared(reg.xValues) / |reg.xValues| as real));
    }
  }

  /** A wider level gives a larger t statistic when the quantile is monotone. */
  lemma TStatMonotone(reg: LinearRegression, a: ConfidenceLevel, b: ConfidenceLevel,
                      invCdf: (real, real, real, real) -> real)
    requires QuantileMonotone(invCdf, DegreesOfFreedom(reg) as real)
    requires Rank(a) <= Rank(b)
    ensures TStat(reg, b, invCdf) <= TStat(reg, a, invCdf)
  {
    TQuantileDecreasing(a, b);
    assert TQuantile(b) <= TQuantile(a);
  }

  /** Wider levels give wider intervals, provided the library's square root
      is non-negative and its t quantile is monotone in the probability. */
  lemma ConfidenceIntervalsNest(reg: LinearRegression, a: ConfidenceLevel, b: ConfidenceLevel,
                                sqrt: real -> real, invCdf: (real, real, real, real) -> real)
    requires ErrorsDefined(reg)
    requires forall v :: sqrt(v) >= 0.0
    requires QuantileMonotone(invCdf, DegreesOfFreedom(reg) as real)
    requires Rank(a) <= Rank(b)
    ensures GetConfidenceInterval(reg, a, sqrt, invCdf).0 >= GetConfidenceInterval(reg, b, sqrt, invCdf).0
    ensures GetConfidenceInterval(reg, a, sqrt, invCdf).1 >= GetConfidenceInterval(reg, b, sqrt, invCdf).1
  {
    hide *;
    FittingErrorsNonNegative(reg, sqrt);
    TStatMonotone(reg, a, b, invCdf);
    ConfidenceIntervalScaling(reg, a, sqrt, invCdf);
    ConfidenceIntervalScaling(reg, b, sqrt, invCdf);
    WiderScale(GetFittingErrors(reg, sqrt).0, TStat(reg, a, invCdf), TStat(reg, b, invCdf),
               GetConfidenceInterval(reg, a, sqrt, invCdf).0, GetConfidenceInterval(reg, b, sqrt, invCdf).0);
    WiderScale(GetFittingErrors(reg, sqrt).1, TStat(reg, a, invCdf), TStat(reg, b, invCdf),
               GetConfidenceInterval(reg, a, sqrt, invCdf).1, GetConfidenceInterval(reg, b, sqrt, invCdf).1);
  }

  /** The one-standard-deviation half-widths are the standard errors times
      that level's t statistic. */
  lemma StandardDeviationsScaling(reg: LinearRegression, sqrt: real -> real, invCdf: (real, real, real, real) -> real)
    requires ErrorsDefined(reg)
    ensures GetStandardDeviations(reg, sqrt, invCdf).0 == GetFittingErrors(reg, sqrt).0 * TStat(reg, StandardDeviation, invCdf)
    ensures GetStandardDeviations(reg, sqrt, invCdf).1 == GetFittingErrors(reg, sqrt).1 * TStat(reg, StandardDeviation, invCdf)
  {
    hide GetConfidenceInterval, GetFittingErrors, TStat;
    assert GetStandardDeviations(reg, sqrt, invCdf) == GetConfidenceInterval(reg, StandardDeviation, sqrt, invCdf);
    ConfidenceIntervalScaling(reg, StandardDeviation, sqrt, invCdf);
  }

  /** With a non-negative square root and a monotone quantile, the
      one-standard-deviation half-widths are no wider than the 95%
      interval's. */
  lemma StandardDeviationsWithinCL95(reg: LinearRegression, sqrt: real -> real, invCdf: (real, real, real, real) -> real)
    requires ErrorsDefined(reg)
    requires forall v :: sqrt(v) >= 0.0
    requires QuantileMonotone(invCdf, DegreesOfFreedom(reg) as real)
    ensures GetStandardDeviations(reg, sqrt, invCdf).0 <= GetConfidenceInterval(reg, CL95, sqrt, invCdf).0
    ensures GetStandardDeviations(reg, sqrt, invCdf).1 <= GetConfidenceInterval(reg, CL95, sqrt, invCdf).1
  {
    assert Rank(CL95) <= Rank(StandardDeviation);
    hide GetConfidenceInterval, GetFittingErrors, TStat;
    assert GetStandardDeviations(reg, sqrt, invCdf) == GetConfidenceInterval(reg, StandardDeviation, sqrt, invCdf);
    ConfidenceIntervalsNest(reg, CL95, StandardDeviation, sqrt, invCdf);
  }

  // ---------------------------------------------------------------------
  // MCErrorName
  // ---------------------------------------------------------------------

  /** `char.ToLower` on the ASCII letters; other characters are unchanged. */
  function LowerChar(c: char): (d: char)
    ensures 'A' <= c <= 'Z' ==> 'a' <= d <= 'z' && d as int == c as int + 32
    ensures !('A' <= c <= 'Z') ==> d == c
  {
    if 'A' <= c <= 'Z' then (c as int + 32) as char else c
  }

  /** `string.ToLower`, character by character. */
  function ToLower(s: string): (r: string)
    ensures |r| == |s|
    ensures forall i :: 0 <= i < |s| ==> r[i] == LowerChar(s[i])
  {
    seq(|s|, i requires 0 <= i < |s| => LowerChar(s[i]))
  }

  /** Lowering an already lowered string changes nothing. */
  lemma ToLowerIdempotent(s: string)
    ensures ToLower(ToLower(s)) == ToLower(s)
  {
    assert forall i :: 0 <= i < |s| ==> LowerChar(LowerChar(s[i])) == LowerChar(s[i]);
  }

  /** The lowered Y variable name, "yvar" when it is null. */
  function LoweredYVar(reg: LinearRegression): string {
    match reg.yVar
    case None => "yvar"
    case Some(v) => ToLower(v)
  }

  /** `MCErrorName`: "dh" for an enthalpy-like name (one containing 'h'),
      else "ds" for one containing 's', else "dg" for one containing 'g',
      else the lowered name itself. */
  function MCErrorName(reg: LinearRegression): (r: string)
    ensures r == "dh" <==> 'h' in LoweredYVar(reg)
    ensures r == "ds" <==> 'h' !in LoweredYVar(reg) && 's' in LoweredYVar(reg)
    ensures r == "dg" <==> 'h' !in LoweredYVar(reg) && 's' !in LoweredYVar(reg) && 'g' in LoweredYVar(reg)
    ensures r !in {"dh", "ds", "dg"} ==> r == LoweredYVar(reg) && 'h' !in r && 's' !in r && 'g' !in r
  {
    var yvar := LoweredYVar(reg);
    if 'h' in yvar then "dh"
    else if 's' in yvar then "ds"
    else if 'g' in yvar then "dg"
    else yvar
  }

  /** A null Y variable is named "yvar", which holds none of the three
      letters; and the classification ignores ASCII case. */
  lemma MCErrorNameCases(reg: LinearRegression, v: string)
    ensures MCErrorName(reg.(yVar := None)) == "yvar"
    ensures MCErrorName(reg.(yVar := Some(v))) == MCErrorName(reg.(yVar := Some(ToLower(v))))
    ensures 'H' in v ==> MCErrorName(reg.(yVar := Some(v))) == "dh"
  {
    assert "yvar"[0] == 'y' && "yvar"[1] == 'v' && "yvar"[2] == 'a' && "yvar"[3] == 'r';
    ToLowerIdempotent(v);
    if 'H' in v {
      var i :| 0 <= i < |v| && v[i] == 'H';
      assert ToLower(v)[i] == 'h';
    }
  }
}
