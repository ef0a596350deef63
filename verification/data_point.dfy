/** The `DataPoint` class of DataSeries.cs: a measurement with an
    asymmetric error bar on each axis. */
module Points {
  import opened Numerics

  /** One axis' error bar, the `double[2]` array `[negative, positive]`. */
  datatype ErrorBar = ErrorBar(negative: real, positive: real)

  datatype DataPoint = DataPoint(x: real, y: real, errorX: ErrorBar, errorY: ErrorBar)

  /** The value of a freshly allocated `new double[2]`. */
  const NoError := ErrorBar(0.0, 0.0)

  /** `new DataPoint(x, y)`: the error arrays keep their zero initialisation. */
  function NewDataPoint(x: real, y: real): (p: DataPoint)
    ensures p.x == x && p.y == y
    ensures p.errorX.negative == 0.0 && p.errorX.positive == 0.0
    ensures p.errorY.negative == 0.0 && p.errorY.positive == 0.0
    ensures !HasErrors(p)
  {
    DataPoint(x, y, NoError, NoError)
  }

  /** `Any(v => v > 0)` over one error array. */
  predicate AnyPositive(e: ErrorBar) {
    e.negative > 0.0 || e.positive > 0.0
  }

  predicate HasVerticalError(p: DataPoint) {
    AnyPositive(p.errorY)
  }

  predicate HasHorizontalError(p: DataPoint) {
    AnyPositive(p.errorX)
  }

  predicate HasErrors(p: DataPoint) {
    p.errorY.negative > 0.0 || p.errorY.positive > 0.0 || p.errorX.negative > 0.0 || p.errorX.positive > 0.0
  }

  /** The four error components, X before Y, negative before positive. */
  function ErrorComponents(p: DataPoint): seq<real> {
    [p.errorX.negative, p.errorX.positive, p.errorY.negative, p.errorY.positive]
  }

  /** Every error component is non-negative. */
  predicate NonNegativeErrors(p: DataPoint) {
    forall i :: 0 <= i < 4 ==> ErrorComponents(p)[i] >= 0.0
  }

  /** The symmetric form `SetErrorBars(x, y)`: both halves of each bar get
      the magnitude of the argument; the position is untouched. */
  function SetErrorBars(p: DataPoint, x: real, y: real): (r: DataPoint)
    ensures r.x == p.x && r.y == p.y
    ensures r.errorX.negative == r.errorX.positive && r.errorY.negative == r.errorY.positive
    ensures r.errorX.positive == x || r.errorX.positive == -x
    ensures r.errorY.positive == y || r.errorY.positive == -y
    ensures NonNegativeErrors(r)
    ensures HasHorizontalError(r) <==> x != 0.0
    ensures HasVerticalError(r) <==> y != 0.0
  {
    var ax := Abs(x);
    var ay := Abs(y);
    p.(errorX := ErrorBar(ax, ax), errorY := ErrorBar(ay, ay))
  }

  /** The four-argument form: each component is stored as its magnitude. */
  function SetErrorBarsAsymmetric(p: DataPoint, x1: real, x2: real, y1: real, y2: real): (r: DataPoint)
    ensures r.x == p.x && r.y == p.y
    ensures ErrorComponents(r)[0] == Abs(x1) && ErrorComponents(r)[1] == Abs(x2)
    ensures ErrorComponents(r)[2] == Abs(y1) && ErrorComponents(r)[3] == Abs(y2)
    ensures NonNegativeErrors(r)
    ensures HasHorizontalError(r) <==> x1 != 0.0 || x2 != 0.0
    ensures HasVerticalError(r) <==> y1 != 0.0 || y2 != 0.0
  {
    p.(errorX := ErrorBar(Abs(x1), Abs(x2)), errorY := ErrorBar(Abs(y1), Abs(y2)))
  }

  /** `HasErrors` is the disjunction of the per-axis flags, and holds
      exactly when some error component is positive. */
  lemma HasErrorsCharacterised(p: DataPoint)
    ensures HasErrors(p) <==> HasVerticalError(p) || HasHorizontalError(p)
    ensures HasErrors(p) <==> exists i :: 0 <= i < 4 && ErrorComponents(p)[i] > 0.0
  {
    var c := ErrorComponents(p);
    if HasErrors(p) {
      if p.errorX.negative > 0.0 { assert c[0] > 0.0; }
      else if p.errorX.positive > 0.0 { assert c[1] > 0.0; }
      else if p.errorY.negative > 0.0 { assert c[2] > 0.0; }
      else { assert c[3] > 0.0; }
    }
  }

  /** The X coordinates of a list of points (`Select(dp => dp.X)`). */
  function Xs(ps: seq<DataPoint>): (r: seq<real>)
    ensures |r| == |ps|
    ensures forall i :: 0 <= i < |ps| ==> r[i] == ps[i].x
  {
    seq(|ps|, i requires 0 <= i < |ps| => ps[i].x)
  }

  /** The Y coordinates of a list of points (`Select(dp => dp.Y)`). */
  function Ys(ps: seq<DataPoint>): (r: seq<real>)
    ensures |r| == |ps|
    ensures forall i :: 0 <= i < |ps| ==> r[i] == ps[i].y
  {
    seq(|ps|, i requires 0 <= i < |ps| => ps[i].y)
  }

  /** `Average(dp => dp.X)`. */
  function MeanX(ps: seq<DataPoint>): real
    requires |ps| > 0
  {
    Mean(Xs(ps))
  }

  /** `Average(dp => dp.Y)`. */
  function MeanY(ps: seq<DataPoint>): real
    requires |ps| > 0
  {
    Mean(Ys(ps))
  }
}
