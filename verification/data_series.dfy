/** The `DataSeries` class of DataSeries.cs: a named list of points with
    range queries, translation and proximity aggregation. The mutable class
    is a value here; each operation returns the updated series. */
module Series {
  import opened Errors
  import opened Numerics
  import opened Points
  import opened ListTools

  datatype DataSeries = DataSeries(name: string, points: seq<DataPoint>)

  /** `new DataSeries()`: empty name, no points. */
  const NewSeries := DataSeries("", [])

  // ---------------------------------------------------------------------
  // Range queries: LINQ `Min`/`Max` throw on an empty list
  // ---------------------------------------------------------------------

  function MinimumX(s: DataSeries): (r: Result<real>)
    ensures r.Fail? <==> |s.points| == 0
    ensures r.Fail? ==> r.fault == EmptySequence
    ensures r.Ok? ==> forall i :: 0 <= i < |s.points| ==> r.value <= s.points[i].x
    ensures r.Ok? ==> exists i :: 0 <= i < |s.points| && r.value == s.points[i].x
  {
    if |s.points| == 0 then Fail(EmptySequence) else Ok(MinOf(Xs(s.points)))
  }

  function MinimumY(s: DataSeries): (r: Result<real>)
    ensures r.Fail? <==> |s.points| == 0
    ensures r.Fail? ==> r.fault == EmptySequence
    ensures r.Ok? ==> forall i :: 0 <= i < |s.points| ==> r.value <= s.points[i].y
    ensures r.Ok? ==> exists i :: 0 <= i < |s.points| && r.value == s.points[i].y
  {
    if |s.points| == 0 then Fail(EmptySequence) else Ok(MinOf(Ys(s.points)))
  }

  function MaximumX(s: DataSeries): (r: Result<real>)
    ensures r.Fail? <==> |s.points| == 0
    ensures r.Fail? ==> r.fault == EmptySequence
    ensures r.Ok? ==> forall i :: 0 <= i < |s.points| ==> s.points[i].x <= r.value
    ensures r.Ok? ==> exists i :: 0 <= i < |s.points| && r.value == s.points[i].x
  {
    if |s.points| == 0 then Fail(EmptySequence) else Ok(MaxOf(Xs(s.points)))
  }

  function MaximumY(s: DataSeries): (r: Result<real>)
    ensures r.Fail? <==> |s.points| == 0
    ensures r.Fail? ==> r.fault == EmptySequence
    ensures r.Ok? ==> forall i :: 0 <= i < |s.points| ==> s.points[i].y <= r.value
    ensures r.Ok? ==> exists i :: 0 <= i < |s.points| && r.value == s.points[i].y
  {
    if |s.points| == 0 then Fail(EmptySequence) else Ok(MaxOf(Ys(s.points)))
  }

  // ---------------------------------------------------------------------
  // Adding and translating points
  // ---------------------------------------------------------------------

  /** `AddDataPoint(dp)`: appends at the end, in insertion order. */
  function AddDataPoint(s: DataSeries, p: DataPoint): (r: DataSeries)
    ensures r.name == s.name
    ensures |r.points| == |s.points| + 1
    ensures r.points[..|s.points|] == s.points
    ensures r.points[|s.points|] == p
  {
    s.(points := s.points + [p])
  }

  /** `AddDataPoint(x, y)`: appends a fresh point without error bars. */
  function AddPoint(s: DataSeries, x: real, y: real): (r: DataSeries)
    ensures r.name == s.name
    ensures |r.points| == |s.points| + 1
    ensures r.points[..|s.points|] == s.points
    ensures r.points[|s.points|].x == x && r.points[|s.points|].y == y
    ensures !HasErrors(r.points[|s.points|])
  {
    AddDataPoint(s, NewDataPoint(x, y))
  }

  /** `TranslatePoints(value)`: `dp.X += value` for every point. */
  function TranslatePoints(s: DataSeries, value: real): (r: DataSeries)
    ensures r.name == s.name
    ensures |r.points| == |s.points|
    ensures forall i :: 0 <= i < |s.points| ==> r.points[i].x == s.points[i].x + value
    ensures forall i :: 0 <= i < |s.points| ==>
              r.points[i].y == s.points[i].y && r.points[i].errorX == s.points[i].errorX && r.points[i].errorY == s.points[i].errorY
  {
    var ps := s.points;
    s.(points := seq(|ps|, i requires 0 <= i < |ps| => ps[i].(x := ps[i].x + value)))
  }

  /** Translating by `d` and then by `-d` gives back the series exactly. */
  lemma TranslateRoundTrip(s: DataSeries, d: real)
    ensures TranslatePoints(TranslatePoints(s, d), -d) == s
  {
    var r := TranslatePoints(TranslatePoints(s, d), -d);
    assert forall i :: 0 <= i < |s.points| ==> r.points[i] == s.points[i];
    assert r.points == s.points;
  }

  /** Translation moves the X range along with the points. */
  lemma TranslateMovesRangeX(s: DataSeries, d: real)
    requires |s.points| > 0
    ensures MinimumX(TranslatePoints(s, d)).value == MinimumX(s).value + d
    ensures MaximumX(TranslatePoints(s, d)).value == MaximumX(s).value + d
  {
    var t := TranslatePoints(s, d);
    var lo, hi := MinimumX(s).value, MaximumX(s).value;
    var i :| 0 <= i < |s.points| && lo == s.points[i].x;
    var j :| 0 <= j < |t.points| && MinimumX(t).value == t.points[j].x;
    assert MinimumX(t).value <= t.points[i].x;
    assert lo <= s.points[j].x;
    var k :| 0 <= k < |s.points| && hi == s.points[k].x;
    var m :| 0 <= m < |t.points| && MaximumX(t).value == t.points[m].x;
    assert t.points[k].x <= MaximumX(t).value;
    assert s.points[m].x <= hi;
  }

  // ---------------------------------------------------------------------
  // Aggregation
  // ---------------------------------------------------------------------

  /** The point that stands for one group: the mean X and Y, with symmetric
      error bars of twice the (library) standard deviation per axis. */
  function Aggregate(g: seq<DataPoint>, stdDev: seq<real> -> real): (p: DataPoint)
    requires |g| > 0
    ensures p.x == MeanX(g) && p.y == MeanY(g)
    ensures p.errorX.negative == p.errorX.positive == Abs(2.0 * stdDev(Xs(g)))
    ensures p.errorY.negative == p.errorY.positive == Abs(2.0 * stdDev(Ys(g)))
    ensures NonNegativeErrors(p)
  {
    SetErrorBars(NewDataPoint(MeanX(g), MeanY(g)), 2.0 * stdDev(Xs(g)), 2.0 * stdDev(Ys(g)))
  }

  /** The `foreach` over the groups: `Average` throws at the first empty group. */
  function AggregateGroups(gs: seq<seq<DataPoint>>, stdDev: seq<real> -> real): (r: Result<seq<DataPoint>>)
    ensures r.Ok? <==> AllNonEmpty(gs)
    ensures r.Fail? ==> r.fault == EmptySequence
    ensures r.Ok? ==> |r.value| == |gs| && forall i :: 0 <= i < |gs| ==> r.value[i] == Aggregate(gs[i], stdDev)
    decreases |gs|
  {
    if |gs| == 0 then Ok([])
    else if |gs[0]| == 0 then Fail(EmptySequence)
    else
      match AggregateGroups(gs[1..], stdDev)
      case Fail(f) =>
        assert !AllNonEmpty(gs[1..]);
        Fail(f)
      case Ok(rest) =>
        assert forall i :: 1 <= i < |gs| ==> gs[i] == gs[1..][i - 1];
        Ok([Aggregate(gs[0], stdDev)] + rest)
  }

  /** `GroupDataPoints(window)`: the points are replaced by one aggregate
      per proximity group. */
  function GroupDataPoints(s: DataSeries, window: real, stdDev: seq<real> -> real): Result<DataSeries> {
    match AggregateGroups(GroupByProximity(s.points, window), stdDev)
    case Fail(f) => Fail(f)
    case Ok(ps) => Ok(s.(points := ps))
  }

  /** Grouping fails exactly on an empty series, where the single empty group
      reaches `Average`. */
  lemma GroupDataPointsFailsIffEmpty(s: DataSeries, window: real, stdDev: seq<real> -> real)
    ensures GroupDataPoints(s, window, stdDev).Fail? <==> |s.points| == 0
  {
    if |s.points| == 0 {
      EmptyInputOneEmptyGroup(window);
    } else {
      GroupsNonEmpty(s.points, window);
    }
  }

  /** On success there is exactly one point per group, at the group's mean,
      carrying symmetric non-negative error bars; the name is kept. */
  lemma GroupDataPointsOnePerGroup(s: DataSeries, window: real, stdDev: seq<real> -> real)
    requires |s.points| > 0
    ensures GroupDataPoints(s, window, stdDev).Ok?
    ensures var r := GroupDataPoints(s, window, stdDev).value;
            var gs := GroupByProximity(s.points, window);
            && r.name == s.name
            && |r.points| == |gs|
            && forall i :: 0 <= i < |gs| ==>
                 && |gs[i]| > 0
                 && r.points[i].x == MeanX(gs[i]) && r.points[i].y == MeanY(gs[i])
                 && r.points[i].errorX.negative == r.points[i].errorX.positive
                 && r.points[i].errorY.negative == r.points[i].errorY.positive
                 && NonNegativeErrors(r.points[i])
  {
    GroupsNonEmpty(s.points, window);
  }

  /** With a non-negative window the aggregated points come out strictly
      increasing in X: each group starts above the previous group's mean,
      and a group's mean is at least its first (smallest) X. */
  lemma GroupDataPointsIncreasing(s: DataSeries, window: real, stdDev: seq<real> -> real)
    requires |s.points| > 0
    requires window >= 0.0
    ensures GroupDataPoints(s, window, stdDev).Ok?
    ensures var r := GroupDataPoints(s, window, stdDev).value;
            forall i, j :: 0 <= i < j < |r.points| ==> r.points[i].x < r.points[j].x
  {
    GroupDataPointsOnePerGroup(s, window, stdDev);
    GroupMeansIncrease(s.points, window);
  }

}
