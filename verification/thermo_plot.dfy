/** The axis logic of ThermoPlot.cs: the `Axis` record with its visibility
    predicates and mirror image on the opposite side, the tick settings, and
    `ThermoPlot.GetAxes`, which lays out the axes of a plot and makes up a
    horizontal and a vertical axis from the data when none is configured.
    The conversion to the plotting library's objects is not modelled. */
module Plotting {
  import E = Errors
  import opened Numerics
  import Points
  import S = Series

  /** The plotting library's `AxisPosition`. */
  datatype AxisPosition = None | Left | Right | Top | Bottom

  /** The plotting library's `TickStyle`; its first value is the default. */
  datatype TickStyle = Crossing | Inside | Outside | None

  /** `AxisTickInfo`. The `NaN` defaults of the step and the anchor are
      represented by `E.None`. */
  datatype AxisTickInfo = AxisTickInfo(
    stepSize: E.Option<real>,
    tickAnchor: E.Option<real>,
    showExtremes: bool,
    style: TickStyle,
    isVisible: bool)

  /** `new AxisTickInfo()`. */
  const DefaultTickInfo := AxisTickInfo(E.None, E.None, false, Crossing, true)

  /** `ShowInside` (get): the ticks are drawn inside. */
  predicate ShowInside(t: AxisTickInfo) {
    t.style == Inside
  }

  /** `ShowInside` (set): inside, or else outside. */
  function SetShowInside(t: AxisTickInfo, v: bool): (r: AxisTickInfo)
    ensures r.style == (if v then Inside else Outside)
    ensures r.(style := t.style) == t
  {
    t.(style := if v then Inside else Outside)
  }

  /** Reading `ShowInside` returns what was last written; writing back what
      was read keeps the style unless the style was `Crossing`, which a
      write of `false` turns into `Outside`. */
  lemma ShowInsideSetGet(t: AxisTickInfo, v: bool)
    ensures ShowInside(SetShowInside(t, v)) == v
    ensures SetShowInside(t, ShowInside(t)) == t <==> t.style != Crossing && t.style != TickStyle.None
  {
  }

  /** `UseCustomTickValues`: an anchor has been set. */
  predicate UseCustomTickValues(t: AxisTickInfo) {
    t.tickAnchor.Some?
  }

  /** `GetCustomTickValues(min, max)`: always the empty array. */
  function GetCustomTickValues(t: AxisTickInfo, min: real, max: real): (r: seq<real>)
    ensures |r| == 0
  {
    []
  }

  // ---------------------------------------------------------------------
  // Axis
  // ---------------------------------------------------------------------

  /** `Axis`. `Legend` and `Unit` are strings that may be null; the tick
      options are references that may be null. */
  datatype Axis = Axis(
    legend: E.Option<string>,
    unit: E.Option<string>,
    minimum: real,
    maximum: real,
    position: AxisPosition,
    showOnOppositeSide: bool,
    opposingSideMinimal: bool,
    isVisible: bool,
    showLegend: bool,
    showUnit: bool,
    majorTickOptions: E.Option<AxisTickInfo>,
    minorTickOptions: E.Option<AxisTickInfo>)

  /** `new Axis()`: empty legend and unit, range 0 to 100, on the left,
      not mirrored, minimal when mirrored, visible, showing legend and unit,
      no tick options. */
  const DefaultAxis := Axis(E.Some(""), E.Some(""), 0.0, 100.0, Left, false, true, true, true, true, E.None, E.None)

  /** `string.IsNullOrEmpty`. */
  predicate NullOrEmpty(s: E.Option<string>) {
    s.None? || s.value == ""
  }

  /** `GetShowLegend()`: the legend is shown and there is one to show. */
  predicate GetShowLegend(a: Axis) {
    a.showLegend && !NullOrEmpty(a.legend)
  }

  /** `GetShowUnit()`: the unit is shown and there is one to show. */
  predicate GetShowUnit(a: Axis) {
    a.showUnit && !NullOrEmpty(a.unit)
  }

  predicate IsHorizontal(a: Axis) {
    a.position == Bottom || a.position == Top
  }

  predicate IsVertical(a: Axis) {
    a.position == Left || a.position == Right
  }

  /** An axis is never both horizontal and vertical; it is one of the two
      exactly when it has a position; the default axis is vertical and
      shows neither legend nor unit, both being empty. */
  lemma OrientationExclusive(a: Axis)
    ensures !(IsHorizontal(a) && IsVertical(a))
    ensures IsHorizontal(a) || IsVertical(a) <==> a.position != AxisPosition.None
    ensures IsVertical(DefaultAxis) && !GetShowLegend(DefaultAxis) && !GetShowUnit(DefaultAxis)
  {
  }

  /** The side opposite a position; an axis without a position goes on top. */
  function OppositeSide(p: AxisPosition): (q: AxisPosition)
    ensures q != AxisPosition.None
    ensures p != AxisPosition.None ==> q != p
  {
    match p
    case Bottom => Top
    case Left => Right
    case Right => Left
    case Top => Bottom
    case None => Top
  }

  /** `GetOpposingAxis()`: a new axis with the range, legend, unit,
      visibility and both tick options copied, the legend and unit switched
      off when the original is minimal on its opposite side, placed on the
      opposite side; everything else is the new axis's default. */
  function GetOpposingAxis(a: Axis): (r: Axis)
    ensures r.minimum == a.minimum && r.maximum == a.maximum
    ensures r.legend == a.legend && r.unit == a.unit
    ensures r.isVisible == a.isVisible
    ensures r.majorTickOptions == a.majorTickOptions && r.minorTickOptions == a.minorTickOptions
    ensures r.showLegend == (a.showLegend && !a.opposingSideMinimal)
    ensures r.showUnit == (a.showUnit && !a.opposingSideMinimal)
    ensures r.position == OppositeSide(a.position)
    ensures !r.showOnOppositeSide && r.opposingSideMinimal
  {
    var copy := DefaultAxis.(minimum := a.minimum, maximum := a.maximum, legend := a.legend, unit := a.unit,
                             isVisible := a.isVisible, showLegend := a.showLegend, showUnit := a.showUnit,
                             majorTickOptions := a.majorTickOptions, minorTickOptions := a.minorTickOptions);
    var shown := if a.opposingSideMinimal then copy.(showLegend := false, showUnit := false) else copy;
    shown.(position := OppositeSide(a.position))
  }

  /** The mirror image keeps the orientation, and an axis without a
      position becomes horizontal. */
  lemma OpposingKeepsOrientation(a: Axis)
    ensures IsHorizontal(GetOpposingAxis(a)) <==> IsHorizontal(a) || a.position == AxisPosition.None
    ensures IsVertical(GetOpposingAxis(a)) <==> IsVertical(a)
  {
  }

  /** Mirroring twice puts an axis with a position back on its side, and an
      axis without a position at the bottom. */
  lemma OpposingTwice(a: Axis)
    ensures a.position != AxisPosition.None ==> GetOpposingAxis(GetOpposingAxis(a)).position == a.position
    ensures a.position == AxisPosition.None ==> GetOpposingAxis(GetOpposingAxis(a)).position == Bottom
  {
  }

  /** The mirror image shows the legend (the unit) exactly when the original
      does and is not minimal on its opposite side; the mirror of a mirror
      shows neither. */
  lemma OpposingLabels(a: Axis)
    ensures GetShowLegend(GetOpposingAxis(a)) <==> GetShowLegend(a) && !a.opposingSideMinimal
    ensures GetShowUnit(GetOpposingAxis(a)) <==> GetShowUnit(a) && !a.opposingSideMinimal
    ensures !GetShowLegend(GetOpposingAxis(GetOpposingAxis(a)))
    ensures !GetShowUnit(GetOpposingAxis(GetOpposingAxis(a)))
  {
  }

  // ---------------------------------------------------------------------
  // Laying out the axes
  // ---------------------------------------------------------------------

  /** The `Where` of `GetAxes`: every axis, or only the visible ones. */
  function VisibleAxes(axes: seq<Axis>, onlyVisible: bool): (r: seq<Axis>)
    ensures |r| <= |axes|
    decreases |axes|
  {
    if |axes| == 0 then []
    else if !onlyVisible || axes[0].isVisible then [axes[0]] + VisibleAxes(axes[1..], onlyVisible)
    else VisibleAxes(axes[1..], onlyVisible)
  }

  /** Without the visibility flag nothing is dropped; with it, exactly the
      visible axes remain, none added. */
  lemma {:induction false} VisibleAxesFilter(axes: seq<Axis>, onlyVisible: bool)
    ensures !onlyVisible ==> VisibleAxes(axes, onlyVisible) == axes
    ensures forall a :: a in VisibleAxes(axes, onlyVisible) <==> a in axes && (!onlyVisible || a.isVisible)
    decreases |axes|
  {
    if |axes| > 0 {
      VisibleAxesFilter(axes[1..], onlyVisible);
      assert axes == [axes[0]] + axes[1..];
    }
  }

  /** How many of the axes are mirrored. */
  function CountMirrored(axes: seq<Axis>): nat
    decreases |axes|
  {
    if |axes| == 0 then 0 else (if axes[0].showOnOppositeSide then 1 else 0) + CountMirrored(axes[1..])
  }

  /** The `foreach` of `GetAxes`: each axis, followed by its mirror image
      when it is shown on the opposite side too. */
  function Expand(axes: seq<Axis>): (r: seq<Axis>)
    ensures |r| == |axes| + CountMirrored(axes)
    decreases |axes|
  {
    if |axes| == 0 then []
    else [axes[0]] + (if axes[0].showOnOppositeSide then [GetOpposingAxis(axes[0])] else []) + Expand(axes[1..])
  }

  /** Where axis `i` lands in the expanded list. */
  function Slot(axes: seq<Axis>, i: int): int
    requires 0 <= i <= |axes|
  {
    i + CountMirrored(axes[..i])
  }

  lemma {:induction false} CountMirroredPrefix(axes: seq<Axis>, i: int)
    requires 0 < i <= |axes|
    ensures CountMirrored(axes[..i]) == (if axes[0].showOnOppositeSide then 1 else 0) + CountMirrored(axes[1..][..i - 1])
  {
    assert axes[..i][1..] == axes[1..][..i - 1];
  }

  /** Axis `i` keeps its order: it sits at its slot, its mirror image (if
      any) right after it, and the slots of later axes follow. */
  lemma {:induction false} ExpandSlots(axes: seq<Axis>, i: int)
    requires 0 <= i < |axes|
    ensures Slot(axes, i) < |Expand(axes)|
    ensures Expand(axes)[Slot(axes, i)] == axes[i]
    ensures axes[i].showOnOppositeSide ==>
              Slot(axes, i) + 1 < |Expand(axes)| && Expand(axes)[Slot(axes, i) + 1] == GetOpposingAxis(axes[i])
    ensures Slot(axes, i + 1) == Slot(axes, i) + (if axes[i].showOnOppositeSide then 2 else 1)
    decreases |axes|
  {
    var head := [axes[0]] + (if axes[0].showOnOppositeSide then [GetOpposingAxis(axes[0])] else []);
    assert Expand(axes) == head + Expand(axes[1..]);
    assert axes[..i + 1][..i] == axes[..i];
    if i == 0 {
      assert axes[..0] == [];
      assert axes[..1][1..] == [];
      assert CountMirrored(axes[..1]) == (if axes[0].showOnOppositeSide then 1 else 0) + CountMirrored(axes[..1][1..]);
    } else {
      ExpandSlots(axes[1..], i - 1);
      CountMirroredPrefix(axes, i);
      CountMirroredPrefix(axes, i + 1);
    }
  }

  /** Every axis of the expanded list is one of the axes or the mirror
      image of one that is shown on the opposite side. */
  lemma {:induction false} ExpandMembers(axes: seq<Axis>)
    ensures forall b :: b in Expand(axes) ==>
              b in axes || exists a :: a in axes && a.showOnOppositeSide && b == GetOpposingAxis(a)
    decreases |axes|
  {
    if |axes| > 0 {
      ExpandMembers(axes[1..]);
      forall b | b in Expand(axes)
        ensures b in axes || exists a :: a in axes && a.showOnOppositeSide && b == GetOpposingAxis(a)
      {
        if b in Expand(axes[1..]) {
          if b !in axes[1..] {
            var a :| a in axes[1..] && a.showOnOppositeSide && b == GetOpposingAxis(a);
            assert a in axes;
          }
        } else if b != axes[0] {
          assert axes[0] in axes;
        }
      }
    }
  }

  // ---------------------------------------------------------------------
  // The range of the data
  // ---------------------------------------------------------------------

  /** A point's coordinate along a horizontal (X) or vertical (Y) axis. */
  function Coordinate(p: Points.DataPoint, horizontal: bool): real {
    if horizontal then p.x else p.y
  }

  /** There is at least one series and every series has points: what the
      range of the data needs. */
  predicate HasData(series: seq<S.DataSeries>) {
    |series| > 0 && forall i :: 0 <= i < |series| ==> |series[i].points| > 0
  }

  /** A series' `MinimumX` or `MinimumY`: the least coordinate along the axis. */
  function SeriesLow(s: S.DataSeries, horizontal: bool): (r: real)
    requires |s.points| > 0
    ensures forall j :: 0 <= j < |s.points| ==> r <= Coordinate(s.points[j], horizontal)
    ensures exists j :: 0 <= j < |s.points| && r == Coordinate(s.points[j], horizontal)
  {
    if horizontal then S.MinimumX(s).value else S.MinimumY(s).value
  }

  /** A series' `MaximumX` or `MaximumY`: the greatest coordinate along the axis. */
  function SeriesHigh(s: S.DataSeries, horizontal: bool): (r: real)
    requires |s.points| > 0
    ensures forall j :: 0 <= j < |s.points| ==> Coordinate(s.points[j], horizontal) <= r
    ensures exists j :: 0 <= j < |s.points| && r == Coordinate(s.points[j], horizontal)
  {
    if horizontal then S.MaximumX(s).value else S.MaximumY(s).value
  }

  /** The per-series minima, one per series. */
  function Lows(series: seq<S.DataSeries>, horizontal: bool): (r: seq<real>)
    requires HasData(series)
    ensures |r| == |series|
  {
    seq(|series|, i requires 0 <= i < |series| => SeriesLow(series[i], horizontal))
  }

  /** The per-series maxima, one per series. */
  function Highs(series: seq<S.DataSeries>, horizontal: bool): (r: seq<real>)
    requires HasData(series)
    ensures |r| == |series|
  {
    seq(|series|, i requires 0 <= i < |series| => SeriesHigh(series[i], horizontal))
  }

  /** `DataSeries.Min(ds => ds.MinimumX)` and `DataSeries.Max(ds =>
      ds.MaximumX)` (or the Y variants): both throw on an empty list of
      series, and the per-series extremes throw on an empty series. */
  function DataRange(series: seq<S.DataSeries>, horizontal: bool): (r: E.Result<(real, real)>)
    ensures r.Fail? <==> !HasData(series)
    ensures r.Fail? ==> r.fault == E.EmptySequence
  {
    if !HasData(series) then E.Fail(E.EmptySequence)
    else E.Ok((MinOf(Lows(series, horizontal)), MaxOf(Highs(series, horizontal))))
  }

  /** When the range exists it bounds every point of every series. */
  lemma DataRangeBounds(series: seq<S.DataSeries>, horizontal: bool)
    requires DataRange(series, horizontal).Ok?
    ensures forall i, j :: 0 <= i < |series| && 0 <= j < |series[i].points| ==>
              DataRange(series, horizontal).value.0 <= Coordinate(series[i].points[j], horizontal) <= DataRange(series, horizontal).value.1
  {
    var lows, highs := Lows(series, horizontal), Highs(series, horizontal);
    var lo, hi := MinOf(lows), MaxOf(highs);
    forall i, j | 0 <= i < |series| && 0 <= j < |series[i].points|
      ensures lo <= Coordinate(series[i].points[j], horizontal) <= hi
    {
      assert lo <= lows[i] && highs[i] <= hi;
    }
  }

  /** Both ends of the range are the coordinate of some point. */
  lemma DataRangeAttained(series: seq<S.DataSeries>, horizontal: bool)
    requires DataRange(series, horizontal).Ok?
    ensures exists i, j :: 0 <= i < |series| && 0 <= j < |series[i].points| &&
              DataRange(series, horizontal).value.0 == Coordinate(series[i].points[j], horizontal)
    ensures exists i, j :: 0 <= i < |series| && 0 <= j < |series[i].points| &&
              DataRange(series, horizontal).value.1 == Coordinate(series[i].points[j], horizontal)
  {
    var lows, highs := Lows(series, horizontal), Highs(series, horizontal);
    var i :| 0 <= i < |lows| && MinOf(lows) == lows[i];
    var j :| 0 <= j < |series[i].points| && lows[i] == Coordinate(series[i].points[j], horizontal);
    var k :| 0 <= k < |highs| && MaxOf(highs) == highs[k];
    var l :| 0 <= l < |series[k].points| && highs[k] == Coordinate(series[k].points[l], horizontal);
  }

  // ---------------------------------------------------------------------
  // GetAxes
  // ---------------------------------------------------------------------

  /** `ThermoPlot`: its series and its configured axes. */
  datatype ThermoPlot = ThermoPlot(series: seq<S.DataSeries>, axes: seq<Axis>)

  /** `new ThermoPlot()`: no series, no axes. */
  const NewPlot := ThermoPlot([], [])

  predicate HasHorizontal(axes: seq<Axis>) {
    exists i :: 0 <= i < |axes| && IsHorizontal(axes[i])
  }

  predicate HasVertical(axes: seq<Axis>) {
    exists i :: 0 <= i < |axes| && IsVertical(axes[i])
  }

  /** The axes `GetAxes` lays out before making up missing ones. */
  function LaidOut(plot: ThermoPlot, onlyVisible: bool): seq<Axis> {
    Expand(VisibleAxes(plot.axes, onlyVisible))
  }

  /** A new axis spanning `range` at `position`, all else default. */
  function RangeAxis(range: (real, real), position: AxisPosition): (a: Axis)
    ensures a.position == position && a.minimum == range.0 && a.maximum == range.1
    ensures a.(minimum := 0.0, maximum := 100.0, position := Left) == DefaultAxis
  {
    DefaultAxis.(minimum := range.0, maximum := range.1, position := position)
  }

  /** One of the two `if` blocks of `GetAxes`: when `needed`, appends an
      axis at `position` over the data range along that axis's direction,
      which throws when there is no data to take the range from. */
  function AddMissing(axes: seq<Axis>, needed: bool, series: seq<S.DataSeries>, position: AxisPosition): (r: E.Result<seq<Axis>>)
    ensures r.Fail? <==> needed && !HasData(series)
    ensures !needed ==> r == E.Ok(axes)
    ensures r.Ok? && needed ==> |r.value| == |axes| + 1 && r.value[..|axes|] == axes
    ensures r.Ok? && needed ==>
              var a := r.value[|axes|];
              && a.position == position
              && (a.minimum, a.maximum) == DataRange(series, position == Bottom || position == Top).value
  {
    if !needed then E.Ok(axes)
    else
      match DataRange(series, position == Bottom || position == Top)
      case Fail(f) => E.Fail(f)
      case Ok(range) => E.Ok(axes + [RangeAxis(range, position)])
  }

  /** Appending an axis keeps the orientations already present and adds its
      own. */
  lemma AppendOrientation(axes: seq<Axis>, a: Axis)
    ensures HasHorizontal(axes + [a]) <==> HasHorizontal(axes) || IsHorizontal(a)
    ensures HasVertical(axes + [a]) <==> HasVertical(axes) || IsVertical(a)
  {
    var longer := axes + [a];
    if HasHorizontal(axes) {
      var i :| 0 <= i < |axes| && IsHorizontal(axes[i]);
      assert longer[i] == axes[i];
    }
    if HasVertical(axes) {
      var i :| 0 <= i < |axes| && IsVertical(axes[i]);
      assert longer[i] == axes[i];
    }
    assert longer[|axes|] == a;
  }

  /** `GetAxes(onlyvisible)`: the laid-out axes, then a bottom axis over the
      X range when none is horizontal, then a left axis over the Y range
      when none is vertical. */
  function GetAxes(plot: ThermoPlot, onlyVisible: bool): (r: E.Result<seq<Axis>>)
  {
    var base := LaidOut(plot, onlyVisible);
    match AddMissing(base, !HasHorizontal(base), plot.series, Bottom)
    case Fail(f) => E.Fail(f)
    case Ok(withH) => AddMissing(withH, !HasVertical(withH), plot.series, Left)
  }

  /** One `if` block keeps the axes before it, adds at most one, and adds
      the orientation of `position` exactly when it was needed. */
  lemma AddMissingOutcome(axes: seq<Axis>, needed: bool, series: seq<S.DataSeries>, position: AxisPosition)
    ensures var r := AddMissing(axes, needed, series, position);
            r.Ok? ==>
              && |axes| <= |r.value| <= |axes| + 1
              && r.value[..|axes|] == axes
              && (HasHorizontal(r.value) <==> HasHorizontal(axes) || (needed && (position == Bottom || position == Top)))
              && (HasVertical(r.value) <==> HasVertical(axes) || (needed && (position == Left || position == Right)))
  {
    var r := AddMissing(axes, needed, series, position);
    if r.Ok? && needed {
      var a := r.value[|axes|];
      assert r.value == axes + [a];
      AppendOrientation(axes, a);
    }
  }

  /** Laying out fails exactly when an orientation is missing and there is
      no data to make it up from; otherwise the result has both
      orientations, starts with the laid-out axes and adds at most two, and
      adds none when both orientations are already there. */
  lemma GetAxesOutcome(plot: ThermoPlot, onlyVisible: bool)
    ensures var base := LaidOut(plot, onlyVisible);
            GetAxes(plot, onlyVisible).Fail? <==>
              (!HasHorizontal(base) || !HasVertical(base)) && !HasData(plot.series)
    ensures var base := LaidOut(plot, onlyVisible);
            var r := GetAxes(plot, onlyVisible);
            r.Ok? ==>
              && HasHorizontal(r.value) && HasVertical(r.value)
              && |base| <= |r.value| <= |base| + 2
              && r.value[..|base|] == base
              && (HasHorizontal(base) && HasVertical(base) ==> r.value == base)
  {
    var base := LaidOut(plot, onlyVisible);
    var h := AddMissing(base, !HasHorizontal(base), plot.series, Bottom);
    AddMissingOutcome(base, !HasHorizontal(base), plot.series, Bottom);
    if h.Ok? {
      var withH := h.value;
      var v := AddMissing(withH, !HasVertical(withH), plot.series, Left);
      AddMissingOutcome(withH, !HasVertical(withH), plot.series, Left);
      if v.Ok? {
        assert v.value[..|base|] == v.value[..|withH|][..|base|];
      }
    }
  }

  /** With data to take ranges from, laying out succeeds, and a made-up
      horizontal axis comes right after the laid-out axes, sits at the
      bottom and spans the X values of all the data. */
  lemma MissingHorizontalAxis(plot: ThermoPlot, onlyVisible: bool)
    requires HasData(plot.series)
    ensures GetAxes(plot, onlyVisible).Ok?
    ensures var base := LaidOut(plot, onlyVisible);
            var r := GetAxes(plot, onlyVisible).value;
            !HasHorizontal(base) ==>
              && |base| < |r|
              && r[|base|].position == Bottom
              && (forall i, j :: 0 <= i < |plot.series| && 0 <= j < |plot.series[i].points| ==>
                    r[|base|].minimum <= plot.series[i].points[j].x <= r[|base|].maximum)
  {
    GetAxesOutcome(plot, onlyVisible);
    var base := LaidOut(plot, onlyVisible);
    if !HasHorizontal(base) {
      var withH := AddMissing(base, true, plot.series, Bottom).value;
      var r := GetAxes(plot, onlyVisible).value;
      DataRangeBounds(plot.series, true);
      assert r[..|withH|] == withH;
      assert r[|base|] == withH[|base|];
    }
  }

  /** With data to take ranges from, laying out succeeds, and a made-up
      vertical axis is the last one, sits on the left and spans the Y
      values of all the data. */
  lemma MissingVerticalAxis(plot: ThermoPlot, onlyVisible: bool)
    requires HasData(plot.series)
    ensures GetAxes(plot, onlyVisible).Ok?
    ensures var r := GetAxes(plot, onlyVisible).value;
            !HasVertical(LaidOut(plot, onlyVisible)) ==>
              && |r| > 0
              && r[|r| - 1].position == Left
              && (forall i, j :: 0 <= i < |plot.series| && 0 <= j < |plot.series[i].points| ==>
                    r[|r| - 1].minimum <= plot.series[i].points[j].y <= r[|r| - 1].maximum)
  {
    GetAxesOutcome(plot, onlyVisible);
    var base := LaidOut(plot, onlyVisible);
    if !HasVertical(base) {
      var withH := AddMissing(base, !HasHorizontal(base), plot.series, Bottom).value;
      if !HasHorizontal(base) {
        AppendOrientation(base, withH[|base|]);
        assert withH == base + [withH[|base|]];
      }
      DataRangeBounds(plot.series, false);
    }
  }

  /** A new plot has nothing to take a range from, so laying out its axes
      fails. */
  lemma NewPlotHasNoAxes(onlyVisible: bool)
    ensures GetAxes(NewPlot, onlyVisible) == E.Fail(E.EmptySequence)
  {
    assert LaidOut(NewPlot, onlyVisible) == [];
  }
}
