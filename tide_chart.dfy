/** The tide chart's geometry (components/TideChart.tsx:25-78): the data extents, the
    time-to-x and height-to-y maps onto the 800x120 canvas, the polyline, the axis ticks
    and the "now" marker. Pixel arithmetic is over exact reals. */
module TideChart {
  import opened TidePrediction

  const Width: real := 800.0
  const Height: real := 120.0
  const MarginTop: real := 20.0
  const MarginRight: real := 40.0
  const MarginBottom: real := 20.0
  const MarginLeft: real := 40.0
  const PlotHeight: real := Height - MarginTop - MarginBottom
  const StrokeWidth: real := 3.0
  /** The right edge less one safety pixel. */
  const MaxX: real := Width - MarginRight - 1.0
  /** The right edge less the safety pixel and half the stroke: 757.5. */
  const MaxDrawableX: real := MaxX - StrokeWidth / 2.0
  const TickCount: nat := 5

  datatype Point = Point(x: real, y: real)

  /** The extents: times as found, heights snapped outwards to whole feet. */
  datatype Domain = Domain(minTime: int, maxTime: int, minHeight: int, maxHeight: int)

  /** What the chart draws: the no-data message, or the geometry. */
  datatype ChartModel =
    | NoData
    | Chart(domain: Domain, points: seq<Point>, xTicks: seq<real>, yTicks: seq<int>, nowX: Option<real>)

  /** `Math.min(...times)` */
  function MinTime(data: seq<Pred>): (m: int)
    requires |data| > 0
    ensures forall i :: 0 <= i < |data| ==> m <= data[i].time
    ensures exists i :: 0 <= i < |data| && data[i].time == m
    decreases |data|
  {
    if |data| == 1 then data[0].time
    else
      var rest := MinTime(data[1..]);
      if data[0].time <= rest then data[0].time else rest
  }

  /** `Math.max(...times)` */
  function MaxTime(data: seq<Pred>): (m: int)
    requires |data| > 0
    ensures forall i :: 0 <= i < |data| ==> data[i].time <= m
    ensures exists i :: 0 <= i < |data| && data[i].time == m
    decreases |data|
  {
    if |data| == 1 then data[0].time
    else
      var rest := MaxTime(data[1..]);
      if data[0].time >= rest then data[0].time else rest
  }

  /** `Math.min(...heights)` */
  function LowestHeight(data: seq<Pred>): (m: real)
    requires |data| > 0
    ensures forall i :: 0 <= i < |data| ==> m <= data[i].height
    ensures exists i :: 0 <= i < |data| && data[i].height == m
    decreases |data|
  {
    if |data| == 1 then data[0].height
    else
      var rest := LowestHeight(data[1..]);
      if data[0].height <= rest then data[0].height else rest
  }

  /** `Math.max(...heights)` */
  function HighestHeight(data: seq<Pred>): (m: real)
    requires |data| > 0
    ensures forall i :: 0 <= i < |data| ==> data[i].height <= m
    ensures exists i :: 0 <= i < |data| && data[i].height == m
    decreases |data|
  {
    if |data| == 1 then data[0].height
    else
      var rest := HighestHeight(data[1..]);
      if data[0].height >= rest then data[0].height else rest
  }

  /** `Math.floor`: the greatest integer not above `x`. */
  function Floor(x: real): (n: int)
    ensures n as real <= x < n as real + 1.0
  {
    x.Floor
  }

  /** `Math.ceil`: the least integer not below `x`. */
  function Ceil(x: real): (n: int)
    ensures n as real - 1.0 < x <= n as real
  {
    -((-x).Floor)
  }

  /** The extents of non-empty chart data: every entry lies inside them, the time bounds
      are attained, and the height bounds are the tightest whole feet around the data. */
  function ComputeDomain(data: seq<Pred>): (d: Domain)
    requires |data| > 0
    ensures d.minTime <= d.maxTime && d.minHeight <= d.maxHeight
    ensures forall i :: 0 <= i < |data| ==> d.minTime <= data[i].time <= d.maxTime
    ensures forall i :: 0 <= i < |data| ==>
      d.minHeight as real <= data[i].height <= d.maxHeight as real
    ensures exists i :: 0 <= i < |data| && data[i].time == d.minTime
    ensures exists i :: 0 <= i < |data| && data[i].time == d.maxTime
    ensures exists i :: 0 <= i < |data| && data[i].height < d.minHeight as real + 1.0
    ensures exists i :: 0 <= i < |data| && data[i].height > d.maxHeight as real - 1.0
  {
    Domain(MinTime(data), MaxTime(data), Floor(LowestHeight(data)), Ceil(HighestHeight(data)))
  }

  /** `maxTime - minTime || 1`: the time span, or 1 when the span is zero. */
  function TimeDivisor(d: Domain): (r: int)
    ensures r != 0
    ensures d.maxTime == d.minTime ==> r == 1
    ensures d.maxTime != d.minTime ==> r == d.maxTime - d.minTime
    ensures d.minTime <= d.maxTime ==> r > 0
  {
    if d.maxTime - d.minTime != 0 then d.maxTime - d.minTime else 1
  }

  /** `maxHeight - minHeight || 1`: the height span, or 1 when the span is zero. */
  function HeightDivisor(d: Domain): (r: int)
    ensures r != 0
    ensures d.maxHeight == d.minHeight ==> r == 1
    ensures d.maxHeight != d.minHeight ==> r == d.maxHeight - d.minHeight
    ensures d.minHeight <= d.maxHeight ==> r > 0
  {
    if d.maxHeight - d.minHeight != 0 then d.maxHeight - d.minHeight else 1
  }

  /** Division by a positive real keeps order and maps the divisor itself to 1. */
  lemma DivBounds(a: real, b: real, k: real)
    requires k > 0.0 && a <= b
    ensures a / k <= b / k
    ensures a < b ==> a / k < b / k
    ensures a == k ==> a / k == 1.0
    ensures 0.0 <= a ==> 0.0 <= a / k
    ensures a <= k ==> a / k <= 1.0
  {
    assert (b - a) / k * k == b - a;
    assert a / k * k == a;
    assert (k - a) / k * k == k - a;
    assert k / k == 1.0;
  }

  /** `xScale`: linear from `minTime` at the left margin to `maxTime` at `MaxDrawableX`,
      clamped so that nothing lands right of `MaxDrawableX`. With a zero time span the
      divisor is 1, so one millisecond already reaches the right edge. */
  function XScale(d: Domain, t: real): (x: real)
    ensures x <= MaxDrawableX
    ensures t == d.minTime as real ==> x == MarginLeft
    ensures d.minTime < d.maxTime && t == d.maxTime as real ==> x == MaxDrawableX
    ensures d.minTime <= d.maxTime && d.minTime as real <= t ==> MarginLeft <= x
    ensures d.minTime == d.maxTime && d.minTime as real + 1.0 <= t ==> x == MaxDrawableX
  {
    var k := TimeDivisor(d) as real;
    assert d.minTime < d.maxTime ==> (d.maxTime - d.minTime) as real / k == 1.0 by {
      if d.minTime < d.maxTime { DivBounds(k, k, k); }
    }
    var x := MarginLeft + ((t - d.minTime as real) / k) * (MaxDrawableX - MarginLeft);
    if x <= MaxDrawableX then x else MaxDrawableX
  }

  /** `yScale`: inverted and linear, `minHeight` on the bottom of the plot and `maxHeight`
      on the top margin. With a zero height span the divisor is 1, so one foot above
      `minHeight` reaches the top margin. */
  function YScale(d: Domain, h: real): (y: real)
    ensures h == d.minHeight as real ==> y == MarginTop + PlotHeight
    ensures d.minHeight < d.maxHeight && h == d.maxHeight as real ==> y == MarginTop
    ensures d.minHeight == d.maxHeight && h == d.minHeight as real + 1.0 ==> y == MarginTop
  {
    var k := HeightDivisor(d) as real;
    assert d.minHeight < d.maxHeight ==> (d.maxHeight - d.minHeight) as real / k == 1.0 by {
      if d.minHeight < d.maxHeight { DivBounds(k, k, k); }
    }
    MarginTop + PlotHeight - ((h - d.minHeight as real) / k) * PlotHeight
  }

  /** Later times never map further left. */
  lemma XScaleMonotone(d: Domain, t1: real, t2: real)
    requires d.minTime <= d.maxTime && t1 <= t2
    ensures XScale(d, t1) <= XScale(d, t2)
  {
    var m := d.minTime as real;
    DivBounds(t1 - m, t2 - m, TimeDivisor(d) as real);
  }

  /** Greater heights always map strictly higher (smaller y). */
  lemma YScaleStrictlyDecreasing(d: Domain, h1: real, h2: real)
    requires d.minHeight <= d.maxHeight && h1 < h2
    ensures YScale(d, h1) > YScale(d, h2)
  {
    var m := d.minHeight as real;
    DivBounds(h1 - m, h2 - m, HeightDivisor(d) as real);
  }

  /** Inside the time extents `xScale` is linear: equal steps in time give equal steps
      in x, and the clamp at `MaxDrawableX` never applies. */
  lemma XScaleEqualSteps(d: Domain, t1: real, t2: real, t3: real)
    requires d.minTime < d.maxTime
    requires d.minTime as real <= t1 <= t2 <= t3 <= d.maxTime as real
    requires t2 - t1 == t3 - t2
    ensures XScale(d, t2) - XScale(d, t1) == XScale(d, t3) - XScale(d, t2)
  {
    var m, k := d.minTime as real, TimeDivisor(d) as real;
    DivBounds(t1 - m, k, k);
    DivBounds(t2 - m, k, k);
    DivBounds(t3 - m, k, k);
    assert (t2 - m) / k - (t1 - m) / k == (t2 - t1) / k;
    assert (t3 - m) / k - (t2 - m) / k == (t3 - t2) / k;
  }

  /** `yScale` is linear for every height: equal steps up give equal steps in y. */
  lemma YScaleEqualSteps(d: Domain, h1: real, h2: real, h3: real)
    requires h2 - h1 == h3 - h2
    ensures YScale(d, h1) - YScale(d, h2) == YScale(d, h2) - YScale(d, h3)
  {
    var m, k := d.minHeight as real, HeightDivisor(d) as real;
    assert (h2 - m) / k - (h1 - m) / k == (h2 - h1) / k;
    assert (h3 - m) / k - (h2 - m) / k == (h3 - h2) / k;
  }

  /** A point inside the extents is drawn inside the plot box, never past `MaxDrawableX`. */
  lemma PlotContains(d: Domain, t: real, h: real)
    requires d.minTime as real <= t <= d.maxTime as real
    requires d.minHeight as real <= h <= d.maxHeight as real
    ensures MarginLeft <= XScale(d, t) <= MaxDrawableX
    ensures MarginTop <= YScale(d, h) <= MarginTop + PlotHeight
  {
    var tm, hm := d.minTime as real, d.minHeight as real;
    DivBounds(t - tm, t - tm, TimeDivisor(d) as real);
    if d.minHeight < d.maxHeight {
      DivBounds(h - hm, h - hm, HeightDivisor(d) as real);
    }
  }

  /** The polyline: one point per entry, in the order of the data. */
  function Points(data: seq<Pred>, d: Domain): (ps: seq<Point>)
    ensures |ps| == |data|
    ensures forall i :: 0 <= i < |data| ==>
      ps[i] == Point(XScale(d, data[i].time as real), YScale(d, data[i].height))
  {
    seq(|data|, i requires 0 <= i < |data| =>
      Point(XScale(d, data[i].time as real), YScale(d, data[i].height)))
  }

  /** Five x-ticks from `minTime` to `maxTime` inclusive, equally spaced. */
  function XTicks(d: Domain): (ticks: seq<real>)
    ensures |ticks| == TickCount
    ensures ticks[0] == d.minTime as real && ticks[TickCount - 1] == d.maxTime as real
    ensures forall i :: 0 <= i < TickCount - 1 ==>
      ticks[i + 1] - ticks[i] == (d.maxTime - d.minTime) as real / (TickCount - 1) as real
  {
    seq(TickCount, i =>
      d.minTime as real + ((d.maxTime - d.minTime) as real * i as real) / (TickCount - 1) as real)
  }

  /** Each x-tick lies in the time extents, so its tick mark lands inside the plot. */
  lemma XTicksInsidePlot(d: Domain, i: int)
    requires d.minTime <= d.maxTime && 0 <= i < TickCount
    ensures d.minTime as real <= XTicks(d)[i] <= d.maxTime as real
    ensures MarginLeft <= XScale(d, XTicks(d)[i]) <= MaxDrawableX
  {
    var span := (d.maxTime - d.minTime) as real;
    assert 0.0 <= span * i as real / 4.0 <= span;
  }

  /** Every whole foot from `minHeight` to `maxHeight`, ascending. `Array.from` takes a
      negative length as 0, so an inverted range gives no ticks. */
  function YTicks(d: Domain): (ticks: seq<int>)
    ensures |ticks| == if d.minHeight <= d.maxHeight then d.maxHeight - d.minHeight + 1 else 0
    ensures d.minHeight <= d.maxHeight ==>
      ticks[0] == d.minHeight && ticks[|ticks| - 1] == d.maxHeight
    ensures forall i :: 0 <= i < |ticks| - 1 ==> ticks[i + 1] == ticks[i] + 1
    ensures forall k :: k in ticks <==> d.minHeight <= k <= d.maxHeight
  {
    var n := if d.minHeight <= d.maxHeight then d.maxHeight - d.minHeight + 1 else 0;
    var ticks := seq(n, i => d.minHeight + i);
    RangeListed(d.minHeight, d.maxHeight, ticks);
    ticks
  }

  /** A run of consecutive integers from `lo` to `hi` lists every integer in between. */
  lemma RangeListed(lo: int, hi: int, ticks: seq<int>)
    requires lo <= hi ==> |ticks| == hi - lo + 1
    requires forall i :: 0 <= i < |ticks| ==> ticks[i] == lo + i
    ensures forall k :: lo <= k <= hi ==> k in ticks
  {
    forall k | lo <= k <= hi ensures k in ticks {
      assert ticks[k - lo] == k;
    }
  }

  /** The "now" marker: present exactly when `now` lies in the time extents, and then
      at `xScale(now)`, inside the plot. */
  function NowMarker(d: Domain, now: int): (x: Option<real>)
    ensures x.Some? <==> d.minTime <= now <= d.maxTime
    ensures x.Some? ==> x.value == XScale(d, now as real)
    ensures x.Some? ==> MarginLeft <= x.value <= MaxDrawableX
  {
    if d.minTime <= now && now <= d.maxTime then Some(XScale(d, now as real)) else None
  }

  /** Every point of the polyline of non-empty data lies inside the plot box. */
  lemma PointsInsidePlot(data: seq<Pred>)
    requires |data| > 0
    ensures forall p :: p in Points(data, ComputeDomain(data)) ==>
      MarginLeft <= p.x <= MaxDrawableX && MarginTop <= p.y <= MarginTop + PlotHeight
  {
    var d := ComputeDomain(data);
    var ps := Points(data, d);
    forall p | p in ps
      ensures MarginLeft <= p.x <= MaxDrawableX && MarginTop <= p.y <= MarginTop + PlotHeight
    {
      var i :| 0 <= i < |ps| && ps[i] == p;
      PlotContains(d, data[i].time as real, data[i].height);
    }
  }

  /** The whole chart for `chartData` at wall-clock `now`: the no-data branch exactly for
      empty data; otherwise the entries mapped in order to in-box points, the five x-ticks,
      a y-tick per whole foot, and a "now" marker exactly when `now` lies in the time
      extents. */
  function RenderChart(chartData: seq<Pred>, now: int): (m: ChartModel)
    ensures m.NoData? <==> chartData == []
    ensures m.Chart? ==> m.domain == ComputeDomain(chartData)
    ensures m.Chart? ==>
      && |m.points| == |chartData| && |m.xTicks| == TickCount
      && |m.yTicks| == m.domain.maxHeight - m.domain.minHeight + 1
    ensures m.Chart? ==> forall p :: p in m.points ==>
      MarginLeft <= p.x <= MaxDrawableX && MarginTop <= p.y <= MarginTop + PlotHeight
    ensures m.Chart? ==> (m.nowX.Some? <==> m.domain.minTime <= now <= m.domain.maxTime)
    ensures m.Chart? ==>
      && m.points == Points(chartData, m.domain)
      && m.xTicks == XTicks(m.domain) && m.yTicks == YTicks(m.domain)
      && m.nowX == NowMarker(m.domain, now)
  {
    if |chartData| == 0 then NoData
    else
      var d := ComputeDomain(chartData);
      PointsInsidePlot(chartData);
      Chart(d, Points(chartData, d), XTicks(d), YTicks(d), NowMarker(d, now))
  }
}
