/** The geometry of one trend chart: a series of rates (bits per second)
    and a drawing box become integer axis labels, two axis lines, one pixel
    point per value and the line segments joining consecutive points. The
    text and line drawing calls themselves are not modelled, only the
    coordinates they are given. */
module Chart {
  import opened Rounding
  import opened Pairs

  datatype Point = Point(x: int, y: int)

  type Line = (Point, Point)

  /** What a chart draws: the two axis labels (values and anchors), the
      vertical and horizontal axis, the points and the segments between them. */
  datatype Geometry = Geometry(
    minLabel: int, maxLabel: int,
    minLabelAt: Point, maxLabelAt: Point,
    yAxis: Line, xAxis: Line,
    points: seq<Point>, segments: seq<Line>)

  /** A series shorter than two values draws nothing; a series whose labels
      coincide makes the vertical scaling divide by zero. */
  datatype Projection = NothingToDraw | ZeroDivisionError | Drawn(geometry: Geometry)

  /** The series in megabits per second: each value within half a
      hundredth of its rate divided by one million, a whole number of
      hundredths, and the even one of the two when the rate lies exactly
      halfway between them. */
  function Converted(values: seq<real>): (c: seq<real>)
    ensures |c| == |values|
    ensures forall i :: 0 <= i < |values| ==>
      && values[i] / 1000000.0 - 0.005 <= c[i] <= values[i] / 1000000.0 + 0.005
      && (c[i] * 100.0).Floor as real == c[i] * 100.0
      && (values[i] / 10000.0 - c[i] * 100.0 == 0.5 || c[i] * 100.0 - values[i] / 10000.0 == 0.5 ==>
            (c[i] * 100.0).Floor % 2 == 0)
  {
    seq(|values|, i requires 0 <= i < |values| => ToMbps(values[i]))
  }

  /** The smallest element of a nonempty series (Python's `min`). */
  function Min(s: seq<real>): (m: real)
    requires s != []
    ensures m in s
    ensures forall i :: 0 <= i < |s| ==> m <= s[i]
  {
    if |s| == 1 then s[0]
    else
      var rest := Min(s[1..]);
      if s[0] <= rest then s[0] else rest
  }

  /** The largest element of a nonempty series (Python's `max`). */
  function Max(s: seq<real>): (m: real)
    requires s != []
    ensures m in s
    ensures forall i :: 0 <= i < |s| ==> s[i] <= m
  {
    if |s| == 1 then s[0]
    else
      var rest := Max(s[1..]);
      if rest <= s[0] then s[0] else rest
  }

  /** The lower axis label: the floor of the smallest converted value, that
      is, the greatest integer not above any converted value. */
  function LowLabel(values: seq<real>): (lo: int)
    requires values != []
    ensures forall i :: 0 <= i < |values| ==> lo as real <= ToMbps(values[i])
    ensures exists i :: 0 <= i < |values| && ToMbps(values[i]) < lo as real + 1.0
  {
    var c := Converted(values);
    assert forall i :: 0 <= i < |values| ==> c[i] == ToMbps(values[i]);
    Min(c).Floor
  }

  /** The upper axis label: the ceiling of the largest converted value, that
      is, the least integer not below any converted value. */
  function HighLabel(values: seq<real>): (hi: int)
    requires values != []
    ensures forall i :: 0 <= i < |values| ==> ToMbps(values[i]) <= hi as real
    ensures exists i :: 0 <= i < |values| && hi as real - 1.0 < ToMbps(values[i])
  {
    var c := Converted(values);
    assert forall i :: 0 <= i < |values| ==> c[i] == ToMbps(values[i]);
    Ceil(Max(c))
  }

  /** The labels are whole numbers enclosing every converted value. */
  lemma LabelsEnclose(values: seq<real>)
    requires values != []
    ensures LowLabel(values) <= HighLabel(values)
    ensures forall i :: 0 <= i < |values| ==>
      LowLabel(values) as real <= ToMbps(values[i]) <= HighLabel(values) as real
  {
    var c := Converted(values);
    forall i | 0 <= i < |values|
      ensures LowLabel(values) as real <= ToMbps(values[i]) <= HighLabel(values) as real
    {
      assert c[i] == ToMbps(values[i]);
    }
  }

  /** The labels coincide, and the scaling divides by zero, exactly when
      every converted value is one and the same whole number. */
  lemma LabelsCoincide(values: seq<real>)
    requires values != []
    ensures LowLabel(values) == HighLabel(values) <==>
      forall i :: 0 <= i < |values| ==> ToMbps(values[i]) == LowLabel(values) as real
  {
    var c := Converted(values);
    LabelsEnclose(values);
    if forall i :: 0 <= i < |values| ==> ToMbps(values[i]) == LowLabel(values) as real {
      var k := Max(c);
      var j :| 0 <= j < |c| && c[j] == k;
      assert ToMbps(values[j]) == k;
    }
  }

  /** Whole megabit rates keep their value: 1, 2 and 3 Mbit/s are labelled
      from 1 to 3. */
  lemma WholeRatesLabels()
    ensures Converted([1000000.0, 2000000.0, 3000000.0]) == [1.0, 2.0, 3.0]
    ensures LowLabel([1000000.0, 2000000.0, 3000000.0]) == 1
    ensures HighLabel([1000000.0, 2000000.0, 3000000.0]) == 3
  {
    ToMbpsWhole(1);
    ToMbpsWhole(2);
    ToMbpsWhole(3);
    var c := Converted([1000000.0, 2000000.0, 3000000.0]);
    assert c == [1.0, 2.0, 3.0];
    assert Min(c[2..]) == 3.0;
    assert Max(c[2..]) == 3.0;
  }

  /** Two readings of the same whole rate make both labels equal: the
      scaling would divide by zero. */
  lemma FlatWholeSeriesCoincides(k: int)
    ensures LowLabel([k as real * 1000000.0, k as real * 1000000.0]) == k
    ensures HighLabel([k as real * 1000000.0, k as real * 1000000.0]) == k
  {
    ToMbpsWhole(k);
    var c := Converted([k as real * 1000000.0, k as real * 1000000.0]);
    assert c == [k as real, k as real];
    assert Min(c[1..]) == k as real;
    assert Max(c[1..]) == k as real;
  }

  /** A strictly faster reading can be drawn at the same height: the
      conversion to two decimals already merges 1000000 and 1000001 bit/s. */
  lemma FasterNotAlwaysHigher()
    ensures 1000000.0 < 1000001.0 && ToMbps(1000000.0) == ToMbps(1000001.0) == 1.0
  {
    RoundHalfEvenUnique(100.0, 100);
    RoundHalfEvenUnique(100.0001, 100);
  }

  /** The exact horizontal position of the `i`-th of `n` points: the width
      from `x0` to `endX` is cut into `n` equal steps (`offset_x` in the
      source), so index 0 is at `x0` and index `n` would be at `endX`. */
  function XPos(x0: int, endX: int, n: nat, i: nat): (x: real)
    requires n > 0
    ensures i == 0 ==> x == x0 as real
    ensures i == n ==> x == endX as real
  {
    StepsSpan((endX - x0) as real, n as real);
    x0 as real + i as real * ((endX - x0) as real / n as real)
  }

  /** The pixel column of the `i`-th of `n` points: the exact position
      rounded half to even. */
  function XAt(x0: int, endX: int, n: nat, i: nat): (x: int)
    requires n > 0
    ensures i == 0 ==> x == x0
    ensures i == n ==> x == endX
  {
    RoundHalfEven(XPos(x0, endX, n, i))
  }

  /** How far above the baseline the value `v` sits, before rounding to a
      pixel: `height` scaled by where `v` lies between the two labels. */
  function Lift(height: int, minv: int, maxv: int, v: real): (lift: real)
    requires maxv != minv
    ensures v == minv as real ==> lift == 0.0
    ensures v == maxv as real ==> lift == height as real
  {
    var d := (maxv - minv) as real;
    assert maxv as real - minv as real == d;
    MulDivCancel(height as real, d);
    height as real * (v - minv as real) / d
  }

  /** The pixel row of the value `v`: the baseline `y0` minus the rounded
      lift, so the lower label sits on `y0` and the upper one `height`
      pixels above it. */
  function YAt(y0: int, height: int, minv: int, maxv: int, v: real): (y: int)
    requires maxv != minv
    ensures v == minv as real ==> y == y0
    ensures v == maxv as real ==> y == y0 - height
  {
    y0 - RoundHalfEven(Lift(height, minv, maxv, v))
  }

  /** The first point sits on the left edge of the plotting area. */
  lemma XAtFirst(x0: int, endX: int, n: nat)
    requires n > 0
    ensures XAt(x0, endX, n, 0) == x0
  {
    assert XPos(x0, endX, n, 0) == x0 as real;
    RoundHalfEvenOfInt(x0);
  }

  lemma XPosOrdered(x0: int, endX: int, n: nat, i: nat, j: nat)
    requires n > 0 && x0 <= endX && i <= j <= n
    ensures x0 as real <= XPos(x0, endX, n, i) <= XPos(x0, endX, n, j) <= endX as real
  {
    AffineOrdered(x0 as real, (endX - x0) as real, n as real, i as real, j as real);
  }

  /** Points are spaced left to right and stay within the box. */
  lemma XAtOrdered(x0: int, endX: int, n: nat, i: nat, j: nat)
    requires n > 0 && x0 <= endX && i <= j <= n
    ensures x0 <= XAt(x0, endX, n, i) <= XAt(x0, endX, n, j) <= endX
  {
    XPosOrdered(x0, endX, n, i, j);
    RoundedOrdered(x0, endX, XPos(x0, endX, n, i), XPos(x0, endX, n, j));
  }

  lemma LiftMonotone(height: int, minv: int, maxv: int, v: real, w: real)
    requires height >= 0 && minv < maxv && v <= w
    ensures Lift(height, minv, maxv, v) <= Lift(height, minv, maxv, w)
  {
    var d := (maxv - minv) as real;
    var a := height as real * (v - minv as real);
    var b := height as real * (w - minv as real);
    assert a <= b by {
      MulMonotone(v - minv as real, w - minv as real, height as real);
    }
    assert a / d <= b / d by {
      DivMonotone(a, b, d);
    }
    assert Lift(height, minv, maxv, v) == a / d;
    assert Lift(height, minv, maxv, w) == b / d;
  }

  lemma LiftEnds(height: int, minv: int, maxv: int)
    requires minv < maxv
    ensures Lift(height, minv, maxv, minv as real) == 0.0
    ensures Lift(height, minv, maxv, maxv as real) == height as real
  {
    var d := (maxv - minv) as real;
    assert maxv as real - minv as real == d;
    MulDivCancel(height as real, d);
  }

  /** A value on the lower label sits on the baseline, one on the upper
      label `height` pixels above it, and everything in between in between. */
  lemma YAtWithin(y0: int, height: int, minv: int, maxv: int, v: real)
    requires height >= 0 && minv < maxv && minv as real <= v <= maxv as real
    ensures YAt(y0, height, minv, maxv, minv as real) == y0
    ensures YAt(y0, height, minv, maxv, maxv as real) == y0 - height
    ensures y0 - height <= YAt(y0, height, minv, maxv, v) <= y0
  {
    LiftEnds(height, minv, maxv);
    RoundHalfEvenOfInt(0);
    RoundHalfEvenOfInt(height);
    LiftMonotone(height, minv, maxv, minv as real, v);
    LiftMonotone(height, minv, maxv, v, maxv as real);
    RoundHalfEvenBetween(Lift(height, minv, maxv, v), 0, height);
  }

  /** A larger value is never drawn lower. */
  lemma YAtMonotone(y0: int, height: int, minv: int, maxv: int, v: real, w: real)
    requires height >= 0 && minv < maxv && v <= w
    ensures YAt(y0, height, minv, maxv, w) <= YAt(y0, height, minv, maxv, v)
  {
    LiftMonotone(height, minv, maxv, v, w);
    RoundHalfEvenMonotone(Lift(height, minv, maxv, v), Lift(height, minv, maxv, w));
  }

  // Steps of arithmetic the solver is given one at a time.

  lemma XAtUnfold(x0: int, endX: int, n: nat, i: nat, step: real)
    requires n > 0 && step == (endX - x0) as real / n as real
    ensures RoundHalfEven(x0 as real + i as real * step) == XAt(x0, endX, n, i)
  {
    assert x0 as real + i as real * step == XPos(x0, endX, n, i);
  }

  lemma StepsSpan(w: real, n: real)
    requires n != 0.0
    ensures n * (w / n) == w
  {
  }

  lemma AffineOrdered(x0: real, w: real, n: real, i: real, j: real)
    requires 0.0 <= w && 0.0 < n && 0.0 <= i <= j <= n
    ensures x0 <= x0 + i * (w / n) <= x0 + j * (w / n) <= x0 + w
  {
    var s := w / n;
    assert 0.0 <= s;
    assert n * s == w;
    assert i * s <= j * s;
    assert j * s <= n * s;
  }

  lemma RoundedOrdered(lo: int, hi: int, a: real, b: real)
    requires lo as real <= a <= b <= hi as real
    ensures lo <= RoundHalfEven(a) <= RoundHalfEven(b) <= hi
  {
    RoundHalfEvenBetween(a, lo, hi);
    RoundHalfEvenBetween(b, lo, hi);
    RoundHalfEvenMonotone(a, b);
  }

  lemma MulMonotone(a: real, b: real, c: real)
    requires a <= b && 0.0 <= c
    ensures a * c <= b * c && c * a <= c * b
  {
  }

  lemma DivMonotone(a: real, b: real, d: real)
    requires a <= b && 0.0 < d
    ensures a / d <= b / d
  {
  }

  lemma MulDivCancel(a: real, d: real)
    requires d != 0.0
    ensures a * d / d == a
  {
  }

  /** What the point placement guarantees for a whole series: the first
      point on the left edge, the points left to right within the box, each
      between the baseline and `height` pixels above it, and a larger rate
      never drawn lower than a smaller one. */
  lemma PointsPlaced(values: seq<real>, x0: int, y0: int, endX: int, height: int, lo: int, hi: int, points: seq<Point>)
    requires values != [] && lo < hi
    requires forall i :: 0 <= i < |values| ==> lo as real <= ToMbps(values[i]) <= hi as real
    requires |points| == |values|
    requires forall i :: 0 <= i < |values| ==>
      points[i] == Point(XAt(x0, endX, |values|, i), YAt(y0, height, lo, hi, ToMbps(values[i])))
    ensures points[0].x == x0
    ensures x0 <= endX ==>
      forall i, j :: 0 <= i <= j < |points| ==> x0 <= points[i].x <= points[j].x <= endX
    ensures height >= 0 ==>
      forall i :: 0 <= i < |points| ==> y0 - height <= points[i].y <= y0
    ensures height >= 0 ==>
      forall i, j :: 0 <= i < |points| && 0 <= j < |points| && values[i] <= values[j] ==>
        points[j].y <= points[i].y
  {
    var n := |values|;
    XAtFirst(x0, endX, n);
    if x0 <= endX {
      forall i, j | 0 <= i <= j < n
        ensures x0 <= points[i].x <= points[j].x <= endX
      {
        XAtOrdered(x0, endX, n, i, j);
      }
    }
    if height >= 0 {
      forall i | 0 <= i < n
        ensures y0 - height <= points[i].y <= y0
      {
        YAtWithin(y0, height, lo, hi, ToMbps(values[i]));
      }
      forall i, j | 0 <= i < n && 0 <= j < n && values[i] <= values[j]
        ensures points[j].y <= points[i].y
      {
        ToMbpsMonotone(values[i], values[j]);
        YAtMonotone(y0, height, lo, hi, ToMbps(values[i]), ToMbps(values[j]));
      }
    }
  }

  /** The loop of `_display_chart` that places one point per value:
      x spaced evenly by index from `x0`, y lifted from the baseline `y0` in
      proportion to the value's place between the labels. */
  method PlotPoints(c: seq<real>, x0: int, y0: int, endX: int, height: int, lo: int, hi: int)
    returns (points: seq<Point>)
    requires lo != hi
    ensures |points| == |c|
    ensures forall k :: 0 <= k < |c| ==>
      points[k] == Point(XAt(x0, endX, |c|, k), YAt(y0, height, lo, hi, c[k]))
  {
    points := [];
    if |c| == 0 {
      return;
    }
    var offsetX := (endX - x0) as real / |c| as real;
    for i := 0 to |c|
      invariant |points| == i
      invariant forall k :: 0 <= k < i ==>
        points[k] == Point(XAt(x0, endX, |c|, k), YAt(y0, height, lo, hi, c[k]))
    {
      var x := RoundHalfEven(x0 as real + i as real * offsetX);
      XAtUnfold(x0, endX, |c|, i, offsetX);
      var offsetY := RoundHalfEven(Lift(height, lo, hi, c[i]));
      var y := y0 - offsetY;
      points := points + [Point(x, y)];
    }
  }

  /** The drawing part of `_display_chart` once the labels are known to
      differ: the label anchors, the two axes, one point per value and the
      segments joining consecutive points, with what the placement
      guarantees about them. */
  method DrawSeries(values: seq<real>, startX: int, startY: int, endX: int, height: int, minv: int, maxv: int)
    returns (g: Geometry)
    requires values != [] && minv < maxv
    requires forall i :: 0 <= i < |values| ==> minv as real <= ToMbps(values[i]) <= maxv as real
    ensures g.minLabel == minv && g.maxLabel == maxv
    ensures g.minLabelAt == Point(startX, startY - 12)
    ensures g.maxLabelAt == Point(startX, startY - height - 5)
    ensures g.yAxis == (Point(startX + 20, startY - height), Point(startX + 20, startY))
    ensures g.xAxis == (Point(startX + 20, startY), Point(endX, startY))
    ensures |g.points| == |values|
    ensures forall i :: 0 <= i < |values| ==>
      g.points[i] == Point(XAt(startX + 30, endX, |values|, i), YAt(startY - 5, height, minv, maxv, ToMbps(values[i])))
    ensures g.points[0].x == startX + 30
    ensures startX + 30 <= endX ==>
      forall i, j :: 0 <= i <= j < |values| ==> startX + 30 <= g.points[i].x <= g.points[j].x <= endX
    ensures height >= 0 ==>
      forall i :: 0 <= i < |values| ==> startY - 5 - height <= g.points[i].y <= startY - 5
    ensures height >= 0 ==>
      forall i, j :: 0 <= i < |values| && 0 <= j < |values| && values[i] <= values[j] ==>
        g.points[j].y <= g.points[i].y
    ensures |g.segments| == |values| - 1
    ensures forall i :: 0 <= i < |values| - 1 ==> g.segments[i] == (g.points[i], g.points[i + 1])
  {
    var minLabelAt := Point(startX, startY - 12);
    var maxLabelAt := Point(startX, startY - height - 5);
    var sx, sy := startX, startY;
    sx := sx + 20;
    var yAxis := (Point(sx, sy - height), Point(sx, sy));
    var xAxis := (Point(sx, sy), Point(endX, sy));
    sx := sx + 10;
    sy := sy - 5;
    var converted := Converted(values);
    var points := PlotPoints(converted, sx, sy, endX, height, minv, maxv);
    PointsPlaced(values, sx, sy, endX, height, minv, maxv, points);
    var segments := Pairwise(points);
    g := Geometry(minv, maxv, minLabelAt, maxLabelAt, yAxis, xAxis, points, segments);
  }

  /** `_display_chart(values, start_x, start_y, end_x, height, ylabel)`,
      without the drawing calls: the coordinates they would be given. */
  method DisplayChart(values: seq<real>, startX: int, startY: int, endX: int, height: int)
    returns (p: Projection)
    ensures p.NothingToDraw? <==> |values| < 2
    ensures p.ZeroDivisionError? <==> |values| >= 2 && LowLabel(values) == HighLabel(values)
    ensures p.Drawn? ==>
      && p.geometry.minLabel == LowLabel(values) < p.geometry.maxLabel == HighLabel(values)
      && p.geometry.minLabelAt == Point(startX, startY - 12)
      && p.geometry.maxLabelAt == Point(startX, startY - height - 5)
      && p.geometry.yAxis == (Point(startX + 20, startY - height), Point(startX + 20, startY))
      && p.geometry.xAxis == (Point(startX + 20, startY), Point(endX, startY))
    ensures p.Drawn? ==>
      && |p.geometry.points| == |values|
      && forall i :: 0 <= i < |values| ==>
           p.geometry.points[i] == Point(XAt(startX + 30, endX, |values|, i),
                                         YAt(startY - 5, height, p.geometry.minLabel, p.geometry.maxLabel, ToMbps(values[i])))
    ensures p.Drawn? ==> p.geometry.points[0].x == startX + 30
    ensures p.Drawn? && startX + 30 <= endX ==>
      forall i, j :: 0 <= i <= j < |values| ==>
        startX + 30 <= p.geometry.points[i].x <= p.geometry.points[j].x <= endX
    ensures p.Drawn? && height >= 0 ==>
      forall i :: 0 <= i < |values| ==> startY - 5 - height <= p.geometry.points[i].y <= startY - 5
    ensures p.Drawn? && height >= 0 ==>
      forall i, j :: 0 <= i < |values| && 0 <= j < |values| && values[i] <= values[j] ==>
        p.geometry.points[j].y <= p.geometry.points[i].y
    ensures p.Drawn? ==>
      && |p.geometry.segments| == |values| - 1
      && forall i :: 0 <= i < |values| - 1 ==>
           p.geometry.segments[i] == (p.geometry.points[i], p.geometry.points[i + 1])
  {
    if |values| < 2 {
      return NothingToDraw;
    }
    var converted := Converted(values);
    var minv := Min(converted).Floor;
    var maxv := Ceil(Max(converted));
    LabelsEnclose(values);
    if maxv - minv == 0 {
      return ZeroDivisionError;
    }
    var g := DrawSeries(values, startX, startY, endX, height, minv, maxv);
    p := Drawn(g);
  }
}
