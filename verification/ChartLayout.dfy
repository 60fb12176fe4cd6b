/** Where the chart exporter puts its ink: bars and line points within the plot area. */
module ChartLayout {
  import opened RasterCanvas
  import opened Rounding
  import opened Sequences

  datatype Plot = Plot(left: int, right: int, top: int, bottom: int)
  {
    predicate Valid() { left <= right && top <= bottom }
    function Width(): int { right - left }
    function Height(): int { bottom - top }
  }

  function Largest(values: seq<real>): (m: real)
    requires values != []
    ensures m in values && forall v :: v in values ==> v <= m
  {
    if |values| == 1 then values[0]
    else
      var rest := Largest(values[1..]);
      assert values == [values[0]] + values[1..];
      if values[0] > rest then values[0] else rest
  }

  /** `chart_max_value`: a configured maximum of zero counts as none. */
  function MaxValue(yMax: Option<real>, values: seq<real>): (m: real)
    requires values != []
    ensures m >= 1.0
    ensures (yMax.None? || yMax.value == 0.0) ==> (forall v :: v in values ==> v <= m) && (m == 1.0 || m in values)
    ensures yMax.Some? && yMax.value != 0.0 ==> m >= yMax.value && (m == 1.0 || m == yMax.value)
  {
    var top := if Largest(values) > 1.0 then Largest(values) else 1.0;
    var scale := if yMax.Some? && yMax.value != 0.0 then yMax.value else top;
    if scale > 1.0 then scale else 1.0
  }

  /** The height of a value in pixels. */
  function Rise(value: real, max: real, plot: Plot): int
    requires max > 0.0
  {
    Scaled(value, max, plot.Height())
  }

  function ChartY(value: real, max: real, plot: Plot): int
    requires max > 0.0
  {
    plot.bottom - Rise(value, max, plot)
  }

  /** Larger values are drawn no lower; zero sits on the bottom line, the maximum on the top line, and a
      value strays at most half a pixel from its exact height. */
  lemma HeightsAreFaithful(a: real, b: real, max: real, plot: Plot)
    requires plot.Valid() && max > 0.0 && a <= b
    ensures ChartY(b, max, plot) <= ChartY(a, max, plot)
    ensures ChartY(0.0, max, plot) == plot.bottom && ChartY(max, max, plot) == plot.top
    ensures -0.5 <= (plot.bottom - ChartY(a, max, plot)) as real - a / max * plot.Height() as real <= 0.5
  {
    ScaledMonotone(a, b, max, plot.Height());
    ScaledEnds(max, plot.Height());
  }

  /** The height of a value before rounding. */
  function ExactRise(value: real, max: real, plot: Plot): real
    requires max > 0.0
  {
    Share(value, max, plot.Height())
  }

  lemma HalfPixel(exact: real, height: int)
    ensures exact < height as real + 0.5 ==> RoundHalfEven(exact) <= height
    ensures exact > height as real + 0.5 ==> RoundHalfEven(exact) > height
  {}

  /** A value leaves the plot at the top or at the bottom when its exact height does by more than half a
      pixel, and not when it does by less. */
  lemma ValueInPlot(v: real, max: real, plot: Plot)
    requires plot.Valid() && max > 0.0
    ensures var rise, y := ExactRise(v, max, plot), ChartY(v, max, plot);
            && (rise < plot.Height() as real + 0.5 ==> plot.top <= y) && (rise > plot.Height() as real + 0.5 ==> y < plot.top)
            && (rise > -0.5 ==> y <= plot.bottom) && (rise < -0.5 ==> plot.bottom < y)
  {
    HalfPixel(ExactRise(v, max, plot), plot.Height());
    HalfPixel(ExactRise(v, max, plot), -1);
  }

  lemma ScaledValueInPlot(v: real, max: real, plot: Plot)
    requires plot.Valid() && max > 0.0 && 0.0 <= v <= max
    ensures 0.0 <= ExactRise(v, max, plot) <= plot.Height() as real
  {
    DivideMonotone(0.0, v, max);
    DivideMonotone(v, max, max);
    MultiplyMonotone(0.0, v / max, plot.Height() as real);
    MultiplyMonotone(v / max, 1.0, plot.Height() as real);
  }

  // ---------------------------------------------------------------------------------------
  // Bars

  function BarWidth(n: nat, gap: nat, plot: Plot): int
    requires 0 < n
  {
    Max(6, (plot.Width() - gap * (n - 1)) / n)
  }

  function BarLeft(i: nat, n: nat, gap: nat, plot: Plot): int
    requires 0 < n
  {
    plot.left + i * (BarWidth(n, gap, plot) + gap)
  }

  ghost function Bar(i: nat, values: seq<real>, max: real, gap: nat, plot: Plot): iset<Point>
    requires i < |values| && max > 0.0
  {
    var x := BarLeft(i, |values|, gap, plot);
    var h := Rise(values[i], max, plot);
    Box(x, plot.bottom - h, Min(BarWidth(|values|, gap, plot), plot.right - x), h)
  }

  method FillBar(canvas: Canvas, i: nat, values: seq<real>, max: real, gap: nat, barWidth: int, plot: Plot, color: Color)
    requires canvas.Valid() && i < |values| && max > 0.0 && barWidth == BarWidth(|values|, gap, plot)
    modifies canvas.data
    ensures Painted(old(canvas.data[..]), canvas.data[..], canvas.width, canvas.height, Bar(i, values, max, gap, plot), color)
  {
    var barHeight := Scaled(values[i], max, plot.bottom - plot.top);
    var x := plot.left + i * (barWidth + gap);
    canvas.FillRect(x, plot.bottom - barHeight, Min(barWidth, plot.right - x), barHeight, color);
  }

  ghost function Bars(values: seq<real>, n: nat, max: real, gap: nat, plot: Plot): iset<Point>
    requires n <= |values| && max > 0.0
  {
    iset p: Point, i: nat | i < n && p in Bar(i, values, max, gap, plot) :: p
  }

  lemma OneMoreBar(values: seq<real>, i: nat, max: real, gap: nat, plot: Plot)
    requires i < |values| && max > 0.0
    ensures Bars(values, i + 1, max, gap, plot) == Bars(values, i, max, gap, plot) + Bar(i, values, max, gap, plot)
  {}

  /** `_render_bar_chart`. */
  method RenderBarChart(canvas: Canvas, values: seq<real>, max: real, plot: Plot, scale: nat, color: Color)
    requires canvas.Valid() && values != [] && max > 0.0
    modifies canvas.data
    ensures Painted(old(canvas.data[..]), canvas.data[..], canvas.width, canvas.height,
                    Bars(values, |values|, max, Max(4, 6 * scale), plot), color)
  {
    var gap := Max(4, 6 * scale);
    var barWidth := BarWidth(|values|, gap, plot);
    for i := 0 to |values|
      invariant Painted(old(canvas.data[..]), canvas.data[..], canvas.width, canvas.height, Bars(values, i, max, gap, plot), color)
    {
      ghost var before := canvas.data[..];
      FillBar(canvas, i, values, max, gap, barWidth, plot, color);
      OneMoreBar(values, i, max, gap, plot);
      PaintedTwice(old(canvas.data[..]), before, canvas.data[..], canvas.width, canvas.height,
                   Bars(values, i, max, gap, plot), Bar(i, values, max, gap, plot), Bars(values, i + 1, max, gap, plot), color);
    }
  }

  lemma StepsApart(i: nat, j: nat, step: nat)
    requires j < i
    ensures i * step >= j * step + step
  {
    var k := i - j - 1;
    assert i * step == j * step + step + k * step;
    assert k * step >= 0;
  }

  /** No two bars overlap, and no bar leaves the plot area to the side or at the bottom. It reaches above
      the plot only when a configured maximum is exceeded, by half a pixel at least. */
  lemma BarsStayApart(values: seq<real>, max: real, gap: nat, plot: Plot, i: nat, j: nat, p: Point)
    requires plot.Valid() && max > 0.0
    requires i < |values| && p in Bar(i, values, max, gap, plot)
    ensures plot.left <= p.x < plot.right && p.y < plot.bottom
    ensures p.y < plot.top ==> values[i] > max && ExactRise(values[i], max, plot) >= plot.Height() as real + 0.5
    ensures j < |values| && j != i ==> p !in Bar(j, values, max, gap, plot)
  {
    ValueInPlot(values[i], max, plot);
    if 0.0 <= values[i] <= max {
      ScaledValueInPlot(values[i], max, plot);
    }
    if values[i] < 0.0 {
      HeightsAreFaithful(values[i], 0.0, max, plot);
    }
    SlotsApart(i, j, |values|, gap, plot);
  }

  lemma SlotsApart(i: nat, j: nat, n: nat, gap: nat, plot: Plot)
    requires 0 < n
    ensures BarLeft(i, n, gap, plot) >= plot.left
    ensures j < i ==> BarLeft(j, n, gap, plot) + BarWidth(n, gap, plot) <= BarLeft(i, n, gap, plot)
    ensures i < j ==> BarLeft(i, n, gap, plot) + BarWidth(n, gap, plot) <= BarLeft(j, n, gap, plot)
  {
    var step := BarWidth(n, gap, plot) + gap;
    assert i * step >= 0;
    if j < i {
      StepsApart(i, j, step);
    }
    if i < j {
      StepsApart(j, i, step);
    }
  }

  /** A bar is as wide as fits: six pixels at least, and no wider bars would fit with their gaps. */
  lemma BarsAreWidest(n: nat, gap: nat, plot: Plot)
    requires 0 < n
    ensures var w := BarWidth(n, gap, plot);
            && w >= 6 && (w > 6 ==> n * w + gap * (n - 1) <= plot.Width()) && n * (w + 1) + gap * (n - 1) > plot.Width()
  {
    var room := plot.Width() - gap * (n - 1);
    var w, q := BarWidth(n, gap, plot), room / n;
    assert n * q <= room < n * q + n;
    assert n * (w + 1) == n * q + n + n * (w - q);
    assert n * (w - q) >= 0;
  }

  /** Where a bar is: side by side from the left edge, each a bar and a gap further, its width cut off at the right
      edge, and from the bottom line up to within half a pixel of its exact height. */
  lemma BarStands(values: seq<real>, max: real, gap: nat, plot: Plot, i: nat) returns (height: int)
    requires max > 0.0 && i < |values|
    ensures -0.5 <= height as real - values[i] / max * plot.Height() as real <= 0.5
    ensures forall p: Point ::
              var left, width := plot.left + i * (BarWidth(|values|, gap, plot) + gap), BarWidth(|values|, gap, plot);
              p in Bar(i, values, max, gap, plot) <==>
                left <= p.x < left + width && p.x < plot.right && plot.bottom - height <= p.y < plot.bottom
  {
    height := Rise(values[i], max, plot);
  }

  lemma LeastWidthFits(n: nat, room: int)
    requires 0 < n
    ensures n * Max(6, room / n) <= room <==> 6 * n <= room
  {
    var q := room / n;
    assert n * q <= room < n * q + n;
  }

  /** Every bar keeps its full width exactly when bars of the least width, with their gaps, fit into
      the plot; otherwise the last one is cut or left out. */
  lemma BarsFitIff(n: nat, gap: nat, plot: Plot)
    requires 0 < n
    ensures (forall i: nat :: i < n ==> BarLeft(i, n, gap, plot) + BarWidth(n, gap, plot) <= plot.right)
            <==> 6 * n + gap * (n - 1) <= plot.Width()
  {
    LastBarEnds(n, gap, plot);
    LeastWidthFits(n, plot.Width() - gap * (n - 1));
    forall i: nat | i < n ensures BarLeft(i, n, gap, plot) <= BarLeft(n - 1, n, gap, plot) {
      SlotsApart(n - 1, i, n, gap, plot);
    }
  }

  lemma LastBarEnds(n: nat, gap: nat, plot: Plot)
    requires 0 < n
    ensures BarLeft(n - 1, n, gap, plot) + BarWidth(n, gap, plot) == plot.left + n * BarWidth(n, gap, plot) + gap * (n - 1)
  {
    var w := BarWidth(n, gap, plot);
    assert (n - 1) * (w + gap) == (n - 1) * w + (n - 1) * gap;
  }

  // ---------------------------------------------------------------------------------------
  // Lines

  function ChartX(i: nat, n: nat, plot: Plot): int
    requires i < n && 1 < n
  {
    plot.left + Scaled(i as real, (n - 1) as real, plot.Width())
  }

  /** The first point is on the left edge, the last on the right edge, and points never go back. */
  lemma PointsRunLeftToRight(i: nat, j: nat, n: nat, plot: Plot)
    requires plot.Valid() && i <= j < n && 1 < n
    ensures plot.left == ChartX(0, n, plot) <= ChartX(i, n, plot) <= ChartX(j, n, plot) <= ChartX(n - 1, n, plot) == plot.right
  {
    var last := (n - 1) as real;
    ScaledMonotone(0.0, i as real, last, plot.Width());
    ScaledMonotone(i as real, j as real, last, plot.Width());
    ScaledMonotone(j as real, last, last, plot.Width());
    ScaledEnds(last, plot.Width());
  }

  /** Points are spread evenly: point `i` is within half a pixel of its share of the width. */
  lemma PointsAreSpread(i: nat, n: nat, plot: Plot)
    requires i < n && 1 < n
    ensures -0.5 <= (ChartX(i, n, plot) - plot.left) as real - i as real / (n - 1) as real * plot.Width() as real <= 0.5
  {}

  function PointsOf(values: seq<real>, max: real, plot: Plot): seq<Point>
    requires |values| > 1 && max > 0.0
  {
    seq(|values|, i requires 0 <= i < |values| => Point(ChartX(i, |values|, plot), ChartY(values[i], max, plot)))
  }

  /** The ink of the first `n` points: the strokes between neighbours, and the discs. */
  ghost function StrokeTo(points: seq<Point>, i: nat, width: int): iset<Point>
    requires 0 < i < |points|
  {
    Swept(LinePath(Segment(points[i - 1], points[i])), width)
  }

  ghost function Strokes(points: seq<Point>, n: nat, width: int): iset<Point>
    requires n <= |points|
  {
    iset p: Point, i: nat | 0 < i < n && p in StrokeTo(points, i, width) :: p
  }

  ghost function Discs(points: seq<Point>, n: nat, radius: int): iset<Point>
    requires n <= |points|
  {
    iset p: Point, i: nat | i < n && p in Disc(points[i].x, points[i].y, radius) :: p
  }

  ghost function LineInk(values: seq<real>, max: real, plot: Plot, stroke: int): iset<Point>
    requires values != [] && max > 0.0
  {
    if |values| == 1 then Disc(plot.right, ChartY(values[0], max, plot), stroke)
    else
      var points := PointsOf(values, max, plot);
      Strokes(points, |points|, stroke) + Discs(points, |points|, stroke)
  }

  /** `_render_line_chart`. */
  method RenderLineChart(canvas: Canvas, values: seq<real>, max: real, plot: Plot, scale: nat, color: Color)
    requires canvas.Valid() && values != [] && max > 0.0
    modifies canvas.data
    ensures Painted(old(canvas.data[..]), canvas.data[..], canvas.width, canvas.height,
                    LineInk(values, max, plot, Max(2, scale * 2)), color)
  {
    var stroke := Max(2, scale * 2);
    if |values| == 1 {
      canvas.Circle(plot.right, ChartY(values[0], max, plot), stroke, color);
      return;
    }
    var points := PointsOf(values, max, plot);
    DrawStrokes(canvas, points, stroke, color);
    ghost var middle := canvas.data[..];
    DrawDiscs(canvas, points, stroke, color);
    PaintedTwice(old(canvas.data[..]), middle, canvas.data[..], canvas.width, canvas.height,
                 Strokes(points, |points|, stroke), Discs(points, |points|, stroke), LineInk(values, max, plot, stroke), color);
  }

  method DrawStrokes(canvas: Canvas, points: seq<Point>, stroke: int, color: Color)
    requires canvas.Valid() && points != []
    modifies canvas.data
    ensures Painted(old(canvas.data[..]), canvas.data[..], canvas.width, canvas.height, Strokes(points, |points|, stroke), color)
  {
    for i := 1 to |points|
      invariant Painted(old(canvas.data[..]), canvas.data[..], canvas.width, canvas.height, Strokes(points, i, stroke), color)
    {
      ghost var before := canvas.data[..];
      var a, b := points[i - 1], points[i];
      canvas.Line(a.x, a.y, b.x, b.y, color, stroke);
      ghost var added := StrokeTo(points, i, stroke);
      assert Strokes(points, i + 1, stroke) == Strokes(points, i, stroke) + added;
      PaintedTwice(old(canvas.data[..]), before, canvas.data[..], canvas.width, canvas.height,
                   Strokes(points, i, stroke), added, Strokes(points, i + 1, stroke), color);
    }
  }

  method DrawDiscs(canvas: Canvas, points: seq<Point>, stroke: int, color: Color)
    requires canvas.Valid()
    modifies canvas.data
    ensures Painted(old(canvas.data[..]), canvas.data[..], canvas.width, canvas.height, Discs(points, |points|, stroke), color)
  {
    for i := 0 to |points|
      invariant Painted(old(canvas.data[..]), canvas.data[..], canvas.width, canvas.height, Discs(points, i, stroke), color)
    {
      ghost var before := canvas.data[..];
      canvas.Circle(points[i].x, points[i].y, stroke, color);
      assert Discs(points, i + 1, stroke) == Discs(points, i, stroke) + Disc(points[i].x, points[i].y, stroke);
      PaintedTwice(old(canvas.data[..]), before, canvas.data[..], canvas.width, canvas.height,
                   Discs(points, i, stroke), Disc(points[i].x, points[i].y, stroke), Discs(points, i + 1, stroke), color);
    }
  }

  /** Every line-chart point lies between the side edges, and in the plot area if its value is on the
      scale; above a configured maximum, or below zero, it leaves the area with the first half pixel. */
  lemma PointsInPlot(values: seq<real>, max: real, plot: Plot, i: nat)
    requires plot.Valid() && max > 0.0 && |values| > 1 && i < |values|
    ensures var p, rise := PointsOf(values, max, plot)[i], ExactRise(values[i], max, plot);
            && plot.left <= p.x <= plot.right
            && (0.0 <= values[i] <= max ==> plot.top <= p.y <= plot.bottom)
            && (-0.5 < rise < plot.Height() as real + 0.5 ==> plot.top <= p.y <= plot.bottom)
            && (rise > plot.Height() as real + 0.5 ==> p.y < plot.top) && (rise < -0.5 ==> plot.bottom < p.y)
  {
    ValueInPlot(values[i], max, plot);
    if 0.0 <= values[i] <= max {
      ScaledValueInPlot(values[i], max, plot);
    }
    PointsRunLeftToRight(i, i, |values|, plot);
  }
}
