/** The raster canvas of the chart exporter: clipped drawing on a flat byte buffer, three bytes a
    pixel, and the integer line walk. */
module RasterCanvas {
  newtype byte = x: int | 0 <= x < 256

  datatype Color = Color(red: byte, green: byte, blue: byte)

  datatype Point = Point(x: int, y: int)

  function Abs(n: int): int { if n < 0 then -n else n }

  function Max(a: int, b: int): int { if a < b then b else a }

  function Min(a: int, b: int): int { if a < b then a else b }

  // ---------------------------------------------------------------------------------------
  // Pixels of a buffer

  predicate OnCanvas(width: nat, height: nat, x: int, y: int) {
    0 <= x < width && 0 <= y < height
  }

  lemma PixelFits(width: nat, height: nat, x: int, y: int)
    requires OnCanvas(width, height, x, y)
    ensures 0 <= y * width && 0 <= (y * width + x) * 3 && (y * width + x) * 3 + 2 < width * height * 3
  {
    assert y * width + width == (y + 1) * width <= height * width;
  }

  function PixelOf(data: seq<byte>, width: nat, height: nat, x: int, y: int): Color
    requires |data| == width * height * 3 && OnCanvas(width, height, x, y)
  {
    PixelFits(width, height, x, y);
    var i := (y * width + x) * 3;
    Color(data[i], data[i + 1], data[i + 2])
  }

  /** Whether a byte lies in the run of pixels [left, right) of row `row`. */
  lemma PixelInRun(width: nat, x: int, y: int, row: int, left: int, right: int)
    requires 0 <= x < width && 0 <= left <= right <= width
    ensures row * width + left <= y * width + x < row * width + right <==> y == row && left <= x < right
  {
    if y < row {
      assert (y + 1) * width <= row * width;
    } else if y > row {
      assert y * width >= (row + 1) * width;
    }
  }

  /** `after` is `before` with exactly the covered pixels of the canvas painted: the length is
      kept and every other pixel is untouched. */
  ghost predicate Painted(before: seq<byte>, after: seq<byte>, width: nat, height: nat,
                          covered: iset<Point>, color: Color)
    requires |before| == width * height * 3
  {
    && |after| == |before|
    && forall x, y | OnCanvas(width, height, x, y) ::
         PixelOf(after, width, height, x, y) == if Point(x, y) in covered then color else PixelOf(before, width, height, x, y)
  }

  lemma PaintedTwice(a: seq<byte>, b: seq<byte>, c: seq<byte>, width: nat, height: nat,
                     first: iset<Point>, second: iset<Point>, both: iset<Point>, color: Color)
    requires |a| == width * height * 3
    requires Painted(a, b, width, height, first, color) && Painted(b, c, width, height, second, color)
    requires forall x, y | OnCanvas(width, height, x, y) ::
               (Point(x, y) in both <==> Point(x, y) in first || Point(x, y) in second)
    ensures Painted(a, c, width, height, both, color)
  {}

  ghost function Box(x: int, y: int, width: int, height: int): iset<Point> {
    iset p: Point | x <= p.x < x + width && y <= p.y < y + height
  }

  // ---------------------------------------------------------------------------------------
  // The line walk

  datatype Segment = Segment(start: Point, end: Point)
  {
    function Dx(): int { Abs(end.x - start.x) }
    function Dy(): int { Abs(end.y - start.y) }
    function Sx(): int { if start.x < end.x then 1 else -1 }
    function Sy(): int { if start.y < end.y then 1 else -1 }
    /** The point reached after `i` horizontal and `j` vertical steps. */
    function Reached(i: int, j: int): Point { Point(start.x + Sx() * i, start.y + Sy() * j) }
    function Steps(): int { Max(Dx(), Dy()) }
  }

  /** The state of the walk after `i` horizontal and `j` vertical steps. The error term is
      determined by the steps, and twice the deviation from the ideal segment stays within the
      length of the major axis. */
  ghost predicate OnTrack(s: Segment, i: int, j: int, error: int) {
    && 0 <= i <= s.Dx() && 0 <= j <= s.Dy()
    && error == s.Dx() * (1 + j) - s.Dy() * (1 + i)
    && -s.Steps() <= 2 * (s.Dx() * j - s.Dy() * i) <= s.Steps()
  }

  /** How far the walk has come along the major axis. */
  function Progress(s: Segment, i: int, j: int): int {
    if s.Dx() >= s.Dy() then i else j
  }

  predicate StepsAcross(s: Segment, error: int) { 2 * error >= -s.Dy() }

  predicate StepsDown(s: Segment, error: int) { 2 * error <= s.Dx() }

  function NextError(s: Segment, error: int): int {
    error - (if StepsAcross(s, error) then s.Dy() else 0) + (if StepsDown(s, error) then s.Dx() else 0)
  }

  function NextAcross(s: Segment, i: int, error: int): int { if StepsAcross(s, error) then i + 1 else i }

  function NextDown(s: Segment, j: int, error: int): int { if StepsDown(s, error) then j + 1 else j }

  lemma ScaledStrictly(m: int, a: int, b: int)
    requires m > 0 && a < b
    ensures m * a + m <= m * b
  {
    assert m * (b - a - 1) >= 0;
  }

  /** On the minor axis the deviation bound excludes running past the end. */
  lemma MinorStaysInside(major: int, minor: int, i: int, j: int)
    requires 0 < major && 0 <= minor && 0 <= i <= major
    requires 2 * (major * j - minor * i) <= major
    ensures j <= minor
  {
    assert minor * i <= minor * major;
    if j > minor {
      ScaledStrictly(major, minor, j);
      assert false;
    }
  }

  /** At the end of the major axis the deviation bound leaves no room on the minor axis. */
  lemma MinorArrives(major: int, minor: int, j: int)
    requires 0 < major && 0 <= j <= minor
    requires -major <= 2 * (major * j - minor * major)
    ensures j == minor
  {
    if j < minor {
      ScaledStrictly(major, j, minor);
      assert false;
    }
  }

  lemma ArrivesTogether(s: Segment, i: int, j: int, error: int)
    requires OnTrack(s, i, j, error)
    ensures Progress(s, i, j) == s.Steps() <==> i == s.Dx() && j == s.Dy()
  {
    var a, b := s.Dx(), s.Dy();
    if a >= b && i == a && a > 0 {
      MinorArrives(a, b, j);
    } else if a < b && j == b {
      assert -b <= 2 * (b * i - a * b) by {
        assert a * j == a * b && b * i == b * i;
      }
      MinorArrives(b, a, i);
    }
  }

  /** The new deviation, from the old one. */
  lemma TurnBoundsDeviation(a: int, b: int, d: int)
    requires 0 <= a && 0 <= b
    requires -Max(a, b) <= 2 * d <= Max(a, b)
    ensures var error := d + a - b;
            var across, down := 2 * error >= -b, 2 * error <= a;
            var d' := d - (if across then b else 0) + (if down then a else 0);
            && -Max(a, b) <= 2 * d' <= Max(a, b)
            && (a >= b ==> across)
            && (a < b ==> down)
  {}

  /** One turn of the loop keeps the walk on track and advances one step along the major axis. */
  lemma TurnKeepsTrack(s: Segment, i: int, j: int, error: int)
    requires OnTrack(s, i, j, error)
    requires !(i == s.Dx() && j == s.Dy())
    ensures OnTrack(s, NextAcross(s, i, error), NextDown(s, j, error), NextError(s, error))
    ensures Progress(s, NextAcross(s, i, error), NextDown(s, j, error)) == Progress(s, i, j) + 1
  {
    ArrivesTogether(s, i, j, error);
    var a, b := s.Dx(), s.Dy();
    var aj, bi := a * j, b * i;
    assert a * (1 + j) == a + aj && b * (1 + i) == b + bi;
    assert a * (2 + j) == 2 * a + aj && b * (2 + i) == 2 * b + bi;
    TurnBoundsDeviation(a, b, aj - bi);
    var i', j' := NextAcross(s, i, error), NextDown(s, j, error);
    assert a * j' - b * i' == (aj - bi) - (if StepsAcross(s, error) then b else 0) + (if StepsDown(s, error) then a else 0);
    if a >= b {
      MinorStaysInside(a, b, i', j');
    } else {
      MinorStaysInside(b, a, j', i');
    }
  }

  lemma ReachedEnd(s: Segment, i: int, j: int, error: int)
    requires OnTrack(s, i, j, error)
    ensures s.Reached(i, j) == s.end <==> i == s.Dx() && j == s.Dy()
  {
    assert s.Sx() == 1 || s.Sx() == -1;
    assert s.Sy() == 1 || s.Sy() == -1;
  }

  /** The points visited from a state of the walk on. */
  ghost function Visits(s: Segment, i: int, j: int, error: int): (path: seq<Point>)
    requires OnTrack(s, i, j, error)
    decreases s.Steps() - Progress(s, i, j)
  {
    ArrivesTogether(s, i, j, error);
    if i == s.Dx() && j == s.Dy() then [s.Reached(i, j)]
    else
      TurnKeepsTrack(s, i, j, error);
      [s.Reached(i, j)] + Visits(s, NextAcross(s, i, error), NextDown(s, j, error), NextError(s, error))
  }

  ghost function LinePath(s: Segment): seq<Point> {
    Visits(s, 0, 0, s.Dx() - s.Dy())
  }

  predicate Neighbours(p: Point, q: Point) {
    p != q && -1 <= p.x - q.x <= 1 && -1 <= p.y - q.y <= 1
  }

  /** Twice the minor-axis distance of `p` from the ideal segment, times the major-axis length,
      is the cross product of the two directions. */
  function Cross(s: Segment, p: Point): int {
    (s.end.x - s.start.x) * (p.y - s.start.y) - (s.end.y - s.start.y) * (p.x - s.start.x)
  }

  lemma CrossIsDeviation(s: Segment, i: int, j: int)
    ensures Abs(Cross(s, s.Reached(i, j))) == Abs(s.Dx() * j - s.Dy() * i)
  {
    var a, b, sx, sy := s.Dx(), s.Dy(), s.Sx(), s.Sy();
    assert s.end.x - s.start.x == sx * a && s.end.y - s.start.y == sy * b;
    assert (sx * a) * (sy * j) - (sy * b) * (sx * i) == (sx * sy) * (a * j - b * i);
    assert sx * sy == 1 || sx * sy == -1;
  }

  lemma {:induction false} VisitsEnds(s: Segment, i: int, j: int, error: int)
    requires OnTrack(s, i, j, error)
    ensures |Visits(s, i, j, error)| == s.Steps() - Progress(s, i, j) + 1
    ensures Visits(s, i, j, error)[0] == s.Reached(i, j)
    ensures Visits(s, i, j, error)[|Visits(s, i, j, error)| - 1] == s.end
    decreases s.Steps() - Progress(s, i, j)
  {
    ArrivesTogether(s, i, j, error);
    if i == s.Dx() && j == s.Dy() {
      assert s.Reached(i, j) == s.end;
    } else {
      TurnKeepsTrack(s, i, j, error);
      VisitsEnds(s, NextAcross(s, i, error), NextDown(s, j, error), NextError(s, error));
    }
  }

  /** The `k`-th point of the walk, with the steps that lead to it. */
  lemma {:induction false} VisitsPoint(s: Segment, i: int, j: int, error: int, k: nat) returns (i': int, j': int, error': int)
    requires OnTrack(s, i, j, error)
    requires k < |Visits(s, i, j, error)|
    ensures OnTrack(s, i', j', error')
    ensures Visits(s, i, j, error)[k..] == Visits(s, i', j', error')
    ensures Progress(s, i', j') == Progress(s, i, j) + k
    decreases s.Steps() - Progress(s, i, j)
  {
    if k == 0 {
      i', j', error' := i, j, error;
    } else {
      ArrivesTogether(s, i, j, error);
      TurnKeepsTrack(s, i, j, error);
      var i1, j1, e1 := NextAcross(s, i, error), NextDown(s, j, error), NextError(s, error);
      i', j', error' := VisitsPoint(s, i1, j1, e1, k - 1);
      assert Visits(s, i, j, error)[k..] == Visits(s, i1, j1, e1)[k - 1..];
    }
  }

  /** A coordinate of the ideal segment: `offset` along an axis of length `run`, rising by `rise`. */
  function Ideal(origin: int, offset: int, rise: int, run: int): real
    requires run != 0
  {
    origin as real + offset as real * rise as real / run as real
  }

  predicate WithinHalfPixel(s: Segment, p: Point) {
    if s.start == s.end then p == s.start
    else if s.Dx() >= s.Dy() then -0.5 <= p.y as real - Ideal(s.start.y, p.x - s.start.x, s.end.y - s.start.y, s.end.x - s.start.x) <= 0.5
    else -0.5 <= p.x as real - Ideal(s.start.x, p.y - s.start.y, s.end.x - s.start.x, s.end.y - s.start.y) <= 0.5
  }

  lemma QuotientBound(v: real, w: real, m: real)
    requires m > 0.0
    requires -m <= 2.0 * (m * v - w) <= m
    ensures -0.5 <= v - w / m <= 0.5
  {
    var t := v - w / m;
    assert m * v - w == m * t;
    assert m * (0.5 - t) >= 0.0 && m * (0.5 + t) >= 0.0;
  }

  lemma CastProduct(a: int, b: int)
    ensures (a * b) as real == a as real * b as real
  {}

  /** The same bound for a divisor of either sign. */
  lemma SignedQuotientBound(v: real, w: real, m: real)
    requires m != 0.0
    requires var k := 2.0 * (m * v - w); if m > 0.0 then -m <= k <= m else m <= k <= -m
    ensures -0.5 <= v - w / m <= 0.5
  {
    if m > 0.0 {
      QuotientBound(v, w, m);
    } else {
      assert (-m) * v - (-w) == -(m * v - w);
      QuotientBound(v, -w, -m);
      assert -w / -m == w / m;
    }
  }

  lemma NearIdeal(origin: int, c: int, offset: int, rise: int, run: int)
    requires run != 0
    requires 2 * Abs(run * (c - origin) - offset * rise) <= Abs(run)
    ensures -0.5 <= c as real - Ideal(origin, offset, rise, run) <= 0.5
  {
    var left, right := run * (c - origin), offset * rise;
    CastProduct(run, c - origin);
    CastProduct(offset, rise);
    assert (2 * (left - right)) as real == 2.0 * (left as real - right as real);
    SignedQuotientBound((c - origin) as real, right as real, run as real);
  }

  lemma CrossForms(s: Segment, p: Point)
    ensures Abs((s.end.x - s.start.x) * (p.y - s.start.y) - (p.x - s.start.x) * (s.end.y - s.start.y)) == Abs(Cross(s, p))
    ensures Abs((s.end.y - s.start.y) * (p.x - s.start.x) - (p.y - s.start.y) * (s.end.x - s.start.x)) == Abs(Cross(s, p))
  {
    var dx, dy, px, py := s.end.x - s.start.x, s.end.y - s.start.y, p.x - s.start.x, p.y - s.start.y;
    assert Cross(s, p) == dx * py - dy * px;
  }

  lemma CrossBoundsDistance(s: Segment, p: Point)
    requires s.start != s.end
    requires 2 * Abs(Cross(s, p)) <= s.Steps()
    ensures WithinHalfPixel(s, p)
  {
    CrossForms(s, p);
    var dx, dy, px, py := s.end.x - s.start.x, s.end.y - s.start.y, p.x - s.start.x, p.y - s.start.y;
    if s.Dx() >= s.Dy() {
      NearIdeal(s.start.y, p.y, px, dy, dx);
    } else {
      NearIdeal(s.start.x, p.x, py, dx, dy);
    }
  }

  /** The walk, for every pair of endpoints: max(|dx|, |dy|) + 1 points from start to end, each
      8-adjacent to the last, the major coordinate advancing by one a point, and every point within
      half a pixel of the ideal segment along the minor axis. */
  lemma LineWalk(s: Segment)
    ensures |LinePath(s)| == s.Steps() + 1
    ensures LinePath(s)[0] == s.start && LinePath(s)[s.Steps()] == s.end
    ensures forall k :: 0 <= k < s.Steps() ==> Neighbours(LinePath(s)[k], LinePath(s)[k + 1])
    ensures forall k :: 0 <= k <= s.Steps() ==> WithinHalfPixel(s, LinePath(s)[k])
    ensures forall k :: 0 <= k <= s.Steps() ==>
              if s.Dx() >= s.Dy() then LinePath(s)[k].x == s.start.x + s.Sx() * k
              else LinePath(s)[k].y == s.start.y + s.Sy() * k
  {
    VisitsEnds(s, 0, 0, s.Dx() - s.Dy());
    forall k | 0 <= k <= s.Steps()
      ensures WithinHalfPixel(s, LinePath(s)[k])
      ensures if s.Dx() >= s.Dy() then LinePath(s)[k].x == s.start.x + s.Sx() * k
              else LinePath(s)[k].y == s.start.y + s.Sy() * k
      ensures k < s.Steps() ==> Neighbours(LinePath(s)[k], LinePath(s)[k + 1])
    {
      LinePoint(s, k);
    }
  }

  lemma LinePoint(s: Segment, k: nat)
    requires k <= s.Steps() && |LinePath(s)| == s.Steps() + 1
    ensures WithinHalfPixel(s, LinePath(s)[k])
    ensures if s.Dx() >= s.Dy() then LinePath(s)[k].x == s.start.x + s.Sx() * k
            else LinePath(s)[k].y == s.start.y + s.Sy() * k
    ensures k < s.Steps() ==> Neighbours(LinePath(s)[k], LinePath(s)[k + 1])
  {
    var i, j, error := VisitsPoint(s, 0, 0, s.Dx() - s.Dy(), k);
    VisitsEnds(s, i, j, error);
    var rest := Visits(s, i, j, error);
    assert LinePath(s)[k] == LinePath(s)[k..][0] == rest[0];
    CrossIsDeviation(s, i, j);
    if s.start != s.end {
      CrossBoundsDistance(s, s.Reached(i, j));
    }
    if k < s.Steps() {
      ArrivesTogether(s, i, j, error);
      TurnKeepsTrack(s, i, j, error);
      VisitsEnds(s, NextAcross(s, i, error), NextDown(s, j, error), NextError(s, error));
      assert LinePath(s)[k + 1] == LinePath(s)[k..][1] == rest[1];
      NextIsNeighbour(s, i, j, error);
    }
  }

  lemma NextIsNeighbour(s: Segment, i: int, j: int, error: int)
    requires OnTrack(s, i, j, error) && !(i == s.Dx() && j == s.Dy())
    ensures Neighbours(s.Reached(i, j), s.Reached(NextAcross(s, i, error), NextDown(s, j, error)))
  {
    TurnKeepsTrack(s, i, j, error);
    assert s.Sx() == 1 || s.Sx() == -1;
    assert s.Sy() == 1 || s.Sy() == -1;
  }

  // ---------------------------------------------------------------------------------------
  // Drawing

  function RowBytes(color: Color, pixels: nat): (row: seq<byte>)
    ensures |row| == 3 * pixels
    ensures forall k :: 0 <= k < pixels ==>
              row[3 * k] == color.red && row[3 * k + 1] == color.green && row[3 * k + 2] == color.blue
  {
    if pixels == 0 then [] else RowBytes(color, pixels - 1) + [color.red, color.green, color.blue]
  }

  /** The brush square around a point of the line. */
  ghost function Brush(p: Point, width: int): iset<Point> {
    Box(p.x - Max(0, width / 2), p.y - Max(0, width / 2), width, width)
  }

  /** The brush is centred: as many pixels before the point as after it, or one more before for an even width. */
  lemma BrushIsCentred(p: Point, width: int, q: Point)
    requires width >= 1
    ensures q in Brush(p, width) <==>
              && (if width % 2 == 1 then -(width - 1) <= 2 * (q.x - p.x) <= width - 1 else -width <= 2 * (q.x - p.x) <= width - 2)
              && (if width % 2 == 1 then -(width - 1) <= 2 * (q.y - p.y) <= width - 1 else -width <= 2 * (q.y - p.y) <= width - 2)
  {}

  /** The union of the brush squares of a path. */
  ghost function Swept(path: seq<Point>, width: int): iset<Point> {
    if path == [] then iset{} else Swept(path[..|path| - 1], width) + Brush(path[|path| - 1], width)
  }

  lemma {:induction false} SweptIsUnion(path: seq<Point>, width: int, p: Point)
    ensures p in Swept(path, width) <==> exists k :: 0 <= k < |path| && p in Brush(path[k], width)
  {
    if path != [] {
      var front := path[..|path| - 1];
      SweptIsUnion(front, width, p);
      assert forall k :: 0 <= k < |front| ==> front[k] == path[k];
    }
  }

  ghost function Disc(x: int, y: int, radius: int): iset<Point> {
    iset p: Point | radius >= 0 && (p.x - x) * (p.x - x) + (p.y - y) * (p.y - y) <= radius * radius
  }

  /** The disc holds the points no further than the radius from its centre, all of them in the square that is
      scanned. */
  lemma DiscInsideSquare(x: int, y: int, radius: int)
    ensures forall p: Point :: p in Disc(x, y, radius) <==>
              radius >= 0 && (p.x - x) * (p.x - x) + (p.y - y) * (p.y - y) <= radius * radius
    ensures Disc(x, y, radius) <= Box(x - radius, y - radius, 2 * radius + 1, 2 * radius + 1)
  {
    forall p | p in Disc(x, y, radius) ensures p in Box(x - radius, y - radius, 2 * radius + 1, 2 * radius + 1) {
      SquareRoot(p.x - x, p.y - y, radius);
      SquareRoot(p.y - y, p.x - x, radius);
    }
  }

  lemma SquaresGrow(a: int, b: int)
    requires 0 <= b < a
    ensures b * b < a * a
  {
    assert a * a == b * b + (a - b) * (a + b);
  }

  lemma SquareRoot(d: int, e: int, r: int)
    requires r >= 0 && d * d + e * e <= r * r
    ensures -r <= d <= r
  {
    assert e * e >= 0;
    if Abs(d) > r {
      SquaresGrow(Abs(d), r);
      assert false;
    }
  }

  /** The disc row by row. */
  lemma DiscRows(x: int, y: int, radius: int, py: int)
    requires radius >= 0
    ensures Disc(x, y, radius) * Above(py + 1) ==
            Disc(x, y, radius) * Above(py) + Disc(x, y, radius) * Box(x - radius, py, 2 * radius + 1, 1)
    ensures Disc(x, y, radius) * Above(y - radius) == iset{}
    ensures Disc(x, y, radius) * Above(y + radius + 1) == Disc(x, y, radius)
  {
    DiscInsideSquare(x, y, radius);
    var disc, square := Disc(x, y, radius), Box(x - radius, y - radius, 2 * radius + 1, 2 * radius + 1);
    assert forall p :: p in disc ==> p in square;
  }

  ghost function Above(y: int): iset<Point> { iset p: Point | p.y < y }

  /** A line drawn with the default brush. */
  ghost function Stroke(x1: int, y1: int, x2: int, y2: int): iset<Point> {
    Swept(LinePath(Segment(Point(x1, y1), Point(x2, y2))), 1)
  }

  ghost function Outline(x: int, y: int, width: int, height: int): iset<Point> {
    Stroke(x, y, x + width, y) + Stroke(x, y + height, x + width, y + height)
    + Stroke(x, y, x, y + height) + Stroke(x + width, y, x + width, y + height)
  }

  /** A stroke along a side is that side: its points, one next to the other. */
  lemma AcrossStroke(x: int, y: int, length: nat, p: Point)
    ensures p in Stroke(x, y, x + length, y) <==> p.y == y && x <= p.x <= x + length
  {
    var side := Segment(Point(x, y), Point(x + length, y));
    var path := LinePath(side);
    LineWalk(side);
    SweptIsUnion(path, 1, p);
    forall k | 0 <= k < |path| ensures path[k] == Point(x + k, y) {
      LevelPoint(side, path[k]);
      assert length == 0 ==> k == 0;
    }
    assert forall k :: 0 <= k < |path| ==> (p in Brush(path[k], 1) <==> p == path[k]);
    if p.y == y && x <= p.x <= x + length {
      assert path[p.x - x] == p;
    }
  }

  lemma LevelPoint(s: Segment, p: Point)
    requires s.start.y == s.end.y && s.start.x <= s.end.x && WithinHalfPixel(s, p)
    ensures p.y == s.start.y
  {}

  lemma DownStroke(x: int, y: int, length: nat, p: Point)
    ensures p in Stroke(x, y, x, y + length) <==> p.x == x && y <= p.y <= y + length
  {
    var side := Segment(Point(x, y), Point(x, y + length));
    var path := LinePath(side);
    LineWalk(side);
    SweptIsUnion(path, 1, p);
    forall k | 0 <= k < |path| ensures path[k] == Point(x, y + k) {
      UprightPoint(side, path[k]);
      assert length == 0 ==> k == 0;
    }
    assert forall k :: 0 <= k < |path| ==> (p in Brush(path[k], 1) <==> p == path[k]);
    if p.x == x && y <= p.y <= y + length {
      assert path[p.y - y] == p;
    }
  }

  lemma UprightPoint(s: Segment, p: Point)
    requires s.start.x == s.end.x && s.start.y <= s.end.y && WithinHalfPixel(s, p)
    ensures p.x == s.start.x
  {}

  /** The outline of a rectangle is its four sides. */
  lemma OutlineIsFourSides(x: int, y: int, width: nat, height: nat, p: Point)
    ensures p in Outline(x, y, width, height) <==>
              || (x <= p.x <= x + width && (p.y == y || p.y == y + height))
              || (y <= p.y <= y + height && (p.x == x || p.x == x + width))
  {
    AcrossStroke(x, y, width, p);
    AcrossStroke(x, y + height, width, p);
    DownStroke(x, y, height, p);
    DownStroke(x + width, y, height, p);
  }

  class Canvas {
    const width: nat
    const height: nat
    const data: array<byte>

    ghost predicate Valid() {
      data.Length == width * height * 3
    }

    constructor (width: nat, height: nat, background: Color)
      ensures Valid() && fresh(data)
      ensures this.width == width && this.height == height
      ensures forall x, y | OnCanvas(width, height, x, y) ::
                PixelOf(data[..], width, height, x, y) == background
    {
      this.width := width;
      this.height := height;
      var row := RowBytes(background, width * height);
      data := new byte[width * height * 3](i requires 0 <= i < width * height * 3 => row[i]);
      new;
      forall x, y | OnCanvas(width, height, x, y)
        ensures PixelOf(data[..], width, height, x, y) == background
      {
        PixelFits(width, height, x, y);
        assert row[3 * (y * width + x)] == background.red;
      }
    }

    method SetPixel(x: int, y: int, color: Color)
      requires Valid()
      modifies data
      ensures Painted(old(data[..]), data[..], width, height, Box(x, y, 1, 1), color)
    {
      if x < 0 || y < 0 || x >= width || y >= height {
        return;
      }
      PixelFits(width, height, x, y);
      var index := (y * width + x) * 3;
      data[index], data[index + 1], data[index + 2] := color.red, color.green, color.blue;
      forall px, py | OnCanvas(width, height, px, py)
        ensures PixelOf(data[..], width, height, px, py) ==
                 if Point(px, py) in Box(x, y, 1, 1) then color else PixelOf(old(data[..]), width, height, px, py)
      {
        PixelFits(width, height, px, py);
        PixelInRun(width, px, py, y, x, x + 1);
      }
    }

    /** One clipped row of a rectangle: a slice assignment of the same length. */
    method FillRow(row: seq<byte>, y: int, left: int, right: int, color: Color)
      requires Valid()
      requires 0 <= y < height && 0 <= left <= right <= width
      requires row == RowBytes(color, right - left)
      modifies data
      ensures Painted(old(data[..]), data[..], width, height, Box(left, y, right - left, 1), color)
    {
      var start := (y * width + left) * 3;
      if right > left {
        PixelFits(width, height, left, y);
        PixelFits(width, height, right - 1, y);
      }
      forall k | 0 <= k < |row| {
        data[start + k] := row[k];
      }
      forall px, py | OnCanvas(width, height, px, py)
        ensures PixelOf(data[..], width, height, px, py) ==
                 if Point(px, py) in Box(left, y, right - left, 1) then color else PixelOf(old(data[..]), width, height, px, py)
      {
        PixelFits(width, height, px, py);
        PixelInRun(width, px, py, y, left, right);
        var i := (py * width + px) * 3;
        if py == y && left <= px < right {
          assert i - start == 3 * (px - left);
        } else {
          assert i + 2 < start || start + |row| <= i;
        }
      }
    }

    /** Fills the part of a rectangle that lies on the canvas. Rows of no width write nothing. */
    method FillRect(x: int, y: int, width: int, height: int, color: Color)
      requires Valid()
      modifies data
      ensures Painted(old(data[..]), data[..], this.width, this.height, Box(x, y, width, height), color)
    {
      if width <= 0 || height <= 0 {
        return;
      }
      var left, right := Max(0, x), Min(this.width, x + width);
      var top, bottom := Max(0, y), Min(this.height, y + height);
      var row := RowBytes(color, Max(0, right - left));
      if left >= right || top >= bottom {
        return;
      }
      for py := top to bottom
        invariant Painted(old(data[..]), data[..], this.width, this.height,
                          Box(left, top, right - left, py - top), color)
      {
        ghost var before := data[..];
        FillRow(row, py, left, right, color);
        PaintedTwice(old(data[..]), before, data[..], this.width, this.height,
                     Box(left, top, right - left, py - top), Box(left, py, right - left, 1),
                     Box(left, top, right - left, py + 1 - top), color);
      }
    }

    method DrawRect(x: int, y: int, width: int, height: int, outline: Color)
      requires Valid()
      modifies data
      ensures Painted(old(data[..]), data[..], this.width, this.height, Outline(x, y, width, height), outline)
    {
      ghost var d0 := data[..];
      Line(x, y, x + width, y, outline, 1);
      ghost var d1 := data[..];
      Line(x, y + height, x + width, y + height, outline, 1);
      ghost var d2 := data[..];
      Line(x, y, x, y + height, outline, 1);
      ghost var d3 := data[..];
      Line(x + width, y, x + width, y + height, outline, 1);
      var top, low := Stroke(x, y, x + width, y), Stroke(x, y + height, x + width, y + height);
      PaintedTwice(d0, d1, d2, this.width, this.height, top, low, top + low, outline);
      var left := Stroke(x, y, x, y + height);
      PaintedTwice(d0, d2, d3, this.width, this.height, top + low, left, top + low + left, outline);
      PaintedTwice(d0, d3, data[..], this.width, this.height, top + low + left,
                   Stroke(x + width, y, x + width, y + height), Outline(x, y, width, height), outline);
    }

    method Circle(x: int, y: int, radius: int, color: Color)
      requires Valid()
      modifies data
      ensures Painted(old(data[..]), data[..], this.width, this.height, Disc(x, y, radius), color)
    {
      if radius < 0 {
        return;
      }
      ghost var disc := Disc(x, y, radius);
      DiscRows(x, y, radius, y);
      for py := y - radius to y + radius + 1
        invariant Painted(old(data[..]), data[..], this.width, this.height, disc * Above(py), color)
      {
        ghost var before := data[..];
        CircleRow(x, y, radius, py, color);
        DiscRows(x, y, radius, py);
        PaintedTwice(old(data[..]), before, data[..], this.width, this.height, disc * Above(py),
                     disc * Box(x - radius, py, 2 * radius + 1, 1), disc * Above(py + 1), color);
      }
    }

    /** The inner loop of `Circle`: one row of the disc. */
    method CircleRow(x: int, y: int, radius: int, py: int, color: Color)
      requires Valid() && radius >= 0
      modifies data
      ensures Painted(old(data[..]), data[..], this.width, this.height,
                      Disc(x, y, radius) * Box(x - radius, py, 2 * radius + 1, 1), color)
    {
      for px := x - radius to x + radius + 1
        invariant Painted(old(data[..]), data[..], this.width, this.height,
                          Disc(x, y, radius) * Box(x - radius, py, px - (x - radius), 1), color)
      {
        ghost var before := data[..];
        if (px - x) * (px - x) + (py - y) * (py - y) <= radius * radius {
          SetPixel(px, py, color);
          PaintedTwice(old(data[..]), before, data[..], this.width, this.height,
                       Disc(x, y, radius) * Box(x - radius, py, px - (x - radius), 1), Box(px, py, 1, 1),
                       Disc(x, y, radius) * Box(x - radius, py, px + 1 - (x - radius), 1), color);
        }
      }
    }

    /** One brush of the line, on top of the brushes drawn so far. */
    method StampBrush(x: int, y: int, color: Color, width: int, ghost blank: seq<byte>, ghost path: seq<Point>)
      requires Valid()
      requires |blank| == data.Length
      requires Painted(blank, data[..], this.width, this.height, Swept(path, width), color)
      modifies data
      ensures Painted(blank, data[..], this.width, this.height, Swept(path + [Point(x, y)], width), color)
    {
      var radius := Max(0, width / 2);
      ghost var before := data[..];
      FillRect(x - radius, y - radius, width, width, color);
      assert (path + [Point(x, y)])[..|path|] == path;
      PaintedTwice(blank, before, data[..], this.width, this.height, Swept(path, width),
                   Brush(Point(x, y), width), Swept(path + [Point(x, y)], width), color);
    }

    /** Draws the whole walk: afterwards exactly the clipped union of the brush squares of
        `LinePath` has the colour. */
    method Line(x1: int, y1: int, x2: int, y2: int, color: Color, width: int)
      requires Valid()
      modifies data
      ensures Painted(old(data[..]), data[..], this.width, this.height,
                      Swept(LinePath(Segment(Point(x1, y1), Point(x2, y2))), width), color)
    {
      ghost var s := Segment(Point(x1, y1), Point(x2, y2));
      var dx, dy := Abs(x2 - x1), -Abs(y2 - y1);
      var sx, sy := if x1 < x2 then 1 else -1, if y1 < y2 then 1 else -1;
      var error := dx + dy;
      var x, y := x1, y1;
      ghost var i, j, path := 0, 0, [];
      while true
        invariant OnTrack(s, i, j, error)
        invariant Point(x, y) == s.Reached(i, j)
        invariant LinePath(s) == path + Visits(s, i, j, error)
        invariant Painted(old(data[..]), data[..], this.width, this.height, Swept(path, width), color)
        decreases s.Steps() - Progress(s, i, j)
      {
        StampBrush(x, y, color, width, old(data[..]), path);
        ReachedEnd(s, i, j, error);
        path := path + [Point(x, y)];
        if x == x2 && y == y2 {
          assert path == LinePath(s);
          break;
        }
        TurnKeepsTrack(s, i, j, error);
        x, y, i, j, error := Advance(s, x, y, i, j, error, dx, dy, sx, sy);
      }
    }
  }

  /** The tail of the loop body: both tests look at the error as it was on entry. */
  method Advance(ghost s: Segment, x: int, y: int, ghost i: int, ghost j: int, error: int,
                 dx: int, dy: int, sx: int, sy: int)
    returns (x': int, y': int, ghost i': int, ghost j': int, error': int)
    requires dx == s.Dx() && dy == -s.Dy() && sx == s.Sx() && sy == s.Sy()
    requires Point(x, y) == s.Reached(i, j)
    ensures i' == NextAcross(s, i, error) && j' == NextDown(s, j, error)
    ensures error' == NextError(s, error)
    ensures Point(x', y') == s.Reached(i', j')
  {
    x', y', error' := x, y, error;
    var error2 := 2 * error;
    if error2 >= dy {
      error' := error' + dy;
      x' := x' + sx;
    }
    if error2 <= dx {
      error' := error' + dx;
      y' := y' + sy;
    }
    i', j' := NextAcross(s, i, error), NextDown(s, j, error);
    assert sx * (i + 1) == sx * i + sx && sy * (j + 1) == sy * j + sy;
  }
}
