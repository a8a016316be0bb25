/** The linear coordinate transform between function space and pixel space.
    Doubles are modelled as reals; Java's Math.round, which the widget applies
    to every pixel position, is modelled exactly by Round. */
module Transform {
  import opened Arith

  /** Math.round: the nearest integer, a half rounded up (floor(v + 1/2)). */
  function Round(v: real): (r: int)
    ensures v - 0.5 < r as real <= v + 0.5
  {
    (v + 0.5).Floor
  }

  function Abs(v: real): (a: real)
    ensures a >= 0.0 && (a == v || a == -v)
  {
    if v < 0.0 then -v else v
  }

  lemma RoundMonotone(a: real, b: real)
    requires a <= b
    ensures Round(a) <= Round(b)
  {
  }

  lemma RoundOfInt(n: int)
    ensures Round(n as real) == n
  {
  }

  /** Pixels per logical unit along one axis: the extent of the surface divided
      by the width of the view, rounded. */
  function UnitPixels(extent: int, lo: real, hi: real): (u: int)
    requires lo < hi && extent >= 0
    ensures u >= 0
    ensures (u as real - 0.5) * (hi - lo) <= extent as real < (u as real + 0.5) * (hi - lo)
  {
    var r := Round(extent as real / (hi - lo));
    RoundOfQuotient(extent as real, hi - lo);
    r
  }

  /** Round(e / w) is within half a unit of e / w, scaled back by w. */
  lemma RoundOfQuotient(e: real, w: real)
    requires w > 0.0
    ensures (Round(e / w) as real - 0.5) * w <= e < (Round(e / w) as real + 0.5) * w
  {
    var q := e / w;
    ScaleBounds(Round(q) as real, q, w, e);
  }

  lemma ScaleBounds(r: real, q: real, w: real, e: real)
    requires w > 0.0 && q * w == e && r - 0.5 <= q < r + 0.5
    ensures (r - 0.5) * w <= e < (r + 0.5) * w
  {
    ScaleLower(r - 0.5, q, w, e);
    ScaleUpper(r + 0.5, q, w, e);
  }

  lemma ScaleLower(a: real, q: real, w: real, e: real)
    requires w > 0.0 && q * w == e && a <= q
    ensures a * w <= e
  {
    MultiplyNonNegative(q - a, w);
  }

  lemma ScaleUpper(d: real, q: real, w: real, e: real)
    requires w > 0.0 && q * w == e && q < d
    ensures e < d * w
  {
    MultiplyPositive(d - q, w);
  }

  /** The pixel offset of an axis line: round(extent * (v * unit / extent)).
      For an empty surface the double arithmetic yields NaN, which Math.round
      turns into 0. */
  function AxisOffset(extent: int, v: real, unit: int): (p: int)
    requires extent >= 0
    ensures p == if extent == 0 then 0 else Round(v * unit as real)
    ensures extent > 0 && v >= 0.0 && unit >= 0 ==> p >= 0
  {
    if extent == 0 then 0
    else
      var e := extent as real;
      assert e * (v * unit as real / e) == v * unit as real;
      Round(e * (v * unit as real / e))
  }

  /** transformX in linear mode: the pixel column nearest to abscissa x,
      a half rounded towards the right. */
  function TransformX(x: real, unitPixelsX: int, axisWidth: int): (c: int)
    ensures c as real - 0.5 <= axisWidth as real + x * unitPixelsX as real < c as real + 0.5
  {
    Round(axisWidth as real + x * unitPixelsX as real)
  }

  /** transformY: the pixel row nearest to ordinate y (rows grow
      downwards), a half rounded downwards. */
  function TransformY(y: real, unitPixelsY: int, axisHeight: int): (r: int)
    ensures r as real - 0.5 <= axisHeight as real - y * unitPixelsY as real < r as real + 0.5
  {
    Round(axisHeight as real - y * unitPixelsY as real)
  }

  /** The definitions of TransformX and TransformY as facts, for proofs where
      the solver would otherwise reason about the products non-linearly. */
  lemma TransformXIs(x: real, unitPixelsX: int, axisWidth: int)
    ensures TransformX(x, unitPixelsX, axisWidth) == Round(axisWidth as real + x * unitPixelsX as real)
  {
  }

  lemma TransformYIs(y: real, unitPixelsY: int, axisHeight: int)
    ensures TransformY(y, unitPixelsY, axisHeight) == Round(axisHeight as real - y * unitPixelsY as real)
  {
  }

  /** The abscissa under pixel column pixelX (linear mode). */
  function InverseX(pixelX: int, axisWidth: int, unitPixelsX: int): (x: real)
    requires unitPixelsX != 0
    ensures x * unitPixelsX as real == (pixelX - axisWidth) as real
  {
    (pixelX - axisWidth) as real / unitPixelsX as real
  }

  /** The ordinate under pixel row pixelY. */
  function InverseY(pixelY: int, axisHeight: int, unitPixelsY: int): (y: real)
    requires unitPixelsY != 0
    ensures y * unitPixelsY as real == (axisHeight - pixelY) as real
  {
    (axisHeight - pixelY) as real / unitPixelsY as real
  }

  lemma TransformXAtZero(unitPixelsX: int, axisWidth: int)
    ensures TransformX(0.0, unitPixelsX, axisWidth) == axisWidth
  {
    RoundOfInt(axisWidth);
  }

  lemma TransformYAtZero(unitPixelsY: int, axisHeight: int)
    ensures TransformY(0.0, unitPixelsY, axisHeight) == axisHeight
  {
    RoundOfInt(axisHeight);
  }

  lemma TransformXMonotone(x1: real, x2: real, unitPixelsX: int, axisWidth: int)
    requires x1 <= x2 && unitPixelsX >= 0
    ensures TransformX(x1, unitPixelsX, axisWidth) <= TransformX(x2, unitPixelsX, axisWidth)
  {
    var u := unitPixelsX as real;
    assert x1 * u <= x2 * u by { MultiplyNonNegative(x2 - x1, u); }
    RoundMonotone(axisWidth as real + x1 * u, axisWidth as real + x2 * u);
  }

  lemma TransformYAntitone(y1: real, y2: real, unitPixelsY: int, axisHeight: int)
    requires y1 <= y2 && unitPixelsY >= 0
    ensures TransformY(y2, unitPixelsY, axisHeight) <= TransformY(y1, unitPixelsY, axisHeight)
  {
    var u := unitPixelsY as real;
    assert y1 * u <= y2 * u by { MultiplyNonNegative(y2 - y1, u); }
    RoundMonotone(axisHeight as real - y2 * u, axisHeight as real - y1 * u);
  }

  /** Mapping a pixel column to its abscissa and back gives the same column. */
  lemma InverseXThenTransformX(pixelX: int, axisWidth: int, unitPixelsX: int)
    requires unitPixelsX != 0
    ensures TransformX(InverseX(pixelX, axisWidth, unitPixelsX), unitPixelsX, axisWidth) == pixelX
  {
    var u := unitPixelsX as real;
    assert InverseX(pixelX, axisWidth, unitPixelsX) * u == (pixelX - axisWidth) as real;
    RoundOfInt(pixelX);
  }

  lemma InverseYThenTransformY(pixelY: int, axisHeight: int, unitPixelsY: int)
    requires unitPixelsY != 0
    ensures TransformY(InverseY(pixelY, axisHeight, unitPixelsY), unitPixelsY, axisHeight) == pixelY
  {
    var u := unitPixelsY as real;
    assert InverseY(pixelY, axisHeight, unitPixelsY) * u == (axisHeight - pixelY) as real;
    RoundOfInt(pixelY);
  }

  /** Mapping an abscissa to its pixel column and back lands within half a
      pixel's worth of logical units of where it started. */
  lemma TransformXThenInverseX(x: real, unitPixelsX: int, axisWidth: int)
    requires unitPixelsX > 0
    ensures var back := InverseX(TransformX(x, unitPixelsX, axisWidth), axisWidth, unitPixelsX);
            x - 0.5 / unitPixelsX as real < back <= x + 0.5 / unitPixelsX as real
  {
    var u := unitPixelsX as real;
    var p := TransformX(x, unitPixelsX, axisWidth);
    var d := (p - axisWidth) as real;
    assert x * u - 0.5 < d <= x * u + 0.5;
    DivideBounds(x * u - 0.5, d, x * u + 0.5, u);
    assert (x * u - 0.5) / u == x - 0.5 / u;
    assert (x * u + 0.5) / u == x + 0.5 / u;
  }

  lemma TransformYThenInverseY(y: real, unitPixelsY: int, axisHeight: int)
    requires unitPixelsY > 0
    ensures var back := InverseY(TransformY(y, unitPixelsY, axisHeight), axisHeight, unitPixelsY);
            y - 0.5 / unitPixelsY as real <= back < y + 0.5 / unitPixelsY as real
  {
    var u := unitPixelsY as real;
    var p := TransformY(y, unitPixelsY, axisHeight);
    var d := (axisHeight - p) as real;
    assert y * u - 0.5 <= d < y * u + 0.5;
    DivideBounds(y * u - 0.5, d, y * u + 0.5, u);
    assert (y * u - 0.5) / u == y - 0.5 / u;
    assert (y * u + 0.5) / u == y + 0.5 / u;
  }

  /** For c > 0, dividing every side by c keeps the (weak) order. */
  lemma DivideBounds(a: real, b: real, d: real, c: real)
    requires c > 0.0 && a <= b <= d
    ensures a / c <= b / c <= d / c
    ensures a < b ==> a / c < b / c
    ensures b < d ==> b / c < d / c
  {
    assert a / c * c == a && b / c * c == b && d / c * c == d;
  }

  /** The top of the view (ordinate yMax) lands on pixel row 0 or 1 once the
      x-axis has been placed at AxisOffset(height, yMax, unit). */
  lemma TopEdgeAtFirstRow(height: int, yMax: real, unitPixelsY: int)
    requires height > 0
    ensures var r := TransformY(yMax, unitPixelsY, AxisOffset(height, yMax, unitPixelsY));
            0 <= r <= 1
  {
  }

  /** The left edge of the view (abscissa xMin <= 0) lands on pixel column 0
      or 1 once the y-axis has been placed at AxisOffset(width, |xMin|, unit). */
  lemma LeftEdgeAtFirstColumn(width: int, xMin: real, unitPixelsX: int)
    requires width > 0 && xMin <= 0.0
    ensures var c := TransformX(xMin, unitPixelsX, AxisOffset(width, Abs(xMin), unitPixelsX));
            0 <= c <= 1
  {
    assert Abs(xMin) * unitPixelsX as real == -(xMin * unitPixelsX as real);
  }
}
