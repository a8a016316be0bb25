/** Sampling a mathematical function into points: the abscissa starts at the
    function's xMin and advances by its fixed step while it is below xMax; the
    images outside [yMin, yMax] are dropped. Arithmetic is exact (reals). */
module Sampler {
  import opened Common
  import opened Arith
  import opened Sorting

  /** The sampling precisions and the number of samples each one takes. */
  datatype Precision = VeryHigh | High | Medium | Low {
    function Count(): (n: nat)
      ensures 100 <= n <= 100000
    {
      match this
      case VeryHigh => 100000
      case High => 10000
      case Medium => 1000
      case Low => 100
    }
  }

  /** Each precision takes ten times the samples of the one below it. */
  lemma PrecisionTenfold()
    ensures VeryHigh.Count() == 10 * High.Count()
    ensures High.Count() == 10 * Medium.Count()
    ensures Medium.Count() == 10 * Low.Count()
    ensures Low.Count() == 100
  {
  }

  /** What the user's calculateFunction gives for one abscissa: its value,
      or the exception it throws, which the widget reports as an evaluation
      failure. */
  type Outcome = r: Result<real> | r.Ok? || r.error.Evaluation? witness Ok(0.0)

  /** A mathematical function with its sampling parameters. calculate is the
      user's evaluation (it may fail); text is the user's toString, None
      when it returns null. */
  datatype MathFunction = MathFunction(
    offSet: real, xMin: real, xMax: real, yMin: real, yMax: real,
    color: Option<Color>, bode: bool,
    calculate: real -> Outcome, text: Option<string>)

  /** The constructor. The step is computed from the bounds as given, before
      the bode expansion of the domain to powers of ten (pow10 stands for
      Math.pow(10, .)). */
  function NewMathFunction(xMin: real, xMax: real, yMin: real, yMax: real, color: Option<Color>,
                           precision: Precision, bode: bool, pow10: real -> real,
                           calculate: real -> Outcome, text: Option<string>): (m: MathFunction)
    ensures m.offSet * precision.Count() as real == xMax - xMin
    ensures !bode ==> m.xMin == xMin && m.xMax == xMax
    ensures bode ==> m.xMin == pow10(xMin) && m.xMax == pow10(xMax)
    ensures m.yMin == yMin && m.yMax == yMax && m.color == color && m.bode == bode
    ensures m.calculate == calculate && m.text == text
  {
    var p := precision.Count() as real;
    MathFunction((xMax - xMin) / p,
                 if bode then pow10(xMin) else xMin,
                 if bode then pow10(xMax) else xMax,
                 yMin, yMax, color, bode, calculate, text)
  }

  /** The k-th abscissa visited. */
  function Abscissa(m: MathFunction, k: nat): real {
    m.xMin + k as real * m.offSet
  }

  /** The sampling loop stops: a non-empty domain has a positive step. */
  ghost predicate Terminates(m: MathFunction) {
    m.xMin < m.xMax ==> m.offSet > 0.0
  }

  /** The number of abscissae the loop visits: every one before it is below
      xMax, the next one is not. */
  function VisitCount(m: MathFunction): (n: nat)
    requires Terminates(m)
    ensures forall k :: 0 <= k < n ==> Abscissa(m, k) < m.xMax
    ensures Abscissa(m, n) >= m.xMax
  {
    if m.xMin < m.xMax then
      var q := (m.xMax - m.xMin) / m.offSet;
      var n := -((-q).Floor);
      VisitCountBounds(m, q, n);
      n
    else 0
  }

  lemma VisitCountBounds(m: MathFunction, q: real, n: int)
    requires m.xMin < m.xMax && m.offSet > 0.0
    requires q == (m.xMax - m.xMin) / m.offSet && q <= n as real < q + 1.0
    ensures n >= 1
    ensures forall k :: 0 <= k < n ==> Abscissa(m, k) < m.xMax
    ensures Abscissa(m, n) >= m.xMax
  {
    var s := m.offSet;
    assert q * s == m.xMax - m.xMin;
    MultiplyPositive(q, s);
    ScaleWeak(q, n as real, s);
    forall k: nat | k < n ensures Abscissa(m, k) < m.xMax {
      ScaleStrict(k as real, q, s);
    }
  }

  /** In linear mode with xMin < xMax the loop visits exactly as many
      abscissae as the precision's count. */
  lemma {:induction false} LinearVisitCount(xMin: real, xMax: real, yMin: real, yMax: real, color: Option<Color>,
                                            precision: Precision, pow10: real -> real,
                                            calculate: real -> Outcome, text: Option<string>)
    requires xMin < xMax
    ensures var m := NewMathFunction(xMin, xMax, yMin, yMax, color, precision, false, pow10, calculate, text);
            Terminates(m) && VisitCount(m) == precision.Count()
  {
    var m := NewMathFunction(xMin, xMax, yMin, yMax, color, precision, false, pow10, calculate, text);
    var p := precision.Count() as real;
    var s := m.offSet;
    assert s * p == xMax - xMin;
    assert s > 0.0 by {
      if s <= 0.0 { MultiplyNonNegative(-s, p); assert false; }
    }
    QuotientOfProduct(xMax - xMin, s, p);
  }

  /** In any mode, an empty or inverted domain is visited nowhere. */
  lemma EmptyDomainNoVisit(m: MathFunction)
    requires m.xMin >= m.xMax
    ensures Terminates(m) && VisitCount(m) == 0
  {
  }

  function InWindow(m: MathFunction, y: real): bool {
    y <= m.yMax && y >= m.yMin
  }

  /** The outcome of visiting the first n abscissae: the kept points in
      visiting order, or the first evaluation failure. */
  function Sample(m: MathFunction, n: nat): (r: Result<seq<Point>>)
    ensures r.Err? ==> r.error.Evaluation?
  {
    if n == 0 then Ok([])
    else
      match Sample(m, n - 1)
      case Err(e) => Err(e)
      case Ok(ps) =>
        var x := Abscissa(m, n - 1);
        match m.calculate(x)
        case Err(e) => Err(e)
        case Ok(y) => if InWindow(m, y) then Ok(ps + [Point(x, y)]) else Ok(ps)
  }

  lemma {:induction false} SampleErrorPersists(m: MathFunction, j: nat, n: nat)
    requires j <= n && Sample(m, j).Err?
    ensures Sample(m, n) == Sample(m, j)
    decreases n
  {
    if j < n {
      SampleErrorPersists(m, j, n - 1);
    }
  }

  /** The sampling loop of addMathFunction, without registering the result. */
  method SamplePoints(m: MathFunction) returns (r: Result<seq<Point>>)
    requires Terminates(m)
    ensures r == Sample(m, VisitCount(m))
  {
    var points: seq<Point> := [];
    var x := m.xMin;
    ghost var n := VisitCount(m);
    ghost var k: nat := 0;
    while x < m.xMax
      invariant k <= n
      invariant x == Abscissa(m, k)
      invariant Sample(m, k) == Ok(points)
      decreases n - k
    {
      var image := m.calculate(x);
      if image.Err? {
        SampleErrorPersists(m, k + 1, n);
        return Err(image.error);
      }
      if image.value <= m.yMax && image.value >= m.yMin {
        points := points + [Point(x, image.value)];
      }
      StepOnce(k, m.offSet);
      x := x + m.offSet;
      k := k + 1;
    }
    return Ok(points);
  }

  /** Sampling succeeds exactly when no visited abscissa makes the function fail. */
  lemma {:induction false} SampleOkIff(m: MathFunction, n: nat)
    ensures Sample(m, n).Ok? <==> forall k :: 0 <= k < n ==> m.calculate(Abscissa(m, k)).Ok?
    decreases n
  {
    if n > 0 {
      SampleOkIff(m, n - 1);
      if Sample(m, n - 1).Err? {
        var k :| 0 <= k < n - 1 && !m.calculate(Abscissa(m, k)).Ok?;
      }
    }
  }

  /** A failed sampling reports the failure of the first abscissa that failed. */
  lemma {:induction false} SampleFirstError(m: MathFunction, n: nat, k: nat)
    requires k < n && m.calculate(Abscissa(m, k)).Err?
    requires forall j :: 0 <= j < k ==> m.calculate(Abscissa(m, j)).Ok?
    ensures Sample(m, n) == Err(m.calculate(Abscissa(m, k)).error)
  {
    SampleOkIff(m, k);
    SampleErrorPersists(m, k + 1, n);
  }

  /** Every kept point is (x, f(x)) for a visited abscissa x, with f(x) in
      the window [yMin, yMax]. */
  lemma {:induction false} SampleSound(m: MathFunction, n: nat)
    requires Sample(m, n).Ok?
    ensures forall i :: 0 <= i < |Sample(m, n).value| ==>
      var p := Sample(m, n).value[i];
      m.yMin <= p.y <= m.yMax && m.calculate(p.x) == Ok(p.y)
      && exists k :: 0 <= k < n && p.x == Abscissa(m, k)
    decreases n
  {
    if n > 0 {
      SampleSound(m, n - 1);
      var ps := Sample(m, n - 1).value;
      forall i | 0 <= i < |Sample(m, n).value|
        ensures var p := Sample(m, n).value[i];
          m.yMin <= p.y <= m.yMax && m.calculate(p.x) == Ok(p.y)
          && exists k :: 0 <= k < n && p.x == Abscissa(m, k)
      {
        if i < |ps| {
          assert Sample(m, n).value[i] == ps[i];
          var k :| 0 <= k < n - 1 && ps[i].x == Abscissa(m, k);
        } else {
          assert Sample(m, n).value[i].x == Abscissa(m, n - 1);
        }
      }
    }
  }

  /** Every visited abscissa whose image lies in the window is kept. */
  lemma {:induction false} SampleComplete(m: MathFunction, n: nat, k: nat)
    requires Sample(m, n).Ok? && k < n
    requires m.calculate(Abscissa(m, k)).Ok? && InWindow(m, m.calculate(Abscissa(m, k)).value)
    ensures Point(Abscissa(m, k), m.calculate(Abscissa(m, k)).value) in Sample(m, n).value
    decreases n
  {
    if k < n - 1 {
      SampleComplete(m, n - 1, k);
    }
  }

  /** With a positive step the kept abscissae strictly ascend and all lie
      before the n-th abscissa. */
  lemma {:induction false} SampleAscending(m: MathFunction, n: nat)
    requires m.offSet > 0.0 && Sample(m, n).Ok?
    ensures StrictlyAscendingX(Sample(m, n).value)
    ensures forall i :: 0 <= i < |Sample(m, n).value| ==> Sample(m, n).value[i].x < Abscissa(m, n)
    decreases n
  {
    if n > 0 {
      SampleAscending(m, n - 1);
      StepOnce(n - 1, m.offSet);
    }
  }

  /** Everything sampled lies in [xMin, xMax) and in the window, strictly
      ascending by abscissa. */
  lemma SampledDomain(m: MathFunction)
    requires Terminates(m) && Sample(m, VisitCount(m)).Ok?
    ensures var ps := Sample(m, VisitCount(m)).value;
      StrictlyAscendingX(ps)
      && forall i :: 0 <= i < |ps| ==> m.xMin <= ps[i].x < m.xMax && m.yMin <= ps[i].y <= m.yMax
  {
    var n := VisitCount(m);
    var ps := Sample(m, n).value;
    if n > 0 {
      SampleAscending(m, n);
      SampleSound(m, n);
      forall i | 0 <= i < |ps| ensures m.xMin <= ps[i].x < m.xMax {
        var k :| 0 <= k < n && ps[i].x == Abscissa(m, k);
        MultiplyNonNegative(k as real, m.offSet);
      }
    }
  }

  /** No more points than visited abscissae; all of them when every image is
      defined and in the window. */
  lemma {:induction false} SampleLength(m: MathFunction, n: nat)
    requires Sample(m, n).Ok?
    ensures |Sample(m, n).value| <= n
    ensures (forall k :: 0 <= k < n ==>
               m.calculate(Abscissa(m, k)).Ok? && InWindow(m, m.calculate(Abscissa(m, k)).value))
            ==> |Sample(m, n).value| == n
    decreases n
  {
    if n > 0 {
      SampleLength(m, n - 1);
    }
  }
}
