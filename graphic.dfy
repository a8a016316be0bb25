/** The plotting widget's state: the function registry, the view bounds and
    the label scale, with the operations that validate and update them, the
    axis-label walks, and the registration of a sampled mathematical function. */
module Plot {
  import opened Common
  import opened Arith
  import opened Text
  import opened Sorting
  import opened Transform
  import opened Ticks
  import opened Functions
  import opened Sampler

  /** after is before with key bound to a record of points, named key, in
      colour: every other entry is untouched. */
  ghost predicate StoredAs(before: map<string, Function>, after: map<string, Function>,
                          key: string, points: array<Point>, color: Color)
  {
    && key in after
    && after == before[key := after[key]]
    && after[key].points == points && after[key].name == key && after[key].color == color
  }

  /** The labels of a y-axis that crosses the x-axis sit where the transform
      puts their value: the row of label v is TransformY(v). */
  lemma YLabelsOnTransform(ticks: seq<Tick>, axisHeight: int, unitPixelsY: int, yScale: real, height: real)
    requires IsTwoWayWalk(ticks, axisHeight as real, unitPixelsY as real * yScale, height, Value(0.0), yScale, -yScale)
    ensures forall t :: t in ticks ==>
      t.caption.Value? && Round(t.pos) == TransformY(t.caption.v, unitPixelsY, axisHeight)
  {
    var step := unitPixelsY as real * yScale;
    var n :| 0 <= n <= |ticks|
      && IsBackWalk(ticks[..n], axisHeight as real, step, Value(0.0), yScale)
      && IsForwardWalk(ticks[n..], axisHeight as real, step, height, Value(0.0), -yScale);
    var up, down := ticks[..n], ticks[n..];
    forall i | 0 <= i < |up|
      ensures up[i].caption.Value? && Round(up[i].pos) == TransformY(up[i].caption.v, unitPixelsY, axisHeight)
    {
      BackWalkTick(up, axisHeight as real, step, Value(0.0), yScale, i);
      RowAbove(up[i], axisHeight, unitPixelsY, yScale, i);
    }
    forall i | 0 <= i < |down|
      ensures down[i].caption.Value? && Round(down[i].pos) == TransformY(down[i].caption.v, unitPixelsY, axisHeight)
    {
      ForwardWalkTick(down, axisHeight as real, step, height, Value(0.0), -yScale, i);
      RowBelow(down[i], axisHeight, unitPixelsY, yScale, i);
    }
    assert ticks == up + down;
  }

  /** The labels of a linear x-axis that crosses the y-axis sit where the
      transform puts their value: the column of label v is TransformX(v). */
  lemma XLabelsOnTransform(ticks: seq<Tick>, axisWidth: int, unitPixelsX: int, xScale: real, width: real)
    requires IsTwoWayWalk(ticks, axisWidth as real, unitPixelsX as real * xScale, width, Value(0.0), -xScale, xScale)
    ensures forall t :: t in ticks ==>
      t.caption.Value? && Round(t.pos) == TransformX(t.caption.v, unitPixelsX, axisWidth)
  {
    var step := unitPixelsX as real * xScale;
    var n :| 0 <= n <= |ticks|
      && IsBackWalk(ticks[..n], axisWidth as real, step, Value(0.0), -xScale)
      && IsForwardWalk(ticks[n..], axisWidth as real, step, width, Value(0.0), xScale);
    var left, right := ticks[..n], ticks[n..];
    forall i | 0 <= i < |left|
      ensures left[i].caption.Value? && Round(left[i].pos) == TransformX(left[i].caption.v, unitPixelsX, axisWidth)
    {
      BackWalkTick(left, axisWidth as real, step, Value(0.0), -xScale, i);
      ColumnLeft(left[i], axisWidth, unitPixelsX, xScale, i);
    }
    forall i | 0 <= i < |right|
      ensures right[i].caption.Value? && Round(right[i].pos) == TransformX(right[i].caption.v, unitPixelsX, axisWidth)
    {
      ForwardWalkTick(right, axisWidth as real, step, width, Value(0.0), xScale, i);
      ColumnRight(right[i], axisWidth, unitPixelsX, xScale, i);
    }
    assert ticks == left + right;
  }

  lemma RowAbove(t: Tick, axisHeight: int, unitPixelsY: int, yScale: real, k: nat)
    requires t == Tick(axisHeight as real - k as real * (unitPixelsY as real * yScale), Value(0.0 + k as real * yScale))
    ensures Round(t.pos) == TransformY(t.caption.v, unitPixelsY, axisHeight)
  {
    var v := 0.0 + k as real * yScale;
    Reassociate(k as real, unitPixelsY as real, yScale);
    assert t.pos == axisHeight as real - v * unitPixelsY as real;
    TransformYIs(v, unitPixelsY, axisHeight);
  }

  lemma RowBelow(t: Tick, axisHeight: int, unitPixelsY: int, yScale: real, k: nat)
    requires t == Tick(axisHeight as real + k as real * (unitPixelsY as real * yScale), Value(0.0 + k as real * -yScale))
    ensures Round(t.pos) == TransformY(t.caption.v, unitPixelsY, axisHeight)
  {
    var v := 0.0 + k as real * -yScale;
    ReassociateNegated(k as real, unitPixelsY as real, yScale);
    assert t.pos == axisHeight as real - v * unitPixelsY as real;
    TransformYIs(v, unitPixelsY, axisHeight);
  }

  lemma ColumnLeft(t: Tick, axisWidth: int, unitPixelsX: int, xScale: real, k: nat)
    requires t == Tick(axisWidth as real - k as real * (unitPixelsX as real * xScale), Value(0.0 + k as real * -xScale))
    ensures Round(t.pos) == TransformX(t.caption.v, unitPixelsX, axisWidth)
  {
    var v := 0.0 + k as real * -xScale;
    ReassociateNegated(k as real, unitPixelsX as real, xScale);
    assert t.pos == axisWidth as real + v * unitPixelsX as real;
    TransformXIs(v, unitPixelsX, axisWidth);
  }

  lemma ColumnRight(t: Tick, axisWidth: int, unitPixelsX: int, xScale: real, k: nat)
    requires t == Tick(axisWidth as real + k as real * (unitPixelsX as real * xScale), Value(0.0 + k as real * xScale))
    ensures Round(t.pos) == TransformX(t.caption.v, unitPixelsX, axisWidth)
  {
    var v := 0.0 + k as real * xScale;
    Reassociate(k as real, unitPixelsX as real, xScale);
    assert t.pos == axisWidth as real + v * unitPixelsX as real;
    TransformXIs(v, unitPixelsX, axisWidth);
  }

  /** The key addFunction stores under: the name given, or "F" + the
      registry size when there is none. */
  function RegistryKey(name: Option<string>, size: nat): (key: string)
    ensures name.Some? ==> key == name.value
    ensures name.None? ==> key == AutoName(size) && IsReserved(key)
  {
    if name.Some? then name.value else AutoName(size)
  }

  /** A view that makes both writers hang on a 500-pixel surface: with x
      in [-1, 1] and y in [-1000, 1000] both axes are visible, the y unit is
      round(500 / 2000) = 0 pixels and the x-axis row is 0, so the downward
      walk of writeYAxis starts at row 0 < 500 and never moves; with the
      roles swapped the same holds for writeXAxis. */
  lemma HangingAxesExample(g: Graphic)
    requires g.Valid()
    ensures g.xMin == -1.0 && g.xMax == 1.0 && g.yMin == -1000.0 && g.yMax == 1000.0 ==>
      && UnitPixels(500, g.yMin, g.yMax) == 0
      && AxisOffset(500, g.yMax, 0) == 0
      && !g.YLabelLoopsEnd(UnitPixels(500, g.yMin, g.yMax), AxisOffset(500, g.yMax, 0), 500)
    ensures g.xMin == -1000.0 && g.xMax == 1000.0 && g.yMin == -1.0 && g.yMax == 1.0 ==>
      && UnitPixels(500, g.xMin, g.xMax) == 0
      && AxisOffset(500, Abs(g.xMin), 0) == 0
      && !g.XLabelLoopsEnd(UnitPixels(500, g.xMin, g.xMax), AxisOffset(500, Abs(g.xMin), 0), 500)
  {
    assert Round(500.0 / 2000.0) == 0;
  }

  class Graphic {
    var functions: map<string, Function>
    var xMin: real
    var yMin: real
    var xMax: real
    var yMax: real
    var xScale: real
    var yScale: real
    var bode: bool

    /** Bounds are ordered and both label scales are positive. */
    ghost predicate ViewValid()
      reads this
    {
      xMin <= xMax && yMin <= yMax && xScale > 0.0 && yScale > 0.0
    }

    /** Every record is stored under its own name. */
    ghost predicate Registered()
      reads this
    {
      forall k :: k in functions ==> functions[k].name == k
    }

    ghost predicate Valid()
      reads this
    {
      ViewValid() && Registered()
    }

    /** The widget before its bounds and scale are set: an empty registry and
        every number at Java's default 0. */
    constructor Blank(bode: bool)
      ensures functions == map[] && this.bode == bode
      ensures xMin == 0.0 && yMin == 0.0 && xMax == 0.0 && yMax == 0.0
      ensures xScale == 0.0 && yScale == 0.0
    {
      functions := map[];
      xMin, yMin, xMax, yMax := 0.0, 0.0, 0.0, 0.0;
      xScale, yScale := 0.0, 0.0;
      this.bode := bode;
    }

    /** The constructor: an empty registry, then setBounds, then setScale; an
        exception from either aborts the construction. */
    static method New(xMin: real, yMin: real, xMax: real, yMax: real,
                      xScale: real, yScale: real, bode: bool) returns (r: Result<Graphic>)
      ensures r.Err? <==> xMin > xMax || yMin > yMax || xScale <= 0.0 || yScale <= 0.0
      ensures r.Err? ==> r.error == IllegalArgument
      ensures r.Ok? ==> fresh(r.value) && r.value.Valid() && r.value.functions == map[]
      ensures r.Ok? ==> r.value.xMin == xMin && r.value.yMin == yMin && r.value.xMax == xMax
      ensures r.Ok? ==> r.value.yMax == yMax
      ensures r.Ok? ==> r.value.xScale == xScale && r.value.yScale == yScale && r.value.bode == bode
    {
      var g := new Graphic.Blank(bode);
      var b := g.SetBounds(xMin, xMax, yMin, yMax);
      if b.Err? {
        return Err(b.error);
      }
      var s := g.SetScale(xScale, yScale);
      if s.Err? {
        return Err(s.error);
      }
      return Ok(g);
    }

    /** setScale: rejects a non-positive scale before assigning anything. */
    method SetScale(xScale: real, yScale: real) returns (r: Result<()>)
      modifies this`xScale, this`yScale
      ensures r.Err? <==> xScale <= 0.0 || yScale <= 0.0
      ensures r.Err? ==> r.error == IllegalArgument
      ensures r.Err? ==> this.xScale == old(this.xScale) && this.yScale == old(this.yScale)
      ensures r.Ok? ==> this.xScale == xScale && this.yScale == yScale
      ensures old(Valid()) ==> Valid()
    {
      if xScale <= 0.0 || yScale <= 0.0 {
        return Err(IllegalArgument);
      }
      this.xScale := xScale;
      this.yScale := yScale;
      return Ok(());
    }

    /** setBounds: rejects inverted bounds before assigning anything. */
    method SetBounds(xMin: real, xMax: real, yMin: real, yMax: real) returns (r: Result<()>)
      modifies this`xMin, this`xMax, this`yMin, this`yMax
      ensures r.Err? <==> xMin > xMax || yMin > yMax
      ensures r.Err? ==> r.error == IllegalArgument
      ensures r.Err? ==> this.xMin == old(this.xMin) && this.xMax == old(this.xMax)
      ensures r.Err? ==> this.yMin == old(this.yMin) && this.yMax == old(this.yMax)
      ensures r.Ok? ==> this.xMin == xMin && this.xMax == xMax && this.yMin == yMin && this.yMax == yMax
      ensures old(Valid()) ==> Valid()
    {
      if xMin > xMax || yMin > yMax {
        return Err(IllegalArgument);
      }
      this.xMin := xMin;
      this.yMin := yMin;
      this.xMax := xMax;
      this.yMax := yMax;
      return Ok(());
    }

    /** getFunction: the record stored under name, if any; it carries that name. */
    function GetFunction(name: string): (r: Option<Function>)
      reads this
      requires Registered()
      ensures r.Some? <==> name in functions
      ensures r.Some? ==> r.value == functions[name] && r.value.name == name
    {
      if name in functions then Some(functions[name]) else None
    }

    /** addFunction(points, name, color). A name of the reserved form is
        rejected before anything happens; otherwise the points are sorted in
        place and a record of that very array is stored under the name (or
        under "F" + the registry size when no name is given), replacing any
        record stored there before. */
    method AddFunction(points: array<Point>, name: Option<string>, color: Option<Color>, draw: Draw)
      returns (r: Result<string>)
      requires Valid()
      modifies this`functions, points
      ensures Valid()
      ensures name.Some? && IsReserved(name.value) ==>
        && r == Err(ReservedName(name.value))
        && functions == old(functions) && points[..] == old(points[..])
      ensures !(name.Some? && IsReserved(name.value)) ==>
        && r.Ok?
        && r.value == RegistryKey(name, |old(functions)|)
        && StoredAs(old(functions), functions, r.value, points, ChosenColor(color, draw))
        && fresh(functions[r.value])
        && SortedByX(points[..]) && multiset(points[..]) == old(multiset(points[..]))
    {
      if name.Some? && IsReserved(name.value) {
        return Err(ReservedName(name.value));
      }
      SortByX(points);
      var key := RegistryKey(name, |functions|);
      var f := new Function(points, key, color, draw);
      functions := functions[key := f];
      return Ok(key);
    }

    /** addFunction(points, name): a random colour. */
    method AddFunctionDefaultColor(points: array<Point>, name: Option<string>, draw: Draw)
      returns (r: Result<string>)
      requires Valid()
      modifies this`functions, points
      ensures Valid()
      ensures name.Some? && IsReserved(name.value) ==>
        && r == Err(ReservedName(name.value))
        && functions == old(functions) && points[..] == old(points[..])
      ensures !(name.Some? && IsReserved(name.value)) ==>
        && r.Ok?
        && r.value == RegistryKey(name, |old(functions)|)
        && StoredAs(old(functions), functions, r.value, points, GenerateColor(draw))
        && fresh(functions[r.value])
        && SortedByX(points[..]) && multiset(points[..]) == old(multiset(points[..]))
    {
      r := AddFunction(points, name, None, draw);
    }

    /** addFunction(points): the automatic name and a random colour; this
        overload cannot meet the reserved-name error. */
    method AddFunctionAutoName(points: array<Point>, draw: Draw) returns (name: string)
      requires Valid()
      modifies this`functions, points
      ensures Valid()
      ensures name == AutoName(|old(functions)|) && IsReserved(name)
      ensures StoredAs(old(functions), functions, name, points, GenerateColor(draw))
      ensures fresh(functions[name])
      ensures SortedByX(points[..]) && multiset(points[..]) == old(multiset(points[..]))
    {
      var r := AddFunction(points, None, None, draw);
      name := r.value;
    }

    /** removeFunction: returns what was stored under name; name is then
        absent and every other entry is unchanged. */
    method RemoveFunction(name: string) returns (r: Option<Function>)
      requires Valid()
      modifies this`functions
      ensures Valid()
      ensures r == old(GetFunction(name))
      ensures GetFunction(name) == None
      ensures functions == old(functions) - {name}
      ensures forall k :: k != name ==> GetFunction(k) == old(GetFunction(k))
    {
      r := GetFunction(name);
      functions := functions - {name};
    }

    /** isXAxisVisible: the horizontal line y = 0 is inside the view. */
    predicate XAxisVisible()
      reads this
    {
      yMin <= 0.0 && yMax >= 0.0
    }

    /** isYAxisVisible: the vertical line x = 0 is inside the view. */
    predicate YAxisVisible()
      reads this
    {
      xMin <= 0.0 && xMax >= 0.0
    }

    /** The pixel distance between two y-axis labels (yScale logical units);
        with a positive scale it is positive exactly when the unit is. */
    function YStep(unitPixelsY: int): (step: real)
      reads this
      ensures yScale > 0.0 ==> (step > 0.0 <==> unitPixelsY > 0)
    {
      ScaledSign(unitPixelsY, yScale);
      unitPixelsY as real * yScale
    }

    /** The pixel distance between two x-axis labels (xScale logical units). */
    function XStep(unitPixelsX: int): (step: real)
      reads this
      ensures xScale > 0.0 ==> (step > 0.0 <==> unitPixelsX > 0)
    {
      ScaledSign(unitPixelsX, xScale);
      unitPixelsX as real * xScale
    }

    /** The labels writeYAxis emits. Nothing is labelled unless the y-axis
        is visible. With the x-axis visible: up from the axis (labels 0,
        yScale, 2*yScale, ...) while the row is > 0, then down from the axis
        (labels 0, -yScale, ...) while the row is < height. Otherwise only the
        downward walk, from row 0 with label yMax. */
    ghost predicate YLabels(ticks: seq<Tick>, unitPixelsY: int, axisHeight: int, height: int)
      reads this
    {
      if !YAxisVisible() then ticks == []
      else if XAxisVisible() then
        IsTwoWayWalk(ticks, axisHeight as real, YStep(unitPixelsY), height as real, Value(0.0), yScale, -yScale)
      else
        IsForwardWalk(ticks, 0.0, YStep(unitPixelsY), height as real, Value(yMax), -yScale)
    }

    /** The labels writeXAxis emits. Nothing is labelled unless the x-axis
        is visible. With the y-axis visible: left from the axis while the
        column is > 0, labels moving by -xScale, then right from the axis
        while the column is < width, labels moving by +xScale; both start at
        label 0 (the decade 10^0 in bode mode). Otherwise only the rightward
        walk, from column 0 with label xMin (still 10^0 in bode mode). */
    ghost predicate XLabels(ticks: seq<Tick>, unitPixelsX: int, axisWidth: int, width: int)
      reads this
    {
      if !XAxisVisible() then ticks == []
      else if YAxisVisible() then
        IsTwoWayWalk(ticks, axisWidth as real, XStep(unitPixelsX), width as real,
                     if bode then Decade(0.0) else Value(0.0), -xScale, xScale)
      else
        IsForwardWalk(ticks, 0.0, XStep(unitPixelsX), width as real,
                      if bode then Decade(0.0) else Value(xMin), xScale)
    }

    /** The loops of writeYAxis end: the axis is hidden, the unit is
        positive, or every walk starts outside the surface. */
    predicate YLabelLoopsEnd(unitPixelsY: int, axisHeight: int, height: int)
      reads this
    {
      || !YAxisVisible()
      || unitPixelsY > 0
      || (if XAxisVisible() then axisHeight <= 0 && axisHeight >= height else height <= 0)
    }

    /** The loops of writeXAxis end: the axis is hidden, the unit is
        positive, or every walk starts outside the surface. */
    predicate XLabelLoopsEnd(unitPixelsX: int, axisWidth: int, width: int)
      reads this
    {
      || !XAxisVisible()
      || unitPixelsX > 0
      || (if YAxisVisible() then axisWidth <= 0 && axisWidth >= width else width <= 0)
    }

    /** writeYAxis as written: the label walks, on the inputs where they end. */
    method WriteYAxis(unitPixelsY: int, axisHeight: int, height: int) returns (ticks: seq<Tick>)
      requires Valid() && YLabelLoopsEnd(unitPixelsY, axisHeight, height)
      ensures YLabels(ticks, unitPixelsY, axisHeight, height)
    {
      ticks := [];
      if YAxisVisible() {
        if XAxisVisible() {
          ticks := WalkBothWays(axisHeight as real, YStep(unitPixelsY), height as real,
                                Value(0.0), yScale, -yScale);
        } else {
          ticks := WalkForward(0.0, YStep(unitPixelsY), height as real, Value(yMax), -yScale);
        }
      }
    }

    /** writeXAxis as written: the label walks, on the inputs where they end. */
    method WriteXAxis(unitPixelsX: int, axisWidth: int, width: int) returns (ticks: seq<Tick>)
      requires Valid() && XLabelLoopsEnd(unitPixelsX, axisWidth, width)
      ensures XLabels(ticks, unitPixelsX, axisWidth, width)
    {
      ticks := [];
      if XAxisVisible() {
        if YAxisVisible() {
          ticks := WalkBothWays(axisWidth as real, XStep(unitPixelsX), width as real,
                                if bode then Decade(0.0) else Value(0.0), -xScale, xScale);
        } else {
          ticks := WalkForward(0.0, XStep(unitPixelsX), width as real,
                               if bode then Decade(0.0) else Value(xMin), xScale);
        }
      }
    }

    /** On the other inputs writeYAxis never returns: no label sequence, of
        any length, is an outcome of its loops. This happens when the view is
        so tall that the unit rounds to 0 pixels while the y-axis is visible
        on a non-empty surface (HangingAxesExample). */
    lemma YLabelLoopHangs(ticks: seq<Tick>, unitPixelsY: int, axisHeight: int, height: int)
      requires Valid() && !YLabelLoopsEnd(unitPixelsY, axisHeight, height)
      ensures !YLabels(ticks, unitPixelsY, axisHeight, height)
    {
      if YLabels(ticks, unitPixelsY, axisHeight, height) {
        var step := YStep(unitPixelsY);
        if XAxisVisible() {
          var n :| 0 <= n <= |ticks|
            && IsBackWalk(ticks[..n], axisHeight as real, step, Value(0.0), yScale)
            && IsForwardWalk(ticks[n..], axisHeight as real, step, height as real, Value(0.0), -yScale);
          BackWalkEnds(ticks[..n], axisHeight as real, step, Value(0.0), yScale);
          ForwardWalkEnds(ticks[n..], axisHeight as real, step, height as real, Value(0.0), -yScale);
        } else {
          ForwardWalkEnds(ticks, 0.0, step, height as real, Value(yMax), -yScale);
        }
        assert false;
      }
    }

    lemma XLabelLoopHangs(ticks: seq<Tick>, unitPixelsX: int, axisWidth: int, width: int)
      requires Valid() && !XLabelLoopsEnd(unitPixelsX, axisWidth, width)
      ensures !XLabels(ticks, unitPixelsX, axisWidth, width)
    {
      if XLabels(ticks, unitPixelsX, axisWidth, width) {
        var step := XStep(unitPixelsX);
        var first := if bode then Decade(0.0) else Value(0.0);
        if YAxisVisible() {
          var n :| 0 <= n <= |ticks|
            && IsBackWalk(ticks[..n], axisWidth as real, step, first, -xScale)
            && IsForwardWalk(ticks[n..], axisWidth as real, step, width as real, first, xScale);
          BackWalkEnds(ticks[..n], axisWidth as real, step, first, -xScale);
          ForwardWalkEnds(ticks[n..], axisWidth as real, step, width as real, first, xScale);
        } else {
          ForwardWalkEnds(ticks, 0.0, step, width as real, if bode then Decade(0.0) else Value(xMin), xScale);
        }
        assert false;
      }
    }

    /** Where the loops of writeYAxis do end with a unit of 0 pixels or less,
        they emit nothing. */
    lemma YLabelsWithoutUnit(ticks: seq<Tick>, unitPixelsY: int, axisHeight: int, height: int)
      requires Valid() && unitPixelsY <= 0 && YLabels(ticks, unitPixelsY, axisHeight, height)
      ensures ticks == []
    {
      var step := YStep(unitPixelsY);
      if YAxisVisible() {
        if XAxisVisible() {
          var n :| 0 <= n <= |ticks|
            && IsBackWalk(ticks[..n], axisHeight as real, step, Value(0.0), yScale)
            && IsForwardWalk(ticks[n..], axisHeight as real, step, height as real, Value(0.0), -yScale);
          BackWalkEnds(ticks[..n], axisHeight as real, step, Value(0.0), yScale);
          ForwardWalkEnds(ticks[n..], axisHeight as real, step, height as real, Value(0.0), -yScale);
          BackWalkFromOutside(ticks[..n], axisHeight as real, step, Value(0.0), yScale);
          ForwardWalkFromOutside(ticks[n..], axisHeight as real, step, height as real, Value(0.0), -yScale);
          assert ticks == ticks[..n] + ticks[n..];
        } else {
          ForwardWalkEnds(ticks, 0.0, step, height as real, Value(yMax), -yScale);
          ForwardWalkFromOutside(ticks, 0.0, step, height as real, Value(yMax), -yScale);
        }
      }
    }

    lemma XLabelsWithoutUnit(ticks: seq<Tick>, unitPixelsX: int, axisWidth: int, width: int)
      requires Valid() && unitPixelsX <= 0 && XLabels(ticks, unitPixelsX, axisWidth, width)
      ensures ticks == []
    {
      var step := XStep(unitPixelsX);
      var first := if bode then Decade(0.0) else Value(0.0);
      if XAxisVisible() {
        if YAxisVisible() {
          var n :| 0 <= n <= |ticks|
            && IsBackWalk(ticks[..n], axisWidth as real, step, first, -xScale)
            && IsForwardWalk(ticks[n..], axisWidth as real, step, width as real, first, xScale);
          BackWalkEnds(ticks[..n], axisWidth as real, step, first, -xScale);
          ForwardWalkEnds(ticks[n..], axisWidth as real, step, width as real, first, xScale);
          BackWalkFromOutside(ticks[..n], axisWidth as real, step, first, -xScale);
          ForwardWalkFromOutside(ticks[n..], axisWidth as real, step, width as real, first, xScale);
          assert ticks == ticks[..n] + ticks[n..];
        } else {
          var start := if bode then Decade(0.0) else Value(xMin);
          ForwardWalkEnds(ticks, 0.0, step, width as real, start, xScale);
          ForwardWalkFromOutside(ticks, 0.0, step, width as real, start, xScale);
        }
      }
    }

    /** writeYAxis with the guard its loops lack: no labels when a label
        step would not be positive. It returns on every input and, where the
        loops of WriteYAxis end, gives what they give (YLabelsWithoutUnit). */
    method WriteYAxisGuarded(unitPixelsY: int, axisHeight: int, height: int) returns (ticks: seq<Tick>)
      requires Valid()
      ensures unitPixelsY > 0 ==> YLabels(ticks, unitPixelsY, axisHeight, height)
      ensures unitPixelsY <= 0 ==> ticks == []
    {
      ticks := [];
      if unitPixelsY > 0 {
        ticks := WriteYAxis(unitPixelsY, axisHeight, height);
      }
    }

    /** writeXAxis with the same guard. */
    method WriteXAxisGuarded(unitPixelsX: int, axisWidth: int, width: int) returns (ticks: seq<Tick>)
      requires Valid()
      ensures unitPixelsX > 0 ==> XLabels(ticks, unitPixelsX, axisWidth, width)
      ensures unitPixelsX <= 0 ==> ticks == []
    {
      ticks := [];
      if unitPixelsX > 0 {
        ticks := WriteXAxis(unitPixelsX, axisWidth, width);
      }
    }

    /** addMathFunction: samples the function, then registers the points
        under the function's text (the automatic name when that text is
        null) with its colour (a random one when it has none). A failing
        evaluation aborts before anything is registered; a reserved text is
        rejected by the registration. The bode argument is not used. */
    method AddMathFunction(m: MathFunction, bode: bool, draw: Draw) returns (r: Result<()>)
      requires Valid() && Terminates(m)
      modifies this`functions
      ensures Valid()
      ensures Sample(m, VisitCount(m)).Err? ==>
        r == Err(Sample(m, VisitCount(m)).error) && r.error.Evaluation? && functions == old(functions)
      ensures Sample(m, VisitCount(m)).Ok? && m.text.Some? && IsReserved(m.text.value) ==>
        r == Err(ReservedName(m.text.value)) && functions == old(functions)
      ensures Sample(m, VisitCount(m)).Ok? && !(m.text.Some? && IsReserved(m.text.value)) ==>
        var key := RegistryKey(m.text, |old(functions)|);
        && r == Ok(())
        && key in functions && fresh(functions[key]) && fresh(functions[key].points)
        && StoredAs(old(functions), functions, key, functions[key].points, ChosenColor(m.color, draw))
        && functions[key].points[..] == Sample(m, VisitCount(m)).value
    {
      var sampled := SamplePoints(m);
      if sampled.Err? {
        return Err(sampled.error);
      }
      var pts := sampled.value;
      var arr := new Point[|pts|](i requires 0 <= i < |pts| => pts[i]);
      assert arr[..] == pts;
      var added := AddFunction(arr, m.text, m.color, draw);
      if added.Err? {
        return Err(added.error);
      }
      SampledDomain(m);
      SortedPermutationOfStrict(pts, arr[..]);
      return Ok(());
    }
  }
}
