/** The function record: a named, coloured array of points. The record holds
    the very array it was given (no copy), so later changes to that array are
    visible through the record. */
module Functions {
  import opened Common
  import opened Text

  /** A value drawn by Math.random: 0 <= u < 1. */
  type Unit = u: real | 0.0 <= u < 1.0

  /** The three random draws made when a record gets no colour. */
  datatype Draw = Draw(red: Unit, green: Unit, blue: Unit)

  /** (int)(Math.random() * 255): truncation of a non-negative value. */
  function RandomChannel(u: Unit): (c: Channel)
    ensures c <= 254
    ensures c as real <= u * 255.0 < c as real + 1.0
  {
    (u * 255.0).Floor
  }

  /** The random colour of a record created without one: every channel in
      0..254, so pure white is never chosen. */
  function GenerateColor(d: Draw): (c: Color)
    ensures c.red <= 254 && c.green <= 254 && c.blue <= 254
    ensures c != Color(255, 255, 255)
  {
    Color(RandomChannel(d.red), RandomChannel(d.green), RandomChannel(d.blue))
  }

  /** The colour a record gets: the one given, or a random one when there
      is none. */
  function ChosenColor(color: Option<Color>, draw: Draw): Color {
    if color.Some? then color.value else GenerateColor(draw)
  }

  class Function {
    const points: array<Point>
    const name: string
    const color: Color

    /** The record for points and name; a missing colour is replaced by a
        random one. */
    constructor (points: array<Point>, name: string, color: Option<Color>, draw: Draw)
      ensures this.points == points && this.name == name
      ensures color.Some? ==> this.color == color.value
      ensures color.None? ==> this.color == GenerateColor(draw)
    {
      this.points := points;
      this.name := name;
      this.color := ChosenColor(color, draw);
    }

    /** The checked construction: a null point array or a null name is an
        IllegalArgumentException and no record is made. */
    static method Create(points: array?<Point>, name: Option<string>, color: Option<Color>, draw: Draw)
      returns (r: Result<Function>)
      ensures r.Err? <==> points == null || name.None?
      ensures r.Err? ==> r.error == IllegalArgument
      ensures r.Ok? ==> fresh(r.value) && r.value.points == points && name == Some(r.value.name)
      ensures r.Ok? && color.Some? ==> r.value.color == color.value
      ensures r.Ok? && color.None? ==> r.value.color == GenerateColor(draw)
    {
      if points == null || name.None? {
        return Err(IllegalArgument);
      }
      var f := new Function(points, name.value, color, draw);
      return Ok(f);
    }

    /** toString: the header, then one line per point in array order.
        showReal stands for Java's rendering of a double. */
    method ToString(showReal: real -> string) returns (s: string)
      ensures s == Header(name, color) + PointsText(points[..], showReal)
    {
      s := Header(name, color);
      var i := 0;
      while i < points.Length
        invariant 0 <= i <= points.Length
        invariant s == Header(name, color) + PointsText(points[..i], showReal)
      {
        assert points[..i + 1][..i] == points[..i];
        s := s + "\n" + PointText(points[i], showReal);
        i := i + 1;
      }
      assert points[..points.Length] == points[..];
    }
  }

  /** The part of toString before the points. */
  function Header(name: string, color: Color): string {
    "Name:\n" + name + "\nColor:\nr" + NatToString(color.red) + "g" + NatToString(color.green)
      + "b" + NatToString(color.blue) + "\nPoints:"
  }

  /** For a given name, the header determines the colour: its three
      channels can be read back from the text. */
  lemma HeaderDeterminesColor(name: string, c1: Color, c2: Color)
    requires Header(name, c1) == Header(name, c2)
    ensures c1 == c2
  {
    var a := "Name:\n" + name + "\nColor:\nr";
    HeaderParts(name, c1);
    HeaderParts(name, c2);
    var rest1 := ChannelsText(c1);
    var rest2 := ChannelsText(c2);
    assert rest1 == (a + rest1)[|a|..] && rest2 == (a + rest2)[|a|..];
    ReadNumber(c1.red, c2.red, "g" + GreenOn(c1), "g" + GreenOn(c2));
    assert ("g" + GreenOn(c1))[1..] == GreenOn(c1) && ("g" + GreenOn(c2))[1..] == GreenOn(c2);
    ReadNumber(c1.green, c2.green, "b" + BlueOn(c1), "b" + BlueOn(c2));
    assert ("b" + BlueOn(c1))[1..] == BlueOn(c1) && ("b" + BlueOn(c2))[1..] == BlueOn(c2);
    ReadNumber(c1.blue, c2.blue, "\nPoints:", "\nPoints:");
  }

  /** The header after its "r": the three channels, each followed by the
      text after it. */
  function ChannelsText(c: Color): string {
    NatToString(c.red) + ("g" + GreenOn(c))
  }

  function GreenOn(c: Color): string {
    NatToString(c.green) + ("b" + BlueOn(c))
  }

  function BlueOn(c: Color): string {
    NatToString(c.blue) + "\nPoints:"
  }

  lemma HeaderParts(name: string, c: Color)
    ensures Header(name, c) == ("Name:\n" + name + "\nColor:\nr") + ChannelsText(c)
  {
    var a := "Name:\n" + name + "\nColor:\nr";
    var r, g, b := NatToString(c.red), NatToString(c.green), NatToString(c.blue);
    assert Header(name, c) == a + (r + ("g" + (g + ("b" + (b + "\nPoints:")))));
  }

  /** A number's decimal text followed by a non-digit can be read back. */
  lemma ReadNumber(m: nat, n: nat, t1: string, t2: string)
    requires t1 != [] && !IsDigit(t1[0]) && t2 != [] && !IsDigit(t2[0])
    requires NatToString(m) + t1 == NatToString(n) + t2
    ensures m == n && t1 == t2
  {
    SplitAtDigits(NatToString(m), t1, NatToString(n), t2);
    NatToStringInjective(m, n);
  }

  /** Point2D.Double's own toString. */
  function PointText(p: Point, showReal: real -> string): string {
    "Point2D.Double[" + showReal(p.x) + ", " + showReal(p.y) + "]"
  }

  /** A newline and the point's text for every point, in order. */
  function PointsText(ps: seq<Point>, showReal: real -> string): string {
    if ps == [] then "" else PointsText(ps[..|ps| - 1], showReal) + "\n" + PointText(ps[|ps| - 1], showReal)
  }

  /** The point lines of a concatenation are the two parts' lines, in order. */
  lemma {:induction false} PointsTextAppend(a: seq<Point>, b: seq<Point>, showReal: real -> string)
    ensures PointsText(a + b, showReal) == PointsText(a, showReal) + PointsText(b, showReal)
    decreases |b|
  {
    if b != [] {
      var b' := b[..|b| - 1];
      assert (a + b)[..|a + b| - 1] == a + b';
      PointsTextAppend(a, b', showReal);
    } else {
      assert a + b == a;
    }
  }

  /** The point lines start with the first point's line. */
  lemma PointsTextFirst(ps: seq<Point>, showReal: real -> string)
    requires ps != []
    ensures PointsText(ps, showReal) == "\n" + PointText(ps[0], showReal) + PointsText(ps[1..], showReal)
  {
    assert ps == [ps[0]] + ps[1..];
    PointsTextAppend([ps[0]], ps[1..], showReal);
  }

  function Occurrences(s: string, c: char): nat {
    if s == [] then 0 else Occurrences(s[..|s| - 1], c) + (if s[|s| - 1] == c then 1 else 0)
  }

  lemma {:induction false} OccurrencesAppend(s: string, t: string, c: char)
    ensures Occurrences(s + t, c) == Occurrences(s, c) + Occurrences(t, c)
    decreases |t|
  {
    if t != [] {
      assert (s + t)[..|s + t| - 1] == s + t[..|t| - 1];
      OccurrencesAppend(s, t[..|t| - 1], c);
    } else {
      assert s + t == s;
    }
  }

  lemma {:induction false} OccurrencesAbsent(s: string, c: char)
    requires c !in s
    ensures Occurrences(s, c) == 0
    decreases |s|
  {
    if s != [] {
      assert s[..|s| - 1] <= s;
      OccurrencesAbsent(s[..|s| - 1], c);
    }
  }

  /** When a number never renders with a line break, the point part of
      toString holds exactly one line break per point. */
  lemma {:induction false} PointsTextLineCount(ps: seq<Point>, showReal: real -> string)
    requires forall v :: '\n' !in showReal(v)
    ensures Occurrences(PointsText(ps, showReal), '\n') == |ps|
    decreases |ps|
  {
    if ps != [] {
      var init := ps[..|ps| - 1];
      var p := ps[|ps| - 1];
      PointsTextLineCount(init, showReal);
      OccurrencesAppend(PointsText(init, showReal), "\n", '\n');
      OccurrencesAppend(PointsText(init, showReal) + "\n", PointText(p, showReal), '\n');
      PointTextOneLine(p, showReal);
    }
  }

  lemma PointTextOneLine(p: Point, showReal: real -> string)
    requires '\n' !in showReal(p.x) && '\n' !in showReal(p.y)
    ensures Occurrences(PointText(p, showReal), '\n') == 0
  {
    OccurrencesAbsent(PointText(p, showReal), '\n');
  }
}
