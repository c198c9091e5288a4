/**
  The five plane shapes of `shapes.py`: their construction rules and their
  perimeter and area formulas. A shape is an immutable value; its constructor
  either raises `ValueError` or returns it.
 */
module Shapes {

  datatype Shape =
    | Triangle(a: real, b: real, c: real)
    | Rectangle(a: real, b: real)
    | Trapeze(a: real, b: real, c: real, d: real)
    | Parallelogram(a: real, b: real, h: real)
    | Circle(r: real)

  /** The invariant every constructed shape satisfies: every parameter is
      strictly positive, and a triangle's sides satisfy the strict triangle
      inequality. */
  predicate Valid(s: Shape) {
    match s
    case Triangle(a, b, c) =>
      0.0 < a && 0.0 < b && 0.0 < c && a < b + c && b < a + c && c < a + b
    case Rectangle(a, b) => 0.0 < a && 0.0 < b
    case Trapeze(a, b, c, d) => 0.0 < a && 0.0 < b && 0.0 < c && 0.0 < d
    case Parallelogram(a, b, h) => 0.0 < a && 0.0 < b && 0.0 < h
    case Circle(r) => 0.0 < r
  }

  /** The class name of the shape, which is also its tag in an input line. */
  function TagOf(s: Shape): string {
    match s
    case Triangle(_, _, _) => "Triangle"
    case Rectangle(_, _) => "Rectangle"
    case Trapeze(_, _, _, _) => "Trapeze"
    case Parallelogram(_, _, _) => "Parallelogram"
    case Circle(_) => "Circle"
  }

  /** The constructor arguments of the shape, in the order the constructor takes them. */
  function ParamsOf(s: Shape): seq<real> {
    match s
    case Triangle(a, b, c) => [a, b, c]
    case Rectangle(a, b) => [a, b]
    case Trapeze(a, b, c, d) => [a, b, c, d]
    case Parallelogram(a, b, h) => [a, b, h]
    case Circle(r) => [r]
  }

  /** A shape is determined by its tag and its parameters. */
  lemma TagAndParamsDetermineShape(s: Shape, t: Shape)
    requires TagOf(s) == TagOf(t) && ParamsOf(s) == ParamsOf(t)
    ensures s == t
  {
    assert |TagOf(s)| == |TagOf(t)|;
    assert ParamsOf(s)[0] == ParamsOf(t)[0];
    if s.Circle? {
      assert t.Circle?;
    } else {
      assert ParamsOf(s)[1] == ParamsOf(t)[1];
      if s.Triangle? || s.Parallelogram? || s.Trapeze? {
        assert ParamsOf(s)[2] == ParamsOf(t)[2];
      }
      if s.Trapeze? {
        assert ParamsOf(s)[3] == ParamsOf(t)[3];
      }
    }
  }

  /** What a constructor call produces: the shape, or the `ValueError` it raises. */
  datatype Construction = Built(shape: Shape) | ValueError(message: string)

  function NewTriangle(a: real, b: real, c: real): (r: Construction)
    ensures r.Built? <==> Valid(Triangle(a, b, c))
    ensures r.Built? ==> r.shape == Triangle(a, b, c)
    ensures !r.Built? ==> r.message == "Invalid triangle sides"
  {
    if a + b <= c || a + c <= b || b + c <= a || a <= 0.0 || b <= 0.0 || c <= 0.0 then
      ValueError("Invalid triangle sides")
    else
      Built(Triangle(a, b, c))
  }

  function NewRectangle(a: real, b: real): (r: Construction)
    ensures r.Built? <==> Valid(Rectangle(a, b))
    ensures r.Built? ==> r.shape == Rectangle(a, b)
    ensures !r.Built? ==> r.message == "Rectangle sides must be positive"
  {
    if a <= 0.0 || b <= 0.0 then ValueError("Rectangle sides must be positive")
    else Built(Rectangle(a, b))
  }

  function NewTrapeze(a: real, b: real, c: real, d: real): (r: Construction)
    ensures r.Built? <==> Valid(Trapeze(a, b, c, d))
    ensures r.Built? ==> r.shape == Trapeze(a, b, c, d)
    ensures !r.Built? ==> r.message == "Trapeze sides must be positive"
  {
    if a <= 0.0 || b <= 0.0 || c <= 0.0 || d <= 0.0 then ValueError("Trapeze sides must be positive")
    else Built(Trapeze(a, b, c, d))
  }

  function NewParallelogram(a: real, b: real, h: real): (r: Construction)
    ensures r.Built? <==> Valid(Parallelogram(a, b, h))
    ensures r.Built? ==> r.shape == Parallelogram(a, b, h)
    ensures !r.Built? ==> r.message == "Parallelogram parameters must be positive"
  {
    if a <= 0.0 || b <= 0.0 || h <= 0.0 then ValueError("Parallelogram parameters must be positive")
    else Built(Parallelogram(a, b, h))
  }

  function NewCircle(r: real): (res: Construction)
    ensures res.Built? <==> Valid(Circle(r))
    ensures res.Built? ==> res.shape == Circle(r)
    ensures !res.Built? ==> res.message == "Circle radius must be positive"
  {
    if r <= 0.0 then ValueError("Circle radius must be positive")
    else Built(Circle(r))
  }

  /** The library routines the measures call: `math.sqrt` and `math.pi`. */
  datatype Math = Math(sqrt: real -> real, pi: real)

  /** All the model assumes of them: pi is positive and the square root of a
      non-negative number is non-negative. */
  ghost predicate Lawful(m: Math) {
    m.pi > 0.0 && forall x :: 0.0 <= x ==> 0.0 <= m.sqrt(x)
  }

  /** The side lengths of a polygon, in order around it. */
  function Edges(s: Shape): seq<real>
    requires !s.Circle?
  {
    match s
    case Triangle(a, b, c) => [a, b, c]
    case Rectangle(a, b) => [a, b, a, b]
    case Trapeze(a, b, c, d) => [a, b, c, d]
    case Parallelogram(a, b, _) => [a, b, a, b]
  }

  function Sum(xs: seq<real>): real {
    if xs == [] then 0.0 else xs[0] + Sum(xs[1..])
  }

  function Perimeter(s: Shape, m: Math): (p: real)
    ensures Valid(s) && !s.Circle? ==> 0.0 < p
  {
    match s
    case Triangle(a, b, c) => a + b + c
    case Rectangle(a, b) => 2.0 * (a + b)
    case Trapeze(a, b, c, d) => a + b + c + d
    case Parallelogram(a, b, _) => 2.0 * (a + b)
    case Circle(r) => 2.0 * m.pi * r
  }

  /** The perimeter of a polygon is the sum of its side lengths. */
  lemma PerimeterIsSumOfEdges(s: Shape, m: Math)
    requires !s.Circle?
    ensures Perimeter(s, m) == Sum(Edges(s))
  {
    var e := Edges(s);
    assert e[1..][1..] == e[2..];
    assert e[2..][1..] == e[3..];
    if |e| == 3 {
      assert e[3..] == [];
      assert Sum(e[2..]) == e[2];
    } else {
      assert e[3..][1..] == [];
      assert Sum(e[3..]) == e[3];
      assert Sum(e[2..]) == e[2] + e[3];
      assert Sum(e[1..]) == e[1] + e[2] + e[3];
    }
  }

  /** The value under Heron's square root, with semi-perimeter s. */
  function HeronRadicand(a: real, b: real, c: real): real {
    var s := (a + b + c) / 2.0;
    s * (s - a) * (s - b) * (s - c)
  }

  /** The value under the square root of the general quadrilateral formula. */
  function TrapezeRadicand(a: real, b: real, c: real, d: real): real {
    var p := (a + b + c + d) / 2.0;
    (p - a) * (p - b) * (p - c) * (p - d) - 0.25 * (a * b - c * d) * (a * b - c * d)
  }

  function Area(s: Shape, m: Math): (r: real)
    ensures Valid(s) && !s.Circle? && Lawful(m) ==> 0.0 <= r
    ensures Valid(s) && (s.Rectangle? || s.Parallelogram?) ==> 0.0 < r
  {
    match s
    case Triangle(a, b, c) =>
      HeronRadicandPositive(a, b, c);
      m.sqrt(HeronRadicand(a, b, c))
    case Rectangle(a, b) => a * b
    case Trapeze(a, b, c, d) =>
      // math.sqrt raises ValueError on a negative argument; area() returns 0 then
      var x := TrapezeRadicand(a, b, c, d);
      if x < 0.0 then 0.0 else m.sqrt(x)
    case Parallelogram(a, _, h) => a * h
    case Circle(r) => m.pi * r * r
  }

  /** A circle's perimeter and area are positive. */
  lemma CircleMeasuresPositive(r: real, m: Math)
    requires Valid(Circle(r)) && Lawful(m)
    ensures 0.0 < Perimeter(Circle(r), m) && 0.0 < Area(Circle(r), m)
  {
    assert 0.0 < m.pi * r;
  }

  /** For a valid triangle Heron's radicand is positive, so `math.sqrt` in
      `Triangle.area` never raises. */
  lemma HeronRadicandPositive(a: real, b: real, c: real)
    ensures Valid(Triangle(a, b, c)) ==> 0.0 < HeronRadicand(a, b, c)
  {
  }

  /** The `except ValueError` of `Trapeze.area` is reachable: a valid trapeze
      whose radicand is negative, so its area falls back to 0. */
  lemma TrapezeFallbackReachable(m: Math)
    ensures Valid(Trapeze(1.0, 1.0, 1.0, 10.0))
    ensures TrapezeRadicand(1.0, 1.0, 1.0, 10.0) < 0.0
    ensures Area(Trapeze(1.0, 1.0, 1.0, 10.0), m) == 0.0
  {
  }

  /** Given a rectangle's sides in order, the trapeze radicand is the square of
      the rectangle's area: the general formula agrees with the special one. */
  lemma TrapezeRadicandOfRectangle(a: real, b: real, m: Math)
    requires Valid(Rectangle(a, b))
    ensures TrapezeRadicand(a, b, a, b) == Area(Rectangle(a, b), m) * Area(Rectangle(a, b), m)
  {
    var p := (a + b + a + b) / 2.0;
    assert p - a == b && p - b == a;
    assert a * b - a * b == 0.0;
  }

  /** A parallelogram's area does not depend on its side b. */
  lemma ParallelogramAreaIgnoresSide(a: real, b: real, b': real, h: real, m: Math)
    ensures Area(Parallelogram(a, b, h), m) == Area(Parallelogram(a, b', h), m)
  {
  }

  /** A rectangle measures like the parallelogram whose height is its side b. */
  lemma RectangleIsRightParallelogram(a: real, b: real, m: Math)
    requires Valid(Rectangle(a, b))
    ensures Valid(Parallelogram(a, b, b))
    ensures Area(Rectangle(a, b), m) == Area(Parallelogram(a, b, b), m)
    ensures Perimeter(Rectangle(a, b), m) == Perimeter(Parallelogram(a, b, b), m)
  {
  }

  /** Every valid shape has a positive perimeter and a non-negative area. */
  lemma MeasuresSigns(s: Shape, m: Math)
    requires Valid(s) && Lawful(m)
    ensures 0.0 < Perimeter(s, m) && 0.0 <= Area(s, m)
  {
    if s.Circle? {
      CircleMeasuresPositive(s.r, m);
    }
  }

  /** A circle's area is half its perimeter times its radius. */
  lemma CircleAreaFromPerimeter(r: real, m: Math)
    requires Valid(Circle(r))
    ensures 2.0 * Area(Circle(r), m) == r * Perimeter(Circle(r), m)
  {
    assert 2.0 * (m.pi * r * r) == r * (2.0 * m.pi * r);
  }
}
