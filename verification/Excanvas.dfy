/** The drawing context of excanvas: its transformation matrix, saved states and curves, in exact arithmetic. */
module Excanvas {
  import opened Wrappers

  datatype Point = Point(x: real, y: real)

  const Z := 10.0
  const Z2 := 5.0

  /** The matrix `[[a, b, 0], [c, d, 0], [e, f, 1]]`. */
  datatype Affine = Affine(a: real, b: real, c: real, d: real, e: real, f: real)

  const IDENTITY := Affine(1.0, 0.0, 0.0, 1.0, 0.0, 0.0)

  function Mix(a: real, b: real, g: real, h: real): real { a * g + b * h }

  function Lin(x: real, y: real, g: real, h: real, k: real): real { x * g + y * h + k }

  /** Where a transform takes a point. */
  function Map(t: Affine, p: Point): Point {
    Point(Lin(p.x, p.y, t.a, t.c, t.e), Lin(p.x, p.y, t.b, t.d, t.f))
  }

  /** The matrix product: first `t`, then `u`. */
  function Then(t: Affine, u: Affine): Affine {
    Affine(Mix(t.a, t.b, u.a, u.c), Mix(t.a, t.b, u.b, u.d), Mix(t.c, t.d, u.a, u.c), Mix(t.c, t.d, u.b, u.d),
           Lin(t.e, t.f, u.a, u.c, u.e), Lin(t.e, t.f, u.b, u.d, u.f))
  }

  lemma MapThen(t: Affine, u: Affine, p: Point)
    ensures Map(Then(t, u), p) == Map(u, Map(t, p))
  {
    LinLin(p.x, p.y, t.a, t.b, t.c, t.d, t.e, t.f, u.a, u.c, u.e);
    LinLin(p.x, p.y, t.a, t.b, t.c, t.d, t.e, t.f, u.b, u.d, u.f);
    hide Lin, Mix;
  }

  lemma LinLin(x: real, y: real, a: real, b: real, c: real, d: real, e: real, f: real, g: real, h: real, k: real)
    ensures Lin(x, y, Mix(a, b, g, h), Mix(c, d, g, h), Lin(e, f, g, h, k)) == Lin(Lin(x, y, a, c, e), Lin(x, y, b, d, f), g, h, k)
  {
    assert x * (a * g + b * h) == (x * a) * g + (x * b) * h;
    assert y * (c * g + d * h) == (y * c) * g + (y * d) * h;
    assert (x * a + y * c + e) * g == (x * a) * g + (y * c) * g + e * g;
    assert (x * b + y * d + f) * h == (x * b) * h + (y * d) * h + f * h;
  }

  /** The product for transforms applied in this order: the last one applied maps a point first. */
  function Product(ts: seq<Affine>): Affine {
    if ts == [] then IDENTITY else Then(ts[|ts| - 1], Product(ts[..|ts| - 1]))
  }

  function MapAll(ts: seq<Affine>, p: Point): Point {
    if ts == [] then p else MapAll(ts[..|ts| - 1], Map(ts[|ts| - 1], p))
  }

  lemma {:induction false} ProductMaps(ts: seq<Affine>, p: Point)
    ensures Map(Product(ts), p) == MapAll(ts, p)
    decreases |ts|
  {
    if ts != [] {
      MapThen(ts[|ts| - 1], Product(ts[..|ts| - 1]), p);
      ProductMaps(ts[..|ts| - 1], Map(ts[|ts| - 1], p));
    }
  }

  // ----- matrices as arrays

  ghost predicate Is3x3(m: array2<real>) { m.Length0 == 3 && m.Length1 == 3 }

  function Term(m1: array2<real>, m2: array2<real>, x: nat, y: nat, z: nat): real
    requires Is3x3(m1) && Is3x3(m2) && x < 3 && y < 3 && z < 3
    reads m1, m2
  {
    m1[x, z] * m2[z, y]
  }

  /** The first `n` terms of an entry of the product. */
  function Dot(m1: array2<real>, m2: array2<real>, x: nat, y: nat, n: nat): real
    requires Is3x3(m1) && Is3x3(m2) && x < 3 && y < 3 && n <= 3
    reads m1, m2
  {
    if n == 0 then 0.0 else Dot(m1, m2, x, y, n - 1) + Term(m1, m2, x, y, n - 1)
  }

  method MatrixIdentity() returns (m: array2<real>)
    ensures fresh(m) && Is3x3(m) && IsMatrix(m, IDENTITY)
  {
    m := new real[3, 3]((x, y) => if x == y then 1.0 else 0.0);
  }

  method MatrixMultiply(m1: array2<real>, m2: array2<real>) returns (result: array2<real>)
    requires Is3x3(m1) && Is3x3(m2)
    ensures fresh(result) && Is3x3(result)
    ensures forall x: nat, y: nat :: x < 3 && y < 3 ==> result[x, y] == Dot(m1, m2, x, y, 3)
  {
    hide Term;
    result := MatrixIdentity();
    for x := 0 to 3
      invariant fresh(result) && Is3x3(result)
      invariant forall i: nat, y: nat :: i < x && y < 3 ==> result[i, y] == Dot(m1, m2, i, y, 3)
    {
      for y := 0 to 3
        invariant forall i: nat, j: nat :: i < x && j < 3 ==> result[i, j] == Dot(m1, m2, i, j, 3)
        invariant forall j: nat :: j < y ==> result[x, j] == Dot(m1, m2, x, j, 3)
      {
        var sum := 0.0;
        for z := 0 to 3
          invariant sum == Dot(m1, m2, x, y, z)
        {
          sum := sum + Term(m1, m2, x, y, z);
        }
        result[x, y] := sum;
      }
    }
  }

  /** `m` is the matrix of `t`; its third column is `(0, 0, 1)`. */
  ghost predicate IsMatrix(m: array2<real>, t: Affine)
    requires Is3x3(m)
    reads m
  {
    && m[0, 0] == t.a && m[0, 1] == t.b && m[0, 2] == 0.0
    && m[1, 0] == t.c && m[1, 1] == t.d && m[1, 2] == 0.0
    && m[2, 0] == t.e && m[2, 1] == t.f && m[2, 2] == 1.0
  }

  /** The product of matrices is the composition of transforms. */
  lemma MultiplyComposes(m1: array2<real>, m2: array2<real>, t: Affine, u: Affine, result: array2<real>)
    requires Is3x3(m1) && Is3x3(m2) && Is3x3(result) && IsMatrix(m1, t) && IsMatrix(m2, u)
    requires forall x: nat, y: nat :: x < 3 && y < 3 ==> result[x, y] == Dot(m1, m2, x, y, 3)
    ensures IsMatrix(result, Then(t, u))
  {
    forall x: nat, y: nat | x < 3 && y < 3 ensures Entry(m1, m2, x, y, result[x, y]) {
      EntryIs(m1, m2, x, y);
    }
    hide Mix, Lin, Dot, Term;
    assert Entry(m1, m2, 0, 0, result[0, 0]) && Entry(m1, m2, 0, 1, result[0, 1]) && Entry(m1, m2, 0, 2, result[0, 2]);
    assert Entry(m1, m2, 1, 0, result[1, 0]) && Entry(m1, m2, 1, 1, result[1, 1]) && Entry(m1, m2, 1, 2, result[1, 2]);
    assert Entry(m1, m2, 2, 0, result[2, 0]) && Entry(m1, m2, 2, 1, result[2, 1]) && Entry(m1, m2, 2, 2, result[2, 2]);
  }

  /** An entry of the product, for rows and columns that end in 0 or 1. */
  ghost predicate Entry(m1: array2<real>, m2: array2<real>, x: nat, y: nat, v: real)
    requires Is3x3(m1) && Is3x3(m2) && x < 3 && y < 3
    reads m1, m2
  {
    && (m1[x, 2] == 0.0 ==> v == Mix(m1[x, 0], m1[x, 1], m2[0, y], m2[1, y]))
    && (m1[x, 2] == 1.0 ==> v == Lin(m1[x, 0], m1[x, 1], m2[0, y], m2[1, y], m2[2, y]))
    && (m2[0, y] == 0.0 && m2[1, y] == 0.0 && m2[2, y] == 1.0 ==> v == m1[x, 2])
  }

  lemma EntryIs(m1: array2<real>, m2: array2<real>, x: nat, y: nat)
    requires Is3x3(m1) && Is3x3(m2) && x < 3 && y < 3
    ensures Entry(m1, m2, x, y, Dot(m1, m2, x, y, 3))
  {
    assert Dot(m1, m2, x, y, 0) == 0.0;
    assert Dot(m1, m2, x, y, 1) == 0.0 + Term(m1, m2, x, y, 0);
    assert Dot(m1, m2, x, y, 2) == Term(m1, m2, x, y, 0) + Term(m1, m2, x, y, 1);
  }

  // ----- curves

  /** One coordinate of the curves with the given control points. */
  function Quadratic(a: real, c: real, p: real, t: real): real {
    (1.0 - t) * (1.0 - t) * a + 2.0 * (1.0 - t) * t * c + t * t * p
  }

  function Cubic(a: real, c1: real, c2: real, p: real, t: real): real {
    (1.0 - t) * (1.0 - t) * (1.0 - t) * a + 3.0 * (1.0 - t) * (1.0 - t) * t * c1 + 3.0 * (1.0 - t) * t * t * c2 + t * t * t * p
  }

  /** The control points that `quadraticCurveTo` computes give the same curve, at every parameter. */
  lemma CubicIsQuadratic(a: real, c: real, p: real, t: real)
    ensures var c1 := a + 2.0 / 3.0 * (c - a);
            Cubic(a, c1, c1 + (p - a) / 3.0, p, t) == Quadratic(a, c, p, t)
  {
    var c1 := a + 2.0 / 3.0 * (c - a);
    var c2 := c1 + (p - a) / 3.0;
    var u := 1.0 - t;
    var uu, ut, tt := u * u, u * t, t * t;
    assert 3.0 * c1 == a + 2.0 * c && 3.0 * c2 == 2.0 * c + p;
    assert u * u * u == uu * u && 3.0 * u * u * t * c1 == ut * u * (3.0 * c1) && 3.0 * u * t * t * c2 == ut * t * (3.0 * c2);
    assert Cubic(a, c1, c2, p, t) == uu * u * a + ut * u * (a + 2.0 * c) + ut * t * (2.0 * c + p) + tt * t * p;
    assert ut * u == uu * t && ut * t == tt * u;
    assert ut * u * (a + 2.0 * c) == uu * t * a + 2.0 * (ut * u * c);
    assert ut * t * (2.0 * c + p) == 2.0 * (ut * t * c) + tt * u * p;
    assert uu * u * a + uu * t * a == uu * a && tt * u * p + tt * t * p == tt * p by {
      assert uu * u + uu * t == uu * (u + t) && tt * u + tt * t == tt * (u + t);
    }
    assert ut * u * c + ut * t * c == ut * c by {
      assert ut * u + ut * t == ut * (u + t);
    }
  }

  function QuadraticAt(a: Point, c: Point, p: Point, t: real): Point {
    Point(Quadratic(a.x, c.x, p.x, t), Quadratic(a.y, c.y, p.y, t))
  }

  /** `getCoords_` with the matrix of `m`. */
  function Coords(m: Affine, p: Point): Point {
    Point(Z * Map(m, p).x - Z2, Z * Map(m, p).y - Z2)
  }

  /** Transforming a curve point is the same as transforming its control points. */
  lemma CoordsOfCurve(m: Affine, a: Point, c: Point, p: Point, t: real)
    ensures Coords(m, QuadraticAt(a, c, p, t)) == QuadraticAt(Coords(m, a), Coords(m, c), Coords(m, p), t)
  {
    CoordsOfCurveOne(a, c, p, m.a, m.c, m.e, t);
    CoordsOfCurveOne(a, c, p, m.b, m.d, m.f, t);
    hide Lin, Quadratic;
  }

  lemma CoordsOfCurveOne(a: Point, c: Point, p: Point, g: real, h: real, k: real, t: real)
    ensures Z * Lin(Quadratic(a.x, c.x, p.x, t), Quadratic(a.y, c.y, p.y, t), g, h, k) - Z2
         == Quadratic(Z * Lin(a.x, a.y, g, h, k) - Z2, Z * Lin(c.x, c.y, g, h, k) - Z2, Z * Lin(p.x, p.y, g, h, k) - Z2, t)
  {
    var x, y, z := Lin(a.x, a.y, g, h, k), Lin(c.x, c.y, g, h, k), Lin(p.x, p.y, g, h, k);
    var u, v, w := Weights(a.x, c.x, p.x, t);
    u, v, w := Weights(a.y, c.y, p.y, t);
    u, v, w := Weights(Z * x - Z2, Z * y - Z2, Z * z - Z2, t);
    BlendOfLin(u, v, w, a, c, p, g, h, k);
    BlendOfScaled(u, v, w, x, y, z);
    hide Lin, Quadratic, Blend;
  }

  function Blend(u: real, v: real, w: real, a: real, c: real, p: real): real { u * a + v * c + w * p }

  /** A curve point is a weighted mean of the control points. */
  lemma Weights(a: real, c: real, p: real, t: real) returns (u: real, v: real, w: real)
    ensures u == (1.0 - t) * (1.0 - t) && v == 2.0 * (1.0 - t) * t && w == t * t
    ensures u + v + w == 1.0 && Quadratic(a, c, p, t) == Blend(u, v, w, a, c, p)
  {
    u, v, w := (1.0 - t) * (1.0 - t), 2.0 * (1.0 - t) * t, t * t;
  }

  lemma BlendOfScaled(u: real, v: real, w: real, x: real, y: real, z: real)
    requires u + v + w == 1.0
    ensures Blend(u, v, w, Z * x - Z2, Z * y - Z2, Z * z - Z2) == Z * Blend(u, v, w, x, y, z) - Z2
  {
    assert u * (Z * x - Z2) == Z * (u * x) - Z2 * u;
    assert v * (Z * y - Z2) == Z * (v * y) - Z2 * v;
    assert w * (Z * z - Z2) == Z * (w * z) - Z2 * w;
  }

  lemma BlendOfLin(u: real, v: real, w: real, a: Point, c: Point, p: Point, g: real, h: real, k: real)
    requires u + v + w == 1.0
    ensures Lin(Blend(u, v, w, a.x, c.x, p.x), Blend(u, v, w, a.y, c.y, p.y), g, h, k)
         == Blend(u, v, w, Lin(a.x, a.y, g, h, k), Lin(c.x, c.y, g, h, k), Lin(p.x, p.y, g, h, k))
  {
    Scaled(u, v, w, a.x, c.x, p.x, g);
    Scaled(u, v, w, a.y, c.y, p.y, h);
    assert (u + v + w) * k == u * k + v * k + w * k;
    assert u * (a.x * g + a.y * h + k) == u * (a.x * g) + u * (a.y * h) + u * k;
    assert v * (c.x * g + c.y * h + k) == v * (c.x * g) + v * (c.y * h) + v * k;
    assert w * (p.x * g + p.y * h + k) == w * (p.x * g) + w * (p.y * h) + w * k;
  }

  lemma Scaled(u: real, v: real, w: real, a: real, c: real, p: real, g: real)
    ensures Blend(u, v, w, a, c, p) * g == u * (a * g) + v * (c * g) + w * (p * g)
  {
  }

  // ----- the context

  /** The properties a caller sets. */
  datatype Style = Style(fillStyle: string, lineCap: string, lineJoin: string, lineWidth: real, miterLimit: real,
                         shadowBlur: Option<real>, shadowColor: Option<string>, shadowOffsetX: Option<real>,
                         shadowOffsetY: Option<real>, strokeStyle: string, globalAlpha: real)

  /** What `copyState` copies. */
  datatype Paint = Paint(style: Style, arcScaleX: real, arcScaleY: real, lineScale: real)

  /** `None` stands for a point whose coordinates are not numbers. */
  datatype PathOp = MoveTo(p: Point) | LineTo(p: Point) | BezierCurveTo(cp1: Option<Point>, cp2: Option<Point>, p: Point)

  /** Calls on a context; the cosine and sine of an angle stand for it. */
  datatype Command =
    | Save | Restore
    | Translate(x: real, y: real) | Rotate(cos: real, sin: real) | Scale(x: real, y: real)
    | Transform(t: Affine) | SetTransform(t: Affine)
    | SetStyle(style: Style)
    | BeginPath | Move(to: Point) | Line(to: Point) | Quad(c: Point, to: Point)

  /** A context, with its matrix as the transforms applied since the start or the last `setTransform`. */
  datatype State = State(applied: seq<Affine>, appliedStack: seq<seq<Affine>>, paint: Paint, aStack: seq<Paint>,
                         path: seq<PathOp>, current: Option<Point>) {
    function Canvas(p: Point): Point { Coords(Product(applied), p) }
  }

  /** How much a transform enlarges areas. */
  function Area(t: Affine): real {
    var det := t.a * t.d - t.b * t.c;
    if det < 0.0 then -det else det
  }

  function Apply(sqrt: real -> real, s: State, t: Affine, updateLineScale: bool): State {
    var ts := s.applied + [t];
    s.(applied := ts, paint := if updateLineScale then s.paint.(lineScale := sqrt(Area(Product(ts)))) else s.paint)
  }

  function Rescaled(s: State, x: real, y: real): State {
    s.(paint := s.paint.(arcScaleX := s.paint.arcScaleX * x, arcScaleY := s.paint.arcScaleY * y))
  }

  /** The curve from `a` with control points that make it the quadratic one to `p` with control point `c`. */
  function Curve(a: Option<Point>, c: Point, p: Point): PathOp {
    if a.None? then BezierCurveTo(None, None, p)
    else
      var cp1 := Point(a.value.x + 2.0 / 3.0 * (c.x - a.value.x), a.value.y + 2.0 / 3.0 * (c.y - a.value.y));
      BezierCurveTo(Some(cp1), Some(Point(cp1.x + (p.x - a.value.x) / 3.0, cp1.y + (p.y - a.value.y) / 3.0)), p)
  }

  /** One call; `None` if it throws. */
  function Step(sqrt: real -> real, s: State, c: Command): Option<State> {
    match c
    case Save => Some(s.(appliedStack := s.appliedStack + [s.applied], aStack := s.aStack + [s.paint]))
    case Restore =>
      var n := |s.appliedStack| - 1;
      if n < 0 || |s.aStack| != n + 1 then None
      else Some(s.(applied := s.appliedStack[n], appliedStack := s.appliedStack[..n], paint := s.aStack[n], aStack := s.aStack[..n]))
    case Translate(x, y) => Some(Apply(sqrt, s, Affine(1.0, 0.0, 0.0, 1.0, x, y), false))
    case Rotate(cos, sin) => Some(Apply(sqrt, s, Affine(cos, sin, -sin, cos, 0.0, 0.0), false))
    case Scale(x, y) =>
      Some(Apply(sqrt, Rescaled(s, x, y), Affine(x, 0.0, 0.0, y, 0.0, 0.0), true))
    case Transform(t) => Some(Apply(sqrt, s, t, true))
    case SetTransform(t) => Some(Apply(sqrt, s.(applied := []), t, true))
    case SetStyle(style) => Some(s.(paint := s.paint.(style := style)))
    case BeginPath => Some(s.(path := []))
    case Move(to) => Some(s.(path := s.path + [MoveTo(s.Canvas(to))], current := Some(s.Canvas(to))))
    case Line(to) => Some(s.(path := s.path + [LineTo(s.Canvas(to))], current := Some(s.Canvas(to))))
    case Quad(cp, to) => Some(s.(path := s.path + [Curve(s.current, s.Canvas(cp), s.Canvas(to))], current := Some(s.Canvas(to))))
  }

  /** After a transform a point is drawn where its image was drawn before. */
  lemma DrawnThrough(sqrt: real -> real, s: State, t: Affine, update: bool, p: Point)
    ensures Apply(sqrt, s, t, update).Canvas(p) == s.Canvas(Map(t, p))
  {
    assert (s.applied + [t])[..|s.applied|] == s.applied;
    MapThen(t, Product(s.applied), p);
    hide Map, Then;
  }

  /** What the calls do to the point `(x, y)`: a translation shifts it, a rotation turns it about the origin, a scaling stretches
      it along the axes, a transform maps it. */
  lemma TransformsMean(sqrt: real -> real, s: State, x: real, y: real, u: real, v: real, t: Affine)
    ensures Step(sqrt, s, Translate(u, v)).value.Canvas(Point(x, y)) == s.Canvas(Point(x + u, y + v))
    ensures Step(sqrt, s, Rotate(u, v)).value.Canvas(Point(x, y)) == s.Canvas(Point(x * u - y * v, x * v + y * u))
    ensures Step(sqrt, s, Scale(u, v)).value.Canvas(Point(x, y)) == s.Canvas(Point(x * u, y * v))
    ensures Step(sqrt, s, Transform(t)).value.Canvas(Point(x, y)) == s.Canvas(Point(t.a * x + t.c * y + t.e, t.b * x + t.d * y + t.f))
  {
    var p := Point(x, y);
    DrawnThrough(sqrt, s, Affine(1.0, 0.0, 0.0, 1.0, u, v), false, p);
    DrawnThrough(sqrt, s, Affine(u, v, -v, u, 0.0, 0.0), false, p);
    DrawnThrough(sqrt, Rescaled(s, u, v), Affine(u, 0.0, 0.0, v, 0.0, 0.0), true, p);
    DrawnThrough(sqrt, s, t, true, p);
    MapsMean(x, y, u, v, t);
    hide Map, Apply, Coords, Product;
  }

  lemma MapsMean(x: real, y: real, u: real, v: real, t: Affine)
    ensures Map(Affine(1.0, 0.0, 0.0, 1.0, u, v), Point(x, y)) == Point(x + u, y + v)
    ensures Map(Affine(u, v, -v, u, 0.0, 0.0), Point(x, y)) == Point(x * u - y * v, x * v + y * u)
    ensures Map(Affine(u, 0.0, 0.0, v, 0.0, 0.0), Point(x, y)) == Point(x * u, y * v)
    ensures Map(t, Point(x, y)) == Point(t.a * x + t.c * y + t.e, t.b * x + t.d * y + t.f)
  {
    LinMeans(x, y, 1.0, 0.0, u);
    LinMeans(x, y, 0.0, 1.0, v);
    LinMeans(x, y, u, -v, 0.0);
    LinMeans(x, y, v, u, 0.0);
    LinMeans(x, y, u, 0.0, 0.0);
    LinMeans(x, y, 0.0, v, 0.0);
    LinMeans(x, y, t.a, t.c, t.e);
    LinMeans(x, y, t.b, t.d, t.f);
    hide Lin;
  }

  lemma LinMeans(x: real, y: real, g: real, h: real, k: real)
    ensures Lin(x, y, g, h, k) == x * g + y * h + k && Lin(x, y, g, h, k) == g * x + h * y + k
    ensures y * -h == -(y * h) && x * 0.0 == 0.0 && y * 0.0 == 0.0 && x * 1.0 == x && y * 1.0 == y
  {
  }

  /** `setTransform` starts from the bare canvas, ten times as fine and half a unit off. */
  lemma SetTransformMeans(sqrt: real -> real, s: State, x: real, y: real, t: Affine)
    ensures Step(sqrt, s, SetTransform(t)).value.Canvas(Point(x, y))
         == Point(10.0 * (t.a * x + t.c * y + t.e) - 5.0, 10.0 * (t.b * x + t.d * y + t.f) - 5.0)
  {
    assert [] + [t] == [t];
    ProductOne(t);
    MapsMean(x, y, 0.0, 0.0, t);
    hide Map, Product;
  }

  function Combined(g: real, k: real, a: real, b: real): real { g * a + k * b }

  function Det(a: real, b: real, c: real, d: real): real { a * d - b * c }

  /** Twice the area of the triangle `p`, `q`, `r`, with a sign for the way round. */
  function Cross(p: Point, q: Point, r: Point): real { Det(q.x - p.x, q.y - p.y, r.x - p.x, r.y - p.y) }

  function Size(x: real): real { if x < 0.0 then -x else x }

  /** A transform multiplies the area of every triangle by `Area`. */
  lemma AreaScales(t: Affine, p: Point, q: Point, r: Point)
    ensures Size(Cross(Map(t, p), Map(t, q), Map(t, r))) == Area(t) * Size(Cross(p, q, r))
  {
    MapDifference(t, p, q);
    MapDifference(t, p, r);
    hide Map, Combined;
    Determinant(t.a, t.b, t.c, t.d, q.x - p.x, q.y - p.y, r.x - p.x, r.y - p.y);
    AreaIs(t);
    var det, before, after := Det(t.a, t.b, t.c, t.d), Cross(p, q, r), Cross(Map(t, p), Map(t, q), Map(t, r));
    hide Area, Det, Size;
    assert before == Det(q.x - p.x, q.y - p.y, r.x - p.x, r.y - p.y);
    SizeOfProduct(det, before, after, Area(t));
  }

  lemma AreaIs(t: Affine)
    ensures Area(t) == Size(Det(t.a, t.b, t.c, t.d))
  {
  }

  lemma MapDifference(t: Affine, p: Point, q: Point)
    ensures Map(t, q).x - Map(t, p).x == Combined(t.a, t.c, q.x - p.x, q.y - p.y)
    ensures Map(t, q).y - Map(t, p).y == Combined(t.b, t.d, q.x - p.x, q.y - p.y)
  {
  }

  lemma Determinant(g: real, h: real, k: real, l: real, a: real, b: real, c: real, d: real)
    ensures Det(Combined(g, k, a, b), Combined(h, l, a, b), Combined(g, k, c, d), Combined(h, l, c, d))
         == Det(g, h, k, l) * Det(a, b, c, d)
  {
  }

  lemma SizeOfProduct(x: real, y: real, product: real, size: real)
    requires product == x * y && size == Size(x)
    ensures Size(product) == size * Size(y)
  {
    assert -x * -y == x * y && -x * y == -(x * y) && x * -y == -(x * y);
    if x >= 0.0 && y >= 0.0 { assert x * y >= 0.0; }
    if x < 0.0 && y < 0.0 { assert -x * -y >= 0.0; }
    if x < 0.0 && y >= 0.0 { assert -x * y >= 0.0; }
    if x >= 0.0 && y < 0.0 { assert x * -y >= 0.0; }
  }

  function Run(sqrt: real -> real, s: State, commands: seq<Command>): Option<State> {
    if commands == [] then Some(s)
    else
      var before := Run(sqrt, s, commands[..|commands| - 1]);
      if before.None? then None else Step(sqrt, before.value, commands[|commands| - 1])
  }

  /** Saved states after the commands, counted from now. */
  function Depth(commands: seq<Command>): int {
    if commands == [] then 0
    else Depth(commands[..|commands| - 1]) + match commands[|commands| - 1] case Save => 1 case Restore => -1 case _ => 0
  }

  /** No `restore` without a `save` of its own. */
  predicate NeverBelow(commands: seq<Command>) {
    Depth(commands) >= 0 && (commands == [] || NeverBelow(commands[..|commands| - 1]))
  }

  predicate Balanced(commands: seq<Command>) { NeverBelow(commands) && Depth(commands) == 0 }

  predicate Level(s: State) { |s.appliedStack| == |s.aStack| }

  lemma {:induction false} SavedStay(sqrt: real -> real, s: State, commands: seq<Command>)
    requires Level(s) && NeverBelow(commands)
    ensures var r := Run(sqrt, s, commands);
            && r.Some? && Level(r.value) && |r.value.aStack| == |s.aStack| + Depth(commands)
            && s.appliedStack <= r.value.appliedStack && s.aStack <= r.value.aStack
  {
    if commands != [] {
      SavedStay(sqrt, s, commands[..|commands| - 1]);
    }
  }

  lemma {:induction false} RunAppend(sqrt: real -> real, s: State, a: seq<Command>, b: seq<Command>)
    ensures Run(sqrt, s, a + b) == if Run(sqrt, s, a).None? then None else Run(sqrt, Run(sqrt, s, a).value, b)
    decreases |b|
  {
    if b == [] {
      assert a + b == a;
    } else {
      assert (a + b)[..|a + b| - 1] == a + b[..|b| - 1];
      RunAppend(sqrt, s, a, b[..|b| - 1]);
    }
  }

  /** Whatever happens between a `save` and its `restore`, the transform and the paint state come back. */
  lemma BalancedRestores(sqrt: real -> real, s: State, commands: seq<Command>)
    requires Level(s) && Balanced(commands)
    ensures var r := Run(sqrt, s, [Save] + commands + [Restore]);
            && r.Some? && r.value.applied == s.applied && r.value.paint == s.paint
            && r.value.appliedStack == s.appliedStack && r.value.aStack == s.aStack
  {
    var saved := Step(sqrt, s, Save).value;
    SavedStay(sqrt, saved, commands);
    RunAppend(sqrt, s, [Save], commands);
    assert Run(sqrt, s, [Save]) == Some(saved) by {
      assert [Save][..0] == [];
    }
    RunAppend(sqrt, s, [Save] + commands, [Restore]);
    var after := Run(sqrt, saved, commands).value;
    assert Run(sqrt, after, [Restore]) == Step(sqrt, after, Restore) by {
      assert [Restore][..0] == [];
    }
    assert after.appliedStack == saved.appliedStack && after.aStack == saved.aStack;
    assert saved.appliedStack[..|s.appliedStack|] == s.appliedStack && saved.aStack[..|s.aStack|] == s.aStack;
  }

  /** One point of a path segment that starts at `a`. */
  function At(a: Point, op: PathOp, t: real): Point
    requires op.BezierCurveTo? && op.cp1.Some? && op.cp2.Some?
  {
    Point(Cubic(a.x, op.cp1.value.x, op.cp2.value.x, op.p.x, t), Cubic(a.y, op.cp1.value.y, op.cp2.value.y, op.p.y, t))
  }

  /** `quadraticCurveTo` adds a segment that is, at every parameter, the quadratic curve with the transformed control points;
      if the current point was set with the matrix still in force, that is where the matrix takes the curve asked for. */
  lemma QuadraticIsDrawn(sqrt: real -> real, s: State, from: Point, c: Point, to: Point, t: real)
    requires s.current.Some?
    ensures var s', n := Step(sqrt, s, Quad(c, to)).value, |s.path|;
            && |s'.path| == n + 1 && s'.path[..n] == s.path && s'.current == Some(s.Canvas(to))
            && s'.path[n].BezierCurveTo? && s'.path[n].cp1.Some? && s'.path[n].cp2.Some?
            && At(s.current.value, s'.path[n], t) == QuadraticAt(s.current.value, s.Canvas(c), s.Canvas(to), t)
            && (s.current == Some(s.Canvas(from)) ==> At(s.current.value, s'.path[n], t) == s.Canvas(QuadraticAt(from, c, to, t)))
  {
    var a, cp, p := s.current.value, s.Canvas(c), s.Canvas(to);
    CubicIsQuadratic(a.x, cp.x, p.x, t);
    CubicIsQuadratic(a.y, cp.y, p.y, t);
    CoordsOfCurve(Product(s.applied), from, c, to, t);
    hide Cubic, Quadratic, Coords;
  }

  // ----- the object

  ghost predicate Holds(m: array2<real>, applied: seq<Affine>)
    reads m
  {
    Is3x3(m) && IsMatrix(m, Product(applied))
  }

  method MatrixOf(t: Affine) returns (m: array2<real>)
    ensures fresh(m) && Is3x3(m) && IsMatrix(m, t)
  {
    m := MatrixIdentity();
    m[0, 0], m[0, 1] := t.a, t.b;
    m[1, 0], m[1, 1] := t.c, t.d;
    m[2, 0], m[2, 1] := t.e, t.f;
  }

  class Context {
    const sqrt: real -> real
    var m: array2<real>
    var mStack: seq<array2<real>>
    var aStack: seq<Paint>
    var paint: Paint
    var currentPath: seq<PathOp>
    var current: Option<Point>
    ghost var applied: seq<Affine>
    ghost var appliedStack: seq<seq<Affine>>

    ghost function St(): State
      reads this
    {
      State(applied, appliedStack, paint, aStack, currentPath, current)
    }

    /** Every matrix is affine, the one in force and the saved ones. */
    ghost predicate Valid()
      reads this, m, mStack
    {
      && Holds(m, applied) && |mStack| == |aStack| == |appliedStack|
      && forall i :: 0 <= i < |mStack| ==> Holds(mStack[i], appliedStack[i])
    }

    constructor (sqrt: real -> real)
      ensures Valid() && this.sqrt == sqrt && applied == [] && mStack == [] && currentPath == [] && current == None && fresh(m)
    {
      this.sqrt := sqrt;
      var id := MatrixIdentity();
      m, mStack, aStack, currentPath, current := id, [], [], [], None;
      paint := Paint(Style("#000", "butt", "miter", 1.0, Z, None, None, None, None, "#000", 1.0), 1.0, 1.0, 1.0);
      applied, appliedStack := [], [];
    }

    /** Where a point is drawn: all transforms in turn, the latest first, then the scale of the canvas. */
    method GetCoords(p: Point) returns (q: Point)
      requires Valid()
      ensures q == St().Canvas(p)
      ensures q == Point(Z * MapAll(applied, p).x - Z2, Z * MapAll(applied, p).y - Z2)
    {
      ProductMaps(applied, p);
      hide MapAll, Product;
      q := Point(Z * (p.x * m[0, 0] + p.y * m[1, 0] + m[2, 0]) - Z2, Z * (p.x * m[0, 1] + p.y * m[1, 1] + m[2, 1]) - Z2);
    }

    method Save()
      requires Valid()
      modifies this
      ensures Valid() && Some(St()) == Step(sqrt, old(St()), Command.Save)
    {
      aStack, mStack := aStack + [paint], mStack + [m];
      var id := MatrixIdentity();
      var copy := MatrixMultiply(id, m);
      MultiplyComposes(id, m, IDENTITY, Product(applied), copy);
      ThenIdentity(Product(applied));
      m := copy;
      appliedStack := appliedStack + [applied];
    }

    /** With nothing saved `copyState` gets `undefined` and throws, before the matrix is touched. */
    method Restore() returns (threw: bool)
      requires Valid()
      modifies this
      ensures Valid() && (if threw then None else Some(St())) == Step(sqrt, old(St()), Command.Restore)
      ensures threw ==> St() == old(St())
      ensures !threw ==> m == old(mStack)[|old(mStack)| - 1]
    {
      var n := |aStack| - 1;
      if n < 0 {
        return true;
      }
      paint, aStack := aStack[n], aStack[..n];
      m, mStack := mStack[n], mStack[..n];
      applied, appliedStack := appliedStack[n], appliedStack[..n];
      threw := false;
    }

    /** The line scale is the root of what the matrix does to areas. */
    method SetM(m': array2<real>, ghost ts: seq<Affine>, updateLineScale: bool)
      requires Valid() && Holds(m', ts)
      modifies this
      ensures Valid() && St() == old(St()).(applied := ts, paint := paint)
      ensures paint == if updateLineScale then old(paint).(lineScale := sqrt(Area(Product(ts)))) else old(paint)
    {
      hide Product, Mix, Lin;
      m, applied := m', ts;
      if updateLineScale {
        var det := m[0, 0] * m[1, 1] - m[0, 1] * m[1, 0];
        ghost var p := Product(ts);
        assert det == p.a * p.d - p.b * p.c;
        assert Area(p) == if det < 0.0 then -det else det;
        paint := paint.(lineScale := sqrt(if det < 0.0 then -det else det));
      }
    }

    /** `setM( this, matrixMultiply( m1, this.m_ ), updateLineScale )`. */
    method Concat(t: Affine, updateLineScale: bool)
      requires Valid()
      modifies this
      ensures Valid() && St() == Apply(sqrt, old(St()), t, updateLineScale)
    {
      var m1 := MatrixOf(t);
      var product := MatrixMultiply(m1, m);
      MultiplyComposes(m1, m, t, Product(applied), product);
      assert (applied + [t])[..|applied|] == applied;
      SetM(product, applied + [t], updateLineScale);
    }

    method QuadraticCurveTo(c: Point, to: Point)
      requires Valid()
      modifies this
      ensures Valid() && Some(St()) == Step(sqrt, old(St()), Quad(c, to))
    {
      var cp := GetCoords(c);
      var p := GetCoords(to);
      hide Coords;
      var cp1: Option<Point>, cp2: Option<Point> := None, None;
      if current.Some? {
        var x, y := current.value.x, current.value.y;
        cp1 := Some(Point(x + 2.0 / 3.0 * (cp.x - x), y + 2.0 / 3.0 * (cp.y - y)));
        cp2 := Some(Point(cp1.value.x + (p.x - x) / 3.0, cp1.value.y + (p.y - y) / 3.0));
      }
      currentPath := currentPath + [BezierCurveTo(cp1, cp2, p)];
      current := Some(p);
    }

    /** Any call: what it does is what `Step` says of the transforms applied. */
    method Do(c: Command) returns (threw: bool)
      requires Valid()
      modifies this
      ensures Valid() && (if threw then None else Some(St())) == Step(sqrt, old(St()), c)
      ensures threw ==> St() == old(St())
    {
      hide Product, IsMatrix, Holds, Area, Coords;
      threw := false;
      match c {
        case Save => Save();
        case Restore => threw := Restore();
        case Translate(x, y) => Concat(Affine(1.0, 0.0, 0.0, 1.0, x, y), false);
        case Rotate(cos, sin) => Concat(Affine(cos, sin, -sin, cos, 0.0, 0.0), false);
        case Scale(x, y) =>
          paint := paint.(arcScaleX := paint.arcScaleX * x, arcScaleY := paint.arcScaleY * y);
          assert St() == Rescaled(old(St()), x, y);
          Concat(Affine(x, 0.0, 0.0, y, 0.0, 0.0), true);
        case Transform(t) => Concat(t, true);
        case SetTransform(t) => SetTransform(t);
        case SetStyle(style) => paint := paint.(style := style);
        case BeginPath => currentPath := [];
        case Move(to) =>
          var p := GetCoords(to);
          currentPath, current := currentPath + [MoveTo(p)], Some(p);
        case Line(to) =>
          var p := GetCoords(to);
          currentPath, current := currentPath + [LineTo(p)], Some(p);
        case Quad(cp, to) => QuadraticCurveTo(cp, to);
      }
    }

    method SetTransform(t: Affine)
      requires Valid()
      modifies this
      ensures Valid() && Some(St()) == Step(sqrt, old(St()), Command.SetTransform(t))
    {
      var m1 := MatrixOf(t);
      ProductOne(t);
      hide Product;
      SetM(m1, [t], true);
      assert [] + [t] == [t];
    }

    /** A run of calls, up to the first that throws. */
    method Perform(commands: seq<Command>) returns (threw: bool)
      requires Valid()
      modifies this
      ensures Valid() && (if threw then None else Some(St())) == Run(sqrt, old(St()), commands)
    {
      hide Step, Product, IsMatrix;
      threw := false;
      var i := 0;
      assert commands[..0] == [];
      while i < |commands| && !threw
        invariant i <= |commands| && Valid()
        invariant (if threw then None else Some(St())) == Run(sqrt, old(St()), commands[..i])
        decreases |commands| - i
      {
        threw := Do(commands[i]);
        assert commands[..i + 1][..i] == commands[..i];
        i := i + 1;
      }
      if threw {
        Stuck(sqrt, old(St()), commands, i);
      }
      assert commands[..|commands|] == commands;
    }
  }

  lemma {:induction false} Stuck(sqrt: real -> real, s: State, commands: seq<Command>, i: nat)
    requires i <= |commands| && Run(sqrt, s, commands[..i]).None?
    ensures Run(sqrt, s, commands).None?
    decreases |commands|
  {
    if i == |commands| {
      assert commands[..i] == commands;
    } else {
      assert commands[..|commands| - 1][..i] == commands[..i];
      Stuck(sqrt, s, commands[..|commands| - 1], i);
    }
  }

  lemma ProductOne(t: Affine)
    ensures Product([t]) == t
  {
    assert [t][..0] == [];
    assert Product([]) == IDENTITY;
    ThenIdentity(t);
  }

  lemma ThenIdentity(t: Affine)
    ensures Then(IDENTITY, t) == t && Then(t, IDENTITY) == t
  {
  }
}
