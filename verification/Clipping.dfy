/** Line clipping in jquery.flot.js: the min and max clipping steps that `plotLine` and
    `plotLineArea` apply to each coordinate, and what they do to the segment as a set of points.
    Coordinates are reals. */
module Clipping {
  import opened Arithmetic
  import opened Wrappers

  datatype Point = Point(x: real, y: real)

  datatype Segment = Segment(a: Point, b: Point)

  datatype Rect = Rect(xmin: real, xmax: real, ymin: real, ymax: real)

  /** The point at parameter `t`. */
  function At(s: Segment, t: real): Point {
    Point(s.a.x + t * (s.b.x - s.a.x), s.a.y + t * (s.b.y - s.a.y))
  }

  ghost predicate On(p: Point, s: Segment) {
    exists t: real :: 0.0 <= t <= 1.0 && p == At(s, t)
  }

  function Flip(s: Segment): Segment {
    Segment(Point(s.a.y, s.a.x), Point(s.b.y, s.b.x))
  }

  /** The parameter at which the segment's line meets the height `y`. */
  function Meet(s: Segment, y: real): real
    requires s.a.y != s.b.y
  {
    (y - s.a.y) / (s.b.y - s.a.y)
  }

  /** Clip with the lower bound of y. */
  function ClipLow(s: Segment, lo: real): Option<Segment> {
    var Segment(Point(x1, y1), Point(x2, y2)) := s;
    if y1 <= y2 && y1 < lo then
      if y2 < lo then None
      else Some(Segment(Point(Meet(s, lo) * (x2 - x1) + x1, lo), s.b))
    else if y2 <= y1 && y2 < lo then
      if y1 < lo then None
      else Some(Segment(s.a, Point(Meet(s, lo) * (x2 - x1) + x1, lo)))
    else Some(s)
  }

  /** Clip with the upper bound of y. */
  function ClipHigh(s: Segment, hi: real): Option<Segment> {
    var Segment(Point(x1, y1), Point(x2, y2)) := s;
    if y1 >= y2 && y1 > hi then
      if y2 > hi then None
      else Some(Segment(Point(Meet(s, hi) * (x2 - x1) + x1, hi), s.b))
    else if y2 >= y1 && y2 > hi then
      if y1 > hi then None
      else Some(Segment(s.a, Point(Meet(s, hi) * (x2 - x1) + x1, hi)))
    else Some(s)
  }

  /** Clip with both bounds of x: the same steps with the coordinates exchanged. */
  function ClipX(s: Segment, xmin: real, xmax: real): Option<Segment> {
    match ClipLow(Flip(s), xmin)
    case None => None
    case Some(l) =>
      match ClipHigh(l, xmax)
      case None => None
      case Some(h) => Some(Flip(h))
  }

  function ClipY(s: Segment, ymin: real, ymax: real): Option<Segment> {
    match ClipLow(s, ymin)
    case None => None
    case Some(l) => ClipHigh(l, ymax)
  }

  /** All four steps of `plotLine`, in its order. */
  function Clip(s: Segment, r: Rect): Option<Segment> {
    match ClipY(s, r.ymin, r.ymax)
    case None => None
    case Some(t) => ClipX(t, r.xmin, r.xmax)
  }

  // ----- parts of a segment

  lemma AtFlip(s: Segment, t: real)
    ensures At(Flip(s), t) == Point(At(s, t).y, At(s, t).x)
  {
  }

  lemma FlipOn(p: Point, s: Segment)
    ensures On(p, s) <==> On(Point(p.y, p.x), Flip(s))
  {
    if On(p, s) {
      var t: real :| 0.0 <= t <= 1.0 && p == At(s, t);
      AtFlip(s, t);
    }
    if On(Point(p.y, p.x), Flip(s)) {
      var t: real :| 0.0 <= t <= 1.0 && Point(p.y, p.x) == At(Flip(s), t);
      AtFlip(s, t);
    }
  }

  function Reverse(s: Segment): Segment { Segment(s.b, s.a) }

  lemma AtReverse(s: Segment, t: real)
    ensures At(Reverse(s), 1.0 - t) == At(s, t)
  {
  }

  lemma ReverseOn(p: Point, s: Segment)
    ensures On(p, s) <==> On(p, Reverse(s))
  {
    if On(p, s) {
      var t: real :| 0.0 <= t <= 1.0 && p == At(s, t);
      AtReverse(s, t);
    }
    if On(p, Reverse(s)) {
      var t: real :| 0.0 <= t <= 1.0 && p == At(Reverse(s), t);
      AtReverse(s, 1.0 - t);
    }
  }

  lemma Affine(a: real, d: real, m: real, t: real)
    ensures a + m * d + t * (a + d - (a + m * d)) == a + (m + t * (1.0 - m)) * d
  {
  }

  /** Starting the segment at parameter `m` instead: parameter `t` of the rest. */
  lemma AtRest(s: Segment, m: real, t: real)
    ensures At(Segment(At(s, m), s.b), t) == At(s, m + t * (1.0 - m))
  {
    Affine(s.a.x, s.b.x - s.a.x, m, t);
    Affine(s.a.y, s.b.y - s.a.y, m, t);
  }

  /** The part from parameter `m` on. */
  lemma RestOn(p: Point, s: Segment, m: real)
    requires 0.0 <= m <= 1.0
    ensures On(p, Segment(At(s, m), s.b)) <==> exists t: real :: m <= t <= 1.0 && p == At(s, t)
  {
    var rest := Segment(At(s, m), s.b);
    if On(p, rest) {
      var t: real :| 0.0 <= t <= 1.0 && p == At(rest, t);
      AtRest(s, m, t);
      Between(m, t);
    }
    if t: real :| m <= t <= 1.0 && p == At(s, t) {
      if m == 1.0 {
        AtRest(s, m, 0.0);
        assert At(s, m + 0.0 * (1.0 - m)) == At(s, t);
      } else {
        var u := (t - m) / (1.0 - m);
        Share(t - m, 1.0 - m);
        AtRest(s, m, u);
        assert m + u * (1.0 - m) == t;
      }
    }
  }

  lemma Between(m: real, t: real)
    requires 0.0 <= m <= 1.0 && 0.0 <= t <= 1.0
    ensures m <= m + t * (1.0 - m) <= 1.0
  {
    Product(t, 1.0 - m);
    Product(1.0 - t, 1.0 - m);
    assert 1.0 - (m + t * (1.0 - m)) == (1.0 - t) * (1.0 - m);
  }

  lemma Share(n: real, d: real)
    requires d > 0.0 && 0.0 <= n <= d
    ensures 0.0 <= n / d <= 1.0 && n / d * d == n
  {
  }

  // ----- each clipping step is exact

  lemma Grows(d: real, t: real, m: real)
    requires d > 0.0
    ensures t * d >= m * d <==> t >= m
  {
    if t >= m { Product(t - m, d); } else { assert (m - t) * d > 0.0; }
  }

  lemma MeetAt(s: Segment, lo: real)
    requires s.a.y < lo <= s.b.y
    ensures 0.0 <= Meet(s, lo) <= 1.0 && At(s, Meet(s, lo)).y == lo
    ensures At(s, Meet(s, lo)).x == Meet(s, lo) * (s.b.x - s.a.x) + s.a.x
    ensures forall t: real :: At(s, t).y >= lo <==> t >= Meet(s, lo)
  {
    var d, m := s.b.y - s.a.y, Meet(s, lo);
    Share(lo - s.a.y, d);
    forall t: real ensures At(s, t).y >= lo <==> t >= m {
      Grows(d, t, m);
    }
  }

  /** Cutting a rising segment at the bound keeps exactly its points on or above it. */
  lemma CutOn(p: Point, s: Segment, lo: real)
    requires s.a.y < lo <= s.b.y
    ensures On(p, Segment(At(s, Meet(s, lo)), s.b)) <==> On(p, s) && p.y >= lo
  {
    MeetAt(s, lo);
    RestOn(p, s, Meet(s, lo));
  }

  lemma YBetween(p: Point, s: Segment)
    requires On(p, s)
    ensures s.a.y <= p.y <= s.b.y || s.b.y <= p.y <= s.a.y
  {
    var t: real :| 0.0 <= t <= 1.0 && p == At(s, t);
    var d := s.b.y - s.a.y;
    if d >= 0.0 {
      Product(t, d);
      Product(1.0 - t, d);
    } else {
      Product(t, -d);
      Product(1.0 - t, -d);
    }
    assert (1.0 - t) * d == d - t * d;
  }

  lemma SameMeet(s: Segment, lo: real)
    requires s.a.y != s.b.y
    ensures Meet(Reverse(s), lo) == 1.0 - Meet(s, lo)
  {
    var d := s.b.y - s.a.y;
    var m := Meet(s, lo);
    assert m * d == lo - s.a.y;
    assert (1.0 - m) * -d == lo - s.b.y;
    Quotient(1.0 - m, -d, lo - s.b.y);
  }

  lemma ClipRising(s: Segment, lo: real)
    requires s.a.y < lo <= s.b.y
    ensures ClipLow(s, lo) == Some(Segment(At(s, Meet(s, lo)), s.b))
  {
    MeetAt(s, lo);
    assert ClipLow(s, lo).value.a == At(s, Meet(s, lo));
  }

  lemma ClipFalling(s: Segment, lo: real)
    requires s.b.y < lo <= s.a.y
    ensures ClipLow(s, lo) == Some(Reverse(Segment(At(Reverse(s), Meet(Reverse(s), lo)), s.a)))
  {
    MeetAt(Reverse(s), lo);
    SameMeet(s, lo);
    AtReverse(s, Meet(s, lo));
    assert ClipLow(s, lo).value.b == At(Reverse(s), Meet(Reverse(s), lo));
  }

  lemma ClipLowExact(p: Point, s: Segment, lo: real)
    ensures match ClipLow(s, lo)
            case Some(c) => On(p, c) <==> On(p, s) && p.y >= lo
            case None => On(p, s) ==> p.y < lo
  {
    if On(p, s) { YBetween(p, s); }
    if s.a.y < lo <= s.b.y {
      ClipRising(s, lo);
      CutOn(p, s, lo);
    } else if s.b.y < lo <= s.a.y {
      var r := Reverse(s);
      ClipFalling(s, lo);
      CutOn(p, r, lo);
      ReverseOn(p, s);
      ReverseOn(p, ClipLow(s, lo).value);
    }
  }

  /** Mirroring at the x axis turns the upper bound into a lower one. */
  function Mirror(s: Segment): Segment {
    Segment(Point(s.a.x, -s.a.y), Point(s.b.x, -s.b.y))
  }

  lemma MirrorOn(p: Point, s: Segment)
    ensures On(p, s) <==> On(Point(p.x, -p.y), Mirror(s))
  {
    if On(p, s) {
      var t: real :| 0.0 <= t <= 1.0 && p == At(s, t);
      MirrorAt(s, t);
    }
    if On(Point(p.x, -p.y), Mirror(s)) {
      var t: real :| 0.0 <= t <= 1.0 && Point(p.x, -p.y) == At(Mirror(s), t);
      MirrorAt(s, t);
    }
  }

  lemma MirrorAt(s: Segment, t: real)
    ensures At(Mirror(s), t) == Point(At(s, t).x, -At(s, t).y)
  {
  }

  lemma ClipHighMirrors(s: Segment, hi: real)
    ensures match ClipHigh(s, hi)
            case Some(c) => ClipLow(Mirror(s), -hi) == Some(Mirror(c))
            case None => ClipLow(Mirror(s), -hi) == None
  {
    if s.a.y != s.b.y {
      SameRatio(hi - s.a.y, s.b.y - s.a.y);
      assert -hi - -s.a.y == -(hi - s.a.y) && -s.b.y - -s.a.y == -(s.b.y - s.a.y);
      assert Meet(Mirror(s), -hi) == Meet(s, hi);
    }
    if c :| ClipHigh(s, hi) == Some(c) {
      assert ClipLow(Mirror(s), -hi).value.a == Mirror(c).a;
      assert ClipLow(Mirror(s), -hi).value.b == Mirror(c).b;
    }
  }

  lemma SameRatio(n: real, d: real)
    requires d != 0.0
    ensures n / d == -n / -d
  {
    var q := n / d;
    assert q * -d == -n;
    Quotient(q, -d, -n);
  }

  lemma ClipHighExact(p: Point, s: Segment, hi: real)
    ensures match ClipHigh(s, hi)
            case Some(c) => On(p, c) <==> On(p, s) && p.y <= hi
            case None => On(p, s) ==> p.y > hi
  {
    ClipHighMirrors(s, hi);
    ClipLowExact(Point(p.x, -p.y), Mirror(s), -hi);
    MirrorOn(p, s);
    if ClipHigh(s, hi).Some? { MirrorOn(p, ClipHigh(s, hi).value); }
  }

  lemma ClipXExact(p: Point, s: Segment, xmin: real, xmax: real)
    ensures match ClipX(s, xmin, xmax)
            case Some(c) => On(p, c) <==> On(p, s) && xmin <= p.x <= xmax
            case None => On(p, s) ==> !(xmin <= p.x <= xmax)
  {
    var q := Point(p.y, p.x);
    FlipOn(p, s);
    ClipLowExact(q, Flip(s), xmin);
    if l :| ClipLow(Flip(s), xmin) == Some(l) {
      ClipHighExact(q, l, xmax);
      if h :| ClipHigh(l, xmax) == Some(h) { FlipOn(p, Flip(h)); }
    }
  }

  predicate Inside(p: Point, r: Rect) {
    r.xmin <= p.x <= r.xmax && r.ymin <= p.y <= r.ymax
  }

  /** Clipping is exact: what is drawn is the part of the segment inside the rectangle, point for
      point, and a segment is skipped only when no point of it is inside. */
  lemma ClipExact(p: Point, s: Segment, r: Rect)
    ensures match Clip(s, r)
            case Some(c) => On(p, c) <==> On(p, s) && Inside(p, r)
            case None => On(p, s) ==> !Inside(p, r)
  {
    ClipLowExact(p, s, r.ymin);
    if l :| ClipLow(s, r.ymin) == Some(l) {
      ClipHighExact(p, l, r.ymax);
      if t :| ClipHigh(l, r.ymax) == Some(t) { ClipXExact(p, t, r.xmin, r.xmax); }
    }
  }

  // ----- which way the clipped segment runs

  /** `c` is a part of `s` and runs the same way. */
  ghost predicate RunsAlong(c: Segment, s: Segment) {
    exists t0: real, t1: real :: Stretch(c, s, t0, t1)
  }

  predicate Stretch(c: Segment, s: Segment, t0: real, t1: real) {
    0.0 <= t0 <= t1 <= 1.0 && c.a == At(s, t0) && c.b == At(s, t1)
  }

  lemma WholeRuns(s: Segment)
    ensures RunsAlong(s, s)
  {
    assert Stretch(s, s, 0.0, 1.0);
  }

  /** Parameter `u` of the part from `t0` to `t1`. */
  lemma AtPart(s: Segment, t0: real, t1: real, u: real)
    ensures At(Segment(At(s, t0), At(s, t1)), u) == At(s, t0 + u * (t1 - t0))
  {
    Shares(t0, t1, u, s.a.x, s.b.x - s.a.x);
    Shares(t0, t1, u, s.a.y, s.b.y - s.a.y);
  }

  lemma PartOrder(t0: real, t1: real, u0: real, u1: real)
    requires 0.0 <= t0 <= t1 <= 1.0 && 0.0 <= u0 <= u1 <= 1.0
    ensures 0.0 <= t0 + u0 * (t1 - t0) <= t0 + u1 * (t1 - t0) <= 1.0
  {
    Product(u0, t1 - t0);
    Product(u1 - u0, t1 - t0);
    Product(1.0 - u1, t1 - t0);
    assert (1.0 - u1) * (t1 - t0) == (t1 - t0) - u1 * (t1 - t0);
    assert (u1 - u0) * (t1 - t0) == u1 * (t1 - t0) - u0 * (t1 - t0);
  }

  lemma RunsOn(d: Segment, c: Segment, s: Segment)
    requires RunsAlong(d, c) && RunsAlong(c, s)
    ensures RunsAlong(d, s)
  {
    var u0: real, u1: real :| Stretch(d, c, u0, u1);
    var t0: real, t1: real :| Stretch(c, s, t0, t1);
    PartOrder(t0, t1, u0, u1);
    AtPart(s, t0, t1, u0);
    AtPart(s, t0, t1, u1);
    assert Stretch(d, s, t0 + u0 * (t1 - t0), t0 + u1 * (t1 - t0));
  }

  lemma FlipRuns(c: Segment, s: Segment)
    ensures RunsAlong(c, s) ==> RunsAlong(Flip(c), Flip(s))
  {
    if t0: real, t1: real :| Stretch(c, s, t0, t1) {
      AtFlip(s, t0);
      AtFlip(s, t1);
      assert Stretch(Flip(c), Flip(s), t0, t1);
    }
  }

  lemma MirrorRuns(c: Segment, s: Segment)
    ensures RunsAlong(c, s) ==> RunsAlong(Mirror(c), Mirror(s))
  {
    if t0: real, t1: real :| Stretch(c, s, t0, t1) {
      MirrorAt(s, t0);
      MirrorAt(s, t1);
      assert Stretch(Mirror(c), Mirror(s), t0, t1);
    }
  }

  /** What the lower bound leaves runs the same way, and an end that is not below it stays. */
  lemma ClipLowRuns(s: Segment, lo: real)
    requires ClipLow(s, lo).Some?
    ensures var c := ClipLow(s, lo).value;
            RunsAlong(c, s) && (s.a.y >= lo ==> c.a == s.a) && (s.b.y >= lo ==> c.b == s.b)
  {
    var c := ClipLow(s, lo).value;
    if s.a.y < lo <= s.b.y {
      ClipRising(s, lo);
      MeetAt(s, lo);
      assert Stretch(c, s, Meet(s, lo), 1.0);
    } else if s.b.y < lo <= s.a.y {
      var r := Reverse(s);
      ClipFalling(s, lo);
      MeetAt(r, lo);
      AtReverse(r, Meet(r, lo));
      assert Stretch(c, s, 0.0, 1.0 - Meet(r, lo));
    } else {
      WholeRuns(s);
    }
  }

  lemma ClipHighRuns(s: Segment, hi: real)
    requires ClipHigh(s, hi).Some?
    ensures var c := ClipHigh(s, hi).value;
            RunsAlong(c, s) && (s.a.y <= hi ==> c.a == s.a) && (s.b.y <= hi ==> c.b == s.b)
  {
    var c := ClipHigh(s, hi).value;
    ClipHighMirrors(s, hi);
    ClipLowRuns(Mirror(s), -hi);
    MirrorRuns(Mirror(c), Mirror(s));
    assert Mirror(Mirror(c)) == c && Mirror(Mirror(s)) == s;
  }

  lemma ClipXRuns(s: Segment, xmin: real, xmax: real)
    requires ClipX(s, xmin, xmax).Some?
    ensures var c := ClipX(s, xmin, xmax).value;
            && RunsAlong(c, s) && (xmin <= s.a.x <= xmax ==> c.a == s.a) && (xmin <= s.b.x <= xmax ==> c.b == s.b)
  {
    var l := ClipLow(Flip(s), xmin).value;
    var h := ClipHigh(l, xmax).value;
    ClipLowRuns(Flip(s), xmin);
    ClipHighRuns(l, xmax);
    RunsOn(h, l, Flip(s));
    FlipRuns(h, Flip(s));
    assert Flip(Flip(s)) == s;
    hide RunsAlong, ClipLow, ClipHigh;
  }

  /** The clipped segment runs the same way as the segment, and an end of it that is inside stays an end. */
  lemma ClipRuns(s: Segment, r: Rect)
    requires Clip(s, r).Some?
    ensures var c := Clip(s, r).value;
            RunsAlong(c, s) && (Inside(s.a, r) ==> c.a == s.a) && (Inside(s.b, r) ==> c.b == s.b)
  {
    var l := ClipLow(s, r.ymin).value;
    var t := ClipHigh(l, r.ymax).value;
    var c := ClipX(t, r.xmin, r.xmax).value;
    ClipLowRuns(s, r.ymin);
    ClipHighRuns(l, r.ymax);
    ClipXRuns(t, r.xmin, r.xmax);
    RunsOn(t, l, s);
    RunsOn(c, t, s);
    hide RunsAlong, ClipLow, ClipHigh, ClipX;
  }

  /** Between two points inside nothing is clipped. */
  lemma InsideStays(s: Segment, r: Rect)
    requires Inside(s.a, r) && Inside(s.b, r)
    ensures Clip(s, r) == Some(s)
  {
    assert s.a == At(s, 0.0);
    assert On(s.a, s);
    ClipExact(s.a, s, r);
    ClipRuns(s, r);
    hide On, Clip;
  }
}
