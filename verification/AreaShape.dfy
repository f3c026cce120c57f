/** What the areas of `plotLineArea` look like: the outline of an edge is the edge clamped to the
    visible heights, and the areas together cover every visible edge, one filled path each. */
module AreaShape {
  import opened Arithmetic
  import opened Clipping
  import opened Canvas
  import opened AreaPlot
  import opened Wrappers

  // ----- outline and clamp

  function Clamp(p: Point, r: Rect): Point {
    Point(p.x, if p.y < r.ymin then r.ymin else if p.y > r.ymax then r.ymax else p.y)
  }

  /** `p` lies on one of the legs of the line drawn through `ps`. */
  ghost predicate OnPath(p: Point, ps: seq<Point>) {
    exists k :: 0 <= k < |ps| - 1 && On(p, Segment(ps[k], ps[k + 1]))
  }

  /** `s` pressed flat at height `h`. */
  function Flat(s: Segment, h: real): Segment {
    Segment(Point(s.a.x, h), Point(s.b.x, h))
  }

  lemma AtFlat(s: Segment, h: real, t: real)
    ensures At(Flat(s, h), t) == Point(At(s, t).x, h)
  {
  }

  lemma FlatOn(p: Point, s: Segment, h: real)
    ensures On(p, Flat(s, h)) <==> exists q :: On(q, s) && p == Point(q.x, h)
  {
    if On(p, Flat(s, h)) {
      var t: real :| 0.0 <= t <= 1.0 && p == At(Flat(s, h), t);
      AtFlat(s, h, t);
      assert On(At(s, t), s);
    }
    if q :| On(q, s) && p == Point(q.x, h) {
      var t: real :| 0.0 <= t <= 1.0 && q == At(s, t);
      AtFlat(s, h, t);
    }
  }

  lemma EndsOn(s: Segment)
    ensures On(s.a, s) && On(s.b, s)
  {
    assert s.a == At(s, 0.0) && s.b == At(s, 1.0);
  }

  lemma PointOn(p: Point, s: Segment)
    requires s.a == s.b
    ensures On(p, s) <==> p == s.a
  {
    EndsOn(s);
  }

  lemma MixBetween(t0: real, t1: real, u: real)
    requires 0.0 <= t0 <= 1.0 && 0.0 <= t1 <= 1.0 && 0.0 <= u <= 1.0
    ensures 0.0 <= t0 + u * (t1 - t0) <= 1.0
  {
    Product(1.0 - u, t0);
    Product(u, t1);
    Product(1.0 - u, 1.0 - t0);
    Product(u, 1.0 - t1);
    assert t0 + u * (t1 - t0) == (1.0 - u) * t0 + u * t1;
    assert 1.0 - (t0 + u * (t1 - t0)) == (1.0 - u) * (1.0 - t0) + u * (1.0 - t1);
  }

  /** Whatever lies between two points of `s` lies on `s`. */
  lemma ConvexOn(q: Point, s: Segment, part: Segment)
    requires On(part.a, s) && On(part.b, s) && On(q, part)
    ensures On(q, s)
  {
    var t0: real :| 0.0 <= t0 <= 1.0 && part.a == At(s, t0);
    var t1: real :| 0.0 <= t1 <= 1.0 && part.b == At(s, t1);
    var u: real :| 0.0 <= u <= 1.0 && q == At(part, u);
    MixBetween(t0, t1, u);
    AtPart(s, t0, t1, u);
  }

  /** The points of a rising segment below the bound lie on its head. */
  lemma HeadBelow(q: Point, s: Segment, lo: real)
    requires s.a.y < lo <= s.b.y && On(q, s) && q.y < lo
    ensures On(q, Segment(s.a, At(s, Meet(s, lo))))
  {
    var t: real :| 0.0 <= t <= 1.0 && q == At(s, t);
    MeetAt(s, lo);
    var m, r := Meet(s, lo), Reverse(s);
    AtReverse(s, m);
    AtReverse(s, t);
    RestOn(q, r, 1.0 - m);
    assert On(q, Segment(At(s, m), s.a));
    ReverseOn(q, Segment(At(s, m), s.a));
  }

  lemma SameCut(s: Segment, lo: real)
    requires s.a.y >= lo || s.b.y >= lo
    ensures ClipLow(s, lo) == Some(CutLow(s, lo))
  {
    hide Meet;
  }

  lemma LowHead(q: Point, s: Segment, lo: real)
    requires s.a.y < lo <= s.b.y && On(q, s) && q.y < lo
    ensures On(q, Segment(s.a, CutLow(s, lo).a))
  {
    ClipRising(s, lo);
    HeadBelow(q, s, lo);
    assert CutLow(s, lo).a == At(s, Meet(s, lo));
  }

  lemma LowTail(q: Point, s: Segment, lo: real)
    requires s.b.y < lo <= s.a.y && On(q, s) && q.y < lo
    ensures On(q, Segment(CutLow(s, lo).b, s.b))
  {
    hide On, Meet;
    var r := Reverse(s);
    ClipFalling(s, lo);
    ReverseOn(q, s);
    HeadBelow(q, r, lo);
    assert CutLow(s, lo).b == At(r, Meet(r, lo));
    ReverseOn(q, Segment(CutLow(s, lo).b, s.b));
  }

  /** Cutting from below leaves a head and a tail of points under the bound, and nothing else is lost. */
  lemma LowParts(q: Point, s: Segment, lo: real)
    requires On(q, s) && (s.a.y >= lo || s.b.y >= lo)
    ensures ClipLow(s, lo) == Some(CutLow(s, lo))
    ensures var c := CutLow(s, lo);
            On(q, c) || (q.y < lo && (On(q, Segment(s.a, c.a)) || On(q, Segment(c.b, s.b))))
  {
    SameCut(s, lo);
    ClipLowExact(q, s, lo);
    YBetween(q, s);
    hide On, ClipLow, CutLow;
    if q.y < lo {
      if s.a.y < lo { LowHead(q, s, lo); } else { LowTail(q, s, lo); }
    }
  }

  lemma HighParts(q: Point, s: Segment, hi: real)
    requires On(q, s) && (s.a.y <= hi || s.b.y <= hi)
    ensures ClipHigh(s, hi) == Some(CutHigh(s, hi))
    ensures var c := CutHigh(s, hi);
            On(q, c) || (q.y > hi && (On(q, Segment(s.a, c.a)) || On(q, Segment(c.b, s.b))))
  {
    hide On, Meet;
    var m, c, n := Mirror(s), CutHigh(s, hi), Point(q.x, -q.y);
    ClipHighMirrors(s, hi);
    MirrorOn(q, s);
    LowParts(n, m, -hi);
    assert CutLow(m, -hi) == Mirror(c);
    MirrorOn(q, c);
    MirrorOn(q, Segment(s.a, c.a));
    MirrorOn(q, Segment(c.b, s.b));
  }

  /** Both cuts, as `Outline` makes them. */
  function Cut(s: Segment, r: Rect): Segment {
    CutHigh(CutLow(s, r.ymin), r.ymax)
  }

  /** The edge is neither wholly at or above the top nor wholly at or below the bottom. */
  predicate Crosses(s: Segment, r: Rect) {
    r.ymin <= r.ymax && !(s.a.y >= r.ymax && s.b.y >= r.ymax) && !(s.a.y <= r.ymin && s.b.y <= r.ymin)
  }

  lemma CutEnds(s: Segment, r: Rect)
    requires Crosses(s, r)
    ensures var c := Cut(s, r);
            && c.a.y == Clamp(s.a, r).y && (r.ymin <= s.a.y <= r.ymax ==> c.a == s.a)
            && c.b.y == Clamp(s.b, r).y && (r.ymin <= s.b.y <= r.ymax ==> c.b == s.b)
  {
  }

  /** A point of the edge is visible and on the middle part, or beyond an end and clamped to its height. */
  lemma PartsOf(q: Point, s: Segment, r: Rect)
    requires Crosses(s, r) && On(q, s)
    ensures var c := Cut(s, r);
            || (On(q, c) && Clamp(q, r) == q)
            || (On(q, Segment(s.a, c.a)) && Clamp(q, r) == Point(q.x, c.a.y))
            || (On(q, Segment(c.b, s.b)) && Clamp(q, r) == Point(q.x, c.b.y))
  {
    var l, c := CutLow(s, r.ymin), Cut(s, r);
    CutEnds(s, r);
    LowParts(q, s, r.ymin);
    if On(q, l) {
      ClipLowExact(q, s, r.ymin);
      HighParts(q, l, r.ymax);
      ClipHighExact(q, l, r.ymax);
      if !On(q, c) {
        PointOn(q, Segment(l.a, l.a));
        PointOn(q, Segment(l.b, l.b));
      }
    } else {
      PointOn(q, Segment(s.a, s.a));
      PointOn(q, Segment(s.b, s.b));
    }
  }

  lemma CutOnEdge(s: Segment, r: Rect)
    requires Crosses(s, r)
    ensures On(Cut(s, r).a, s) && On(Cut(s, r).b, s)
    ensures forall q :: On(q, Cut(s, r)) ==> On(q, s) && r.ymin <= q.y <= r.ymax
  {
    var l, c := CutLow(s, r.ymin), Cut(s, r);
    EndsOn(s);
    EndsOn(c);
    LowParts(s.a, s, r.ymin);
    EndsOn(l);
    HighParts(l.a, l, r.ymax);
    forall q | On(q, c) ensures On(q, s) && r.ymin <= q.y <= r.ymax {
      ClipHighExact(q, l, r.ymax);
      ClipLowExact(q, s, r.ymin);
    }
  }

  /** Conversely, points of the middle, head and tail are points of the edge. */
  lemma PartsOn(q: Point, s: Segment, r: Rect)
    requires Crosses(s, r)
    ensures var c := Cut(s, r);
            && (On(q, c) ==> On(q, s) && Clamp(q, r) == q)
            && (On(q, Segment(s.a, c.a)) ==> On(q, s) && Clamp(q, r) == Point(q.x, c.a.y))
            && (On(q, Segment(c.b, s.b)) ==> On(q, s) && Clamp(q, r) == Point(q.x, c.b.y))
  {
    var c := Cut(s, r);
    CutOnEdge(s, r);
    CutEnds(s, r);
    EndsOn(s);
    if On(q, Segment(s.a, c.a)) {
      ConvexOn(q, s, Segment(s.a, c.a));
      YBetween(q, Segment(s.a, c.a));
    }
    if On(q, Segment(c.b, s.b)) {
      ConvexOn(q, s, Segment(c.b, s.b));
      YBetween(q, Segment(c.b, s.b));
    }
  }

  /** The legs of the outline: the head pressed flat, the middle, the tail pressed flat. */
  lemma Legs(p: Point, s: Segment, r: Rect)
    requires Crosses(s, r)
    ensures var c := Cut(s, r);
            OnPath(p, Outline(s, r)) <==>
            On(p, Flat(Segment(s.a, c.a), c.a.y)) || On(p, c) || On(p, Flat(Segment(c.b, s.b), c.b.y))
  {
    var c, ps := Cut(s, r), Outline(s, r);
    EndsOn(c);
    var head, tail := Flat(Segment(s.a, c.a), c.a.y), Flat(Segment(c.b, s.b), c.b.y);
    var i := if c.a.x != s.a.x then 1 else 0;
    assert ps[i] == c.a && ps[i + 1] == c.b;
    if i == 1 { assert head == Segment(ps[0], ps[1]); } else { PointOn(p, head); }
    if c.b.x != s.b.x {
      assert ps[i + 2] == c.b && tail == Segment(ps[i + 2], ps[i + 3]);
      PointOn(p, Segment(ps[i + 1], ps[i + 2]));
    } else {
      PointOn(p, tail);
    }
    assert c == Segment(ps[i], ps[i + 1]);
  }

  /** The line drawn for an edge is the edge clamped to the visible heights, point for point. */
  lemma OutlineIsClamped(p: Point, s: Segment, r: Rect)
    requires r.ymin <= r.ymax
    ensures OnPath(p, Outline(s, r)) <==> exists q :: On(q, s) && p == Clamp(q, r)
  {
    if Crosses(s, r) {
      var c := Cut(s, r);
      Legs(p, s, r);
      FlatOn(p, Segment(s.a, c.a), c.a.y);
      FlatOn(p, Segment(c.b, s.b), c.b.y);
      forall q
        ensures On(q, s) && p == Clamp(q, r) ==> OnPath(p, Outline(s, r))
        ensures On(q, c) && p == q ==> On(q, s) && p == Clamp(q, r)
        ensures On(q, Segment(s.a, c.a)) && p == Point(q.x, c.a.y) ==> On(q, s) && p == Clamp(q, r)
        ensures On(q, Segment(c.b, s.b)) && p == Point(q.x, c.b.y) ==> On(q, s) && p == Clamp(q, r)
      {
        PartsOn(q, s, r);
        if On(q, s) { PartsOf(q, s, r); }
      }
    } else {
      var h := if s.a.y >= r.ymax && s.b.y >= r.ymax then r.ymax else r.ymin;
      FlatOn(p, s, h);
      var ps := Outline(s, r);
      assert |ps| == 2 && Flat(s, h) == Segment(ps[0], ps[1]);
      forall q | On(q, s) ensures Clamp(q, r) == Point(q.x, h) {
        YBetween(q, s);
      }
    }
  }

  /** The points `ps` follow `s`, clamped to the visible heights, from end to end and never back. */
  ghost predicate Follows(ps: seq<Point>, s: Segment, r: Rect) {
    && |ps| >= 2 && ps[0] == Clamp(s.a, r) && ps[|ps| - 1] == Clamp(s.b, r)
    && exists ts: seq<real> :: AtShares(ps, s, r, ts)
  }

  /** Point `i` is where `s` is at share `ts[i]`. */
  ghost predicate AtShares(ps: seq<Point>, s: Segment, r: Rect, ts: seq<real>) {
    && |ts| == |ps| && (forall i :: 0 <= i < |ps| ==> 0.0 <= ts[i] <= 1.0 && ps[i] == Clamp(At(s, ts[i]), r))
    && forall i, j :: 0 <= i < j < |ts| ==> ts[i] <= ts[j]
  }

  lemma EndsAt(s: Segment)
    ensures At(s, 0.0) == s.a && At(s, 1.0) == s.b
  {
  }

  lemma CutRuns(s: Segment, r: Rect)
    requires Crosses(s, r)
    ensures RunsAlong(Cut(s, r), s)
  {
    var l := CutLow(s, r.ymin);
    SameCut(s, r.ymin);
    ClipLowRuns(s, r.ymin);
    EndsOn(l);
    HighParts(l.a, l, r.ymax);
    ClipHighRuns(l, r.ymax);
    hide RunsAlong, CutLow, CutHigh, ClipLow, ClipHigh;
    RunsOn(Cut(s, r), l, s);
  }

  /** The line drawn for an edge runs the way the edge does. */
  lemma OutlineFollows(s: Segment, r: Rect)
    requires r.ymin <= r.ymax
    ensures Follows(Outline(s, r), s, r)
  {
    var ps := Outline(s, r);
    EndsAt(s);
    if Crosses(s, r) {
      var c := Cut(s, r);
      CutEnds(s, r);
      CutRuns(s, r);
      var t0: real, t1: real :| Stretch(c, s, t0, t1);
      hide CutLow, CutHigh, At;
      var ts := (if c.a.x != s.a.x then [0.0] else []) + [t0, t1] + (if c.b.x != s.b.x then [t1, 1.0] else []);
      assert AtShares(ps, s, r, ts);
    } else {
      assert AtShares(ps, s, r, [0.0, 1.0]);
    }
  }

  function ShareOf(t0: real, t1: real, u: real): real { t0 + u * (t1 - t0) }

  lemma ShareBetween(c: Segment, s: Segment, t0: real, t1: real, u0: real, u1: real)
    requires Stretch(c, s, t0, t1) && 0.0 <= u0 <= u1 <= 1.0
    ensures 0.0 <= ShareOf(t0, t1, u0) <= ShareOf(t0, t1, u1) <= 1.0 && At(c, u0) == At(s, ShareOf(t0, t1, u0))
  {
    PartOrder(t0, t1, u0, u1);
    AtPart(s, t0, t1, u0);
    hide At;
  }

  /** What follows a part of an edge shares out along the edge itself. */
  lemma PartShares(ps: seq<Point>, c: Segment, s: Segment, r: Rect, us: seq<real>) returns (ts: seq<real>)
    requires AtShares(ps, c, r, us) && RunsAlong(c, s)
    ensures AtShares(ps, s, r, ts)
  {
    var t0: real, t1: real :| Stretch(c, s, t0, t1);
    ts := seq(|us|, i requires 0 <= i < |us| => ShareOf(t0, t1, us[i]));
    hide ShareOf, At, Clamp, Stretch;
    forall i | 0 <= i < |us| ensures 0.0 <= ts[i] <= 1.0 && ps[i] == Clamp(At(s, ts[i]), r) {
      ShareBetween(c, s, t0, t1, us[i], us[i]);
    }
    forall i, j | 0 <= i < j < |us| ensures ts[i] <= ts[j] {
      ShareBetween(c, s, t0, t1, us[i], us[j]);
    }
  }

  /** The base line is the visible height closest to zero. */
  lemma BaseLineClosest(r: Rect, h: real)
    requires r.ymin <= h <= r.ymax
    ensures r.ymin <= BaseLine(r) <= r.ymax && Abs(BaseLine(r)) <= Abs(h)
  {
  }

  // ----- the areas together

  /** Edge of an area, first edge and gap behind the last one. */
  datatype Span = Span(first: nat, gap: nat)

  /** The areas from point `start` on. */
  function Spans(sk: Sketch, start: nat): seq<Span>
    decreases sk.Count() - start
  {
    var o := sk.FirstVisible(start + 1);
    if o >= sk.Count() then [] else
      var e := sk.NextGap(o);
      [Span(o, e)] + Spans(sk, e + 1)
  }

  /** What holds of every sketch of a point array. */
  ghost predicate Coherent(sk: Sketch) {
    && |sk.tops| == |sk.there| == |sk.bottoms|
    && forall k :: sk.Top(k).Some? ==> sk.There(k - 1) && sk.There(k)
  }

  lemma SketchCoherent(points: seq<Option<real>>, ps: int, ax: Axes)
    requires WellFormed(points, ps, 3)
    ensures Coherent(SketchOf(points, ps, ax))
  {
    var sk := SketchOf(points, ps, ax);
    forall k | sk.Top(k).Some? ensures sk.There(k - 1) && sk.There(k) {
      SketchEdges(points, ps, ax, sk, k);
      SketchEdges(points, ps, ax, sk, k - 1);
    }
    SketchUpToAt(points, ps, ax, |points| / ps, 0);
  }

  lemma {:induction false} FirstVisibleIsFirst(sk: Sketch, k: nat, j: nat)
    requires k <= j < sk.Count() && sk.Top(j).Some?
    ensures sk.FirstVisible(k) <= j
    decreases j - k
  {
    if k < j { FirstVisibleIsFirst(sk, k + 1, j); }
  }

  /** The areas come in order and apart from each other. */
  lemma {:induction false} SpansInOrder(sk: Sketch, start: nat)
    requires Coherent(sk)
    ensures forall i :: 0 <= i < |Spans(sk, start)| ==>
              start < Spans(sk, start)[i].first < Spans(sk, start)[i].gap <= sk.Count()
    ensures forall i, j :: 0 <= i < j < |Spans(sk, start)| ==> Spans(sk, start)[i].gap < Spans(sk, start)[j].first
    decreases sk.Count() - start
  {
    var o := sk.FirstVisible(start + 1);
    if o < sk.Count() {
      assert sk.There(o);
      SpansInOrder(sk, sk.NextGap(o) + 1);
    }
  }

  /** Every visible edge is in one of the areas. */
  lemma {:induction false} SpansCover(sk: Sketch, start: nat, k: nat)
    requires Coherent(sk) && start < k && sk.Top(k).Some?
    ensures exists sp <- Spans(sk, start) :: sp.first <= k < sp.gap
    decreases sk.Count() - start
  {
    FirstVisibleIsFirst(sk, start + 1, k);
    var o := sk.FirstVisible(start + 1);
    var e := sk.NextGap(o);
    assert Spans(sk, start) == [Span(o, e)] + Spans(sk, e + 1);
    if k < e {
      assert Span(o, e) in Spans(sk, start);
    } else {
      assert !sk.There(e) && k != e && k != e + 1;
      SpansCover(sk, e + 1, k);
      var sp :| sp in Spans(sk, e + 1) && sp.first <= k < sp.gap;
      assert sp in Spans(sk, start);
    }
  }

  /** The filled paths of the areas, one after the other. */
  function Paths(sk: Sketch, spans: seq<Span>): seq<Op>
    requires forall sp <- spans :: sk.Top(sp.first).Some?
  {
    if spans == [] then [] else sk.Polygon(spans[0].first, spans[0].gap) + Paths(sk, spans[1..])
  }

  lemma {:induction false} SpansVisible(sk: Sketch, start: nat)
    ensures forall sp <- Spans(sk, start) :: sk.Top(sp.first).Some?
    decreases sk.Count() - start
  {
    var o := sk.FirstVisible(start + 1);
    if o < sk.Count() { SpansVisible(sk, sk.NextGap(o) + 1); }
  }

  /** The drawing is one path per area. */
  lemma {:induction false} AreasArePaths(sk: Sketch, start: nat)
    ensures forall sp <- Spans(sk, start) :: sk.Top(sp.first).Some?
    ensures sk.Areas(start) == Paths(sk, Spans(sk, start))
    decreases sk.Count() - start
  {
    SpansVisible(sk, start);
    var o := sk.FirstVisible(start + 1);
    if o < sk.Count() {
      var e := sk.NextGap(o);
      AreasArePaths(sk, e + 1);
      assert Spans(sk, start)[1..] == Spans(sk, e + 1);
    }
  }

  // ----- every opened path is filled

  /** Whether a path is open after `ops`: None once a path was begun or filled out of turn. */
  function OpenAfter(open: Option<bool>, ops: seq<Op>): Option<bool> {
    if ops == [] then open else
      match (OpenAfter(open, ops[..|ops| - 1]), ops[|ops| - 1])
      case (None, _) => None
      case (Some(b), Begin) => if b then None else Some(true)
      case (Some(b), Fill) => if b then Some(false) else None
      case (Some(b), _) => if b then Some(b) else None
  }

  lemma OpenAfterNone(b: bool)
    ensures OpenAfter(Some(b), []) == Some(b)
  {
  }

  lemma {:induction false} OpenAfterBoth(open: Option<bool>, a: seq<Op>, b: seq<Op>)
    ensures OpenAfter(open, a + b) == OpenAfter(OpenAfter(open, a), b)
  {
    if b == [] {
      assert a + b == a;
    } else {
      var init := b[..|b| - 1];
      assert (a + b)[..|a + b| - 1] == a + init;
      OpenAfterBoth(open, a, init);
    }
  }

  /** Edges begin a path with a move, and otherwise draw lines. */
  ghost predicate Drawing(sk: Sketch) {
    forall k ::
      && (sk.Top(k).Some? ==> |sk.Top(k).value.open| == 2 && sk.Top(k).value.open[0] == Begin
                              && sk.Top(k).value.open[1].MoveTo?)
      && (forall op <- sk.TopOps(k) :: op.LineTo?) && (forall op <- sk.BottomOps(k) :: op.LineTo?)
  }

  lemma {:induction false} LinesToAreLines(ax: Axes, ps: seq<Point>)
    ensures forall op <- LinesTo(ax, ps) :: op.LineTo?
  {
    if ps != [] { LinesToAreLines(ax, ps[..|ps| - 1]); }
  }

  lemma EdgeDraws(ax: Axes, a: Point, b: Point)
    ensures match EdgeOf(ax, a, b)
            case None => true
            case Some(e) => |e.open| == 2 && e.open[0] == Begin && e.open[1].MoveTo? && forall op <- e.along :: op.LineTo?
  {
    hide ClipX;
    match ClipX(Segment(a, b), ax.r.xmin, ax.r.xmax)
    case Some(s) => LinesToAreLines(ax, Outline(s, ax.r));
    case None =>
  }

  lemma SketchDraws(points: seq<Option<real>>, ps: int, ax: Axes)
    requires WellFormed(points, ps, 3)
    ensures Drawing(SketchOf(points, ps, ax))
  {
    hide EdgeOf;
    var sk := SketchOf(points, ps, ax);
    forall k
      ensures sk.Top(k).Some? ==> |sk.Top(k).value.open| == 2 && sk.Top(k).value.open[0] == Begin
                                  && sk.Top(k).value.open[1].MoveTo?
      ensures (forall op <- sk.TopOps(k) :: op.LineTo?) && (forall op <- sk.BottomOps(k) :: op.LineTo?)
    {
      SketchEdges(points, ps, ax, sk, k);
      match (VertexAt(points, ps, k - 1), VertexAt(points, ps, k))
      case (Some(a), Some(b)) =>
        EdgeDraws(ax, Point(a.x, a.top), Point(b.x, b.top));
        EdgeDraws(ax, Point(b.x, b.bottom), Point(a.x, a.bottom));
      case _ =>
    }
  }

  lemma {:induction false} LinesKeepOpen(ops: seq<Op>)
    requires forall op <- ops :: op.LineTo?
    ensures OpenAfter(Some(true), ops) == Some(true)
  {
    if ops != [] {
      assert ops[|ops| - 1] in ops;
      LinesKeepOpen(ops[..|ops| - 1]);
    }
  }

  lemma {:induction false} UpToOpens(sk: Sketch, o: nat, e: nat)
    requires Drawing(sk) && sk.Top(o).Some?
    ensures OpenAfter(Some(false), sk.UpTo(o, e)) == Some(true)
    decreases e
  {
    if e <= o {
      var open := sk.Top(o).value.open;
      assert open[..1] == [Begin] && [Begin][..0] == [];
    } else {
      UpToOpens(sk, o, e - 1);
      LinesKeepOpen(sk.TopOps(e - 1));
      OpenAfterBoth(Some(false), sk.UpTo(o, e - 1), sk.TopOps(e - 1));
    }
  }

  lemma {:induction false} BackToOpens(sk: Sketch, o: nat, e: nat, b: nat)
    requires Drawing(sk) && sk.Top(o).Some?
    ensures OpenAfter(Some(false), sk.BackTo(o, e, b)) == Some(true)
    decreases e - b
  {
    if b >= e {
      UpToOpens(sk, o, e);
    } else {
      BackToOpens(sk, o, e, b + 1);
      LinesKeepOpen(sk.BottomOps(b));
      OpenAfterBoth(Some(false), sk.BackTo(o, e, b + 1), sk.BottomOps(b));
    }
  }

  lemma PolygonFilled(sk: Sketch, o: nat, e: nat)
    requires Drawing(sk) && sk.Top(o).Some?
    ensures OpenAfter(Some(false), sk.Polygon(o, e)) == Some(false)
  {
    BackToOpens(sk, o, e, o);
    var path := sk.BackTo(o, e, o);
    assert (path + [Fill])[..|path + [Fill]| - 1] == path;
  }

  /** Over the whole drawing each path that is begun is filled before the next one is begun, nothing is
      drawn outside a path, and none is left open at the end. */
  lemma {:induction false} AreasAllFilled(sk: Sketch, start: nat)
    requires Drawing(sk)
    ensures OpenAfter(Some(false), sk.Areas(start)) == Some(false)
    decreases sk.Count() - start
  {
    hide OpenAfter, Drawing, Sketch.Polygon;
    assert OpenAfter(Some(false), []) == Some(false) by { OpenAfterNone(false); }
    var o := sk.FirstVisible(start + 1);
    if o < sk.Count() {
      var e := sk.NextGap(o);
      AreasAllFilled(sk, e + 1);
      PolygonFilled(sk, o, e);
      OpenAfterBoth(Some(false), sk.Polygon(o, e), sk.Areas(e + 1));
    }
  }
}
