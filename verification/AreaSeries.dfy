/** `plotLineArea` from the point array to the drawing: which stretches of the series are filled, and with what paths. */
module AreaSeries {
  import opened Arithmetic
  import opened Clipping
  import opened Canvas
  import opened AreaPlot
  import opened AreaShape
  import opened Wrappers

  // ----- what the array shows

  /** Data point number `k` of the array, None where it is missing or there is no such row. */
  function PointAt(points: seq<Option<real>>, ps: int, k: int): Option<Vertex> {
    if 0 <= k * ps && k * ps + 2 < |points| then
      match (points[k * ps], points[k * ps + 1], points[k * ps + 2])
      case (Some(x), Some(top), Some(bottom)) => Some(Vertex(x, top, bottom))
      case _ => None
    else None
  }

  /** The upper edge into point `k`. */
  function UpperEdge(points: seq<Option<real>>, ps: int, k: int): Option<Segment> {
    match (PointAt(points, ps, k - 1), PointAt(points, ps, k))
    case (Some(a), Some(b)) => Some(Segment(Point(a.x, a.top), Point(b.x, b.top)))
    case _ => None
  }

  /** The lower edge, from point `k` back to the point before it. */
  function LowerEdge(points: seq<Option<real>>, ps: int, k: int): Option<Segment> {
    match (PointAt(points, ps, k - 1), PointAt(points, ps, k))
    case (Some(a), Some(b)) => Some(Segment(Point(b.x, b.bottom), Point(a.x, a.bottom)))
    case _ => None
  }

  /** How an edge is drawn. */
  function Drawing(ax: Axes, e: Option<Segment>): Option<Edge> {
    if e.Some? then EdgeOf(ax, e.value.a, e.value.b) else None
  }

  /** The rows that the sweep reads are the points of the array. */
  lemma ReadsPoints(points: seq<Option<real>>, ps: int, ax: Axes, k: int)
    ensures VertexAt(points, ps, k) == PointAt(points, ps, k)
    ensures ps > 0 ==> (PointAt(points, ps, k).Some? ==> 0 <= k)
    ensures TopAt(points, ps, ax, k) == Drawing(ax, UpperEdge(points, ps, k))
    ensures BottomAt(points, ps, ax, k) == Drawing(ax, LowerEdge(points, ps, k))
  {
    VertexIsPoint(points, ps, k);
    VertexIsPoint(points, ps, k - 1);
    hide VertexAt, PointAt, EdgeOf;
  }

  lemma VertexIsPoint(points: seq<Option<real>>, ps: int, k: int)
    ensures VertexAt(points, ps, k) == PointAt(points, ps, k)
    ensures ps > 0 && PointAt(points, ps, k).Some? ==> 0 <= k
  {
    if ps > 0 && k < 0 { ScaledInts(k + 1, 0, ps); }
  }

  /** Some point of the upper edge into point `k` is in the visible range of x. */
  ghost predicate InSight(points: seq<Option<real>>, ps: int, ax: Axes, k: int) {
    UpperEdge(points, ps, k).Some? &&
    exists q :: On(q, UpperEdge(points, ps, k).value) && ax.r.xmin <= q.x <= ax.r.xmax
  }

  lemma InSightIsDrawn(points: seq<Option<real>>, ps: int, ax: Axes, k: int)
    ensures InSight(points, ps, ax, k) <==> Drawing(ax, UpperEdge(points, ps, k)).Some?
  {
    if UpperEdge(points, ps, k).Some? {
      var s := UpperEdge(points, ps, k).value;
      forall q ensures On(q, s) && ax.r.xmin <= q.x <= ax.r.xmax <==>
                       ClipX(s, ax.r.xmin, ax.r.xmax).Some? && On(q, ClipX(s, ax.r.xmin, ax.r.xmax).value)
      {
        ClipXExact(q, s, ax.r.xmin, ax.r.xmax);
      }
      if ClipX(s, ax.r.xmin, ax.r.xmax).Some? {
        EndsOn(ClipX(s, ax.r.xmin, ax.r.xmax).value);
      }
    }
  }

  /** The stretches in order and apart from each other; each goes from an edge in sight over points that are there up to
      the next missing one; and no edge in sight is outside them. */
  ghost predicate Stretches(points: seq<Option<real>>, ps: int, ax: Axes, spans: seq<Span>) {
    && (forall sp <- spans :: 0 < sp.first < sp.gap && InSight(points, ps, ax, sp.first))
    && (forall sp <- spans :: PointAt(points, ps, sp.gap) == None
                              && forall k :: sp.first - 1 <= k < sp.gap ==> PointAt(points, ps, k).Some?)
    && (forall i, j :: 0 <= i < j < |spans| ==> spans[i].gap < spans[j].first)
    && (forall k :: InSight(points, ps, ax, k) ==> exists sp <- spans :: sp.first <= k < sp.gap)
  }

  function Along(e: Option<Edge>): seq<Op> { if e.Some? then e.value.along else [] }

  /** The lines along the upper edges `o`, .., `e - 1`. */
  function Forth(points: seq<Option<real>>, ps: int, ax: Axes, o: nat, e: nat): seq<Op> {
    if e <= o then [] else Forth(points, ps, ax, o, e - 1) + Along(Drawing(ax, UpperEdge(points, ps, e - 1)))
  }

  /** The lines along the lower edges `e - 1` down to `b`. */
  function Back(points: seq<Option<real>>, ps: int, ax: Axes, e: nat, b: nat): seq<Op>
    decreases e - b
  {
    if b >= e then [] else Back(points, ps, ax, e, b + 1) + Along(Drawing(ax, LowerEdge(points, ps, b)))
  }

  /** One path, begun at the base line, along the top, back along the bottom, and filled. */
  function AreaPath(points: seq<Option<real>>, ps: int, ax: Axes, sp: Span): seq<Op> {
    var e := Drawing(ax, UpperEdge(points, ps, sp.first));
    (if e.Some? then e.value.open else []) + Forth(points, ps, ax, sp.first, sp.gap)
    + Back(points, ps, ax, sp.gap, sp.first) + [Fill]
  }

  function AreaPaths(points: seq<Option<real>>, ps: int, ax: Axes, spans: seq<Span>): seq<Op> {
    if spans == [] then [] else AreaPath(points, ps, ax, spans[0]) + AreaPaths(points, ps, ax, spans[1..])
  }

  // ----- the sketch says the same

  lemma {:induction false} UpToIsForth(points: seq<Option<real>>, ps: int, ax: Axes, sk: Sketch, o: nat, e: nat)
    requires WellFormed(points, ps, 3) && sk == SketchOf(points, ps, ax) && sk.Top(o).Some?
    ensures sk.UpTo(o, e) == sk.Top(o).value.open + Forth(points, ps, ax, o, e)
    decreases e
  {
    hide TopAt, BottomAt, SketchOf, WellFormed, Drawing, UpperEdge, LowerEdge;
    if e > o {
      UpToIsForth(points, ps, ax, sk, o, e - 1);
      SketchEdges(points, ps, ax, sk, e - 1);
      ReadsPoints(points, ps, ax, e - 1);
    }
  }

  lemma {:induction false} BackToIsBack(points: seq<Option<real>>, ps: int, ax: Axes, sk: Sketch, o: nat, e: nat, b: nat)
    requires WellFormed(points, ps, 3) && sk == SketchOf(points, ps, ax) && sk.Top(o).Some?
    ensures sk.BackTo(o, e, b) == sk.UpTo(o, e) + Back(points, ps, ax, e, b)
    decreases e - b
  {
    hide TopAt, BottomAt, SketchOf, WellFormed, Drawing, UpperEdge, LowerEdge;
    if b < e {
      BackToIsBack(points, ps, ax, sk, o, e, b + 1);
      SketchEdges(points, ps, ax, sk, b);
      ReadsPoints(points, ps, ax, b);
    }
  }

  lemma {:induction false} PathsAgree(points: seq<Option<real>>, ps: int, ax: Axes, sk: Sketch, spans: seq<Span>)
    requires WellFormed(points, ps, 3) && sk == SketchOf(points, ps, ax)
    requires forall sp <- spans :: sk.Top(sp.first).Some?
    ensures Paths(sk, spans) == AreaPaths(points, ps, ax, spans)
  {
    hide TopAt, BottomAt, SketchOf, WellFormed, Drawing, UpperEdge, LowerEdge;
    if spans != [] {
      var sp := spans[0];
      SketchEdges(points, ps, ax, sk, sp.first);
      ReadsPoints(points, ps, ax, sp.first);
      UpToIsForth(points, ps, ax, sk, sp.first, sp.gap);
      BackToIsBack(points, ps, ax, sk, sp.first, sp.gap, sp.first);
      PathsAgree(points, ps, ax, sk, spans[1..]);
    }
  }

  lemma {:induction false} ThereUpToGap(sk: Sketch, k: nat, j: nat)
    requires k <= sk.Count() && k <= j < sk.NextGap(k)
    ensures sk.There(j)
    decreases j - k
  {
    if k < j { ThereUpToGap(sk, k + 1, j); }
  }

  lemma {:induction false} SpansEnd(sk: Sketch, start: nat)
    requires Coherent(sk)
    ensures forall sp <- Spans(sk, start) :: sp.first <= sk.Count() && sp.gap == sk.NextGap(sp.first)
    decreases sk.Count() - start
  {
    var o := sk.FirstVisible(start + 1);
    if o < sk.Count() { SpansEnd(sk, sk.NextGap(o) + 1); }
  }

  /** The sketch shows what the array shows. */
  ghost predicate Shows(points: seq<Option<real>>, ps: int, ax: Axes, sk: Sketch) {
    forall k: int :: (sk.Top(k).Some? <==> InSight(points, ps, ax, k)) && (sk.There(k) <==> PointAt(points, ps, k).Some?)
  }

  lemma SketchShows(points: seq<Option<real>>, ps: int, ax: Axes)
    requires WellFormed(points, ps, 3)
    ensures Shows(points, ps, ax, SketchOf(points, ps, ax))
  {
    var sk := SketchOf(points, ps, ax);
    hide WellFormed, InSight, VertexAt, PointAt, TopAt, BottomAt, SketchOf, Drawing;
    forall k: int
      ensures (sk.Top(k).Some? <==> InSight(points, ps, ax, k)) && (sk.There(k) <==> PointAt(points, ps, k).Some?)
    {
      SketchEdges(points, ps, ax, sk, k);
      ReadsPoints(points, ps, ax, k);
      InSightIsDrawn(points, ps, ax, k);
    }
  }

  lemma SpansReach(points: seq<Option<real>>, ps: int, ax: Axes, sk: Sketch, sp: Span)
    requires Coherent(sk) && Shows(points, ps, ax, sk) && sp in Spans(sk, 0)
    ensures 0 < sp.first < sp.gap && InSight(points, ps, ax, sp.first) && PointAt(points, ps, sp.gap) == None
    ensures forall k :: sp.first - 1 <= k < sp.gap ==> PointAt(points, ps, k).Some?
  {
    SpansInOrder(sk, 0);
    SpansVisible(sk, 0);
    SpansEnd(sk, 0);
    hide InSight, PointAt, Spans;
    assert sk.There(sp.first - 1);
    forall k | sp.first - 1 <= k < sp.gap ensures sk.There(k) {
      if sp.first <= k { ThereUpToGap(sk, sp.first, k); }
    }
  }

  lemma SpansAreStretches(points: seq<Option<real>>, ps: int, ax: Axes, sk: Sketch)
    requires Coherent(sk) && Shows(points, ps, ax, sk)
    ensures Stretches(points, ps, ax, Spans(sk, 0))
  {
    hide InSight, PointAt, Spans;
    SpansInOrder(sk, 0);
    forall sp | sp in Spans(sk, 0)
      ensures 0 < sp.first < sp.gap && InSight(points, ps, ax, sp.first) && PointAt(points, ps, sp.gap) == None
      ensures forall k :: sp.first - 1 <= k < sp.gap ==> PointAt(points, ps, k).Some?
    {
      SpansReach(points, ps, ax, sk, sp);
    }
    forall k | InSight(points, ps, ax, k) ensures exists sp <- Spans(sk, 0) :: sp.first <= k < sp.gap {
      assert sk.There(k - 1);
      SpansCover(sk, 0, k);
    }
  }

  lemma {:induction false} LinesToAt(ax: Axes, line: seq<Point>)
    ensures |LinesTo(ax, line)| == |line|
    ensures forall i :: 0 <= i < |line| ==> LinesTo(ax, line)[i] == LineTo(Point(ax.px(line[i].x), ax.py(line[i].y)))
  {
    if line != [] { LinesToAt(ax, line[..|line| - 1]); }
  }

  /** What is drawn for an edge, upper or lower: `LineTo`s along `line`, which is its visible part in x, clamped in height, runs
      the way the edge does, and keeps an end of it that is in range; it would begin a path at `base`, below or above the first
      point of `line`, the visible height closest to zero. */
  ghost predicate Traces(ax: Axes, a: Point, b: Point, e: Edge, line: seq<Point>, base: real) {
    && |e.along| == |line| && (forall i :: 0 <= i < |line| ==> e.along[i] == LineTo(Point(ax.px(line[i].x), ax.py(line[i].y))))
    && IsVisiblePart(ax, Segment(a, b), line) && RunsWith(ax, Segment(a, b), line)
    && e.open == [Begin, MoveTo(Point(ax.px(line[0].x), ax.py(base)))]
    && ax.r.ymin <= base <= ax.r.ymax && forall h :: ax.r.ymin <= h <= ax.r.ymax ==> Abs(base) <= Abs(h)
  }

  ghost predicate IsVisiblePart(ax: Axes, s: Segment, line: seq<Point>) {
    forall p :: OnPath(p, line) <==> exists q :: On(q, s) && ax.r.xmin <= q.x <= ax.r.xmax && p == Clamp(q, ax.r)
  }

  ghost predicate RunsWith(ax: Axes, s: Segment, line: seq<Point>) {
    && |line| >= 2 && (exists ts: seq<real> :: AtShares(line, s, ax.r, ts))
    && (ax.r.xmin <= s.a.x <= ax.r.xmax ==> line[0] == Clamp(s.a, ax.r))
    && (ax.r.xmin <= s.b.x <= ax.r.xmax ==> line[|line| - 1] == Clamp(s.b, ax.r))
  }

  lemma LineOn(ax: Axes, s: Segment, c: Segment)
    requires ClipX(s, ax.r.xmin, ax.r.xmax) == Some(c) && ax.r.ymin <= ax.r.ymax
    ensures IsVisiblePart(ax, s, Outline(c, ax.r))
  {
    hide On, OnPath, Outline, Clamp, ClipX;
    forall p
      ensures OnPath(p, Outline(c, ax.r)) <==> exists q :: On(q, s) && ax.r.xmin <= q.x <= ax.r.xmax && p == Clamp(q, ax.r)
    {
      OutlineIsClamped(p, c, ax.r);
      forall q ensures On(q, c) <==> On(q, s) && ax.r.xmin <= q.x <= ax.r.xmax {
        ClipXExact(q, s, ax.r.xmin, ax.r.xmax);
      }
    }
  }

  lemma LineRuns(ax: Axes, s: Segment, c: Segment)
    requires ClipX(s, ax.r.xmin, ax.r.xmax) == Some(c) && ax.r.ymin <= ax.r.ymax
    ensures RunsWith(ax, s, Outline(c, ax.r)) && Outline(c, ax.r)[0].x == c.a.x
  {
    var line := Outline(c, ax.r);
    OutlineFollows(c, ax.r);
    ClipXRuns(s, ax.r.xmin, ax.r.xmax);
    assert line[0].x == c.a.x;
    hide Outline, ClipX, RunsAlong, AtShares;
    var us: seq<real> :| AtShares(line, c, ax.r, us);
    var ts := PartShares(line, c, s, ax.r, us);
  }

  lemma EdgeLine(ax: Axes, a: Point, b: Point) returns (line: seq<Point>, base: real)
    requires EdgeOf(ax, a, b).Some? && ax.r.ymin <= ax.r.ymax
    ensures Traces(ax, a, b, EdgeOf(ax, a, b).value, line, base)
  {
    hide Outline, LinesTo, ClipX, BaseLine, IsVisiblePart, RunsWith;
    var s, c := Segment(a, b), ClipX(Segment(a, b), ax.r.xmin, ax.r.xmax).value;
    line, base := Outline(c, ax.r), BaseLine(ax.r);
    LineOn(ax, s, c);
    LinesToAt(ax, line);
    LineRuns(ax, s, c);
    BaseLineClosest(ax.r, ax.r.ymin);
    forall h | ax.r.ymin <= h <= ax.r.ymax ensures Abs(base) <= Abs(h) {
      BaseLineClosest(ax.r, h);
    }
  }

  /** If the edge is drawn, then as it should be. */
  ghost predicate Traced(ax: Axes, e: Option<Segment>) {
    Drawing(ax, e).Some? ==> exists line: seq<Point>, base: real :: Traces(ax, e.value.a, e.value.b, Drawing(ax, e).value, line, base)
  }

  lemma EdgesTraced(points: seq<Option<real>>, ps: int, ax: Axes)
    requires ax.r.ymin <= ax.r.ymax
    ensures forall k :: Traced(ax, UpperEdge(points, ps, k)) && Traced(ax, LowerEdge(points, ps, k))
  {
    hide UpperEdge, LowerEdge, Traces;
    forall e | Drawing(ax, e).Some? ensures Traced(ax, e) {
      var line, base := EdgeLine(ax, e.value.a, e.value.b);
    }
  }

  /** A path that is begun, drawn, and filled, and nothing else. */
  ghost predicate IsFilledPath(ops: seq<Op>) {
    && |ops| >= 2 && ops[0] == Begin && ops[|ops| - 1] == Fill
    && forall i :: 0 < i < |ops| - 1 ==> ops[i].MoveTo? || ops[i].LineTo?
  }

  lemma DrawingDraws(ax: Axes, e: Option<Segment>)
    ensures Drawing(ax, e).Some? ==>
              && (forall op <- Drawing(ax, e).value.along :: op.LineTo?)
              && |Drawing(ax, e).value.open| == 2 && Drawing(ax, e).value.open[0] == Begin && Drawing(ax, e).value.open[1].MoveTo?
  {
    if e.Some? { EdgeDraws(ax, e.value.a, e.value.b); }
  }

  lemma {:induction false} ForthDraws(points: seq<Option<real>>, ps: int, ax: Axes, o: nat, e: nat)
    ensures forall op <- Forth(points, ps, ax, o, e) :: op.LineTo?
    decreases e
  {
    hide Drawing, UpperEdge;
    if e > o {
      ForthDraws(points, ps, ax, o, e - 1);
      DrawingDraws(ax, UpperEdge(points, ps, e - 1));
    }
  }

  lemma {:induction false} BackDraws(points: seq<Option<real>>, ps: int, ax: Axes, e: nat, b: nat)
    ensures forall op <- Back(points, ps, ax, e, b) :: op.LineTo?
    decreases e - b
  {
    hide Drawing, LowerEdge;
    if b < e {
      BackDraws(points, ps, ax, e, b + 1);
      DrawingDraws(ax, LowerEdge(points, ps, b));
    }
  }

  lemma PathIsFilled(points: seq<Option<real>>, ps: int, ax: Axes, sp: Span)
    requires InSight(points, ps, ax, sp.first)
    ensures IsFilledPath(AreaPath(points, ps, ax, sp))
  {
    InSightIsDrawn(points, ps, ax, sp.first);
    DrawingDraws(ax, UpperEdge(points, ps, sp.first));
    ForthDraws(points, ps, ax, sp.first, sp.gap);
    BackDraws(points, ps, ax, sp.gap, sp.first);
    hide Drawing, UpperEdge, Forth, Back, InSight;
  }

  lemma StretchesFilled(points: seq<Option<real>>, ps: int, ax: Axes, spans: seq<Span>)
    requires Stretches(points, ps, ax, spans)
    ensures forall sp <- spans :: IsFilledPath(AreaPath(points, ps, ax, sp))
  {
    assert forall sp <- spans :: InSight(points, ps, ax, sp.first);
    hide Stretches, InSight, IsFilledPath, AreaPath;
    forall sp | sp in spans ensures IsFilledPath(AreaPath(points, ps, ax, sp)) {
      PathIsFilled(points, ps, ax, sp);
    }
  }

  /** The whole of `plotLineArea`: one filled path for every stretch of the series that is in sight, and nothing else. */
  method FillSeries(points: seq<Option<real>>, pointsize: int, ax: Axes, ctx: Context) returns (ghost spans: seq<Span>)
    requires WellFormed(points, pointsize, 3)
    modifies ctx
    ensures Stretches(points, pointsize, ax, spans)
    ensures ctx.ops == old(ctx.ops) + AreaPaths(points, pointsize, ax, spans)
    ensures forall sp <- spans :: IsFilledPath(AreaPath(points, pointsize, ax, sp))
    ensures OpenAfter(Some(false), AreaPaths(points, pointsize, ax, spans)) == Some(false)
    ensures ax.r.ymin <= ax.r.ymax ==>
              forall k :: Traced(ax, UpperEdge(points, pointsize, k)) && Traced(ax, LowerEdge(points, pointsize, k))
  {
    if ax.r.ymin <= ax.r.ymax { EdgesTraced(points, pointsize, ax); }
    PlotLineArea(points, pointsize, ax, ctx);
    hide WellFormed, Stretches, OpenAfter, SketchOf, Shows, Coherent, Traced, IsFilledPath, AreaPath;
    ghost var sk := SketchOf(points, pointsize, ax);
    spans := Spans(sk, 0);
    SketchShows(points, pointsize, ax);
    SketchCoherent(points, pointsize, ax);
    SpansAreStretches(points, pointsize, ax, sk);
    StretchesFilled(points, pointsize, ax, spans);
    AreasArePaths(sk, 0);
    PathsAgree(points, pointsize, ax, sk, spans);
    SketchDraws(points, pointsize, ax);
    AreasAllFilled(sk, 0);
  }
}
