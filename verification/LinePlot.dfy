/** `plotLine` of jquery.flot.js: clip each segment between consecutive points and draw what
    is left, lifting the pen only where the lines do not join. */
module LinePlot {
  import opened Clipping
  import opened Canvas
  import opened Wrappers

  /** Data point number `k`, None for a gap. */
  function DataPoint(points: seq<Option<real>>, ps: int, k: int): Option<Point> {
    match (Cell(points, ps, k, 0), Cell(points, ps, k, 1))
    case (Some(x), Some(y)) => Some(Point(x, y))
    case _ => None
  }

  /** What there is to draw between points `k - 1` and `k`: nothing next to a gap, otherwise the clipped segment. */
  function Between(points: seq<Option<real>>, ps: int, r: Rect, k: int): Option<Segment> {
    match (DataPoint(points, ps, k - 1), DataPoint(points, ps, k))
    case (Some(a), Some(b)) => Clip(Segment(a, b), r)
    case _ => None
  }

  /** The segments to draw, in order, between the first `k` points. */
  function Visible(points: seq<Option<real>>, ps: int, ax: Axes, k: nat): seq<Segment> {
    if k <= 1 then [] else
      Visible(points, ps, ax, k - 1) +
      match Between(points, ps, ax.r, k - 1)
      case Some(s) => [Segment(OnCanvas(ax, s.a), OnCanvas(ax, s.b))]
      case None => []
  }

  function OnCanvas(ax: Axes, p: Point): Point { Point(ax.px(p.x), ax.py(p.y)) }

  /** Data point `k` is there and inside the visible rectangle. */
  predicate InsideAt(points: seq<Option<real>>, ps: int, r: Rect, k: int) {
    DataPoint(points, ps, k).Some? && Inside(DataPoint(points, ps, k).value, r)
  }

  /** Calls `j - 1` to `j + 1` take the pen from point `k - 1` through point `k` to point `k + 1`. */
  ghost predicate ThroughAt(ops: seq<Op>, points: seq<Option<real>>, ps: int, ax: Axes, k: int, j: int)
    requires InsideAt(points, ps, ax.r, k - 1) && InsideAt(points, ps, ax.r, k) && InsideAt(points, ps, ax.r, k + 1)
  {
    && 0 < j < |ops| - 1 && Reaches(ops[j - 1], OnCanvas(ax, DataPoint(points, ps, k - 1).value))
    && ops[j] == LineTo(OnCanvas(ax, DataPoint(points, ps, k).value))
    && ops[j + 1] == LineTo(OnCanvas(ax, DataPoint(points, ps, k + 1).value))
  }

  predicate Reaches(op: Op, p: Point) { op == MoveTo(p) || op == LineTo(p) }

  /** Three points in a row that are inside are drawn as lines that join, without a move in between. */
  ghost predicate Joined(ops: seq<Op>, points: seq<Option<real>>, ps: int, ax: Axes, k: int) {
    InsideAt(points, ps, ax.r, k - 1) && InsideAt(points, ps, ax.r, k) && InsideAt(points, ps, ax.r, k + 1) ==>
      exists j :: ThroughAt(ops, points, ps, ax, k, j)
  }

  ghost predicate JoinedUpTo(ops: seq<Op>, points: seq<Option<real>>, ps: int, ax: Axes, n: int) {
    forall k :: 0 < k < n - 1 ==> Joined(ops, points, ps, ax, k)
  }

  /** What the last calls are when the last two points read are inside. */
  ghost predicate Arrived(ops: seq<Op>, points: seq<Option<real>>, ps: int, ax: Axes, k: int, prev: Option<Point>) {
    InsideAt(points, ps, ax.r, k - 1) && InsideAt(points, ps, ax.r, k) ==>
      && prev == DataPoint(points, ps, k) && |ops| >= 2
      && Reaches(ops[|ops| - 2], OnCanvas(ax, DataPoint(points, ps, k - 1).value))
      && ops[|ops| - 1] == LineTo(OnCanvas(ax, DataPoint(points, ps, k).value))
  }

  lemma StaysJoined(ops: seq<Op>, more: seq<Op>, points: seq<Option<real>>, ps: int, ax: Axes, n: int)
    requires JoinedUpTo(ops, points, ps, ax, n)
    ensures JoinedUpTo(ops + more, points, ps, ax, n)
  {
    forall k | 0 < k < n - 1 ensures Joined(ops + more, points, ps, ax, k) {
      assert Joined(ops, points, ps, ax, k);
      if InsideAt(points, ps, ax.r, k - 1) && InsideAt(points, ps, ax.r, k) && InsideAt(points, ps, ax.r, k + 1) {
        var j :| ThroughAt(ops, points, ps, ax, k, j);
        assert ThroughAt(ops + more, points, ps, ax, k, j);
      }
    }
  }

  /** What drawing the segment `s` between points `k - 1` and `k` adds, where the pen has come from `prev`. */
  function Strokes(ax: Axes, s: Segment, prev: Option<Point>): seq<Op> {
    (if prev != Some(s.a) then [MoveTo(OnCanvas(ax, s.a))] else []) + [LineTo(OnCanvas(ax, s.b))]
  }

  /** Going on from point `k - 1` to point `k`: the segment between them, if any, joins on to the one before. */
  lemma GoesOn(ops: seq<Op>, points: seq<Option<real>>, ps: int, ax: Axes, k: int, prev: Option<Point>, s: Segment)
    requires JoinedUpTo(ops, points, ps, ax, k) && (k > 1 ==> Arrived(ops, points, ps, ax, k - 1, prev))
    requires prev.Some? ==> ops != [] && ops[|ops| - 1] == LineTo(OnCanvas(ax, prev.value))
    requires Between(points, ps, ax.r, k) == Some(s)
    ensures JoinedUpTo(ops + Strokes(ax, s, prev), points, ps, ax, k + 1)
    ensures Arrived(ops + Strokes(ax, s, prev), points, ps, ax, k, Some(s.b))
  {
    hide Clip, Inside, Between;
    var now := ops + Strokes(ax, s, prev);
    StaysJoined(ops, Strokes(ax, s, prev), points, ps, ax, k);
    if InsideAt(points, ps, ax.r, k - 1) && InsideAt(points, ps, ax.r, k) {
      BetweenInside(points, ps, ax.r, k);
      if k > 1 && InsideAt(points, ps, ax.r, k - 2) {
        assert ThroughAt(now, points, ps, ax, k - 1, |ops| - 1);
      }
    }
  }

  lemma BetweenInside(points: seq<Option<real>>, ps: int, r: Rect, k: int)
    requires InsideAt(points, ps, r, k - 1) && InsideAt(points, ps, r, k)
    ensures Between(points, ps, r, k) == Some(Segment(DataPoint(points, ps, k - 1).value, DataPoint(points, ps, k).value))
  {
    InsideStays(Segment(DataPoint(points, ps, k - 1).value, DataPoint(points, ps, k).value), r);
    hide Clip, Inside;
  }

  /** Nothing to draw: then one of the two points is not inside. */
  lemma Skips(ops: seq<Op>, points: seq<Option<real>>, ps: int, ax: Axes, k: int, prev: Option<Point>)
    requires JoinedUpTo(ops, points, ps, ax, k) && Between(points, ps, ax.r, k) == None
    ensures JoinedUpTo(ops, points, ps, ax, k + 1) && Arrived(ops, points, ps, ax, k, prev)
  {
    hide Clip, Inside, Between;
    if InsideAt(points, ps, ax.r, k - 1) && InsideAt(points, ps, ax.r, k) {
      BetweenInside(points, ps, ax.r, k);
      assert false;
    }
  }

  /** Rows `k - 1` and `k` as the loop reads them. */
  lemma ReadRows(points: seq<Option<real>>, ps: int, r: Rect, k: int)
    requires WellFormed(points, ps, 2) && 1 <= k < |points| / ps
    ensures 0 <= k * ps - ps && k * ps + 1 < |points| && k * ps - ps + 1 < |points|
    ensures points[k * ps].Some? ==> points[k * ps + 1].Some?
    ensures points[k * ps - ps].Some? ==> points[k * ps - ps + 1].Some?
    ensures Between(points, ps, r, k) ==
            if points[k * ps - ps].None? || points[k * ps].None? then None
            else Clip(Segment(Point(points[k * ps - ps].value, points[k * ps - ps + 1].value),
                              Point(points[k * ps].value, points[k * ps + 1].value)), r)
  {
    hide Clip;
    RowInside(|points|, ps, k, 0);
    RowInside(|points|, ps, k, 1);
    RowInside(|points|, ps, k - 1, 0);
    RowInside(|points|, ps, k - 1, 1);
    assert (k - 1) * ps == k * ps - ps;
    assert Cell(points, ps, k, 0) == points[k * ps] && Cell(points, ps, k, 1) == points[k * ps + 1];
    assert Cell(points, ps, k - 1, 0) == points[k * ps - ps] && Cell(points, ps, k - 1, 1) == points[k * ps - ps + 1];
  }

  /** Draw one clipped segment; `prev` is where the last one ended. */
  method DrawSegment(s: Segment, ax: Axes, ctx: Context, prev: Option<Point>) returns (end: Option<Point>)
    requires prev.Some? ==> Run(ctx.ops).pen == Some(OnCanvas(ax, prev.value))
    modifies ctx
    ensures end == Some(s.b) && Run(ctx.ops).pen == Some(OnCanvas(ax, s.b))
    ensures Run(ctx.ops).lines == Run(old(ctx.ops)).lines + [Segment(OnCanvas(ax, s.a), OnCanvas(ax, s.b))]
    ensures ctx.ops == old(ctx.ops) + Strokes(ax, s, prev)
  {
    if prev != Some(s.a) {
      RunSnoc(ctx.ops, MoveTo(ax.Pixel(s.a)));
      ctx.Do(MoveTo(ax.Pixel(s.a)));
    }
    end := Some(s.b);
    RunSnoc(ctx.ops, LineTo(ax.Pixel(s.b)));
    ctx.Do(LineTo(ax.Pixel(s.b)));
  }

  method PlotLine(points: seq<Option<real>>, ps: int, ax: Axes, ctx: Context)
    requires WellFormed(points, ps, 2)
    modifies ctx
    ensures Run(ctx.ops).lines == Visible(points, ps, ax, |points| / ps)
    ensures JoinedUpTo(ctx.ops, points, ps, ax, |points| / ps)
    ensures old(ctx.ops) + [Begin] < ctx.ops && ctx.ops[|ctx.ops| - 1] == Stroke
  {
    hide Clip, Run, Between, JoinedUpTo, Arrived, Strokes, OnCanvas, Visible, DataPoint;
    var prev: Option<Point> := None;
    RunSnoc(ctx.ops, Begin);
    ctx.Do(Begin);
    var i := ps;
    ghost var k := 1;
    ghost var n := |points| / ps;
    ghost var begun := ctx.ops;
    AtFirst(ctx.ops, points, ps, ax);
    RowInside(|points|, ps, 1, 0);
    while i < |points|
      invariant i == k * ps && 1 <= k && (i < |points| <==> k < n) && (k <= n || k == 1)
      invariant Run(ctx.ops).lines == Visible(points, ps, ax, k) && begun <= ctx.ops
      invariant JoinedUpTo(ctx.ops, points, ps, ax, k) && (k > 1 ==> Arrived(ctx.ops, points, ps, ax, k - 1, prev))
      invariant prev.Some? ==> Run(ctx.ops).pen == Some(OnCanvas(ax, prev.value))
      invariant prev.Some? ==> ctx.ops != [] && ctx.ops[|ctx.ops| - 1] == LineTo(OnCanvas(ax, prev.value))
      decreases n - k
    {
      ReadRows(points, ps, ax.r, k);
      RowInside(|points|, ps, k + 1, 0);
      VisibleStep(points, ps, ax, k);
      ghost var before, was := ctx.ops, prev;
      var x1, y1, x2, y2 := points[i - ps], points[i - ps + 1], points[i], points[i + 1];
      i := i + ps;
      k := k + 1;
      if x1 == None || x2 == None {
        Skips(before, points, ps, ax, k - 1, prev);
        continue;
      }
      var clipped := Clip(Segment(Point(x1.value, y1.value), Point(x2.value, y2.value)), ax.r);
      if clipped == None {
        Skips(before, points, ps, ax, k - 1, prev);
        continue;
      }
      GoesOn(before, points, ps, ax, k - 1, prev, clipped.value);
      StrokesEnd(ax, clipped.value, prev);
      prev := DrawSegment(clipped.value, ax, ctx, prev);
    }
    AtMostTwo(ctx.ops, points, ps, ax, k, n);
    RunSnoc(ctx.ops, Stroke);
    StaysJoined(ctx.ops, [Stroke], points, ps, ax, n);
    ctx.Do(Stroke);
  }

  lemma AtFirst(ops: seq<Op>, points: seq<Option<real>>, ps: int, ax: Axes)
    ensures JoinedUpTo(ops, points, ps, ax, 1) && Visible(points, ps, ax, 1) == []
  {
  }

  lemma AtMostTwo(ops: seq<Op>, points: seq<Option<real>>, ps: int, ax: Axes, k: nat, n: nat)
    requires JoinedUpTo(ops, points, ps, ax, k) && n <= k
    ensures JoinedUpTo(ops, points, ps, ax, n) && (k == 1 ==> Visible(points, ps, ax, n) == Visible(points, ps, ax, k))
  {
  }

  lemma StrokesEnd(ax: Axes, s: Segment, prev: Option<Point>)
    ensures Strokes(ax, s, prev) != [] && Strokes(ax, s, prev)[|Strokes(ax, s, prev)| - 1] == LineTo(OnCanvas(ax, s.b))
  {
  }

  lemma VisibleStep(points: seq<Option<real>>, ps: int, ax: Axes, k: nat)
    requires k >= 1
    ensures Visible(points, ps, ax, k + 1) == Visible(points, ps, ax, k) +
            match Between(points, ps, ax.r, k)
            case Some(s) => [Segment(OnCanvas(ax, s.a), OnCanvas(ax, s.b))]
            case None => []
  {
  }
}
