/** `plotLineArea` of jquery.flot.js: a sweep that goes forward over the points to sketch the top
    of an area and, once it hits a gap, backward over the same points to sketch the bottom. */
module AreaPlot {
  import opened Arithmetic
  import opened Clipping
  import opened Canvas
  import opened Wrappers

  // ----- what one edge draws

  function BaseLine(r: Rect): real {
    var low := if 0.0 > r.ymin then 0.0 else r.ymin;
    if low < r.ymax then low else r.ymax
  }

  function LinesTo(ax: Axes, ps: seq<Point>): seq<Op> {
    if ps == [] then [] else LinesTo(ax, ps[..|ps| - 1]) + [LineTo(ax.Pixel(ps[|ps| - 1]))]
  }

  /** The y clipping of one end below `lo`, without the shortcut for segments wholly below. */
  function CutLow(s: Segment, lo: real): Segment {
    var Segment(Point(x1, y1), Point(x2, y2)) := s;
    if y1 <= y2 && y1 < lo && y2 >= lo then
      Segment(Point(Meet(s, lo) * (x2 - x1) + x1, lo), s.b)
    else if y2 <= y1 && y2 < lo && y1 >= lo then
      Segment(s.a, Point(Meet(s, lo) * (x2 - x1) + x1, lo))
    else s
  }

  function CutHigh(s: Segment, hi: real): Segment {
    var Segment(Point(x1, y1), Point(x2, y2)) := s;
    if y1 >= y2 && y1 > hi && y2 <= hi then
      Segment(Point(Meet(s, hi) * (x2 - x1) + x1, hi), s.b)
    else if y2 >= y1 && y2 > hi && y1 <= hi then
      Segment(s.a, Point(Meet(s, hi) * (x2 - x1) + x1, hi))
    else s
  }

  /** The points drawn for one edge that is clipped in x: flat where the edge leaves the visible heights. */
  function Outline(s: Segment, r: Rect): seq<Point> {
    if s.a.y >= r.ymax && s.b.y >= r.ymax then [Point(s.a.x, r.ymax), Point(s.b.x, r.ymax)]
    else if s.a.y <= r.ymin && s.b.y <= r.ymin then [Point(s.a.x, r.ymin), Point(s.b.x, r.ymin)]
    else
      var c := CutHigh(CutLow(s, r.ymin), r.ymax);
      (if c.a.x != s.a.x then [Point(s.a.x, c.a.y)] else [])
      + [c.a, c.b]
      + (if c.b.x != s.b.x then [c.b, Point(s.b.x, c.b.y)] else [])
  }

  /** How an edge draws: the start of an area at its first point, and the lines along it. */
  datatype Edge = Edge(open: seq<Op>, along: seq<Op>)

  /** The edge from `a` to `b`, None when it is out of sight in x. */
  function EdgeOf(ax: Axes, a: Point, b: Point): Option<Edge> {
    match ClipX(Segment(a, b), ax.r.xmin, ax.r.xmax)
    case None => None
    case Some(s) => Some(Edge([Begin, MoveTo(ax.Pixel(Point(s.a.x, BaseLine(ax.r))))], LinesTo(ax, Outline(s, ax.r))))
  }

  // ----- the series as a sequence of points and edges

  /** A data point: position, upper value, lower value. */
  datatype Vertex = Vertex(x: real, top: real, bottom: real)

  /** The point in row `k` of a flat array; there is nothing before the first row and after the last. */
  function VertexAt(points: seq<Option<real>>, ps: int, k: int): Option<Vertex> {
    match (Cell(points, ps, k, 0), Cell(points, ps, k, 1), Cell(points, ps, k, 2))
    case (Some(x), Some(top), Some(bottom)) => Some(Vertex(x, top, bottom))
    case _ => None
  }

  /** The upper edge from point `k - 1` to point `k`. */
  function TopAt(points: seq<Option<real>>, ps: int, ax: Axes, k: int): Option<Edge> {
    match (VertexAt(points, ps, k - 1), VertexAt(points, ps, k))
    case (Some(a), Some(b)) => EdgeOf(ax, Point(a.x, a.top), Point(b.x, b.top))
    case _ => None
  }

  /** The lower edge, run the other way: from point `k` to point `k - 1`. */
  function BottomAt(points: seq<Option<real>>, ps: int, ax: Axes, k: int): Option<Edge> {
    match (VertexAt(points, ps, k), VertexAt(points, ps, k - 1))
    case (Some(a), Some(b)) => EdgeOf(ax, Point(a.x, a.bottom), Point(b.x, b.bottom))
    case _ => None
  }

  /** Which points are there, and the visible edges that end (above) or start (below) at each. */
  datatype Sketch = Sketch(there: seq<bool>, tops: seq<Option<Edge>>, bottoms: seq<Option<Edge>>) {
    function Count(): nat { |there| }

    predicate There(k: int) { 0 <= k < |there| && there[k] }

    function Top(k: int): Option<Edge> { if 0 <= k < |tops| then tops[k] else None }

    function Bottom(k: int): Option<Edge> { if 0 <= k < |bottoms| then bottoms[k] else None }

    /** The first visible edge from `k` on, or the number of points. */
    function FirstVisible(k: nat): (r: nat)
      ensures r < Count() ==> k <= r && Top(r).Some?
      decreases Count() - k
    {
      if k >= Count() then Count() else if Top(k).Some? then k else FirstVisible(k + 1)
    }

    /** The first gap from `k` on, or the number of points. */
    function NextGap(k: nat): (r: nat)
      requires k <= Count()
      ensures k <= r <= Count() && !There(r)
      decreases Count() - k
    {
      if !There(k) then k else NextGap(k + 1)
    }

    function TopOps(k: int): seq<Op> {
      match Top(k) case Some(e) => e.along case None => []
    }

    function BottomOps(k: int): seq<Op> {
      match Bottom(k) case Some(e) => e.along case None => []
    }

    /** The path opened at edge `o`, along the upper edges `o`, .., `e - 1`. */
    function UpTo(o: nat, e: nat): seq<Op>
      requires Top(o).Some?
      decreases e
    {
      if e <= o then Top(o).value.open else UpTo(o, e - 1) + TopOps(e - 1)
    }

    /** The same path and then back along the lower edges `e - 1` down to `b`. */
    function BackTo(o: nat, e: nat, b: nat): seq<Op>
      requires Top(o).Some?
      decreases e - b
    {
      if b >= e then UpTo(o, e) else BackTo(o, e, b + 1) + BottomOps(b)
    }

    /** The polygon over edges `o`, .., `e - 1`: along the top and back along the bottom. */
    function Polygon(o: nat, e: nat): seq<Op>
      requires Top(o).Some?
    {
      BackTo(o, e, o) + [Fill]
    }

    /** From point `start` on, one polygon for every stretch from a visible edge to the next gap, in order. */
    function Areas(start: nat): seq<Op>
      decreases Count() - start
    {
      var o := FirstVisible(start + 1);
      if o >= Count() then [] else
        var e := NextGap(o);
        Polygon(o, e) + Areas(e + 1)
    }
  }

  /** The sketch of the first `n` rows of the array. */
  function SketchUpTo(points: seq<Option<real>>, ps: int, ax: Axes, n: nat): Sketch {
    if n == 0 then Sketch([], [], []) else
      var s := SketchUpTo(points, ps, ax, n - 1);
      Sketch(s.there + [VertexAt(points, ps, n - 1).Some?],
             s.tops + [TopAt(points, ps, ax, n - 1)],
             s.bottoms + [BottomAt(points, ps, ax, n - 1)])
  }

  function SketchOf(points: seq<Option<real>>, ps: int, ax: Axes): Sketch
    requires ps > 0
  {
    SketchUpTo(points, ps, ax, |points| / ps)
  }

  lemma {:induction false} SketchUpToAt(points: seq<Option<real>>, ps: int, ax: Axes, n: nat, k: int)
    ensures var s := SketchUpTo(points, ps, ax, n);
            && |s.there| == |s.tops| == |s.bottoms| == n
            && (0 <= k < n ==> s.there[k] == VertexAt(points, ps, k).Some?
                               && s.tops[k] == TopAt(points, ps, ax, k) && s.bottoms[k] == BottomAt(points, ps, ax, k))
  {
    hide VertexAt, TopAt, BottomAt;
    if n > 0 { SketchUpToAt(points, ps, ax, n - 1, k); }
  }

  // ----- reading the array

  /** The array index of point `k`. */
  ghost function Index(k: int, p: int): int
    decreases if k < 0 then -k else k
  {
    if k == 0 then 0 else if k > 0 then Index(k - 1, p) + p else Index(k + 1, p) - p
  }

  lemma {:induction false} IndexIs(k: int, p: int)
    ensures Index(k, p) == k * p
    decreases if k < 0 then -k else k
  {
    if k > 0 { IndexIs(k - 1, p); } else if k < 0 { IndexIs(k + 1, p); }
  }

  lemma IndexMonotone(p: int, a: nat, b: nat)
    requires p > 0 && a < b
    ensures Index(a, p) < Index(b, p)
    decreases b - a
  {
    if a + 1 < b { IndexMonotone(p, a, b - 1); }
  }

  lemma WholeRows(length: nat, p: int)
    requires p > 0 && length % p == 0
    ensures Index(length / p, p) == length
  {
    IndexIs(length / p, p);
  }

  lemma IndexBeyond(p: int, n: nat, k: nat, start: nat)
    requires p > 0
    ensures Index(k, p) > Index(n, p) + p <==> k > n + 1
    ensures Index(k, p) == Index(start, p) <==> k == start
  {
    assert Index(n + 1, p) == Index(n, p) + p;
    if k > n + 1 { IndexMonotone(p, n + 1, k); } else if k < n + 1 { IndexMonotone(p, k, n + 1); }
    if k < start { IndexMonotone(p, k, start); } else if start < k { IndexMonotone(p, start, k); }
  }

  lemma IndexOrder(length: nat, p: int, k: nat, start: nat)
    requires p > 0 && length % p == 0
    ensures Index(k, p) > length + p <==> k > length / p + 1
    ensures Index(k, p) == Index(start, p) <==> k == start
  {
    WholeRows(length, p);
    IndexBeyond(p, length / p, k, start);
  }

  /** What the array holds at the index of point `k`. */
  lemma ReadVertex(points: seq<Option<real>>, ps: int, k: int)
    requires WellFormed(points, ps, 3)
    ensures VertexAt(points, ps, k).Some? ==> 0 <= k < |points| / ps
    ensures match VertexAt(points, ps, k)
            case Some(v) => Get(points, Index(k, ps)) == Some(v.x) && Get(points, Index(k, ps) + 1) == Some(v.top)
                            && Get(points, Index(k, ps) + 2) == Some(v.bottom)
            case None => Get(points, Index(k, ps)) == None
  {
    IndexIs(k, ps);
    RowInside(|points|, ps, k, 0);
    RowInside(|points|, ps, k, 1);
    RowInside(|points|, ps, k, 2);
    if 0 <= k < |points| / ps && Cell(points, ps, k, 0).Some? {
      assert Cell(points, ps, k, 1).Some? && Cell(points, ps, k, 2).Some?;
    }
  }

  /** Whether an edge shows depends on its x range only. */
  lemma ShowsByX(s: Segment, xmin: real, xmax: real)
    ensures ClipX(s, xmin, xmax).Some? <==>
            xmin <= xmax && (s.a.x >= xmin || s.b.x >= xmin) && (s.a.x <= xmax || s.b.x <= xmax)
  {
  }

  lemma SketchEdges(points: seq<Option<real>>, ps: int, ax: Axes, sketch: Sketch, k: int)
    requires WellFormed(points, ps, 3) && sketch == SketchOf(points, ps, ax)
    ensures sketch.There(k) <==> VertexAt(points, ps, k).Some?
    ensures sketch.Top(k) == TopAt(points, ps, ax, k) && sketch.Bottom(k) == BottomAt(points, ps, ax, k)
  {
    SketchUpToAt(points, ps, ax, |points| / ps, k);
    ReadVertex(points, ps, k);
    ReadVertex(points, ps, k - 1);
  }

  /** The facts about point `k` and the edges that lead to it which the sweep relies on. */
  lemma SketchFacts(points: seq<Option<real>>, ps: int, ax: Axes, sketch: Sketch, k: int)
    requires WellFormed(points, ps, 3) && sketch == SketchOf(points, ps, ax)
    ensures sketch.Count() == |points| / ps
    ensures sketch.There(k) <==> Get(points, Index(k, ps)).Some?
    ensures sketch.Top(k).Some? <==> sketch.Bottom(k).Some?
    ensures sketch.Top(k).Some? ==> sketch.There(k)
  {
    SketchEdges(points, ps, ax, sketch, k);
    SketchUpToAt(points, ps, ax, |points| / ps, k);
    ReadVertex(points, ps, k);
    match (VertexAt(points, ps, k - 1), VertexAt(points, ps, k))
    case (Some(a), Some(b)) =>
      ShowsByX(Segment(Point(a.x, a.top), Point(b.x, b.top)), ax.r.xmin, ax.r.xmax);
      ShowsByX(Segment(Point(b.x, b.bottom), Point(a.x, a.bottom)), ax.r.xmin, ax.r.xmax);
    case _ =>
  }

  // ----- where the sweep stands

  /** What the sweep is doing: looking for something visible, going forward over the area opened
      at edge `o`, or going back from the gap `e`. */
  datatype Phase = Look | Rise(o: nat) | Fall(o: nat, e: nat)

  /** The sweep that began at point `start` is at point `k` and has drawn `area` since. */
  ghost predicate Stands(sk: Sketch, ph: Phase, start: nat, k: int, area: seq<Op>) {
    match ph
    case Look =>
      start <= k <= sk.Count() + 2 && area == [] && NothingSeen(sk, start, k)
    case Rise(o) =>
      Opened(sk, start, o) && o <= k < sk.Count() && area == sk.UpTo(o, k + 1) && NoGap(sk, o, k)
    case Fall(o, e) =>
      && Opened(sk, start, o) && e == sk.NextGap(o) && start <= k <= e <= sk.Count()
      && area == sk.BackTo(o, e, MaxInt(k + 1, o))
  }

  /** No edge after point `start` up to point `k` is visible. */
  ghost predicate NothingSeen(sk: Sketch, start: nat, k: int)
    decreases k - start
  {
    k <= start || (sk.Top(k) == None && NothingSeen(sk, start, k - 1))
  }

  lemma {:induction false} SkipUnseen(sk: Sketch, start: nat, k: nat)
    requires start <= k && NothingSeen(sk, start, k)
    ensures sk.FirstVisible(start + 1) == sk.FirstVisible(k + 1)
    decreases k - start
  {
    if start < k { SkipUnseen(sk, start, k - 1); }
  }

  lemma {:induction false} UnseenBefore(sk: Sketch, from: nat, k: nat)
    requires from <= k < sk.FirstVisible(from)
    ensures sk.Top(k) == None
    decreases k - from
  {
    if from < k { UnseenBefore(sk, from + 1, k); }
  }

  /** Points `o` to `k` are all there. */
  ghost predicate NoGap(sk: Sketch, o: nat, k: int)
    decreases k - o
  {
    k < o || (sk.There(k) && NoGap(sk, o, k - 1))
  }

  ghost predicate Opened(sk: Sketch, start: nat, o: nat) {
    start < o < sk.Count() && sk.Top(o).Some? && sk.FirstVisible(start + 1) == o
  }

  /** `sum` is what all areas amount to, `prior` what has been filled before point `start`. */
  ghost predicate Splits(sk: Sketch, start: nat, prior: seq<Op>, sum: seq<Op>) {
    prior + sk.Areas(start) == sum
  }

  function Step(ph: Phase): int { if ph.Fall? then -1 else 1 }

  function Stride(ph: Phase, pointsize: int): int { if ph.Fall? then -pointsize else pointsize }

  ghost predicate Drawn(ops: seq<Op>, prior: seq<Op>, area: seq<Op>) { ops == prior + area }

  /** What a plain step from point `k` draws, and which phase it leads to. */
  function Added(sk: Sketch, ph: Phase, k: nat): seq<Op> {
    match ph
    case Look => if sk.Top(k + 1).Some? then sk.Top(k + 1).value.open + sk.TopOps(k + 1) else []
    case Rise(_) => sk.TopOps(k + 1)
    case Fall(_, _) => sk.BottomOps(k)
  }

  function Then(sk: Sketch, ph: Phase, k: nat): Phase {
    if ph.Look? && sk.Top(k + 1).Some? then Rise(k + 1) else ph
  }

  /** A plain step: neither turning at a gap nor arriving back at `start`. */
  lemma StepOn(sk: Sketch, ph: Phase, start: nat, k: nat, area: seq<Op>)
    requires Stands(sk, ph, start, k, area)
    requires ph.Look? ==> k <= sk.Count() + 1 && (sk.Top(k + 1).Some? ==> sk.There(k + 1))
    requires ph.Rise? ==> sk.There(k + 1)
    requires ph.Fall? ==> start < k
    requires sk.Top(k).Some? <==> sk.Bottom(k).Some?
    requires sk.Top(k).Some? ==> sk.There(k)
    ensures Stands(sk, Then(sk, ph, k), start, k + Step(ph), area + Added(sk, ph, k))
  {
    match ph
    case Look =>
      if sk.Top(k + 1).Some? {
        SkipUnseen(sk, start, k);
        assert sk.UpTo(k + 1, k + 2) == sk.UpTo(k + 1, k + 1) + sk.TopOps(k + 1);
      }
    case Rise(o) =>
      assert sk.UpTo(o, k + 2) == sk.UpTo(o, k + 1) + sk.TopOps(k + 1);
    case Fall(o, e) =>
      if !(o <= k < e) {
        if k < o { UnseenBefore(sk, start + 1, k); }
        assert sk.BottomOps(k) == [];
        assert area + [] == area;
      }
  }

  lemma {:induction false} SkipPoints(sk: Sketch, o: nat, k: int)
    requires o <= k + 1 && k < sk.Count() && NoGap(sk, o, k)
    ensures sk.NextGap(o) == sk.NextGap(k + 1)
    decreases k + 1 - o
  {
    if o <= k { SkipPoints(sk, o, k - 1); }
  }

  lemma Turned(sk: Sketch, o: nat, start: nat, k: nat, area: seq<Op>)
    requires Stands(sk, Rise(o), start, k, area) && !sk.There(k + 1)
    ensures Stands(sk, Fall(o, k + 1), start, k + 1, area)
  {
    SkipPoints(sk, o, k);
  }

  lemma Append<T>(a: seq<T>, b: seq<T>, c: seq<T>)
    ensures a + b + c == a + (b + c)
  {
  }

  lemma Filled(sk: Sketch, o: nat, e: nat, start: nat, prior: seq<Op>, area: seq<Op>, sum: seq<Op>)
    requires Stands(sk, Fall(o, e), start, start, area) && Splits(sk, start, prior, sum)
    ensures Splits(sk, e + 1, prior + area + [Fill], sum) && Stands(sk, Look, e + 1, e + 1, [])
  {
    Append(prior, area, [Fill]);
    Append(prior, area + [Fill], sk.Areas(e + 1));
  }

  // ----- the sweep

  method LineAlong(ax: Axes, ctx: Context, ps: seq<Point>)
    modifies ctx
    ensures ctx.ops == old(ctx.ops) + LinesTo(ax, ps)
  {
    for i := 0 to |ps|
      invariant ctx.ops == old(ctx.ops) + LinesTo(ax, ps[..i])
    {
      ctx.Do(LineTo(ax.Pixel(ps[i])));
      assert ps[..i + 1][..i] == ps[..i];
    }
    assert ps[..|ps|] == ps;
  }

  /** Clip an edge in x, open an area if none is open, draw along the edge. */
  method DrawEdge(a: Point, b: Point, ax: Axes, ctx: Context, bottom: real, areaOpen: bool) returns (open: bool)
    requires bottom == BaseLine(ax.r)
    modifies ctx
    ensures ctx.ops == old(ctx.ops) +
            match EdgeOf(ax, a, b)
            case None => []
            case Some(e) => if areaOpen then e.along else e.open + e.along
    ensures open == (areaOpen || EdgeOf(ax, a, b).Some?)
  {
    open := areaOpen;
    var clipped := ClipX(Segment(a, b), ax.r.xmin, ax.r.xmax);
    if clipped == None {
      return;
    }
    if !areaOpen {
      ctx.Do(Begin);
      ctx.Do(MoveTo(ax.Pixel(Point(clipped.value.a.x, bottom))));
      open := true;
    }
    LineAlong(ax, ctx, Outline(clipped.value, ax.r));
  }

  /** What the two points read amount to in the sketch. */
  lemma StepReads(x1: Option<real>, y1: Option<real>, x2: Option<real>, y2: Option<real>, ax: Axes,
                  points: seq<Option<real>>, ps: int, ypos: int, sk: Sketch, ph: Phase, k: nat)
    requires WellFormed(points, ps, 3) && sk == SketchOf(points, ps, ax) && ypos == if ph.Fall? then 2 else 1
    requires x1 == Get(points, Index(k, ps)) && x2 == Get(points, Index(k + Step(ph), ps))
    requires y1 == Get(points, Index(k, ps) + ypos) && y2 == Get(points, Index(k + Step(ph), ps) + ypos)
    ensures x1.None? || x2.None? ==> Added(sk, ph, k) == [] && Then(sk, ph, k) == ph
    ensures x1.Some? && x2.Some? ==>
              (y1.Some? && y2.Some? &&
               var e := EdgeOf(ax, Point(x1.value, y1.value), Point(x2.value, y2.value));
               && Added(sk, ph, k) == (match e case None => [] case Some(e) => if ph.Look? then e.open + e.along else e.along)
               && (Then(sk, ph, k).Look? <==> ph.Look? && e.None?))
  {
    hide WellFormed, Index, SketchOf, EdgeOf, VertexAt;
    SketchEdges(points, ps, ax, sk, if ph.Fall? then k else k + 1);
    ReadVertex(points, ps, k);
    ReadVertex(points, ps, k + Step(ph));
  }

  /** The end of the loop body, once the two points have been read: skip at a gap, else draw. */
  method DrawStep(x1: Option<real>, y1: Option<real>, x2: Option<real>, y2: Option<real>, ax: Axes, ctx: Context,
                  bottom: real, areaOpen: bool, ghost points: seq<Option<real>>, ghost ps: int, ghost ypos: int,
                  ghost sk: Sketch, ghost ph: Phase, ghost k: nat)
    returns (open: bool)
    requires WellFormed(points, ps, 3) && sk == SketchOf(points, ps, ax)
    requires bottom == BaseLine(ax.r) && areaOpen == !ph.Look? && ypos == if ph.Fall? then 2 else 1
    requires x1 == Get(points, Index(k, ps)) && x2 == Get(points, Index(k + Step(ph), ps))
    requires y1 == Get(points, Index(k, ps) + ypos) && y2 == Get(points, Index(k + Step(ph), ps) + ypos)
    modifies ctx
    ensures ctx.ops == old(ctx.ops) + Added(sk, ph, k)
    ensures open == !Then(sk, ph, k).Look?
  {
    hide WellFormed, Index, SketchOf, EdgeOf, Get, Added, Then, Step;
    StepReads(x1, y1, x2, y2, ax, points, ps, ypos, sk, ph, k);
    if x1 == None || x2 == None {
      assert ctx.ops + [] == ctx.ops;
      return areaOpen;
    }
    open := DrawEdge(Point(x1.value, y1.value), Point(x2.value, y2.value), ax, ctx, bottom, areaOpen);
  }

  /** The phase of the sweep, the point it began at, the point it is at, what was filled before and drawn since. */
  datatype Account = Account(ph: Phase, start: nat, k: nat, prior: seq<Op>, area: seq<Op>)

  /** The account is true of the drawing `ops`, on the way to `sum`. */
  ghost predicate Holds(sk: Sketch, g: Account, ops: seq<Op>, sum: seq<Op>) {
    Splits(sk, g.start, g.prior, sum) && Drawn(ops, g.prior, g.area) && Stands(sk, g.ph, g.start, g.k, g.area)
  }

  /** The same, carrying the account of the sweep along. */
  method PlainStep(x1: Option<real>, y1: Option<real>, x2: Option<real>, y2: Option<real>, ax: Axes, ctx: Context,
                   bottom: real, areaOpen: bool, ghost points: seq<Option<real>>, ghost ps: int, ghost ypos: int,
                   ghost sk: Sketch, ghost g: Account, ghost sum: seq<Op>)
    returns (open: bool, ghost g': Account)
    requires WellFormed(points, ps, 3) && sk == SketchOf(points, ps, ax)
    requires bottom == BaseLine(ax.r) && areaOpen == !g.ph.Look? && ypos == if g.ph.Fall? then 2 else 1
    requires x1 == Get(points, Index(g.k, ps)) && x2 == Get(points, Index(g.k + Step(g.ph), ps))
    requires y1 == Get(points, Index(g.k, ps) + ypos) && y2 == Get(points, Index(g.k + Step(g.ph), ps) + ypos)
    requires Holds(sk, g, ctx.ops, sum)
    requires g.ph.Look? ==> g.k <= sk.Count() + 1
    requires g.ph.Rise? ==> x1 == None || x2 != None
    requires g.ph.Fall? ==> g.start < g.k
    modifies ctx
    ensures open == !g'.ph.Look? && Step(g'.ph) == Step(g.ph) && (g.ph.Fall? ==> g'.ph == g.ph)
    ensures g'.k == g.k + Step(g.ph) && g'.start == g.start && Holds(sk, g', ctx.ops, sum)
  {
    hide WellFormed, SketchOf, Splits, Index, Get, BaseLine, Added, Sketch.Areas;
    SketchFacts(points, ps, ax, sk, g.k);
    SketchFacts(points, ps, ax, sk, g.k + 1);
    open := DrawStep(x1, y1, x2, y2, ax, ctx, bottom, areaOpen, points, ps, ypos, sk, g.ph, g.k);
    StepOn(sk, g.ph, g.start, g.k, g.area);
    Append(g.prior, g.area, Added(sk, g.ph, g.k));
    g' := g.(ph := Then(sk, g.ph, g.k), area := g.area + Added(sk, g.ph, g.k), k := g.k + Step(g.ph));
  }

  /** Back at the start: fill what has been drawn. */
  method FillArea(ctx: Context, ghost sk: Sketch, ghost g: Account, ghost sum: seq<Op>, ghost ps: int)
    returns (ghost g': Account)
    requires Holds(sk, g, ctx.ops, sum) && g.ph.Fall? && g.k == g.start
    modifies ctx
    ensures g' == Account(Look, g.ph.e + 1, g.ph.e + 1, ctx.ops, []) && Holds(sk, g', ctx.ops, sum)
    ensures Index(g.ph.e + 1, ps) == Index(g.ph.e, ps) + ps
  {
    Filled(sk, g.ph.o, g.ph.e, g.start, g.prior, g.area, sum);
    ctx.Do(Fill);
    g' := Account(Look, g.ph.e + 1, g.ph.e + 1, ctx.ops, []);
  }

  method PlotLineArea(points: seq<Option<real>>, pointsize: int, ax: Axes, ctx: Context)
    requires WellFormed(points, pointsize, 3)
    modifies ctx
    ensures ctx.ops == old(ctx.ops) + SketchOf(points, pointsize, ax).Areas(0)
  {
    assert pointsize > 0;
    hide SketchOf, Holds, Index, Get, WellFormed, BaseLine, Sketch.Areas, Sketch.Count, Sketch.There;
    var ps, ypos, i := pointsize, 1, 0;
    var areaOpen := false;
    var segmentStart, segmentEnd := 0, 0;
    var bottom := BaseLine(ax.r);
    ghost var sk := SketchOf(points, pointsize, ax);
    ghost var g, sum := Account(Look, 0, 0, ctx.ops, []), ctx.ops + sk.Areas(0);
    AtStart(sk, ctx.ops, pointsize);
    while true
      invariant i == Index(g.k, pointsize) && segmentStart == Index(g.start, pointsize)
      invariant Holds(sk, g, ctx.ops, sum)
      invariant areaOpen == !g.ph.Look? && ps == Stride(g.ph, pointsize) && ypos == if g.ph.Fall? then 2 else 1
      invariant g.ph.Fall? ==> segmentEnd == Index(g.ph.e, pointsize)
      decreases if g.ph.Fall? then sk.Count() + 1 - g.ph.e else sk.Count() + 2 - g.k, if g.ph.Fall? then g.k + 1 else 0
    {
      Bounds(sk, g, ctx.ops, sum);
      LoopFacts(points, pointsize, ax, sk, g.k, g.start);
      if ps > 0 && i > |points| + ps {
        NothingLeft(sk, g, ctx.ops, sum);
        break;
      }
      i := i + ps;
      assert i - ps == Index(g.k, pointsize) && i == Index(g.k + Step(g.ph), pointsize);
      var x1, y1 := Get(points, i - ps), Get(points, i - ps + ypos);
      var x2, y2 := Get(points, i), Get(points, i + ypos);
      if areaOpen {
        if ps > 0 && x1 != None && x2 == None {
          TurnAt(sk, g, ctx.ops, sum);
          g := g.(ph := Fall(g.ph.o, g.k + 1), k := g.k + 1);
          segmentEnd := i;
          ps, ypos := -ps, 2;
          continue;
        }
        if ps < 0 && i == segmentStart + ps {
          g := FillArea(ctx, sk, g, sum, pointsize);
          areaOpen, ps, ypos := false, -ps, 1;
          segmentStart := segmentEnd + ps;
          i := segmentStart;
          continue;
        }
      }
      areaOpen, g := PlainStep(x1, y1, x2, y2, ax, ctx, bottom, areaOpen, points, pointsize, ypos, sk, g, sum);
    }
  }

  lemma TurnAt(sk: Sketch, g: Account, ops: seq<Op>, sum: seq<Op>)
    requires Holds(sk, g, ops, sum) && g.ph.Rise? && !sk.There(g.k + 1)
    ensures Holds(sk, g.(ph := Fall(g.ph.o, g.k + 1), k := g.k + 1), ops, sum)
  {
    Turned(sk, g.ph.o, g.start, g.k, g.area);
  }

  lemma NothingLeft(sk: Sketch, g: Account, ops: seq<Op>, sum: seq<Op>)
    requires Holds(sk, g, ops, sum) && !g.ph.Fall? && g.k > sk.Count() + 1
    ensures g.ph.Look? && ops == sum
  {
    SkipUnseen(sk, g.start, g.k);
    assert sk.Areas(g.start) == [];
  }

  lemma AtStart(sk: Sketch, ops: seq<Op>, ps: int)
    ensures Holds(sk, Account(Look, 0, 0, ops, []), ops, ops + sk.Areas(0)) && Index(0, ps) == 0
  {
  }

  lemma Bounds(sk: Sketch, g: Account, ops: seq<Op>, sum: seq<Op>)
    requires Holds(sk, g, ops, sum)
    ensures g.k <= sk.Count() + 2 && (g.ph.Fall? ==> g.start <= g.k && g.ph.e <= sk.Count())
  {
  }

  lemma LoopFacts(points: seq<Option<real>>, pointsize: int, ax: Axes, sk: Sketch, k: nat, start: nat)
    requires WellFormed(points, pointsize, 3) && sk == SketchOf(points, pointsize, ax)
    ensures Index(k, pointsize) > |points| + pointsize <==> k > sk.Count() + 1
    ensures Index(k, pointsize) == Index(start, pointsize) <==> k == start
    ensures sk.There(k + 1) <==> Get(points, Index(k + 1, pointsize)).Some?
    ensures Index(k + 1, pointsize) == Index(k, pointsize) + pointsize
    ensures Index(k - 1, pointsize) == Index(k, pointsize) - pointsize
  {
    IndexOrder(|points|, pointsize, k, start);
    SketchFacts(points, pointsize, ax, sk, k + 1);
  }
}
