/** The mapping between data and canvas coordinates, and the search for the item under the mouse, in exact arithmetic. */
module NearbyItem {
  import opened Arithmetic
  import opened Wrappers

  /** What `setTransformationHelpers` leaves on an axis: data `p` is drawn at `( t( p ) - m ) * s`. */
  datatype Axis = Axis(transform: Option<real -> real>, inverse: Option<real -> real>, m: real, s: real, scale: real) {
    ghost predicate Valid() { scale > 0.0 && (s == scale || s == -scale) }

    function T(p: real): real { if transform.Some? then transform.value(p) else p }

    /** The limits of the search are right for data coordinate `p`: there are none, or the transform leaves it as it is. */
    predicate Fixed(p: real) { inverse.Some? || T(p) == p }

    function P2C(p: real): real { (T(p) - m) * s }

    /** Where `p` would be drawn without the transform. */
    function Untransformed(p: real): real { (p - m) * s }

    function C2P(c: real): real
      requires s != 0.0
    {
      if inverse.Some? then inverse.value(m + c / s) else m + c / s
    }
  }

  datatype Direction = X | Y

  function SetTransformationHelpers(d: Direction, size: real, min: real, max: real,
                                    transform: Option<real -> real>, inverse: Option<real -> real>): (a: Axis)
    requires size > 0.0
    requires if transform.Some? then transform.value(min) != transform.value(max) else min != max
    ensures a.Valid() && a.transform == transform && a.inverse == inverse
  {
    var lo := if transform.Some? then transform.value(min) else min;
    var hi := if transform.Some? then transform.value(max) else max;
    var s := size / Abs(hi - lo);
    Positive(size, Abs(hi - lo));
    if d.X? then Axis(transform, inverse, Min(hi, lo), s, s) else Axis(transform, inverse, Max(hi, lo), -s, s)
  }

  lemma Positive(x: real, y: real)
    requires x > 0.0 && y > 0.0
    ensures x / y > 0.0 && y * (x / y) == x
  {
    assert (x / y) * y == x;
  }

  /** The ends of the range are drawn at the edges of the plot area, y upwards; a transform that falls turns them round. */
  lemma AxisMaps(d: Direction, size: real, min: real, max: real, transform: Option<real -> real>, inverse: Option<real -> real>)
    requires size > 0.0
    requires if transform.Some? then transform.value(min) != transform.value(max) else min != max
    ensures var a := SetTransformationHelpers(d, size, min, max, transform, inverse);
            var rises := if transform.Some? then transform.value(min) < transform.value(max) else min < max;
            && a.P2C(min) == (if d.X? == rises then 0.0 else size) && a.P2C(max) == (if d.X? == rises then size else 0.0)
  {
    var a := SetTransformationHelpers(d, size, min, max, transform, inverse);
    var lo, hi := a.T(min), a.T(max);
    Positive(size, Abs(hi - lo));
    Ends(lo, hi, a.m, a.s, a.scale, size);
  }

  lemma Ends(lo: real, hi: real, m: real, s: real, scale: real, size: real)
    requires lo != hi && Abs(hi - lo) * scale == size && (s == scale || s == -scale)
    requires m == if s == scale then Min(hi, lo) else Max(hi, lo)
    requires scale > 0.0
    ensures (lo - m) * s == (if (s == scale) == (lo < hi) then 0.0 else size)
    ensures (hi - m) * s == (if (s == scale) == (lo < hi) then size else 0.0)
  {
    var w := hi - lo;
    assert w * -scale == -(w * scale) && -w * scale == -(w * scale) && -w * -scale == w * scale;
    assert lo - m == 0.0 || lo - m == -w;
    assert hi - m == 0.0 || hi - m == w;
  }

  lemma BackAndForth(a: Axis, p: real, c: real)
    requires a.Valid()
    ensures a.transform.None? && a.inverse.None? ==> a.P2C(a.C2P(c)) == c && a.C2P(a.P2C(p)) == p
    ensures a.inverse.Some? && a.inverse.value(a.T(p)) == p ==> a.C2P(a.P2C(p)) == p
  {
    var q := c / a.s;
    assert q * a.s == c;
    assert (a.m + q - a.m) * a.s == c;
    var r := (a.T(p) - a.m) * a.s / a.s;
    assert r == a.T(p) - a.m by {
      var u := a.T(p) - a.m;
      assert (u * a.s) / a.s == u;
    }
  }

  // ----- the search

  datatype Datum = Gap | Datum(x: real, y: real, b: real)

  datatype Series = Series(points: seq<Datum>, xaxis: Axis, yaxis: Axis, lines: bool, dots: bool,
                           bars: bool, alignLeft: bool, barWidth: real, horizontal: bool) {
    ghost predicate Valid() { xaxis.Valid() && yaxis.Valid() }

    function BarLeft(): real { if alignLeft then 0.0 else -barWidth / 2.0 }

    function BarRight(): real { BarLeft() + barWidth }
  }

  datatype Mouse = Mouse(x: real, y: real, radius: real)

  /** `maxx` and `maxy`: nothing limits the search where there is an inverse transform. */
  predicate Close(a: Axis, p: real, m: real, radius: real)
    requires a.scale != 0.0 && a.s != 0.0
  {
    a.inverse.Some? || !(p - a.C2P(m) > radius / a.scale || p - a.C2P(m) < -(radius / a.scale))
  }

  predicate Near(s: Series, mouse: Mouse, d: Datum)
    requires s.Valid() && d.Datum?
  {
    Close(s.xaxis, d.x, mouse.x, mouse.radius) && Close(s.yaxis, d.y, mouse.y, mouse.radius)
  }

  /** The square of the distance in pixels. */
  function Distance(s: Series, mouse: Mouse, d: Datum): real
    requires d.Datum?
  {
    var dx, dy := Abs(s.xaxis.P2C(d.x) - mouse.x), Abs(s.yaxis.P2C(d.y) - mouse.y);
    dx * dx + dy * dy
  }

  ghost function SquaredPixels(s: Series, mouse: Mouse, d: Datum): real
    requires d.Datum?
  {
    var dx, dy := s.xaxis.P2C(d.x) - mouse.x, s.yaxis.P2C(d.y) - mouse.y;
    dx * dx + dy * dy
  }

  lemma DistanceIs(s: Series, mouse: Mouse, d: Datum)
    requires d.Datum?
    ensures Distance(s, mouse, d) == SquaredPixels(s, mouse, d)
  {
    hide Axis.P2C;
    SquareOfAbs(s.xaxis.P2C(d.x) - mouse.x);
    SquareOfAbs(s.yaxis.P2C(d.y) - mouse.y);
  }

  lemma SquareOfAbs(x: real)
    ensures Abs(x) * Abs(x) == x * x
  {
    assert -x * -x == x * x;
  }

  predicate Inside(s: Series, mouse: Mouse, d: Datum)
    requires s.Valid() && d.Datum?
  {
    var mx, my := s.xaxis.C2P(mouse.x), s.yaxis.C2P(mouse.y);
    if s.horizontal
    then mx <= Max(d.b, d.x) && mx >= Min(d.b, d.x) && my >= d.y + s.BarLeft() && my <= d.y + s.BarRight()
    else mx >= d.x + s.BarLeft() && mx <= d.x + s.BarRight() && my >= Min(d.b, d.y) && my <= Max(d.b, d.y)
  }

  /** `v` is between `a` and `b`, whichever is the greater. */
  predicate Amid(v: real, a: real, b: real) { a <= v <= b || b <= v <= a }

  /** On an axis without transform the order of data is that of pixels, or the reverse. */
  lemma Ordered(a: Axis, p: real, m: real)
    requires a.Valid() && a.transform.None? && a.inverse.None?
    ensures if a.s > 0.0 then p <= a.C2P(m) <==> a.P2C(p) <= m else p <= a.C2P(m) <==> a.P2C(p) >= m
    ensures if a.s > 0.0 then p >= a.C2P(m) <==> a.P2C(p) >= m else p >= a.C2P(m) <==> a.P2C(p) <= m
  {
    var c := m / a.s;
    TimesDivisor(m, a.s);
    var u := p - a.m;
    assert a.P2C(p) == u * a.s && m == c * a.s;
    Scaled(u, c, a.scale);
    Scaled(c, u, a.scale);
    if a.s < 0.0 {
      assert u * a.s == -(u * a.scale) && c * a.s == -(c * a.scale);
    }
  }

  /** On axes without transforms: exactly if the mouse is on the bar as it is drawn, from the base to the value in one direction,
      and as wide as the series says in the other, beside the value or around it. */
  lemma InsideIsOnBar(s: Series, mouse: Mouse, d: Datum)
    requires s.Valid() && d.Datum?
    requires s.xaxis.transform.None? && s.xaxis.inverse.None? && s.yaxis.transform.None? && s.yaxis.inverse.None?
    ensures var near := if s.alignLeft then 0.0 else s.barWidth / 2.0;
            var far := if s.alignLeft then s.barWidth else s.barWidth / 2.0;
            Inside(s, mouse, d) <==>
            && s.barWidth >= 0.0
            && if s.horizontal
               then Amid(mouse.x, s.xaxis.P2C(d.b), s.xaxis.P2C(d.x))
                    && Amid(mouse.y, s.yaxis.P2C(d.y - near), s.yaxis.P2C(d.y + far))
               else Amid(mouse.x, s.xaxis.P2C(d.x - near), s.xaxis.P2C(d.x + far))
                    && Amid(mouse.y, s.yaxis.P2C(d.b), s.yaxis.P2C(d.y))
  {
    var near := if s.alignLeft then 0.0 else s.barWidth / 2.0;
    var far := if s.alignLeft then s.barWidth else s.barWidth / 2.0;
    var mx, my := s.xaxis.C2P(mouse.x), s.yaxis.C2P(mouse.y);
    AmidPixels(s.xaxis, d.b, d.x, mouse.x);
    AmidPixels(s.yaxis, d.b, d.y, mouse.y);
    AmidPixels(s.xaxis, d.x - near, d.x + far, mouse.x);
    AmidPixels(s.yaxis, d.y - near, d.y + far, mouse.y);
    hide Axis.P2C, Axis.C2P;
    assert s.BarLeft() == -near && s.BarRight() == far;
    assert d.x + s.BarLeft() == d.x - near && d.y + s.BarLeft() == d.y - near;
  }

  lemma AmidPixels(a: Axis, p: real, q: real, m: real)
    requires a.Valid() && a.transform.None? && a.inverse.None?
    ensures Amid(a.C2P(m), p, q) <==> Amid(m, a.P2C(p), a.P2C(q))
  {
    Ordered(a, p, m);
    Ordered(a, q, m);
    hide Axis.P2C, Axis.C2P;
  }

  datatype Item = Item(series: nat, datum: nat)

  /** One call: all series of the plot, and which of them the event is meant for. */
  datatype Search = Search(series: seq<Series>, mouse: Mouse, filter: Series -> bool) {
    ghost predicate Valid() { forall s <- series :: s.Valid() }

    function Limit(): real { mouse.radius * mouse.radius + 1.0 }

    /** A data point of a series that is drawn with points or lines. */
    predicate Eligible(c: Item) {
      c.series < |series| && filter(series[c.series]) && (series[c.series].lines || series[c.series].dots)
      && c.datum < |series[c.series].points| && series[c.series].points[c.datum].Datum?
    }

    function DistanceOf(c: Item): real
      requires Eligible(c)
    {
      Distance(series[c.series], mouse, series[c.series].points[c.datum])
    }

    /** An eligible point that is not left out for its coordinates, closer than the limit. */
    ghost predicate Candidate(c: Item)
      requires Valid()
    {
      Eligible(c) && Near(series[c.series], mouse, series[c.series].points[c.datum]) && DistanceOf(c) < Limit()
    }

    ghost predicate BarHit(c: Item)
      requires Valid()
    {
      && c.series < |series| && filter(series[c.series]) && series[c.series].bars
      && c.datum < |series[c.series].points| && series[c.series].points[c.datum].Datum?
      && Inside(series[c.series], mouse, series[c.series].points[c.datum])
    }

    /** Scanned before the search comes to datum `k` of series `i`. */
    predicate Scanned(c: Item, i: int, k: int) { c.series > i || (c.series == i && c.datum < k) }

    /** The closest candidate so far, the first of them in the order of the search. */
    ghost predicate Best(best: Option<Item>, smallest: real, i: int, k: int)
      requires Valid()
    {
      match best
      case None => smallest == Limit() && forall c :: Candidate(c) ==> !Scanned(c, i, k)
      case Some(b) =>
        && Candidate(b) && Scanned(b, i, k) && smallest == DistanceOf(b)
        && forall c :: Candidate(c) && Scanned(c, i, k) ==>
             smallest <= DistanceOf(c) && (smallest == DistanceOf(c) ==> !Scanned(c, b.series, b.datum))
    }

    /** No candidate is closer, and none that the search meets earlier is as close. */
    ghost predicate Closest(b: Item)
      requires Valid()
    {
      && Candidate(b)
      && forall c :: Candidate(c) ==>
           DistanceOf(b) <= DistanceOf(c) && (DistanceOf(b) == DistanceOf(c) ==> !Scanned(c, b.series, b.datum))
    }

    /** Of the bars under the mouse in the series down to `i`: the last one of the first series that has any. */
    ghost predicate Topmost(bar: Option<Item>, i: int)
      requires Valid()
    {
      match bar
      case None => forall c :: BarHit(c) ==> c.series < i
      case Some(b) => BarHit(b) && b.series >= i && forall c :: BarHit(c) ==> c == b || Scanned(c, b.series, b.datum) || c.series < b.series
    }

    /** The points of series `i`. */
    method ScanPoints(i: nat, item: Option<Item>, smallest: real, ghost best: Option<Item>)
      returns (item': Option<Item>, smallest': real, ghost best': Option<Item>)
      requires Valid() && i < |series| && filter(series[i]) && (series[i].lines || series[i].dots)
      requires Best(best, smallest, i, 0) && (best.Some? ==> item == best)
      ensures Best(best', smallest', i, |series[i].points|)
      ensures best'.Some? ==> item' == best'
      ensures best'.None? ==> item' == item && best.None?
    {
      item', smallest', best' := item, smallest, best;
      var s, j := series[i], 0;
      while j < |s.points|
        invariant j <= |s.points| && Best(best', smallest', i, j)
        invariant (best'.Some? ==> item' == best') && (best'.None? ==> item' == item && best.None?)
      {
        var d := s.points[j];
        ghost var before, was := best', smallest';
        if d.Datum? && Near(s, mouse, d) {
          var dist := Distance(s, mouse, d);
          if dist < smallest' {
            smallest', item' := dist, Some(Item(i, j));
            best' := item';
          }
        }
        NextPoint(before, was, i, j);
        j := j + 1;
      }
    }

    lemma NextPoint(best: Option<Item>, smallest: real, i: nat, j: nat)
      requires Valid() && i < |series| && filter(series[i]) && (series[i].lines || series[i].dots) && j < |series[i].points|
      requires Best(best, smallest, i, j)
      ensures var c := Item(i, j);
              if Candidate(c) && DistanceOf(c) < smallest then Best(Some(c), DistanceOf(c), i, j + 1) else Best(best, smallest, i, j + 1)
      ensures smallest <= Limit()
    {
      var here := Item(i, j);
      forall c | Candidate(c) ensures Scanned(c, i, j + 1) <==> Scanned(c, i, j) || c == here {
      }
      hide Search.Candidate, Search.DistanceOf;
    }

    /** The bars of series `i`, if nothing has been found yet. */
    method ScanBars(i: nat) returns (item: Option<Item>)
      requires Valid() && i < |series| && filter(series[i]) && series[i].bars && Topmost(None, i + 1)
      ensures Topmost(item, i)
    {
      item := None;
      var s, j := series[i], 0;
      while j < |s.points|
        invariant j <= |s.points|
        invariant item.Some? ==> BarHit(item.value) && item.value.series == i
        invariant forall c :: BarHit(c) && c.series == i && c.datum < j ==> item.Some? && c.datum <= item.value.datum
      {
        var d := s.points[j];
        if d.Datum? && Inside(s, mouse, d) {
          item := Some(Item(i, j));
        }
        j := j + 1;
      }
    }

    lemma NothingYet()
      requires Valid()
      ensures Best(None, Limit(), |series| - 1, 0) && Topmost(None, |series|)
    {
    }

    /** Series `i` is done with. */
    lemma Passed(best: Option<Item>, smallest: real, item: Option<Item>, i: nat)
      requires Valid() && i < |series|
      ensures (filter(series[i]) && (series[i].lines || series[i].dots) ==> Best(best, smallest, i, |series[i].points|)) &&
              (!(filter(series[i]) && (series[i].lines || series[i].dots)) ==> Best(best, smallest, i, 0)) ==>
              Best(best, smallest, i - 1, 0)
      ensures Topmost(item, i + 1) && (item.Some? || !filter(series[i]) || !series[i].bars) ==> Topmost(item, i)
    {
      forall c | Candidate(c)
        ensures c.series == i ==> filter(series[i]) && (series[i].lines || series[i].dots) && c.datum < |series[i].points|
        ensures Scanned(c, i - 1, 0) <==> c.series >= i
      {
      }
    }

    /** The closest candidate; only if there is none, a bar under the mouse. */
    method Find() returns (item: Option<Item>)
      requires Valid()
      ensures if exists c :: Candidate(c) then item.Some? && Closest(item.value) else Topmost(item, 0)
    {
      NothingYet();
      hide Search.Candidate, Search.BarHit, Search.Eligible, Search.DistanceOf;
      var smallest := Limit();
      item := None;
      ghost var best: Option<Item> := None;
      var i := |series|;
      while i > 0
        invariant i <= |series| && Best(best, smallest, i - 1, 0)
        invariant if best.Some? then item == best else Topmost(item, i)
      {
        i := i - 1;
        var s := series[i];
        if !filter(s) {
          Passed(best, smallest, item, i);
          continue;
        }
        if s.lines || s.dots {
          item, smallest, best := ScanPoints(i, item, smallest, best);
        }
        if s.bars && item.None? {
          item := ScanBars(i);
        }
        Passed(best, smallest, item, i);
      }
    }

    /** Wherever there is no inverse transform, the transform leaves the coordinates of all points as they are. */
    ghost predicate Sound() {
      forall c :: Eligible(c) ==> SoundAt(c)
    }

    predicate SoundAt(c: Item)
      requires Eligible(c)
    {
      var s := series[c.series];
      s.xaxis.Fixed(s.points[c.datum].x) && s.yaxis.Fixed(s.points[c.datum].y)
    }

    /** No point within the active radius is left out for its coordinates. */
    ghost predicate LosesNone()
      requires Valid()
    {
      forall c :: Eligible(c) && DistanceOf(c) <= mouse.radius * mouse.radius ==> Candidate(c)
    }

    /** The same search with the mouse elsewhere. */
    function MouseAt(x: real, y: real): Search { Search(series, Mouse(x, y, mouse.radius), filter) }

    /** What the search is for: if some point is within the active radius, the item found is an eligible point and no eligible
        point of any series is closer. */
    lemma NearestWins(item: Option<Item>, near: Item)
      requires Valid() && Sound() && mouse.radius >= 0.0
      requires if exists c :: Candidate(c) then item.Some? && Closest(item.value) else Topmost(item, 0)
      requires Eligible(near) && DistanceOf(near) <= mouse.radius * mouse.radius
      ensures item.Some? && Eligible(item.value) && forall c :: Eligible(c) ==> DistanceOf(item.value) <= DistanceOf(c)
    {
      NotPruned(near);
      assert Candidate(near);
      forall c | Eligible(c) ensures DistanceOf(item.value) <= DistanceOf(c) {
        if DistanceOf(c) <= mouse.radius * mouse.radius { NotPruned(c); }
        assert Candidate(c) || DistanceOf(c) > mouse.radius * mouse.radius;
      }
    }

    /** What makes a point a candidate: its series is meant and drawn with points or lines; where there is no inverse transform
        it is no further than the radius in that direction, drawn without the transform; and the square of its distance from
        the mouse in pixels is less than that of the radius and one. */
    lemma CandidateIs(c: Item)
      requires Valid()
      ensures Candidate(c) <==>
              && c.series < |series| && filter(series[c.series]) && (series[c.series].lines || series[c.series].dots)
              && c.datum < |series[c.series].points| && series[c.series].points[c.datum].Datum?
              && (var s, d := series[c.series], series[c.series].points[c.datum];
                  && WithinReach(s.xaxis, d.x, mouse.x, mouse.radius) && WithinReach(s.yaxis, d.y, mouse.y, mouse.radius)
                  && SquaredPixels(s, mouse, d) < mouse.radius * mouse.radius + 1.0)
    {
      if Eligible(c) {
        var s := series[c.series];
        assert s.Valid();
        var d := s.points[c.datum];
        CloseIsWithinReach(s.xaxis, d.x, mouse.x, mouse.radius);
        CloseIsWithinReach(s.yaxis, d.y, mouse.y, mouse.radius);
        DistanceIs(s, mouse, d);
        hide Close, Distance, WithinReach, SquaredPixels;
      }
    }

    lemma NotPruned(c: Item)
      requires Valid() && mouse.radius >= 0.0 && Eligible(c) && SoundAt(c) && DistanceOf(c) <= mouse.radius * mouse.radius
      ensures Near(series[c.series], mouse, series[c.series].points[c.datum])
    {
      var s := series[c.series];
      assert s.Valid();
      var d := s.points[c.datum];
      var dx, dy := Abs(s.xaxis.P2C(d.x) - mouse.x), Abs(s.yaxis.P2C(d.y) - mouse.y);
      OneCoordinate(dx, dy, mouse.radius);
      OneCoordinate(dy, dx, mouse.radius);
      PruningExact(s.xaxis, d.x, mouse.radius);
      PruningExact(s.yaxis, d.y, mouse.radius);
    }

    /** Exactly then: no mouse position makes the search lose a point within the radius if and only if no axis has a transform
        that moves a coordinate of a point and no inverse transform. */
    lemma LosesNoneExactly()
      requires Valid() && mouse.radius >= 0.0
      ensures (forall x, y :: MouseAt(x, y).LosesNone()) <==> Sound()
    {
      if Sound() {
        forall x, y ensures MouseAt(x, y).LosesNone() {
          var there := MouseAt(x, y);
          forall c | there.Eligible(c) && there.DistanceOf(c) <= mouse.radius * mouse.radius ensures there.Candidate(c) {
            assert Eligible(c) && SoundAt(c);
            there.NotPruned(c);
          }
        }
      } else {
        var c :| Eligible(c) && !SoundAt(c);
        Lost(c);
      }
    }

    /** One series with one point, drawn without bars. */
    lemma Only()
      requires |series| == 1 && series[0].Valid() && !series[0].bars && |series[0].points| == 1
      ensures Valid()
      ensures forall c :: Candidate(c) ==> c == Item(0, 0)
      ensures forall c :: !BarHit(c)
    {
    }

    /** The same search with the mouse within the radius of point `c`, where it loses the point if it can. */
    function BlindTo(c: Item): Search
      requires Eligible(c)
    {
      var s, d := series[c.series], series[c.series].points[c.datum];
      MouseAt(Blind(s.xaxis, d.x, mouse.radius),
              if s.xaxis.Fixed(d.x) then Blind(s.yaxis, d.y, mouse.radius) else s.yaxis.P2C(d.y))
    }

    lemma Lost(c: Item)
      requires Valid() && mouse.radius >= 0.0 && Eligible(c) && !SoundAt(c)
      ensures var there := BlindTo(c);
              there.Eligible(c) && there.DistanceOf(c) <= mouse.radius * mouse.radius && !there.Candidate(c) && !there.LosesNone()
    {
      var s, d := series[c.series], series[c.series].points[c.datum];
      assert s.Valid();
      BlindSpot(s.xaxis, d.x, mouse.radius);
      BlindSpot(s.yaxis, d.y, mouse.radius);
      hide Close, Axis.P2C, Axis.Fixed, Blind;
      var there, r := BlindTo(c), mouse.radius;
      var dx, dy := Abs(s.xaxis.P2C(d.x) - there.mouse.x), Abs(s.yaxis.P2C(d.y) - there.mouse.y);
      assert (dx == r && dy == 0.0) || (dx == 0.0 && dy == r);
      assert dx * dx + dy * dy == r * r;
    }
  }

  /** A mouse coordinate within the radius of where `p` is drawn, for which `p` is left out if that can happen. */
  function Blind(a: Axis, p: real, radius: real): real {
    if a.Fixed(p) || a.scale == 0.0 then a.P2C(p) else if a.P2C(p) < a.Untransformed(p) then a.P2C(p) - radius else a.P2C(p) + radius
  }

  lemma OneCoordinate(dx: real, dy: real, radius: real)
    requires dx >= 0.0 && radius >= 0.0 && dx * dx + dy * dy <= radius * radius
    ensures dx <= radius
  {
    assert dy * dy >= 0.0;
    if dx > radius {
      SquareGrows(dx, radius);
    }
  }

  lemma SquareGrows(a: real, b: real)
    requires 0.0 <= b < a
    ensures b * b < a * a
  {
    var e := a - b;
    assert a * a - b * b == e * (a + b);
    assert e * (a + b) > 0.0;
  }

  /** With no inverse transform a point is left out exactly if it would be more than `radius` pixels away, drawn without the
      transform. */
  lemma PrunedIsFar(a: Axis, p: real, m: real, radius: real)
    requires a.Valid()
    ensures Close(a, p, m, radius) <==> a.inverse.Some? || Abs(a.Untransformed(p) - m) <= radius
  {
    if a.inverse.None? {
      Limits(p - a.m, m, a.s, a.scale, radius);
      assert p - a.C2P(m) == (p - a.m) - m / a.s;
    }
  }

  /** Nothing limits the search where there is an inverse transform; otherwise `p`, drawn without the transform, is no further
      from the mouse than the radius. */
  ghost predicate WithinReach(a: Axis, p: real, m: real, radius: real) {
    a.inverse.Some? || -radius <= (p - a.m) * a.s - m <= radius
  }

  lemma CloseIsWithinReach(a: Axis, p: real, m: real, radius: real)
    requires a.Valid()
    ensures Close(a, p, m, radius) <==> WithinReach(a, p, m, radius)
  {
    PrunedIsFar(a, p, m, radius);
    hide Close;
  }

  /** No mouse position within the radius of a point leaves it out in that direction, exactly if there is an inverse transform
      or the transform does not move the coordinate. */
  lemma PruningExact(a: Axis, p: real, radius: real)
    requires a.Valid() && radius >= 0.0
    ensures (forall m :: Abs(a.P2C(p) - m) <= radius ==> Close(a, p, m, radius)) <==> a.Fixed(p)
  {
    forall m ensures Close(a, p, m, radius) <==> a.inverse.Some? || Abs(a.Untransformed(p) - m) <= radius {
      PrunedIsFar(a, p, m, radius);
    }
    MovedAway(a, p);
    hide Close, Axis.P2C, Axis.Untransformed;
    if !a.Fixed(p) {
      BlindSpot(a, p, radius);
    }
  }

  lemma BlindSpot(a: Axis, p: real, radius: real)
    requires a.Valid() && radius >= 0.0
    ensures var m := Blind(a, p, radius);
            if a.Fixed(p) then m == a.P2C(p)
            else !Close(a, p, m, radius) && Abs(a.P2C(p) - m) <= radius && (a.P2C(p) - m == radius || m - a.P2C(p) == radius)
  {
    PrunedIsFar(a, p, Blind(a, p, radius), radius);
    if !a.Fixed(p) {
      MovedAway(a, p);
    }
    hide Close, Axis.P2C, Axis.Untransformed;
  }

  lemma MovedAway(a: Axis, p: real)
    requires a.Valid()
    ensures a.P2C(p) == a.Untransformed(p) <==> a.T(p) == p
  {
    if a.T(p) != p {
      Moved(a.T(p) - a.m, p - a.m, a.s);
    }
  }

  lemma Moved(x: real, y: real, s: real)
    requires x != y && s != 0.0
    ensures x * s != y * s
  {
    var d := x - y;
    Distributes(x, y, s);
    assert d > 0.0 && s > 0.0 ==> d * s > 0.0;
    assert d > 0.0 && s < 0.0 ==> d * s < 0.0;
    assert d < 0.0 && s > 0.0 ==> d * s < 0.0;
    assert d < 0.0 && s < 0.0 ==> d * s > 0.0;
  }

  lemma Limits(q: real, m: real, s: real, scale: real, radius: real)
    requires scale > 0.0 && (s == scale || s == -scale)
    ensures var u, r := q - m / s, radius / scale;
            !(u > r || u < -r) <==> Abs(q * s - m) <= radius
  {
    var mx, r := m / s, radius / scale;
    TimesDivisor(m, s);
    TimesDivisor(radius, scale);
    Distributes(q, mx, s);
    InPixels(q - mx, r, s, scale);
  }

  lemma InPixels(u: real, r: real, s: real, scale: real)
    requires scale > 0.0 && (s == scale || s == -scale)
    ensures u > r || u < -r <==> Abs(u * s) > r * scale
  {
    Scaled(u, r, scale);
    Scaled(-u, r, scale);
    if s == -scale {
      Distributes(0.0, u, scale);
      assert u * s == (0.0 - u) * scale;
    }
  }

  function Tenfold(x: real): real { 10.0 * x }

  /** A single point on an axis whose transform moves it: the search, made from within the radius, finds nothing. */
  method MissesPoint(s: Series, radius: real) returns (search: Search, item: Option<Item>)
    requires s.Valid() && radius >= 0.0 && (s.lines || s.dots) && !s.bars && |s.points| == 1 && s.points[0].Datum?
    requires !s.xaxis.Fixed(s.points[0].x)
    ensures search.Valid() && search.series == [s] && search.mouse.radius == radius
    ensures search.Eligible(Item(0, 0)) && search.DistanceOf(Item(0, 0)) <= radius * radius && item == None
  {
    var d := s.points[0];
    search := Search([s], Mouse(0.0, 0.0, radius), _ => true).BlindTo(Item(0, 0));
    search.Only();
    search.Lost(Item(0, 0));
    item := search.Find();
  }

  /** On a tenfold axis without inverse transform, a point exactly under the mouse is missed. */
  method TransformWithoutInverse() returns (search: Search, item: Option<Item>)
    ensures search.Valid() && search.Eligible(Item(0, 0)) && search.DistanceOf(Item(0, 0)) == 0.0 && search.mouse.radius == 1.0
    ensures search.series[0].xaxis == SetTransformationHelpers(X, 10.0, 0.0, 1.0, Some(Tenfold), None) && item == None
  {
    var x := SetTransformationHelpers(X, 10.0, 0.0, 1.0, Some(Tenfold), None);
    var y := SetTransformationHelpers(Y, 10.0, 0.0, 1.0, None, None);
    assert x.T(0.0) == 0.0 && x.T(1.0) == 10.0 && x.scale == 1.0 && x.m == 0.0;
    var s := Series([Datum(0.5, 0.5, 0.0)], x, y, true, false, false, true, 1.0, false);
    search := Search([s], Mouse(5.0, y.P2C(0.5), 1.0), _ => true);
    search.Only();
    item := search.Find();
  }
}
