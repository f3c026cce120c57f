/** The range of a plot axis and its ticks, in exact arithmetic. */
module AxisTicks {
  import opened Arithmetic
  import opened Wrappers

  /** A tick that the user gives: a number, or a pair with a text. */
  datatype Given = Given(at: real, text: Option<string>)

  datatype Tick = Tick(v: real, text: string)

  /** `noTicks` is how many ticks are asked for; `given` are ticks that are not generated. */
  datatype Options = Options(min: Option<real>, max: Option<real>, autoscaleMargin: Option<real>, noTicks: real,
                             tickDecimals: Option<int>, minTickSize: Option<real>, tickSize: Option<real>,
                             given: Option<seq<Given>>)

  // ----- powers of ten

  function Pow10(e: int): (r: real)
    ensures r > 0.0
    decreases if e < 0 then -e else e
  {
    if e == 0 then 1.0 else if e > 0 then 10.0 * Pow10(e - 1) else Pow10(e + 1) / 10.0
  }

  lemma Pow10Next(e: int)
    ensures Pow10(e + 1) == 10.0 * Pow10(e)
  {
  }

  /** `Math.floor( Math.log( x ) / Math.LN10 )`. */
  function FloorLog10(x: real): (e: int)
    requires x > 0.0
    ensures Pow10(e) <= x < Pow10(e + 1)
    decreases if x < 1.0 then 1 else 0, if x < 1.0 then (1.0 / x).Floor else x.Floor
  {
    if x >= 10.0 then
      var e := FloorLog10(x / 10.0);
      Pow10Next(e); Pow10Next(e + 1);
      e + 1
    else if x < 1.0 then
      Shrinks(x);
      var e := FloorLog10(x * 10.0);
      Pow10Next(e - 1); Pow10Next(e);
      e - 1
    else
      assert Pow10(0) == 1.0 && Pow10(1) == 10.0 * Pow10(0);
      0
  }

  lemma Shrinks(x: real)
    requires 0.0 < x < 1.0
    ensures (1.0 / (x * 10.0)).Floor < (1.0 / x).Floor
  {
    var y := 1.0 / x;
    assert y * x == 1.0;
    assert y > 1.0;
    assert 1.0 / (x * 10.0) == y / 10.0;
    assert y / 10.0 + 0.9 < y;
  }

  function Times(k: int, unit: real): real { k as real * unit }

  lemma TimesTimes(a: int, b: int, unit: real)
    ensures a as real * Times(b, unit) == Times(a * b, unit)
  {
    assert (a * b) as real == (a as real) * (b as real);
    assert (a as real) * ((b as real) * unit) == ((a as real) * (b as real)) * unit;
  }

  ghost predicate IsMultiple(x: real, unit: real) { exists k: int :: x == Times(k, unit) }

  lemma {:induction false} PowersDivide(a: int, b: int) returns (k: int)
    requires a <= b
    ensures Pow10(b) == Times(k, Pow10(a))
    decreases b - a
  {
    if a == b {
      k := 1;
    } else {
      var j := PowersDivide(a, b - 1);
      Pow10Next(b - 1);
      k := 10 * j;
      assert Times(k, Pow10(a)) == 10.0 * Times(j, Pow10(a));
    }
  }

  lemma MultipleOfMultiple(x: real, y: real, unit: real)
    requires IsMultiple(x, y) && IsMultiple(y, unit)
    ensures IsMultiple(x, unit)
  {
    var a: int :| x == Times(a, y);
    var b: int :| y == Times(b, unit);
    TimesTimes(a, b, unit);
    assert x == Times(a * b, unit);
  }

  // ----- the range

  function OrZero(x: Option<real>): real { if x.Some? then x.value else 0.0 }

  /** The ends before anything is widened: those asked for, or those of the data. */
  function Low(o: Options, datamin: Option<real>): real { if o.min.Some? then o.min.value else OrZero(datamin) }

  function High(o: Options, datamax: Option<real>): real { if o.max.Some? then o.max.value else OrZero(datamax) }

  predicate Margin(o: Options) { o.autoscaleMargin.None? || o.autoscaleMargin.value >= 0.0 }

  // ----- the tick size

  /** An axis for which nothing is set chooses its step freely; the default margins are not negative. */
  lemma Defaults(o: Options)
    ensures o.tickSize.None? && o.minTickSize.None? ==> Free(o)
    ensures o.autoscaleMargin.None? || o.autoscaleMargin == Some(0.02) ==> Margin(o)
    ensures o.autoscaleMargin == Some(0.02) ==> Snaps(o)
  {
  }

  /** The step is whole in the `d`th decimal, and in none before it. */
  ghost predicate LeastDecimals(size: real, d: int) {
    IsMultiple(size, Pow10(-d)) && (d == 0 || !IsMultiple(size, Pow10(1 - d)))
  }

  /** A range per tick below one that is rounded up to the next power of ten. */
  ghost predicate RoundedUp(delta: real) { exists k: int :: k < 0 && UpFrom(delta, k) }

  ghost predicate UpFrom(delta: real, k: int) { 7.5 * Pow10(k) <= delta < Pow10(k + 1) }

  /** Labels have the decimals that the step needs and no more, except that they have one too many where the range per tick was
      rounded up. */
  ghost predicate Shows(delta: real, size: real, d: int) {
    if RoundedUp(delta) then d >= 1 && LeastDecimals(size, d - 1) else d >= 0 && LeastDecimals(size, d)
  }

  lemma NotWhole(c: real, unit: real)
    requires unit > 0.0 && c != c.Floor as real
    ensures !IsMultiple(c * unit, unit)
  {
    if k: int :| c * unit == Times(k, unit) {
      assert (c - k as real) * unit == 0.0;
      assert c - k as real > 0.0 ==> (c - k as real) * unit > 0.0;
      assert c - k as real < 0.0 ==> (c - k as real) * unit < 0.0;
    }
  }

  /** Of the sizes only the last is whole in units of ten, and 2.5 not even in units of one. */
  lemma WholeSizes(m: real)
    requires m > 0.0
    ensures !IsMultiple(m, 10.0 * m) && !IsMultiple(2.0 * m, 10.0 * m) && !IsMultiple(5.0 * m, 10.0 * m)
    ensures !IsMultiple(2.5 * m, m) && IsMultiple(10.0 * m, 10.0 * m)
  {
    NotWhole(2.5, m);
    NotWhole(0.1, 10.0 * m);
    NotWhole(0.2, 10.0 * m);
    NotWhole(0.5, 10.0 * m);
    assert 10.0 * m == Times(1, 10.0 * m);
    hide Times;
    assert 0.1 * (10.0 * m) == m && 0.2 * (10.0 * m) == 2.0 * m && 0.5 * (10.0 * m) == 5.0 * m;
  }

  /** The decimals that go with the size chosen: one more for 2.5. */
  lemma ChosenDecimals(delta: real, dec: int, size: real, d: int)
    requires var m := Pow10(-dec); m <= delta < Pow10(-dec + 1) && Chosen(Ratio(delta, m), m, size, true)
    requires d == if size == 2.5 * Pow10(-dec) then dec + 1 else dec
    ensures IsMultiple(size, Pow10(1 - d)) <==> UpFrom(delta, -d)
    ensures UpFrom(delta, -dec) <==> size == Pow10(1 - dec)
    ensures UpFrom(delta, -dec) ==> d == dec
    ensures UpFrom(delta, -d) ==> d == dec
  {
    var m := Pow10(-dec);
    Pow10Next(-dec);
    Pow10Next(-dec - 1);
    ChosenAt(delta, m, size);
    WholeSizes(m);
    assert Pow10(1 - dec) == Pow10(-dec + 1);
    assert d == dec + 1 ==> Pow10(1 - d) == m && 10.0 * Pow10(-d) == m && Pow10(-d + 1) == m;
    hide Pow10, Chosen, Ratio, IsMultiple;
  }

  lemma UpFromDecade(delta: real, e: int, k: int)
    requires Pow10(e) <= delta < Pow10(e + 1) && UpFrom(delta, k)
    ensures k == e
  {
    if k < e { Pow10Rises(k + 1, e); } else if k > e { Pow10Rises(e + 1, k); }
  }

  lemma PowerNeedsAll(e: int)
    ensures !IsMultiple(Pow10(e), Pow10(e + 1))
  {
    Pow10Next(e);
    NotWhole(0.1, Pow10(e + 1));
    hide IsMultiple, Pow10;
    assert 0.1 * Pow10(e + 1) == Pow10(e);
  }

  lemma LabelsShow(delta: real, dec: int, size: real, decimals: int, d: int)
    requires Pow10(-dec) <= delta < Pow10(-dec + 1) && Chosen(Ratio(delta, Pow10(-dec)), Pow10(-dec), size, true)
    requires decimals == if size == 2.5 * Pow10(-dec) then dec + 1 else dec
    requires d == (if decimals > 0 then decimals else 0) && IsMultiple(size, Pow10(-d))
    ensures Shows(delta, size, d)
  {
    ChosenDecimals(delta, dec, size, decimals);
    PowerNeedsAll(1 - dec);
    hide Chosen, Ratio, Pow10, IsMultiple, UpFrom;
    if k: int :| k < 0 && UpFrom(delta, k) {
      UpFromDecade(delta, -dec, k);
      assert d == dec && size == Pow10(1 - d);
      assert IsMultiple(size, Pow10(1 - d)) && Pow10(1 - (d - 1)) == Pow10(1 - d + 1) && Pow10(-(d - 1)) == Pow10(1 - d);
    } else if d > 0 {
      assert !UpFrom(delta, -d);
    }
  }

  /** One of 1, 2, 2.5 and 5 times a power of ten. */
  ghost predicate IsNice(size: real) {
    exists e: int :: size == Pow10(e) || size == 2.0 * Pow10(e) || size == 2.5 * Pow10(e) || size == 5.0 * Pow10(e)
  }

  /** The step is chosen freely: nothing the user set overrides it. */
  predicate Free(o: Options) { !StepGiven(o) && o.minTickSize.None? }

  predicate StepGiven(o: Options) { o.tickSize.Some? && o.tickSize.value != 0.0 }

  predicate Snaps(o: Options) { o.autoscaleMargin.Some? && o.autoscaleMargin.value != 0.0 }

  /** The sizes in question are nice, and whole in the last decimal; for 2.5 times, that is one decimal more. */
  lemma NiceSizes(magn: real, dec: int)
    requires magn == Pow10(-dec)
    ensures IsNice(magn) && IsNice(2.0 * magn) && IsNice(2.5 * magn) && IsNice(5.0 * magn) && IsNice(10.0 * magn)
    ensures IsMultiple(magn, magn) && IsMultiple(2.0 * magn, magn) && IsMultiple(5.0 * magn, magn)
    ensures IsMultiple(10.0 * magn, magn) && IsMultiple(2.5 * magn, Pow10(-dec - 1))
  {
    Pow10Next(-dec);
    Pow10Next(-dec - 1);
    var tenth := Pow10(-dec - 1);
    assert 10.0 * magn == Pow10(-dec + 1) && magn == 10.0 * tenth;
    hide Pow10;
    assert magn == Times(1, magn) && 2.0 * magn == Times(2, magn) && 5.0 * magn == Times(5, magn);
    assert 10.0 * magn == Times(10, magn) && 2.5 * magn == Times(25, tenth);
  }

  lemma {:induction false} Pow10Rises(a: int, b: int)
    requires a <= b
    ensures Pow10(a) <= Pow10(b)
    decreases b - a
  {
    if a < b {
      Pow10Rises(a, b - 1);
      Pow10Next(b - 1);
    }
  }

  /** The size for `delta == norm * magn`; `half` allows 2.5. */
  predicate Chosen(norm: real, magn: real, size: real, half: bool) {
    if norm < 1.5 then size == magn
    else if norm < 3.0 then size == if norm > 2.25 && half then 2.5 * magn else 2.0 * magn
    else if norm < 7.5 then size == 5.0 * magn
    else size == 10.0 * magn
  }

  lemma ChosenBounds(delta: real, magn: real, size: real, half: bool)
    requires 0.0 < magn && 0.0 < delta < 10.0 * magn && Chosen(Ratio(delta, magn), magn, size, half)
    ensures 3.0 * size > 2.0 * delta && (3.0 * size <= 5.0 * delta <==> 5.0 * delta >= 3.0 * magn)
  {
    RatioOrder(delta, magn, 1.5);
    RatioOrder(delta, magn, 2.25);
    RatioOrder(delta, magn, 3.0);
    RatioOrder(delta, magn, 7.5);
    hide Ratio;
  }

  /** `norm` below 1.5, 3, 7.5 or above gives 1, 2 (2.5 where a decimal more is allowed), 5 or 10 times `10^-dec`. */
  method Round(delta: real, dec: int, maxDec: Option<int>) returns (size: real, decimals: int)
    requires delta > 0.0 && (maxDec.Some? ==> dec <= maxDec.value)
    requires delta < Pow10(-dec + 1)
    ensures 3.0 * size > 2.0 * delta && IsNice(size) && IsMultiple(size, Pow10(-decimals))
    ensures 3.0 * size <= 5.0 * delta <==> 5.0 * delta >= 3.0 * Pow10(-dec)
    ensures maxDec.Some? ==> decimals <= maxDec.value
    ensures decimals == if size == 2.5 * Pow10(-dec) then dec + 1 else dec
    ensures Chosen(Ratio(delta, Pow10(-dec)), Pow10(-dec), size, maxDec.None? || dec + 1 <= maxDec.value)
  {
    var magn := Pow10(-dec);
    var norm := Ratio(delta, magn);
    Pow10Next(-dec);
    NiceSizes(magn, dec);
    hide Pow10, IsMultiple, IsNice, Ratio;
    var half := maxDec.None? || dec + 1 <= maxDec.value;
    decimals := dec;
    if norm < 1.5 {
      size := magn;
    } else if norm < 3.0 {
      size := 2.0 * magn;
      if norm > 2.25 && half {
        size := 2.5 * magn;
        decimals := dec + 1;
      }
    } else if norm < 7.5 {
      size := 5.0 * magn;
    } else {
      size := 10.0 * magn;
    }
    assert Chosen(norm, magn, size, half);
    hide Chosen;
    ChosenBounds(delta, magn, size, half);
  }

  function Distance(a: real, b: real): real { if a < b then b - a else a - b }

  /** No nice number is closer to `delta`. */
  ghost predicate Nearest(delta: real, size: real) {
    forall z: real :: IsNice(z) ==> Distance(size, delta) <= Distance(z, delta)
  }

  /** `delta` is closest to 2.5 times a power of ten, but at least 3 times it. */
  ghost predicate Odd(delta: real) {
    exists e: int :: 3.0 * Pow10(e) <= delta < 3.75 * Pow10(e)
  }

  /** The nice numbers next to a power of ten. */
  lemma NiceAround(e: int, z: real)
    requires IsNice(z)
    ensures var m := Pow10(e); z <= m || z == 2.0 * m || z == 2.5 * m || z == 5.0 * m || z >= 10.0 * m
  {
    var k: int :| z == Pow10(k) || z == 2.0 * Pow10(k) || z == 2.5 * Pow10(k) || z == 5.0 * Pow10(k);
    Pow10Next(e);
    Pow10Next(e - 1);
    if k < e { Pow10Rises(k, e - 1); } else if k > e { Pow10Rises(e + 1, k); }
  }

  lemma OnlyDecade(e: int, k: int, delta: real)
    requires Pow10(e) <= delta < Pow10(e + 1) && 3.0 * Pow10(k) <= delta < 3.75 * Pow10(k)
    ensures k == e
  {
    Pow10Next(k);
    if k < e { Pow10Rises(k + 1, e); } else if k > e { Pow10Rises(e + 1, k); }
  }

  lemma ChosenAt(delta: real, m: real, size: real)
    requires m > 0.0 && Chosen(Ratio(delta, m), m, size, true)
    ensures size == if delta < 1.5 * m then m
                    else if delta < 3.0 * m then (if delta > 2.25 * m then 2.5 * m else 2.0 * m)
                    else if delta < 7.5 * m then 5.0 * m else 10.0 * m
  {
    RatioOrder(delta, m, 1.5);
    RatioOrder(delta, m, 2.25);
    RatioOrder(delta, m, 3.0);
    RatioOrder(delta, m, 7.5);
    hide Ratio;
  }

  lemma ChosenCloser(delta: real, m: real, size: real, z: real)
    requires 0.0 < m <= delta < 10.0 * m && !(3.0 * m <= delta < 3.75 * m)
    requires size == if delta < 1.5 * m then m
                     else if delta < 3.0 * m then (if delta > 2.25 * m then 2.5 * m else 2.0 * m)
                     else if delta < 7.5 * m then 5.0 * m else 10.0 * m
    requires z <= m || z == 2.0 * m || z == 2.5 * m || z == 5.0 * m || z >= 10.0 * m
    ensures Distance(size, delta) <= Distance(z, delta)
  {
  }

  /** The rounding finds the nearest nice number, except from 3 to 3.75 times a power of ten. */
  lemma ChosenIsNearest(delta: real, e: int, size: real)
    requires Pow10(e) <= delta < Pow10(e + 1) && Chosen(Ratio(delta, Pow10(e)), Pow10(e), size, true)
    ensures Nearest(delta, size) <==> !Odd(delta)
  {
    var m := Pow10(e);
    Pow10Next(e);
    NiceSizes(m, -e);
    ChosenAt(delta, m, size);
    hide Pow10, IsNice, Ratio, Chosen;
    if 3.0 * m <= delta < 3.75 * m {
      assert Odd(delta);
      assert Distance(2.5 * m, delta) < Distance(size, delta);
    } else {
      hide Distance;
      forall z: real | IsNice(z) ensures Distance(size, delta) <= Distance(z, delta) {
        NiceAround(e, z);
        ChosenCloser(delta, m, size, z);
      }
      if k: int :| 3.0 * Pow10(k) <= delta < 3.75 * Pow10(k) {
        OnlyDecade(e, k, delta);
      }
    }
  }

  /** The size that goes with the range per tick, but `smallest` if it is smaller than that. */
  ghost predicate Picked(delta: real, smallest: Option<real>, size: real) {
    exists e: int, chosen: real :: PickedAt(delta, smallest, size, e, chosen)
  }

  ghost predicate PickedAt(delta: real, smallest: Option<real>, size: real, e: int, chosen: real) {
    && Pow10(e) <= delta < Pow10(e + 1) && Chosen(Ratio(delta, Pow10(e)), Pow10(e), chosen, true)
    && (smallest.None? || chosen >= smallest.value ==> size == chosen)
    && (smallest.Some? && chosen < smallest.value ==> size == smallest.value)
  }

  lemma PickedFrom(delta: real, smallest: Option<real>, e: int, chosen: real, size: real)
    requires PickedAt(delta, smallest, size, e, chosen)
    ensures Picked(delta, smallest, size)
  {
  }

  /** `floorInBase`: the greatest multiple of `base` that is not above `n`. */
  function FloorInBase(n: real, base: real): (r: real)
    requires base > 0.0
    ensures r <= n < r + base && IsMultiple(r, base)
  {
    var k := Ratio(n, base).Floor;
    FloorBounds(n, base, k);
    assert base * (k as real) == Times(k, base);
    base * (k as real)
  }

  lemma FloorBounds(n: real, base: real, k: int)
    requires base > 0.0 && k == Ratio(n, base).Floor
    ensures base * (k as real) <= n < base * (k as real) + base
  {
    RatioOrder(n, base, k as real);
    RatioOrder(n, base, k as real + 1.0);
    assert (k as real + 1.0) * base == base * (k as real) + base;
  }

  /** Evenly spaced from `start` on, and only the last one is at or above `max`. */
  ghost predicate Covers(ticks: seq<real>, start: real, size: real, max: real) {
    && ticks != []
    && (forall i :: 0 <= i < |ticks| ==> ticks[i] == start + Times(i, size))
    && (forall i :: 0 <= i < |ticks| - 1 ==> ticks[i] < max)
    && ticks[|ticks| - 1] >= max
  }

  /** `span` is less than 1.5 `n` steps of this size: 2/3 of a step is less than the range per tick asked for. */
  ghost predicate FewEnough(span: real, n: real, size: real) { 2.0 * span < 3.0 * n * size }

  /** `span` is at least 0.6 `n` steps. */
  ghost predicate ManyEnough(span: real, n: real, size: real) { 5.0 * span >= 3.0 * n * size }

  ghost predicate AllMultiples(ticks: seq<real>, unit: real) { forall i :: 0 <= i < |ticks| ==> IsMultiple(ticks[i], unit) }

  function Values(ticks: seq<Tick>): (r: seq<real>)
    ensures |r| == |ticks| && forall i :: 0 <= i < |r| ==> r[i] == ticks[i].v
  {
    if ticks == [] then [] else Values(ticks[..|ticks| - 1]) + [ticks[|ticks| - 1].v]
  }

  /** What a margin adds to an end of the range. */
  function Pad(delta: real, margin: real): real { delta * margin }

  /** A margin is a share of the range: margins add up, that of 1 is the range, and it grows with the range. */
  lemma PadIsShare(delta: real, a: real, b: real)
    ensures Pad(delta, 1.0) == delta && Pad(delta, a + b) == Pad(delta, a) + Pad(delta, b)
    ensures Pad(b * delta, a) == b * Pad(delta, a)
  {
    assert delta * (a + b) == delta * a + delta * b;
    assert b * delta * a == b * (delta * a);
  }

  /** Moving `n` ends by this margin leaves something of a range. */
  predicate Leaves(margin: real, n: real) { 1.0 + n * margin > 0.0 }

  lemma Padding(delta: real, margin: real)
    ensures delta > 0.0 && margin >= 0.0 ==> Pad(delta, margin) >= 0.0
    ensures delta < 0.0 && margin >= 0.0 ==> Pad(delta, margin) <= 0.0
    ensures delta > 0.0 && margin < 0.0 ==> Pad(delta, margin) < 0.0
    ensures margin == 0.0 ==> Pad(delta, margin) == 0.0
    ensures Leaves(margin, 0.0)
    ensures delta > 0.0 ==> (delta + Pad(delta, margin) > 0.0 <==> Leaves(margin, 1.0))
    ensures delta > 0.0 ==> (delta + Pad(delta, margin) + Pad(delta, margin) > 0.0 <==> Leaves(margin, 2.0))
  {
    Grown(delta, margin, 1.0);
    Grown(delta, margin, 2.0);
  }

  lemma Grown(delta: real, margin: real, n: real)
    ensures delta > 0.0 ==> (delta + n * Pad(delta, margin) > 0.0 <==> Leaves(margin, n))
  {
    var grown := 1.0 + n * margin;
    assert delta * grown == delta + n * (delta * margin);
    assert delta > 0.0 && grown > 0.0 ==> delta * grown > 0.0;
    assert delta > 0.0 && grown <= 0.0 ==> delta * grown <= 0.0;
  }

  class Axis {
    const options: Options
    const datamin: Option<real>
    const datamax: Option<real>
    const tickFormatter: (real, int) -> string  // the user's function, or `toFixed`
    var min: real
    var max: real
    var tickDecimals: int
    var tickSize: real
    var ticks: seq<Tick>

    constructor (options: Options, datamin: Option<real>, datamax: Option<real>, tickFormatter: (real, int) -> string)
      ensures this.options == options && this.datamin == datamin && this.datamax == datamax && this.tickFormatter == tickFormatter
    {
      this.options, this.datamin, this.datamax, this.tickFormatter := options, datamin, datamax, tickFormatter;
      min, max, tickDecimals, tickSize, ticks := 0.0, 0.0, 0, 0.0, [];
    }

    ghost function Delta(): real { High(options, datamax) - Low(options, datamin) }

    /** How many ends autoscaling may move. */
    ghost function Unset(): real {
      (if options.min.None? then 1.0 else 0.0) + (if options.max.None? then 1.0 else 0.0)
    }

    /** With a margin that is not negative the range is proper exactly if the ends were in order, or equal, and covers what it
        was made from; ends in order stay so exactly if a negative margin takes away less than all. Ends asked for are kept,
        and autoscaling does not cross zero. */
    method SetRange()
      modifies `min, `max
      ensures Margin(options) ==> (min < max <==> Delta() >= 0.0)
      ensures Delta() == 0.0 ==> min < max
      ensures Delta() > 0.0 ==> (min < max <==> Leaves(OrZero(options.autoscaleMargin), Unset()))
      ensures Margin(options) && Delta() >= 0.0 ==> min <= Low(options, datamin) && High(options, datamax) <= max
      ensures Margin(options) && Delta() >= 0.0 ==> (options.min.None? && datamin.Some? ==> min <= datamin.value)
                                                    && (options.max.None? && datamax.Some? ==> max >= datamax.value)
      ensures options.min.Some? ==> min == options.min.value
      ensures options.max.Some? && (Delta() != 0.0 || options.min.None?) ==> max == options.max.value
      ensures Delta() == 0.0 ==>
                var widen := if High(options, datamax) == 0.0 then 1.0 else 0.01;
                && min == Low(options, datamin) - (if options.min.None? then widen else 0.0)
                && max == High(options, datamax) + (if options.max.None? || options.min.Some? then widen else 0.0)
      ensures Delta() != 0.0 && options.min.None? ==>
                var padded := Low(options, datamin) - Pad(Delta(), OrZero(options.autoscaleMargin));
                min == if padded < 0.0 && datamin.Some? && datamin.value >= 0.0 then 0.0 else padded
      ensures Delta() != 0.0 && options.max.None? ==>
                var padded := High(options, datamax) + Pad(Delta(), OrZero(options.autoscaleMargin));
                max == if padded > 0.0 && datamax.Some? && datamax.value <= 0.0 then 0.0 else padded
      ensures Delta() > 0.0 && options.min.None? && datamin.Some? && datamin.value >= 0.0 ==> min >= 0.0
      ensures Delta() > 0.0 && options.max.None? && datamax.Some? && datamax.value <= 0.0 ==> max <= 0.0
    {
      var lo := if options.min.Some? then options.min.value else if datamin.Some? then datamin.value else 0.0;
      var hi := if options.max.Some? then options.max.value else if datamax.Some? then datamax.value else 0.0;
      var delta := hi - lo;
      Padding(delta, OrZero(options.autoscaleMargin));
      hide Pad, Leaves;
      if delta == 0.0 {
        var widen := if hi == 0.0 then 1.0 else 0.01;
        if options.min.None? {
          lo := lo - widen;
        }
        if options.max.None? || options.min.Some? {
          hi := hi + widen;
        }
      } else {
        var margin := options.autoscaleMargin;
        if margin.Some? {
          if options.min.None? {
            lo := lo - Pad(delta, margin.value);
            if lo < 0.0 && datamin.Some? && datamin.value >= 0.0 {
              lo := 0.0;
            }
          }
          if options.max.None? {
            hi := hi + Pad(delta, margin.value);
            if hi > 0.0 && datamax.Some? && datamax.value <= 0.0 {
              hi := 0.0;
            }
          }
        }
      }
      min, max := lo, hi;
    }

    /** The step is a nice number of which the range takes less than 1.5 times as many as ticks are asked for; at least 0.6
        times as many, unless `tickDecimals` forbids so small a step; and a multiple of what the labels show. */
    method SetupTickGeneration()
      requires min < max && options.noTicks > 0.0
      modifies `tickDecimals, `tickSize
      ensures && tickDecimals >= 0
              && (options.tickDecimals.Some? ==> tickDecimals == if options.tickDecimals.value > 0 then options.tickDecimals.value else 0)
              && (StepGiven(options) ==> tickSize == options.tickSize.value)
              && (!StepGiven(options) ==>
                    FewEnough(max - min, options.noTicks, tickSize) && (options.minTickSize.Some? ==> tickSize >= options.minTickSize.value))
              && (!StepGiven(options) ==> IsNice(tickSize) || Some(tickSize) == options.minTickSize)
              && (!StepGiven(options) && options.tickDecimals.None? ==>
                    Picked(Ratio(max - min, options.noTicks), options.minTickSize, tickSize))
              && (Free(options) ==> IsNice(tickSize) && IsMultiple(tickSize, Pow10(-tickDecimals)))
              && (Free(options) && options.tickDecimals.None? ==>
                    var delta := Ratio(max - min, options.noTicks);
                    Nearest(delta, tickSize) <==> !Odd(delta))
              && (Free(options) && options.tickDecimals.None? ==>
                    Shows(Ratio(max - min, options.noTicks), tickSize, tickDecimals))
              && (Free(options) ==> (ManyEnough(max - min, options.noTicks, tickSize) <==>
                    options.tickDecimals.None? || ManyEnough(max - min, options.noTicks, Pow10(-options.tickDecimals.value))))
    {
      hide Ratio, IsMultiple, IsNice, FewEnough, ManyEnough, Times, Pow10, Nearest, Odd, Chosen;
      hide Shows, Picked;
      var delta := Ratio(max - min, options.noTicks);
      RatioOrder(max - min, options.noTicks, 0.0);
      var maxDec := options.tickDecimals;
      var dec := -FloorLog10(delta);
      if maxDec.Some? && dec > maxDec.value {
        dec := maxDec.value;
      }
      Pow10Rises(-(-FloorLog10(delta)) + 1, -dec + 1);
      var size, decimals := Round(delta, dec, maxDec);
      if maxDec.Some? {
        Pow10Rises(-maxDec.value, -dec);
      }
      if maxDec.None? {
        ChosenIsNearest(delta, -dec, size);
      }
      ghost var at, chosen := -dec, size;
      if options.minTickSize.Some? && size < options.minTickSize.value {
        size := options.minTickSize.value;
      }
      if maxDec.None? {
        PickedFrom(delta, options.minTickSize, at, chosen, size);
      }
      dec := if maxDec.Some? then maxDec.value else decimals;
      tickDecimals := if dec > 0 then dec else 0;
      var k := PowersDivide(-tickDecimals, -decimals);
      if Free(options) {
        MultipleOfMultiple(size, Pow10(-decimals), Pow10(-tickDecimals));
        if maxDec.None? { LabelsShow(delta, -at, size, decimals, tickDecimals); }
      }
      tickSize := if options.tickSize.Some? && options.tickSize.value != 0.0 then options.tickSize.value else size;
      SpanInSteps(max - min, options.noTicks, size);
      if maxDec.Some? {
        SpanInSteps(max - min, options.noTicks, Pow10(-maxDec.value));
      }
    }

    /** The tick generator. */
    method Generate() returns (made: seq<real>)
      requires tickSize > 0.0
      ensures Covers(made, FloorInBase(min, tickSize), tickSize, max)
    {
      hide Times, IsMultiple, Steps, Ratio, FloorInBase;
      made := [];
      var start := FloorInBase(min, tickSize);
      var i := 0;
      var v: Option<real>, prev: Option<real> := None, None;
      ghost var bound := Steps(start, tickSize, max);
      while true
        invariant |made| == i && (i == 0 || i < bound) && (v.None? <==> i == 0)
        invariant v.Some? ==> v.value == start + Times(i - 1, tickSize)
        invariant forall j :: 0 <= j < i ==> made[j] == start + Times(j, tickSize) && made[j] < max
        decreases bound - i
      {
        prev := v;
        v := Some(start + Times(i, tickSize));
        made := made + [v.value];
        Closer(start, tickSize, max, bound, i);
        i := i + 1;
        if !(v.value < max && v != prev) {
          break;
        }
      }
    }

    /** Ticks and their texts: those given, or those generated; what has no text gets the formatted number. */
    method SetTicks()
      requires options.given.None? ==> tickSize > 0.0
      modifies `ticks
      ensures options.given.Some? ==> |ticks| == |options.given.value| && forall i :: 0 <= i < |ticks| ==>
                var given := options.given.value[i];
                ticks[i] == Tick(given.at, if given.text.Some? then given.text.value else tickFormatter(given.at, tickDecimals))
      ensures options.given.None? ==> Covers(Values(ticks), FloorInBase(min, tickSize), tickSize, max)
      ensures options.given.None? ==> forall i :: 0 <= i < |ticks| ==> ticks[i].text == tickFormatter(ticks[i].v, tickDecimals)
    {
      hide FloorInBase, Covers;
      var oticks: seq<Given> := [];
      ghost var made: seq<real> := [];
      if options.given.None? {
        var generated := Generate();
        made := generated;
        oticks := seq(|generated|, i requires 0 <= i < |generated| => Given(generated[i], None));
      } else {
        oticks := options.given.value;
      }
      ticks := [];
      for i := 0 to |oticks|
        invariant |ticks| == i && forall j :: 0 <= j < i ==>
            ticks[j] == Tick(oticks[j].at, if oticks[j].text.Some? then oticks[j].text.value else tickFormatter(oticks[j].at, tickDecimals))
      {
        var v, text := oticks[i].at, oticks[i].text;
        if text.None? {
          text := Some(tickFormatter(v, tickDecimals));
        }
        ticks := ticks + [Tick(v, text.value)];
      }
      assert options.given.None? ==> Values(ticks) == made;
    }

    method SnapRangeToTicks()
      modifies `min, `max
      ensures var snap := Snaps(options) && ticks != [];
              && (min == if snap && options.min.None? && ticks[0].v < old(min) then ticks[0].v else old(min))
              && (max == if snap && options.max.None? && |ticks| > 1 && ticks[|ticks| - 1].v > old(max)
                         then ticks[|ticks| - 1].v else old(max))
    {
      if options.autoscaleMargin.Some? && options.autoscaleMargin.value != 0.0 && |ticks| > 0 {
        if options.min.None? {
          min := if ticks[0].v < min then ticks[0].v else min;
        }
        if options.max.None? && |ticks| > 1 {
          max := if ticks[|ticks| - 1].v > max then ticks[|ticks| - 1].v else max;
        }
      }
    }

    /** What the set-up of the grid does with one axis. With no end asked for and a positive autoscale margin the range ends
        on the first and the last tick and covers the data; no tick but the last reaches `high`, where the range ended
        before it was snapped. Ticks are whole steps, and whole in the last decimal of their labels. */
    method Setup() returns (ghost low: real, ghost high: real)
      requires Delta() == 0.0 || (Delta() > 0.0 && Leaves(OrZero(options.autoscaleMargin), Unset()))
      requires options.noTicks > 0.0 && (options.tickSize.Some? ==> options.tickSize.value >= 0.0)
      modifies this
      ensures min <= low < high <= max && (Margin(options) ==> low <= Low(options, datamin) && High(options, datamax) <= high)
      ensures Margin(options) ==> (options.min.None? && datamin.Some? ==> min <= datamin.value)
                                  && (options.max.None? && datamax.Some? ==> max >= datamax.value)
      ensures options.min.Some? ==> min == low == options.min.value
      ensures options.max.Some? && (Delta() != 0.0 || options.min.None?) ==> max == high == options.max.value
      ensures tickSize > 0.0
      ensures options.given.None? ==> Covers(Values(ticks), FloorInBase(low, tickSize), tickSize, high) && |ticks| > 1
      ensures options.given.None? ==> AllMultiples(Values(ticks), tickSize) && (Free(options) ==> AllMultiples(Values(ticks), Pow10(-tickDecimals)))
      ensures options.given.None? && options.min.None? && Snaps(options) && Margin(options) ==>
                min == ticks[0].v
      ensures options.given.None? && options.max.None? && Snaps(options) && Margin(options) ==>
                max == ticks[|ticks| - 1].v
      ensures FewEnough(high - low, options.noTicks, tickSize) || StepGiven(options)
      ensures Free(options) && options.tickDecimals.None? ==> ManyEnough(high - low, options.noTicks, tickSize)
      ensures Free(options) && options.tickDecimals.None? ==>
                Shows(Ratio(high - low, options.noTicks), tickSize, tickDecimals)
    {
      hide FewEnough, ManyEnough, Times, IsMultiple, IsNice, Pow10, OrZero, Pad, Leaves, Covers, FloorInBase, AllMultiples;
      hide Low, High, Axis.Delta, Axis.Unset, Margin, Snaps, Nearest, Odd, Shows, Ratio;
      SetRange();
      low, high := min, max;
      SetupTickGeneration();
      if !StepGiven(options) {
        PositiveStep(max - min, options.noTicks, tickSize);
      }
      SetTicks();
      if options.given.None? {
        TickEnds(Values(ticks), low, high, tickSize);
        TicksAreMultiples(Values(ticks), low, high, tickSize, tickSize);
        if Free(options) {
          TicksAreMultiples(Values(ticks), low, high, tickSize, Pow10(-tickDecimals));
        }
      }
      SnapRangeToTicks();
    }
  }

  /** How often `size` can be added to `start` before `max` is reached. */
  function Steps(start: real, size: real, max: real): nat
    requires size > 0.0
  {
    var k := Ratio(max - start, size).Floor + 2;
    if k > 0 then k else 1
  }

  lemma Closer(start: real, size: real, max: real, bound: int, i: nat)
    requires size > 0.0 && bound == Steps(start, size, max)
    ensures start + Times(i, size) < max ==> i + 1 < bound
    ensures Times(i, size) != Times(i - 1, size)
  {
    assert Times(i, size) == Times(i - 1, size) + size;
    RatioOrder(max - start, size, i as real);
    hide Ratio;
    if start + Times(i, size) < max {
      assert i as real < Ratio(max - start, size);
    }
  }

  lemma TickIsMultiple(start: real, i: int, size: real)
    requires IsMultiple(start, size)
    ensures IsMultiple(start + Times(i, size), size)
  {
    var k: int :| start == Times(k, size);
    assert Times(k, size) + Times(i, size) == Times(k + i, size) by {
      assert (k + i) as real == k as real + i as real;
    }
  }

  lemma TickEnds(ticks: seq<real>, low: real, high: real, size: real)
    requires size > 0.0 && low < high && Covers(ticks, FloorInBase(low, size), size, high)
    ensures |ticks| > 1 && ticks[0] <= low && ticks[|ticks| - 1] >= high
  {
    assert ticks[0] == FloorInBase(low, size) + Times(0, size);
  }

  lemma TicksAreMultiples(ticks: seq<real>, low: real, high: real, size: real, unit: real)
    requires size > 0.0 && Covers(ticks, FloorInBase(low, size), size, high) && (unit == size || IsMultiple(size, unit))
    ensures AllMultiples(ticks, unit)
  {
    forall i | 0 <= i < |ticks| ensures IsMultiple(ticks[i], unit) {
      TickIsMultiple(FloorInBase(low, size), i, size);
      if unit != size {
        MultipleOfMultiple(ticks[i], size, unit);
      }
    }
  }

  lemma PositiveStep(span: real, n: real, size: real)
    requires span > 0.0 && n > 0.0 && FewEnough(span, n, size)
    ensures size > 0.0
  {
    assert size <= 0.0 ==> n * size <= 0.0;
  }

  lemma SpanInSteps(span: real, n: real, size: real)
    requires n > 0.0
    ensures 3.0 * size > 2.0 * Ratio(span, n) <==> FewEnough(span, n, size)
    ensures 3.0 * size <= 5.0 * Ratio(span, n) <==> ManyEnough(span, n, size)
  {
    var delta := Ratio(span, n);
    assert delta * n == span;
    var d, e := 3.0 * size - 2.0 * delta, 5.0 * delta - 3.0 * size;
    assert d * n == 3.0 * n * size - 2.0 * span;
    assert e * n == 5.0 * span - 3.0 * n * size;
    assert d > 0.0 ==> d * n > 0.0;
    assert d <= 0.0 ==> d * n <= 0.0;
    assert e >= 0.0 ==> e * n >= 0.0;
    assert e < 0.0 ==> e * n < 0.0;
  }
}
