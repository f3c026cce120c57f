/** What the plotting code of jquery.flot.js reads (flat point arrays with gaps, axes) and
    what it writes: a list of path operations, and what a canvas makes of them. */
module Canvas {
  import opened Arithmetic
  import opened Clipping
  import opened Wrappers

  /** The visible data rectangle and the maps from data to canvas coordinates. */
  datatype Axes = Axes(r: Rect, px: real -> real, py: real -> real) {
    function Pixel(p: Point): Point { Point(px(p.x), py(p.y)) }
  }

  datatype Op = Begin | MoveTo(p: Point) | LineTo(p: Point) | Stroke | Fill

  class Context {
    var ops: seq<Op>

    constructor ()
      ensures ops == []
    {
      ops := [];
    }

    method Do(op: Op)
      modifies this
      ensures ops == old(ops) + [op]
    {
      ops := ops + [op];
    }
  }

  /** The pen position and the lines of the current path. */
  datatype Trace = Trace(pen: Option<Point>, lines: seq<Segment>)

  function Run(ops: seq<Op>): Trace {
    if ops == [] then Trace(None, []) else
      var t := Run(ops[..|ops| - 1]);
      match ops[|ops| - 1]
      case Begin => Trace(None, [])
      case MoveTo(p) => t.(pen := Some(p))
      case LineTo(p) =>
        if t.pen == None then t.(pen := Some(p))
        else Trace(Some(p), t.lines + [Segment(t.pen.value, p)])
      case Stroke | Fill => t
  }

  lemma RunSnoc(ops: seq<Op>, op: Op)
    ensures (ops + [op])[..|ops|] == ops && (ops + [op])[|ops|] == op
    ensures op.LineTo? && Run(ops).pen.Some? ==>
              Run(ops + [op]) == Trace(Some(op.p), Run(ops).lines + [Segment(Run(ops).pen.value, op.p)])
    ensures op.MoveTo? ==> Run(ops + [op]) == Trace(Some(op.p), Run(ops).lines)
    ensures op.Begin? ==> Run(ops + [op]) == Trace(None, [])
    ensures op.Stroke? || op.Fill? ==> Run(ops + [op]) == Run(ops)
  {
    assert (ops + [op])[..|ops|] == ops;
  }

  // ----- flat point arrays

  /** Reading past either end of a JavaScript array gives undefined. */
  function Get(points: seq<Option<real>>, j: int): Option<real> {
    if 0 <= j < |points| then points[j] else None
  }

  /** Rows of `ps` numbers; a row is null throughout or has its first `columns` numbers. */
  ghost predicate WellFormed(points: seq<Option<real>>, ps: int, columns: nat) {
    && 0 < columns <= ps && |points| % ps == 0
    && forall k: nat, c: nat :: k < |points| / ps && c < columns && Cell(points, ps, k, 0).Some? ==>
         Cell(points, ps, k, c).Some?
  }

  function Cell(points: seq<Option<real>>, ps: int, k: int, c: int): Option<real> {
    Get(points, k * ps + c)
  }

  lemma RowInside(length: nat, ps: int, k: int, c: int)
    requires 0 <= c < ps && length % ps == 0
    ensures 0 <= k * ps + c < length <==> 0 <= k < length / ps
  {
    var n := length / ps;
    assert length == n * ps;
    if k < 0 { ScaledInts(k + 1, 0, ps); assert k * ps <= -ps; }
    if 0 <= k < n { ScaledInts(k + 1, n, ps); ScaledInts(0, k, ps); }
    if k >= n { ScaledInts(n, k, ps); }
  }
}
