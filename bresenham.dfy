/**
 * The integer Bresenham loop shared by `OLED.draw_line` and
 * `draw_line_in_buffer`. `LinePoints` is the sequence of points the loop
 * plots, in order; the drawing methods are proved to plot exactly these.
 *
 * The loop keeps the error term `err` tied to how far the cursor still is
 * from the end point: with `a` and `b` the remaining distances along x and
 * y, `err == dy*a - dx*b + dx - dy`, and `2*(dy*a - dx*b)` never leaves
 * [-max(dx,dy), max(dx,dy)]. From this the cursor never overshoots, and
 * every pass brings it exactly one step closer in the Chebyshev distance.
 */
module Bresenham {
  import opened Pixels

  function Abs(n: int): (r: nat)
    ensures r == n || r == -n
  {
    if n < 0 then -n else n
  }

  function Max(a: int, b: int): (m: int)
    ensures m >= a && m >= b && (m == a || m == b)
  {
    if a < b then b else a
  }

  /** What draw_line fixes before the loop: the end point, dx, dy, sx and sy. */
  datatype Line = Line(x1: int, y1: int, dx: int, dy: int, sx: int, sy: int)

  /** The loop variables: the cursor and the error term. */
  datatype Cursor = Cursor(x: int, y: int, err: int)

  function Setup(x0: int, y0: int, x1: int, y1: int): Line
  {
    Line(x1, y1, Abs(x1 - x0), Abs(y1 - y0),
         if x0 < x1 then 1 else -1, if y0 < y1 then 1 else -1)
  }

  function Start(x0: int, y0: int, x1: int, y1: int): Cursor
  {
    Cursor(x0, y0, Abs(x1 - x0) - Abs(y1 - y0))
  }

  /** Distance still to go from `pos` to `target` in direction `s`. */
  function Remaining(target: int, pos: int, s: int): int
  {
    if s == 1 then target - pos else pos - target
  }

  function A(l: Line, c: Cursor): int { Remaining(l.x1, c.x, l.sx) }
  function B(l: Line, c: Cursor): int { Remaining(l.y1, c.y, l.sy) }

  /** The loop invariant, with D = dy*a - dx*b. */
  ghost predicate Inv(l: Line, c: Cursor)
  {
    l.dx >= 0 && l.dy >= 0 && (l.sx == 1 || l.sx == -1) && (l.sy == 1 || l.sy == -1) &&
    0 <= A(l, c) <= l.dx && 0 <= B(l, c) <= l.dy &&
    c.err == l.dy * A(l, c) - l.dx * B(l, c) + l.dx - l.dy &&
    -Max(l.dx, l.dy) <= 2 * (l.dy * A(l, c) - l.dx * B(l, c)) <= Max(l.dx, l.dy)
  }

  /** The loop's exit test. */
  predicate AtEnd(l: Line, c: Cursor)
  {
    c.x == l.x1 && c.y == l.y1
  }

  /** One pass of the loop after the plot: the x half-step, then the y half-step, both decided by the same e2. */
  function Step(l: Line, c: Cursor): Cursor
  {
    var e2 := c.err * 2;
    var err1 := if e2 > -l.dy then c.err - l.dy else c.err;
    var x := if e2 > -l.dy then c.x + l.sx else c.x;
    var err2 := if e2 < l.dx then err1 + l.dx else err1;
    var y := if e2 < l.dx then c.y + l.sy else c.y;
    Cursor(x, y, err2)
  }

  /** The second half of the loop body of draw_line, after the plot: `Step` on the loop's own variables. */
  method StepCursor(l: Line, x: int, y: int, err: int) returns (x': int, y': int, err': int)
    ensures Cursor(x', y', err') == Step(l, Cursor(x, y, err))
  {
    x', y', err' := x, y, err;
    var e2 := err * 2;
    if e2 > -l.dy {
      err' := err' - l.dy;
      x' := x' + l.sx;
    }
    if e2 < l.dx {
      err' := err' + l.dx;
      y' := y' + l.sy;
    }
  }

  /** How many more points the loop plots after this one. */
  function Measure(l: Line, c: Cursor): int
  {
    Max(A(l, c), B(l, c))
  }

  lemma MulLe(k: int, m: int, n: int)
    requires 0 <= k && m <= n
    ensures k * m <= k * n
  {
  }

  /*
   * The arithmetic core: which half-steps fire, read off the remaining
   * distances a and b. The larger distance always shrinks, and a distance
   * that is already 0 never does.
   */

  lemma XStepsWhenAhead(dx: int, dy: int, a: int, b: int)
    requires 0 <= dx && 0 <= dy && 0 < a <= dx && 0 <= b <= a
    requires -Max(dx, dy) <= 2 * (dy * a - dx * b)
    ensures 2 * (dy * a - dx * b) > dy - 2 * dx
  {
    MulLe(dx, b, a);
    if dy >= dx {
      MulLe(dy - dx, 1, a);
      assert (dy - dx) * a == dy * a - dx * a;
    }
  }

  lemma YStepsWhenAhead(dx: int, dy: int, a: int, b: int)
    requires 0 <= dx && 0 <= dy && 0 < b <= dy && 0 <= a <= b
    requires 2 * (dy * a - dx * b) <= Max(dx, dy)
    ensures 2 * (dy * a - dx * b) < 2 * dy - dx
  {
    MulLe(dy, a, b);
    if dx >= dy {
      MulLe(dx - dy, 1, b);
      assert (dx - dy) * b == dx * b - dy * b;
    }
  }

  lemma NoXStepAtColumn(dx: int, dy: int, b: int)
    requires 0 <= dx && 0 < b <= dy
    ensures 2 * (dy * 0 - dx * b) <= dy - 2 * dx
  {
    MulLe(dx, 1, b);
  }

  lemma NoYStepAtRow(dx: int, dy: int, a: int)
    requires 0 <= dy && 0 < a <= dx
    ensures 2 * (dy * a - dx * 0) >= 2 * dy - dx
  {
    MulLe(dy, 1, a);
  }

  /** A pass that is not the last keeps the invariant and takes one step. */
  lemma StepKeepsInv(l: Line, c: Cursor)
    requires Inv(l, c) && !AtEnd(l, c)
    ensures Inv(l, Step(l, c))
    ensures Measure(l, Step(l, c)) == Measure(l, c) - 1
  {
    var dx, dy, a, b := l.dx, l.dy, A(l, c), B(l, c);
    var d := dy * a - dx * b;
    assert a > 0 || b > 0;
    if a >= b { XStepsWhenAhead(dx, dy, a, b); }
    if b >= a { YStepsWhenAhead(dx, dy, a, b); }
    if a == 0 { NoXStepAtColumn(dx, dy, b); }
    if b == 0 { NoYStepAtRow(dx, dy, a); }
    var xs, ys := 2 * d > dy - 2 * dx, 2 * d < 2 * dy - dx;
    var n := Step(l, c);
    var a', b' := if xs then a - 1 else a, if ys then b - 1 else b;
    assert A(l, n) == a' && B(l, n) == b';
    var d' := d - (if xs then dy else 0) + (if ys then dx else 0);
    assert n.err == d' + dx - dy;
    ShiftProducts(dx, dy, a, b, xs, ys);
    assert dy * a' - dx * b' == d';
  }

  lemma ShiftProducts(dx: int, dy: int, a: int, b: int, xs: bool, ys: bool)
    ensures dy * (if xs then a - 1 else a) - dx * (if ys then b - 1 else b)
         == dy * a - dx * b - (if xs then dy else 0) + (if ys then dx else 0)
  {
  }

  /** The points the loop plots from cursor c on, in order. */
  function Trace(l: Line, c: Cursor): (pts: seq<Point>)
    requires Inv(l, c)
    ensures |pts| == Measure(l, c) + 1
    ensures pts[0] == Point(c.x, c.y)
    ensures pts[|pts| - 1] == Point(l.x1, l.y1)
    decreases Measure(l, c)
  {
    if AtEnd(l, c) then [Point(c.x, c.y)]
    else
      StepKeepsInv(l, c);
      [Point(c.x, c.y)] + Trace(l, Step(l, c))
  }

  /** The loop's cursors from c on: the state at the top of each pass. */
  ghost function Cursors(l: Line, c: Cursor): (cs: seq<Cursor>)
    requires Inv(l, c)
    ensures |cs| == |Trace(l, c)| && cs[0] == c
    decreases Measure(l, c)
  {
    if AtEnd(l, c) then [c]
    else
      StepKeepsInv(l, c);
      [c] + Cursors(l, Step(l, c))
  }

  /**
   * Pass i of the loop plots point i of the trace; it is the last pass
   * exactly when its cursor is at the end point, and otherwise pass i + 1
   * starts from the stepped cursor.
   */
  lemma {:induction false} CursorsTrace(l: Line, c: Cursor, i: nat)
    requires Inv(l, c) && i < |Cursors(l, c)|
    ensures Trace(l, c)[i] == Point(Cursors(l, c)[i].x, Cursors(l, c)[i].y)
    ensures AtEnd(l, Cursors(l, c)[i]) <==> i == |Cursors(l, c)| - 1
    ensures i + 1 < |Cursors(l, c)| ==> Cursors(l, c)[i + 1] == Step(l, Cursors(l, c)[i])
    decreases Measure(l, c)
  {
    if !AtEnd(l, c) {
      StepKeepsInv(l, c);
      if i > 0 {
        CursorsTrace(l, Step(l, c), i - 1);
      }
    }
  }

  /** The cursors of draw_line(x0, y0, x1, y1). */
  ghost function LineCursors(x0: int, y0: int, x1: int, y1: int): (cs: seq<Cursor>)
    ensures |cs| == |LinePoints(x0, y0, x1, y1)|
  {
    StartInv(x0, y0, x1, y1);
    Cursors(Setup(x0, y0, x1, y1), Start(x0, y0, x1, y1))
  }

  lemma LinePass(x0: int, y0: int, x1: int, y1: int, i: nat)
    requires i < |LineCursors(x0, y0, x1, y1)|
    ensures var cs, l := LineCursors(x0, y0, x1, y1), Setup(x0, y0, x1, y1);
      LinePoints(x0, y0, x1, y1)[i] == Point(cs[i].x, cs[i].y) &&
      (AtEnd(l, cs[i]) <==> i == |cs| - 1) &&
      (i + 1 < |cs| ==> cs[i + 1] == Step(l, cs[i])) &&
      (i == 0 ==> cs[0] == Start(x0, y0, x1, y1))
  {
    StartInv(x0, y0, x1, y1);
    CursorsTrace(Setup(x0, y0, x1, y1), Start(x0, y0, x1, y1), i);
  }

  lemma StartInv(x0: int, y0: int, x1: int, y1: int)
    ensures Inv(Setup(x0, y0, x1, y1), Start(x0, y0, x1, y1))
  {
  }

  /** Every point draw_line(x0, y0, x1, y1) plots, in plotting order. */
  function LinePoints(x0: int, y0: int, x1: int, y1: int): (pts: seq<Point>)
    ensures |pts| == Max(Abs(x1 - x0), Abs(y1 - y0)) + 1
    ensures pts[0] == Point(x0, y0) && pts[|pts| - 1] == Point(x1, y1)
  {
    StartInv(x0, y0, x1, y1);
    Trace(Setup(x0, y0, x1, y1), Start(x0, y0, x1, y1))
  }

  /** Chebyshev distance from p to the end point. */
  function ToEnd(l: Line, p: Point): int
  {
    Max(Abs(l.x1 - p.x), Abs(l.y1 - p.y))
  }

  /**
   * Along the trace the distance to the end point drops by exactly one per
   * point, and each move is 0 or sx along x and 0 or sy along y, never both 0.
   */
  lemma {:induction false} TraceSteps(l: Line, c: Cursor, i: nat)
    requires Inv(l, c) && i < |Trace(l, c)|
    ensures ToEnd(l, Trace(l, c)[i]) == Measure(l, c) - i
    ensures i + 1 < |Trace(l, c)| ==>
      var p, q := Trace(l, c)[i], Trace(l, c)[i + 1];
      (q.x == p.x || q.x == p.x + l.sx) && (q.y == p.y || q.y == p.y + l.sy) && p != q
    decreases Measure(l, c)
  {
    if !AtEnd(l, c) {
      StepKeepsInv(l, c);
      var n := Step(l, c);
      if i > 0 {
        TraceSteps(l, n, i - 1);
      } else {
        TraceSteps(l, n, 0);
      }
    }
  }

  /** The line plots max(dx, dy) + 1 pairwise distinct points. */
  lemma LineDistinct(x0: int, y0: int, x1: int, y1: int, i: nat, j: nat)
    requires i < j < |LinePoints(x0, y0, x1, y1)|
    ensures LinePoints(x0, y0, x1, y1)[i] != LinePoints(x0, y0, x1, y1)[j]
  {
    var l, c := Setup(x0, y0, x1, y1), Start(x0, y0, x1, y1);
    StartInv(x0, y0, x1, y1);
    TraceSteps(l, c, i);
    TraceSteps(l, c, j);
  }

  /** Consecutive points move by 0 or sx along x and 0 or sy along y, never by nothing. */
  lemma LineMoves(x0: int, y0: int, x1: int, y1: int, i: nat)
    requires i + 1 < |LinePoints(x0, y0, x1, y1)|
    ensures
      var l, p, q := Setup(x0, y0, x1, y1), LinePoints(x0, y0, x1, y1)[i], LinePoints(x0, y0, x1, y1)[i + 1];
      (q.x == p.x || q.x == p.x + l.sx) && (q.y == p.y || q.y == p.y + l.sy) && p != q
  {
    StartInv(x0, y0, x1, y1);
    TraceSteps(Setup(x0, y0, x1, y1), Start(x0, y0, x1, y1), i);
  }

  /** A degenerate line is its single point. */
  lemma DegenerateLine(x: int, y: int)
    ensures LinePoints(x, y, x, y) == [Point(x, y)]
  {
  }
}
