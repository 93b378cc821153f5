/**
 * The filled disc of the bouncing-ball driver: draw_ball(x, y, r) visits
 * offsets i, j in [-r, r] and draws (x + i, y + j) when i^2 + j^2 <= r^2.
 */
module Shapes {
  import opened Pixels

  /** draw_ball's test `i**2 + j**2 <= size**2`. */
  predicate InCircle(i: int, j: int, r: int)
  {
    i * i + j * j <= r * r
  }

  ghost predicate InDisc(x: int, y: int, r: int, p: Point)
  {
    var i, j := p.x - x, p.y - y;
    -r <= i <= r && -r <= j <= r && InCircle(i, j, r)
  }

  ghost function Disc(x: int, y: int, r: int): iset<Point>
  {
    iset p | InDisc(x, y, r, p)
  }

  /** The disc points draw_ball has visited before offset (i, j), row-major in i. */
  ghost function DiscDone(x: int, y: int, r: int, i: int, j: int): iset<Point>
  {
    iset p | InDisc(x, y, r, p) && (p.x - x < i || (p.x - x == i && p.y - y < j))
  }

  /** Offset (i, j) adds its point exactly when it passes the circle test. */
  lemma DiscStep(x: int, y: int, r: int, i: int, j: int)
    requires -r <= i <= r && -r <= j <= r
    ensures InCircle(i, j, r) ==>
      DiscDone(x, y, r, i, j) + iset{Point(x + i, y + j)} == DiscDone(x, y, r, i, j + 1)
    ensures !InCircle(i, j, r) ==> DiscDone(x, y, r, i, j) == DiscDone(x, y, r, i, j + 1)
  {
    assert InDisc(x, y, r, Point(x + i, y + j)) <==> InCircle(i, j, r);
  }

  lemma DiscRow(x: int, y: int, r: int, i: int)
    ensures DiscDone(x, y, r, i, r + 1) == DiscDone(x, y, r, i + 1, -r)
  {
  }

  lemma DiscStart(x: int, y: int, r: int)
    ensures DiscDone(x, y, r, -r, -r) == iset{}
  {
  }

  /** After the last row the whole disc is drawn; for a negative radius there is none. */
  lemma DiscAll(x: int, y: int, r: int, i: int)
    requires i == r + 1 || (r < 0 && i == -r)
    ensures DiscDone(x, y, r, i, -r) == Disc(x, y, r)
  {
  }

  /** The circle test in terms of the distance from the centre: the box bound follows from it. */
  lemma DiscIsCircle(x: int, y: int, r: int, p: Point)
    requires r >= 0
    ensures InDisc(x, y, r, p) <==> (p.x - x) * (p.x - x) + (p.y - y) * (p.y - y) <= r * r
  {
    var i, j := p.x - x, p.y - y;
    if i * i + j * j <= r * r {
      SquareBound(i, r, j * j);
      SquareBound(j, r, i * i);
    }
  }

  lemma SquareBound(i: int, r: int, rest: int)
    requires r >= 0 && rest >= 0 && i * i + rest <= r * r
    ensures -r <= i <= r
  {
    if i > r {
      MulStrict(r, i);
    } else if i < -r {
      MulStrict(r, -i);
    }
  }

  lemma MulStrict(a: int, b: int)
    requires 0 <= a < b
    ensures a * a < b * b
  {
    assert b * b - a * a == (b - a) * (b + a);
  }

  /**
   * Drawing the disc in colour 0 where colour 1 drew it clears exactly the
   * disc: bounce_ball's erase restores everything outside it.
   */
  lemma EraseDisc(lit: iset<Point>, x: int, y: int, r: int)
    ensures Paint(Paint(lit, Disc(x, y, r), true), Disc(x, y, r), false) == lit - Disc(x, y, r)
    ensures Paint(lit, Disc(x, y, r), true) - Paint(lit, Disc(x, y, r), false) == Disc(x, y, r) * Screen
  {
  }
}
