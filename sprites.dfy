/**
 * What the two Space Invaders games share: positions as screen points,
 * the starting formation, the player's choice of target, the march of the
 * formation, the inclusive hit boxes of `check_collisions` and the bullet
 * loop built on them, the bullet list comprehensions, Python's
 * `list.remove`, the `max(lo, min(v, hi))` clamp,
 * and the pictures `draw` builds from rectangles and single pixels, with
 * the two loops that draw them.
 */
module Sprites {
  import opened Wrappers
  import opened Pixels
  import opened Driver
  import opened Bresenham

  /** Python's `max(lo, min(v, hi))`. */
  function Clamp(v: int, lo: int, hi: int): (r: int)
    requires lo <= hi
    ensures lo <= r <= hi
    ensures lo <= v <= hi ==> r == v
    ensures v < lo ==> r == lo
    ensures v > hi ==> r == hi
  {
    var m := if v < hi then v else hi;
    if lo < m then m else lo
  }

  /** `cx <= p.x <= cx + w and cy <= p.y <= cy + h`: both edges included. */
  predicate InBox(p: Point, corner: Point, w: int, h: int)
  {
    corner.x <= p.x <= corner.x + w && corner.y <= p.y <= corner.y + h
  }

  /** `[(x, y - speed) for x, y in bullets if y > 0]`. */
  function Rise(bullets: seq<Point>, speed: int): (r: seq<Point>)
    ensures |r| <= |bullets|
  {
    if bullets == [] then []
    else
      var b := bullets[0];
      (if b.y > 0 then [Point(b.x, b.y - speed)] else []) + Rise(bullets[1..], speed)
  }

  /** `[(x, y + speed) for x, y in bullets if y < screen_height]`. */
  function Fall(bullets: seq<Point>, speed: int): (r: seq<Point>)
    ensures |r| <= |bullets|
  {
    if bullets == [] then []
    else
      var b := bullets[0];
      (if b.y < Height then [Point(b.x, b.y + speed)] else []) + Fall(bullets[1..], speed)
  }

  /** A bullet survives the move exactly when it was above row 0, and it moves up by `speed`. */
  lemma {:induction false} RiseMembers(bullets: seq<Point>, speed: int, p: Point)
    ensures p in Rise(bullets, speed) <==> exists i :: 0 <= i < |bullets| && bullets[i].y > 0 && p == Point(bullets[i].x, bullets[i].y - speed)
  {
    if bullets != [] {
      RiseMembers(bullets[1..], speed, p);
      if exists i :: 0 <= i < |bullets| && bullets[i].y > 0 && p == Point(bullets[i].x, bullets[i].y - speed) {
        var i :| 0 <= i < |bullets| && bullets[i].y > 0 && p == Point(bullets[i].x, bullets[i].y - speed);
        if i > 0 {
          assert bullets[1..][i - 1] == bullets[i];
        }
      }
      if p in Rise(bullets[1..], speed) {
        var i :| 0 <= i < |bullets[1..]| && bullets[1..][i].y > 0 && p == Point(bullets[1..][i].x, bullets[1..][i].y - speed);
        assert bullets[i + 1] == bullets[1..][i];
      }
    }
  }

  /** A bullet survives the move exactly when it was above the bottom edge, and it moves down by `speed`. */
  lemma {:induction false} FallMembers(bullets: seq<Point>, speed: int, p: Point)
    ensures p in Fall(bullets, speed) <==> exists i :: 0 <= i < |bullets| && bullets[i].y < Height && p == Point(bullets[i].x, bullets[i].y + speed)
  {
    if bullets != [] {
      FallMembers(bullets[1..], speed, p);
      if exists i :: 0 <= i < |bullets| && bullets[i].y < Height && p == Point(bullets[i].x, bullets[i].y + speed) {
        var i :| 0 <= i < |bullets| && bullets[i].y < Height && p == Point(bullets[i].x, bullets[i].y + speed);
        if i > 0 {
          assert bullets[1..][i - 1] == bullets[i];
        }
      }
      if p in Fall(bullets[1..], speed) {
        var i :| 0 <= i < |bullets[1..]| && bullets[1..][i].y < Height && p == Point(bullets[1..][i].x, bullets[1..][i].y + speed);
        assert bullets[i + 1] == bullets[1..][i];
      }
    }
  }

  /** The index of the first box (corner, w, h) that holds p, as the `for ... break` search finds it. */
  function FirstHit(corners: seq<Point>, p: Point, w: int, h: int): (r: Option<nat>)
    ensures r.Some? ==> r.value < |corners| && InBox(p, corners[r.value], w, h) &&
                        forall k :: 0 <= k < r.value ==> !InBox(p, corners[k], w, h)
    ensures r.None? ==> forall k :: 0 <= k < |corners| ==> !InBox(p, corners[k], w, h)
  {
    if corners == [] then None
    else if InBox(p, corners[0], w, h) then Some(0)
    else match FirstHit(corners[1..], p, w, h)
      case None => None
      case Some(j) => Some(j + 1)
  }

  /** The first box that holds p is the one a scan from the front stops at. */
  lemma FirstHitAt(corners: seq<Point>, p: Point, w: int, h: int, j: nat)
    requires j < |corners| && InBox(p, corners[j], w, h)
    requires forall k :: 0 <= k < j ==> !InBox(p, corners[k], w, h)
    ensures FirstHit(corners, p, w, h) == Some(j)
  {
  }

  /** Python's `list.remove(v)`: the first element equal to v goes. */
  function RemoveValue<T(==)>(s: seq<T>, v: T): (r: seq<T>)
    requires v in s
    ensures |r| == |s| - 1
    ensures multiset(r) == multiset(s) - multiset{v}
  {
    assert s == [s[0]] + s[1..];
    if s[0] == v then s[1..]
    else [s[0]] + RemoveValue(s[1..], v)
  }

  /** Removing the value of an element no earlier element equals removes that element. */
  lemma {:induction false} RemoveFirst<T>(s: seq<T>, j: nat)
    requires j < |s| && s[j] !in s[..j]
    ensures RemoveValue(s, s[j]) == s[..j] + s[j + 1..]
  {
    if j > 0 {
      var t := s[1..];
      FirstInTail(s, j);
      RemoveFirst(t, j - 1);
      RemoveSkip(s, s[j]);
      Splice(s, j);
    }
  }

  /** s without element j is its head followed by its tail without element j - 1. */
  lemma Splice<T>(s: seq<T>, j: nat)
    requires 0 < j < |s|
    ensures [s[0]] + (s[1..][..j - 1] + s[1..][j..]) == s[..j] + s[j + 1..]
  {
    assert s[1..][..j - 1] == s[1..j];
    assert s[1..][j..] == s[j + 1..];
    assert s[..j] == [s[0]] + s[1..j];
  }

  /** Element j of s is element j - 1 of its tail, still with no equal element before it. */
  lemma FirstInTail<T>(s: seq<T>, j: nat)
    requires 0 < j < |s| && s[j] !in s[..j]
    ensures s[0] != s[j] && s[1..][j - 1] == s[j] && s[1..][j - 1] !in s[1..][..j - 1]
  {
    assert s[..j][0] == s[0];
    assert s[1..][..j - 1] == s[..j][1..];
  }

  /** `list.remove` passes over a first element that differs from v. */
  lemma RemoveSkip<T>(s: seq<T>, v: T)
    requires v in s && s[0] != v
    ensures v in s[1..] && RemoveValue(s, v) == [s[0]] + RemoveValue(s[1..], v)
  {
    assert s == [s[0]] + s[1..];
  }

  /**
   * a is a subsequence of b: a can be read off b left to right, skipping
   * elements. Checked from the back, matching the last element greedily.
   */
  predicate SubSeq<T(==)>(a: seq<T>, b: seq<T>)
    decreases |b|
  {
    if a == [] then true
    else if b == [] then false
    else if a[|a| - 1] == b[|b| - 1] then SubSeq(a[..|a| - 1], b[..|b| - 1])
    else SubSeq(a, b[..|b| - 1])
  }

  lemma {:induction false} SubSeqDropLast<T>(a: seq<T>, b: seq<T>)
    requires a != [] && SubSeq(a, b)
    ensures SubSeq(a[..|a| - 1], b)
    decreases |b|
  {
    var a', b' := a[..|a| - 1], b[..|b| - 1];
    if a[|a| - 1] == b[|b| - 1] {
      if a' != [] && a'[|a'| - 1] == b[|b| - 1] {
        SubSeqDropLast(a', b');
      }
    } else {
      SubSeqDropLast(a, b');
      if a' != [] && a'[|a'| - 1] == b[|b| - 1] {
        SubSeqDropLast(a', b');
      }
    }
  }

  /** A subsequence stays one when b grows by an element, whether a takes it or not. */
  lemma SubSeqSnoc<T>(a: seq<T>, b: seq<T>, x: T)
    requires SubSeq(a, b)
    ensures SubSeq(a, b + [x]) && SubSeq(a + [x], b + [x])
  {
    assert (b + [x])[..|b|] == b;
    assert (a + [x])[..|a|] == a;
    if a != [] && a[|a| - 1] == x {
      SubSeqDropLast(a, b);
    }
  }

  lemma {:induction false} SubSeqLength<T>(a: seq<T>, b: seq<T>)
    requires SubSeq(a, b)
    ensures |a| <= |b|
    decreases |b|
  {
    if a != [] {
      if a[|a| - 1] == b[|b| - 1] {
        SubSeqLength(a[..|a| - 1], b[..|b| - 1]);
      } else {
        SubSeqLength(a, b[..|b| - 1]);
      }
    }
  }

  /** Every element of a subsequence is an element of the whole. */
  lemma {:induction false} SubSeqMembers<T>(a: seq<T>, b: seq<T>, x: T)
    requires SubSeq(a, b) && x in a
    ensures x in b
    decreases |b|
  {
    var a', b' := a[..|a| - 1], b[..|b| - 1];
    assert b == b' + [b[|b| - 1]];
    if a[|a| - 1] == b[|b| - 1] {
      assert a == a' + [a[|a| - 1]];
      if x in a' {
        SubSeqMembers(a', b', x);
      }
    } else {
      SubSeqMembers(a, b', x);
    }
  }

  /** `[(x * dx, y * dy) for y in range(rows) for x in range(cols)]`. */
  function Formation(cols: nat, rows: nat, dx: int, dy: int): (r: seq<Point>)
    ensures |r| == cols * rows
  {
    if rows == 0 then []
    else Formation(cols, rows - 1, dx, dy) + seq(cols, x => Point(x * dx, (rows - 1) * dy))
  }

  /** Row y, column x of the formation is entry y * cols + x, at (x * dx, y * dy). */
  lemma {:induction false} FormationAt(cols: nat, rows: nat, dx: int, dy: int, x: nat, y: nat)
    requires x < cols && y < rows
    ensures y * cols + x < |Formation(cols, rows, dx, dy)|
    ensures Formation(cols, rows, dx, dy)[y * cols + x] == Point(x * dx, y * dy)
  {
    MulLe(cols, y, rows - 1);
    if y < rows - 1 {
      FormationAt(cols, rows - 1, dx, dy, x, y);
    } else {
      assert |Formation(cols, rows - 1, dx, dy)| == y * cols;
    }
  }

  /** Python's key `(abs(e[0] - px), -e[1])` of a is smaller than that of b. */
  predicate KeyLess(a: Point, b: Point, px: int)
  {
    Abs(a.x - px) < Abs(b.x - px) || (Abs(a.x - px) == Abs(b.x - px) && -a.y < -b.y)
  }

  /**
   * `min(enemies, key=...)`: the invader nearest the player's column,
   * the lowest one among equally near ones, and the first in the list
   * among equal keys.
   */
  function Target(enemies: seq<Point>, px: int): (t: Point)
    requires enemies != []
    ensures t in enemies
    ensures forall k :: 0 <= k < |enemies| ==> !KeyLess(enemies[k], t, px)
    ensures exists i :: 0 <= i < |enemies| && enemies[i] == t &&
                        forall k :: 0 <= k < i ==> KeyLess(t, enemies[k], px)
  {
    var n := |enemies| - 1;
    if n == 0 then enemies[0]
    else
      var t := Target(enemies[..n], px);
      var e := enemies[n];
      assert forall k :: 0 <= k < n ==> enemies[..n][k] == enemies[k];
      if KeyLess(e, t, px) then e else t
  }

  /**
   * move_player: one step of `speed` towards the target when there is one,
   * then the clamp to [0, hi].
   */
  function Chase(px: int, enemies: seq<Point>, speed: int, hi: int): (r: int)
    requires 0 < speed && 0 <= hi
    ensures 0 <= r <= hi
    ensures enemies == [] && 0 <= px <= hi ==> r == px
    ensures enemies != [] && 0 <= px <= hi ==>
      var t := Target(enemies, px);
      (px < t.x ==> px <= r <= px + speed && (px < hi ==> px < r)) &&
      (px > t.x ==> px - speed <= r <= px && (px > 0 ==> r < px)) &&
      (px == t.x ==> r == px)
  {
    var moved :=
      if enemies == [] then px
      else
        var t := Target(enemies, px);
        if px < t.x then px + speed
        else if px > t.x then px - speed
        else px;
    Clamp(moved, 0, hi)
  }

  /** Every invader shifted by d along x. */
  function March(enemies: seq<Point>, d: int): (r: seq<Point>)
    ensures |r| == |enemies|
    ensures forall i :: 0 <= i < |r| ==> r[i] == Point(enemies[i].x + d, enemies[i].y)
  {
    seq(|enemies|, i requires 0 <= i < |enemies| => Point(enemies[i].x + d, enemies[i].y))
  }

  /** Rewriting entry i in place advances the march by one invader. */
  lemma MarchAt(enemies: seq<Point>, d: int, i: nat)
    requires i < |enemies|
    ensures (March(enemies, d)[..i] + enemies[i..])[i := Point(enemies[i].x + d, enemies[i].y)]
         == March(enemies, d)[..i + 1] + enemies[i + 1..]
  {
  }

  /** `[(ex, ey + d) for ex, ey in enemies]`. */
  function Drop(enemies: seq<Point>, d: int): (r: seq<Point>)
    ensures |r| == |enemies|
    ensures forall i :: 0 <= i < |r| ==> r[i] == Point(enemies[i].x, enemies[i].y + d)
  {
    seq(|enemies|, i requires 0 <= i < |enemies| => Point(enemies[i].x, enemies[i].y + d))
  }

  /**
   * The bullet loop of check_collisions, with w x h invader boxes: each
   * bullet in turn removes the first remaining invader whose box holds it
   * and is dropped, or is kept. Kept bullets stay in their order; every
   * bullet is either kept or takes exactly one invader with it.
   */
  function Volley(bullets: seq<Point>, enemies: seq<Point>, w: int, h: int): (r: (seq<Point>, seq<Point>))
    ensures SubSeq(r.0, bullets)
    ensures |r.0| + |enemies| == |bullets| + |r.1|
    ensures forall e :: e in r.1 ==> e in enemies
  {
    if bullets == [] then ([], enemies)
    else
      var n := |bullets| - 1;
      var (kept, left) := Volley(bullets[..n], enemies, w, h);
      var b := bullets[n];
      assert bullets[..n] + [b] == bullets;
      SubSeqSnoc(kept, bullets[..n], b);
      match FirstHit(left, b, w, h)
      case None => (kept + [b], left)
      case Some(j) =>
        DropAt(left, j);
        (kept, left[..j] + left[j + 1..])
  }

  /** Dropping element j leaves one element fewer: the original less that one element. */
  lemma DropAt<T>(s: seq<T>, j: nat)
    requires j < |s|
    ensures |s[..j] + s[j + 1..]| == |s| - 1
    ensures multiset(s[..j] + s[j + 1..]) + multiset{s[j]} == multiset(s)
    ensures forall e :: e in s[..j] + s[j + 1..] ==> e in s
  {
    assert s == s[..j] + [s[j]] + s[j + 1..];
  }

  /**
   * The invaders left are the invaders less one per hitting bullet: with
   * Volley's count, a sub-multiset of the input smaller by exactly the
   * number of bullets that were not kept.
   */
  lemma {:induction false} VolleyLeft(bullets: seq<Point>, enemies: seq<Point>, w: int, h: int)
    ensures multiset(Volley(bullets, enemies, w, h).1) <= multiset(enemies)
  {
    if bullets != [] {
      var n := |bullets| - 1;
      VolleyLeft(bullets[..n], enemies, w, h);
      VolleyLast(bullets, enemies, w, h, n);
      assert bullets[..n + 1] == bullets;
      var left := Volley(bullets[..n], enemies, w, h).1;
      match FirstHit(left, bullets[n], w, h)
      case None =>
      case Some(j) =>
        DropAt(left, j);
    }
  }

  /** Volley over one more bullet: the new bullet either hits the first invader left in its box or is kept. */
  lemma VolleyLast(bullets: seq<Point>, enemies: seq<Point>, w: int, h: int, i: int)
    requires 0 <= i < |bullets|
    ensures var (kept, left) := Volley(bullets[..i], enemies, w, h);
      Volley(bullets[..i + 1], enemies, w, h) ==
        match FirstHit(left, bullets[i], w, h)
        case None => (kept + [bullets[i]], left)
        case Some(j) => (kept, left[..j] + left[j + 1..])
  {
    assert bullets[..i + 1][..i] == bullets[..i];
  }

  /** A kept bullet lies in the box of no invader that is left. */
  lemma {:induction false} VolleyMisses(bullets: seq<Point>, enemies: seq<Point>, w: int, h: int, b: Point, e: Point)
    requires b in Volley(bullets, enemies, w, h).0 && e in Volley(bullets, enemies, w, h).1
    ensures !InBox(b, e, w, h)
  {
    var n := |bullets| - 1;
    var (kept, left) := Volley(bullets[..n], enemies, w, h);
    var last := bullets[n];
    match FirstHit(left, last, w, h)
    case None =>
      if b in kept {
        VolleyMisses(bullets[..n], enemies, w, h, b, e);
      }
    case Some(j) =>
      assert e in left by {
        assert multiset(left[..j] + left[j + 1..]) <= multiset(left) by {
          assert left == left[..j] + [left[j]] + left[j + 1..];
        }
        assert e in multiset(left[..j] + left[j + 1..]);
      }
      VolleyMisses(bullets[..n], enemies, w, h, b, e);
  }

  /** A bullet in the box of no invader finds none among what is left of them either. */
  lemma MissesLeft(left: seq<Point>, enemies: seq<Point>, w: int, h: int, b: Point)
    requires forall e :: e in left ==> e in enemies
    requires forall k :: 0 <= k < |enemies| ==> !InBox(b, enemies[k], w, h)
    ensures FirstHit(left, b, w, h).None?
  {
    forall j | 0 <= j < |left|
      ensures !InBox(b, left[j], w, h)
    {
      assert left[j] in enemies;
    }
  }

  /** A bullet in the box of no invader at all is kept. */
  lemma {:induction false} VolleySpares(bullets: seq<Point>, enemies: seq<Point>, w: int, h: int, i: nat)
    requires i < |bullets|
    requires forall k :: 0 <= k < |enemies| ==> !InBox(bullets[i], enemies[k], w, h)
    ensures bullets[i] in Volley(bullets, enemies, w, h).0
  {
    var n := |bullets| - 1;
    var front := Volley(bullets[..n], enemies, w, h);
    var kept := Volley(bullets, enemies, w, h).0;
    assert kept == front.0 || kept == front.0 + [bullets[n]];
    if i < n {
      assert bullets[..n][i] == bullets[i];
      VolleySpares(bullets[..n], enemies, w, h, i);
    } else {
      MissesLeft(front.1, enemies, w, h, bullets[n]);
    }
  }

  /**
   * One bullet of a loop that removes a hitting bullet by value from the
   * live list (`bullets.remove(bullet)`) instead of keeping the misses:
   * while the processed bullets' outcome is the keep-the-misses one
   * followed by the unprocessed bullets, removing the next bullet by value
   * when it hits removes exactly that bullet, because an equal bullet kept
   * earlier would have hit too.
   */
  lemma VolleyByValue(shots: seq<Point>, enemies: seq<Point>, w: int, h: int, i: nat)
    requires i < |shots|
    ensures shots[i] in Volley(shots[..i], enemies, w, h).0 + shots[i..]
    ensures FirstHit(Volley(shots[..i], enemies, w, h).1, shots[i], w, h).None? ==>
      Volley(shots[..i + 1], enemies, w, h).0 + shots[i + 1..] == Volley(shots[..i], enemies, w, h).0 + shots[i..]
    ensures FirstHit(Volley(shots[..i], enemies, w, h).1, shots[i], w, h).Some? ==>
      Volley(shots[..i + 1], enemies, w, h).0 + shots[i + 1..] == RemoveValue(Volley(shots[..i], enemies, w, h).0 + shots[i..], shots[i])
    ensures var left := Volley(shots[..i], enemies, w, h).1;
      match FirstHit(left, shots[i], w, h)
      case None => Volley(shots[..i + 1], enemies, w, h).1 == left
      case Some(j) => Volley(shots[..i + 1], enemies, w, h).1 == left[..j] + left[j + 1..]
  {
    var (kept, left) := Volley(shots[..i], enemies, w, h);
    var b := shots[i];
    VolleyLast(shots, enemies, w, h, i);
    var rest := kept + shots[i..];
    assert shots[i..] == [b] + shots[i + 1..];
    assert rest[|kept|] == b;
    assert rest[..|kept|] == kept;
    match FirstHit(left, b, w, h)
    case None =>
      assert kept + [b] + shots[i + 1..] == rest;
    case Some(j) =>
      assert b !in kept by {
        if b in kept {
          VolleyMisses(shots[..i], enemies, w, h, b, left[j]);
        }
      }
      RemoveFirst(rest, |kept|);
      assert rest[|kept| + 1..] == shots[i + 1..];
  }

  /** The union of the w x h rectangles with these top-left corners, drawn in order. */
  ghost function Boxes(corners: seq<Point>, w: int, h: int): iset<Point>
  {
    if corners == [] then iset{}
    else
      var c := corners[|corners| - 1];
      Boxes(corners[..|corners| - 1], w, h) + Rect(c.x, c.y, w, h)
  }

  lemma BoxesSnoc(corners: seq<Point>, w: int, h: int, i: nat)
    requires i < |corners|
    ensures Boxes(corners[..i + 1], w, h) == Boxes(corners[..i], w, h) + Rect(corners[i].x, corners[i].y, w, h)
  {
    assert corners[..i + 1][..i] == corners[..i];
  }

  /** A point is in the union exactly when one of the rectangles holds it. */
  lemma {:induction false} BoxesMembers(corners: seq<Point>, w: int, h: int, p: Point)
    ensures p in Boxes(corners, w, h) <==>
      exists i :: 0 <= i < |corners| && corners[i].x <= p.x < corners[i].x + w && corners[i].y <= p.y < corners[i].y + h
  {
    if corners != [] {
      var n := |corners| - 1;
      BoxesMembers(corners[..n], w, h, p);
      if exists i :: 0 <= i < |corners| && corners[i].x <= p.x < corners[i].x + w && corners[i].y <= p.y < corners[i].y + h {
        var i :| 0 <= i < |corners| && corners[i].x <= p.x < corners[i].x + w && corners[i].y <= p.y < corners[i].y + h;
        if i < n {
          assert corners[..n][i] == corners[i];
        }
      }
      if p in Boxes(corners[..n], w, h) {
        var i :| 0 <= i < n && corners[..n][i].x <= p.x < corners[..n][i].x + w && corners[..n][i].y <= p.y < corners[..n][i].y + h;
        assert corners[..n][i] == corners[i];
      }
    }
  }

  /** Drawing shapes in colour 1 onto a cleared screen shows exactly their on-screen part. */
  lemma PaintBlank(shape: iset<Point>)
    ensures Paint(iset{}, shape, true) == shape * Screen
  {
  }

  /** `for x, y in corners: oled.draw_rect(x, y, w, h, 1)`: the rectangles join what is already drawn. */
  method DrawBoxes(oled: Display, corners: seq<Point>, w: int, h: int, ghost base: iset<Point>)
    requires oled.Valid() && oled.Shown() == Paint(iset{}, base, true)
    modifies oled.buffer
    ensures oled.Shown() == Paint(iset{}, base + Boxes(corners, w, h), true)
  {
    var i := 0;
    while i < |corners|
      invariant 0 <= i <= |corners|
      invariant oled.Shown() == Paint(iset{}, base + Boxes(corners[..i], w, h), true)
    {
      oled.DrawRect(corners[i].x, corners[i].y, w, h, 1);
      BoxesSnoc(corners, w, h, i);
      Grow(iset{}, base + Boxes(corners[..i], w, h), Rect(corners[i].x, corners[i].y, w, h),
           base + Boxes(corners[..i + 1], w, h), true);
      i := i + 1;
    }
    assert corners[..i] == corners;
  }

  /** `for x, y in dots: oled.draw_pixel(x, y, 1)`: the pixels join what is already drawn. */
  method DrawDots(oled: Display, dots: seq<Point>, ghost base: iset<Point>)
    requires oled.Valid() && oled.Shown() == Paint(iset{}, base, true)
    modifies oled.buffer
    ensures oled.Shown() == Paint(iset{}, base + PointSet(dots), true)
  {
    var i := 0;
    while i < |dots|
      invariant 0 <= i <= |dots|
      invariant oled.Shown() == Paint(iset{}, base + PointSet(dots[..i]), true)
    {
      oled.DrawPixel(dots[i].x, dots[i].y, 1);
      PointSetSnoc(dots, i);
      Grow(iset{}, base + PointSet(dots[..i]), iset{dots[i]}, base + PointSet(dots[..i + 1]), true);
      i := i + 1;
    }
    assert dots[..i] == dots;
  }
}
