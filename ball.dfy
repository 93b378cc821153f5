/**
 * The BALL demo: bounce_ball moves a disc of radius `ball_size` by
 * `ball_step` pixels on each axis per frame, turning it at the screen's
 * edges, and redraws it by erasing the old disc and drawing the new one.
 *
 * The loop's four variables are one `Motion`; the endless loop runs for a
 * given number of frames.
 */
module Ball {
  import opened Pixels
  import opened Bus
  import opened Ssd1306
  import opened Shapes
  import opened Driver

  const BallStep := 3
  const BallSize := 3

  /** The ball's centre and its velocity. */
  datatype Motion = Motion(x: int, y: int, dx: int, dy: int)

  /** The ball in the middle of the screen, heading down and to the right. */
  function Start(): Motion
  {
    Motion(Width / 2, Height / 2, BallStep, BallStep)
  }

  /** The disc touches or crosses the left or right edge. */
  predicate AtSide(x: int)
  {
    x - BallSize <= 0 || x + BallSize >= Width - 1
  }

  /** The disc touches or crosses the top or bottom edge. */
  predicate AtTopOrBottom(y: int)
  {
    y - BallSize <= 0 || y + BallSize >= Height - 1
  }

  /** One frame: the centre moves by the velocity, then each component turns if the new centre is at its edges. */
  function Bounce(m: Motion): Motion
  {
    var x, y := m.x + m.dx, m.y + m.dy;
    Motion(x, y, if AtSide(x) then -m.dx else m.dx, if AtTopOrBottom(y) then -m.dy else m.dy)
  }

  /** The ball after n frames. */
  function Run(n: nat): Motion
  {
    if n == 0 then Start() else Bounce(Run(n - 1))
  }

  /** The ball always moves by a full step on both axes. */
  predicate FullSpeed(m: Motion)
  {
    (m.dx == BallStep || m.dx == -BallStep) && (m.dy == BallStep || m.dy == -BallStep)
  }

  /**
   * Where the ball can be: the centre on the lattice reached from the middle
   * of the screen, columns 1 to 124 and rows 2 to 62, heading inwards at
   * either extreme.
   */
  predicate Good(m: Motion)
  {
    FullSpeed(m) &&
    m.x % BallStep == 1 && 1 <= m.x <= 124 && (m.x == 1 ==> m.dx > 0) && (m.x == 124 ==> m.dx < 0) &&
    m.y % BallStep == 2 && 2 <= m.y <= 62 && (m.y == 2 ==> m.dy > 0) && (m.y == 62 ==> m.dy < 0)
  }

  /** A component turns exactly when the moved centre is at its edges; the ball keeps moving at full speed. */
  lemma Reflection(m: Motion)
    requires FullSpeed(m)
    ensures var n := Bounce(m);
      FullSpeed(n) && n.x == m.x + m.dx && n.y == m.y + m.dy &&
      (n.dx == -m.dx <==> AtSide(n.x)) && (n.dy == -m.dy <==> AtTopOrBottom(n.y))
  {
  }

  /** A frame keeps the ball where it can be. */
  lemma BounceGood(m: Motion)
    requires Good(m)
    ensures Good(Bounce(m))
  {
  }

  /** Every frame the ball's centre is on the screen and the ball moves at full speed. */
  lemma {:induction false} RunGood(n: nat)
    ensures Good(Run(n))
    ensures OnScreen(Point(Run(n).x, Run(n).y))
  {
    if n > 0 {
      RunGood(n - 1);
      BounceGood(Run(n - 1));
    }
  }

  /**
   * bounce_ball for `frames` frames from a blank screen: each frame erases
   * the disc at the old centre, moves and turns the ball, draws the disc at
   * the new centre and flushes, so the screen shows the ball's disc alone.
   */
  method BounceBall(oled: Display, frames: nat) returns (ok: bool)
    requires oled.Valid() && oled.Shown() == iset{}
    modifies oled.buffer, oled.link.bus
    ensures ok && frames > 0 ==> oled.Shown() == Disc(Run(frames).x, Run(frames).y, BallSize) * Screen
  {
    var x, y := Width / 2, Height / 2;
    var dx, dy := BallStep, BallStep;
    ok := true;
    var i := 0;
    while i < frames
      invariant 0 <= i <= frames && Motion(x, y, dx, dy) == Run(i)
      invariant oled.Valid()
      invariant oled.Shown() - Disc(x, y, BallSize) == iset{}
      invariant i > 0 ==> oled.Shown() == Disc(x, y, BallSize) * Screen
    {
      oled.DrawBall(x, y, BallSize, 0);
      assert oled.Shown() == iset{};
      x := x + dx;
      y := y + dy;
      if x - BallSize <= 0 || x + BallSize >= Width - 1 {
        dx := dx * -1;
      }
      if y - BallSize <= 0 || y + BallSize >= Height - 1 {
        dy := dy * -1;
      }
      oled.DrawBall(x, y, BallSize, 1);
      ok := oled.UpdateDisplay();
      if !ok {
        return;
      }
      i := i + 1;
    }
  }
}
