/**
 * `PongGame` of the PONG demo: two paddles that follow the ball by
 * themselves and a ball that bounces off the top and bottom edges and off
 * the paddles, and restarts from the centre when a paddle misses it.
 *
 * The fields are the object's state and `State()` reads them into a
 * `Court`. Each `random.choice([-1, 1])` is a parameter: `up` (and `up2`
 * for the second draw of `reset_ball`) choose +1 when true and -1 when
 * false.
 */
module Pong {
  import opened Pixels
  import opened Bus
  import opened Ssd1306
  import opened Driver
  import opened Sprites

  const PaddleWidth := 2
  const PaddleHeight := 12
  const BallSize := 2
  const PaddleSpeed := 8
  const BallSpeed := 5
  /** The lowest top row a paddle may have. */
  const PaddleMax := Height - PaddleHeight

  /** The game's fields, as one value. */
  datatype Court = Court(paddle1Y: int, paddle2Y: int, ballX: int, ballY: int, ballDx: int, ballDy: int)

  /** `random.choice([-1, 1])`. */
  function Sign(up: bool): (s: int)
    ensures s == 1 || s == -1
    ensures s > 0 <==> up
  {
    if up then 1 else -1
  }

  /** `__init__`: both paddles centred, the ball in the middle heading diagonally. */
  function Kickoff(up: bool, up2: bool): Court
  {
    Court((Height - PaddleHeight) / 2, (Height - PaddleHeight) / 2,
          Width / 2, Height / 2, Sign(up) * BallSpeed, Sign(up2) * BallSpeed)
  }

  /** reset_ball: the ball back in the middle with new random directions; the paddles stay. */
  function Reset(c: Court, up: bool, up2: bool): Court
  {
    c.(ballX := Width / 2, ballY := Height / 2, ballDx := Sign(up) * BallSpeed, ballDy := Sign(up2) * BallSpeed)
  }

  /**
   * paddle_ai: a step of `paddle_speed` towards the ball's row from the
   * paddle's middle, then the clamp to the screen.
   */
  function Follow(paddleY: int, ballY: int): (r: int)
    ensures 0 <= r <= PaddleMax
    ensures 0 <= paddleY <= PaddleMax ==>
      (paddleY + PaddleHeight / 2 < ballY ==> paddleY <= r <= paddleY + PaddleSpeed && (paddleY < PaddleMax ==> paddleY < r)) &&
      (paddleY + PaddleHeight / 2 > ballY ==> paddleY - PaddleSpeed <= r <= paddleY && (paddleY > 0 ==> r < paddleY)) &&
      (paddleY + PaddleHeight / 2 == ballY ==> r == paddleY)
  {
    var moved :=
      if paddleY + PaddleHeight / 2 < ballY then paddleY + PaddleSpeed
      else if paddleY + PaddleHeight / 2 > ballY then paddleY - PaddleSpeed
      else paddleY;
    Clamp(moved, 0, PaddleMax)
  }

  /** The ball's row is within the paddle's rows, both ends included. */
  predicate Meets(paddleY: int, ballY: int)
  {
    paddleY <= ballY <= paddleY + PaddleHeight
  }

  /** The first half of update: the ball moves, and turns at the top and bottom edges. */
  function Moved(c: Court): Court
  {
    var y := c.ballY + c.ballDy;
    c.(ballX := c.ballX + c.ballDx, ballY := y,
       ballDy := if y <= 0 || y >= Height - BallSize then -c.ballDy else c.ballDy)
  }

  /**
   * The check at one paddle's column: a paddle that meets the ball sends it
   * back with a fresh random vertical direction; a paddle that misses it
   * has the ball reset.
   */
  function AtPaddle(c: Court, paddleY: int, up: bool, up2: bool): Court
  {
    if Meets(paddleY, c.ballY) then c.(ballDx := -c.ballDx, ballDy := Sign(up) * BallSpeed)
    else Reset(c, up, up2)
  }

  function LeftEnd(c: Court, up: bool, up2: bool): Court
  {
    if c.ballX <= PaddleWidth then AtPaddle(c, c.paddle1Y, up, up2) else c
  }

  function RightEnd(c: Court, up: bool, up2: bool): Court
  {
    if c.ballX >= Width - PaddleWidth - BallSize then AtPaddle(c, c.paddle2Y, up, up2) else c
  }

  /** The last part of update: the paddle the ball heads for follows it. */
  function Chased(c: Court): Court
  {
    if c.ballDx < 0 then c.(paddle1Y := Follow(c.paddle1Y, c.ballY))
    else c.(paddle2Y := Follow(c.paddle2Y, c.ballY))
  }

  /** update. */
  function Play(c: Court, up: bool, up2: bool): Court
  {
    Chased(RightEnd(LeftEnd(Moved(c), up, up2), up, up2))
  }

  /** What every frame keeps: paddles on screen and the ball at full speed on both axes. */
  predicate Good(c: Court)
  {
    0 <= c.paddle1Y <= PaddleMax && 0 <= c.paddle2Y <= PaddleMax &&
    (c.ballDx == BallSpeed || c.ballDx == -BallSpeed) &&
    (c.ballDy == BallSpeed || c.ballDy == -BallSpeed)
  }

  lemma KickoffGood(up: bool, up2: bool)
    ensures Good(Kickoff(up, up2))
    ensures Kickoff(up, up2).paddle1Y == 26 && Kickoff(up, up2).ballX == 64 && Kickoff(up, up2).ballY == 32
  {
  }

  /**
   * update keeps Good; only the paddle the ball now heads for can move;
   * and the ball either moved by its old velocity or restarted from the
   * centre.
   */
  lemma PlayGood(c: Court, up: bool, up2: bool)
    requires Good(c)
    ensures var n := Play(c, up, up2);
      Good(n) &&
      (n.ballDx < 0 ==> n.paddle2Y == c.paddle2Y) &&
      (n.ballDx > 0 ==> n.paddle1Y == c.paddle1Y) &&
      ((n.ballX, n.ballY) == (c.ballX + c.ballDx, c.ballY + c.ballDy) || (n.ballX, n.ballY) == (Width / 2, Height / 2))
  {
    var m := Moved(c);
    assert Good(m);
    var l := LeftEnd(m, up, up2);
    assert Good(l) && l.paddle1Y == c.paddle1Y && l.paddle2Y == c.paddle2Y;
    assert (l.ballX, l.ballY) == (m.ballX, m.ballY) || (l.ballX, l.ballY) == (Width / 2, Height / 2);
    var r := RightEnd(l, up, up2);
    assert Good(r) && r.paddle1Y == c.paddle1Y && r.paddle2Y == c.paddle2Y;
    assert (r.ballX, r.ballY) == (m.ballX, m.ballY) || (r.ballX, r.ballY) == (Width / 2, Height / 2);
  }

  /** At most one edge of the court acts in an update: a ball sent back or reset at the left is not handled again at the right. */
  lemma OneSideOnly(c: Court, up: bool, up2: bool)
    requires Good(c) && c.ballX + c.ballDx <= PaddleWidth
    ensures var n := Play(c, up, up2);
      n.ballX == Width / 2 || n.ballDx == -c.ballDx
  {
  }

  /** A paddle that meets the ball at its column sends it back horizontally. */
  lemma ReturnedBall(c: Court, up: bool, up2: bool)
    requires Good(c)
    requires var x := c.ballX + c.ballDx; var y := c.ballY + c.ballDy;
      (x <= PaddleWidth && Meets(c.paddle1Y, y)) ||
      (x >= Width - PaddleWidth - BallSize && Meets(c.paddle2Y, y))
    ensures Play(c, up, up2).ballDx == -c.ballDx
    ensures Play(c, up, up2).ballX == c.ballX + c.ballDx
  {
  }

  /** What draw shows: the two paddles at the side edges and the ball. */
  ghost function Picture(c: Court): iset<Point>
  {
    (Rect(0, c.paddle1Y, PaddleWidth, PaddleHeight) +
     Rect(Width - PaddleWidth, c.paddle2Y, PaddleWidth, PaddleHeight) +
     Rect(c.ballX, c.ballY, BallSize, BallSize)) * Screen
  }

  class Game {
    const oled: Display
    var paddle1Y: int
    var paddle2Y: int
    var ballX: int
    var ballY: int
    var ballDx: int
    var ballDy: int

    function State(): Court
      reads this
    {
      Court(paddle1Y, paddle2Y, ballX, ballY, ballDx, ballDy)
    }

    /** This copy's clear_display only zeroes the buffer. */
    ghost predicate Valid()
      reads this, oled
    {
      oled.Valid() && !oled.flushOnClear
    }

    constructor (oled: Display, up: bool, up2: bool)
      requires oled.Valid() && !oled.flushOnClear
      ensures Valid() && this.oled == oled && State() == Kickoff(up, up2)
    {
      this.oled := oled;
      paddle1Y := (Height - PaddleHeight) / 2;
      paddle2Y := (Height - PaddleHeight) / 2;
      ballX := Width / 2;
      ballY := Height / 2;
      ballDx := Sign(up) * BallSpeed;
      ballDy := Sign(up2) * BallSpeed;
    }

    method ResetBall(up: bool, up2: bool)
      modifies this
      ensures State() == Reset(old(State()), up, up2)
    {
      ballX := Width / 2;
      ballY := Height / 2;
      ballDx := Sign(up) * BallSpeed;
      ballDy := Sign(up2) * BallSpeed;
    }

    /**
     * update: the ball moves and turns at the top and bottom edges, is sent
     * back or reset at either paddle's column, and the paddle it heads for
     * follows it.
     */
    method Update(up: bool, up2: bool)
      modifies this
      ensures State() == Play(old(State()), up, up2)
    {
      MoveBall();
      CheckLeft(up, up2);
      CheckRight(up, up2);
      ChasePaddle();
    }

    /** update's first lines: move the ball, and turn it at the top and bottom edges. */
    method MoveBall()
      modifies this
      ensures State() == Moved(old(State()))
    {
      ballX := ballX + ballDx;
      ballY := ballY + ballDy;
      if ballY <= 0 || ballY >= Height - BallSize {
        ballDy := ballDy * -1;
      }
    }

    /** update's check at the left paddle's column. */
    method CheckLeft(up: bool, up2: bool)
      modifies this
      ensures State() == LeftEnd(old(State()), up, up2)
    {
      if ballX <= PaddleWidth {
        if paddle1Y <= ballY <= paddle1Y + PaddleHeight {
          ballDx := ballDx * -1;
          ballDy := Sign(up) * BallSpeed;
        } else {
          ResetBall(up, up2);
        }
      }
    }

    /** update's check at the right paddle's column. */
    method CheckRight(up: bool, up2: bool)
      modifies this
      ensures State() == RightEnd(old(State()), up, up2)
    {
      if ballX >= Width - PaddleWidth - BallSize {
        if paddle2Y <= ballY <= paddle2Y + PaddleHeight {
          ballDx := ballDx * -1;
          ballDy := Sign(up) * BallSpeed;
        } else {
          ResetBall(up, up2);
        }
      }
    }

    /** update's last lines: paddle_ai for the paddle the ball heads for. */
    method ChasePaddle()
      modifies this
      ensures State() == Chased(old(State()))
    {
      if ballDx < 0 {
        paddle1Y := Follow(paddle1Y, ballY);
      } else {
        paddle2Y := Follow(paddle2Y, ballY);
      }
    }

    /** draw: clear, the left paddle, the right paddle and the ball in colour 1, then update_display. */
    method Draw() returns (ok: bool)
      requires Valid()
      modifies oled, oled.link.bus
      ensures Valid() && fresh(oled.buffer)
      ensures oled.Shown() == Picture(State())
      ensures Sent(old(oled.link.bus.trace), oled.link.bus.trace, FlushFrames(oled.link.address, oled.buffer[..]), ok)
    {
      var _ := oled.ClearDisplay();
      oled.DrawRect(0, paddle1Y, PaddleWidth, PaddleHeight, 1);
      oled.DrawRect(Width - PaddleWidth, paddle2Y, PaddleWidth, PaddleHeight, 1);
      oled.DrawRect(ballX, ballY, BallSize, BallSize, 1);
      ok := oled.UpdateDisplay();
    }

    /** One pass of main's loop: update, then draw. */
    method Step(up: bool, up2: bool) returns (ok: bool)
      requires Valid()
      modifies this, oled, oled.link.bus
      ensures Valid() && fresh(oled.buffer)
      ensures State() == Play(old(State()), up, up2) && oled.Shown() == Picture(State())
      ensures Sent(old(oled.link.bus.trace), oled.link.bus.trace, FlushFrames(oled.link.address, oled.buffer[..]), ok)
    {
      Update(up, up2);
      ok := Draw();
    }
  }
}
