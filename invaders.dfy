/**
 * `SpaceInvadersGame` of the SInvader-new demo: a self-playing Space
 * Invaders. The player chases the nearest invader, fires at most three
 * bullets at a time, the formation marches and drops at the edges, a
 * bullet removes the first invader whose box holds it, and every frame is
 * drawn from scratch and flushed.
 *
 * The game's fields are the object's state; `State()` reads them into a
 * `World`, and each method is specified by the pure step on worlds that
 * it performs. The clock and the random choices are parameters: `now` for
 * `time.time()`, `flip` for `random.random() < 0.05`, `pick` for the index
 * `random.choice` draws.
 */
module Invaders {
  import opened Pixels
  import opened Bus
  import opened Ssd1306
  import opened Glyphs
  import opened Driver
  import opened Sprites
  import opened Wrappers
  import opened Bresenham

  const PlayerWidth := 5
  const PlayerHeight := 3
  const EnemyWidth := 5
  const EnemyHeight := 3
  const NumEnemies := 10
  const EnemyRows := 2
  const BulletSpeed := 6
  const PlayerSpeed := 6
  const EnemySpeed := 1
  const EnemyDropSpeed := 2
  const PlayerFireRate: real := 0.15
  const EnemyFireRate: real := 3.5
  const MaxBullets := 3

  /** The game's fields, as one value. */
  datatype World = World(
    playerX: int, playerY: int,
    bullets: seq<Point>, enemyBullets: seq<Point>, enemies: seq<Point>,
    enemyDirection: int,
    playerLastFireTime: real, enemyLastFireTime: real,
    gameOver: bool, victory: bool, startTime: real)

  /** reset_game: the player centred on the bottom row, five invaders in each of two rows. */
  function Initial(now: real): World
  {
    World(Width / 2 - PlayerWidth / 2, Height - PlayerHeight - 1, [], [],
          Formation(NumEnemies / EnemyRows, EnemyRows, EnemyWidth + 3, EnemyHeight + 3),
          1, 0.0, 0.0, false, false, now)
  }

  /** move_player: a step of `player_speed` towards the target, clamped to the screen. */
  function PlayerMoved(w: World): World
  {
    w.(playerX := Chase(w.playerX, w.enemies, PlayerSpeed, Width - PlayerWidth))
  }

  /** fire_bullet: a bullet from the player's centre when fewer than three fly and the fire interval has passed. */
  function Fired(w: World, now: real): World
  {
    if |w.bullets| < MaxBullets && now - w.playerLastFireTime > PlayerFireRate then
      w.(bullets := w.bullets + [Point(w.playerX + PlayerWidth / 2, w.playerY)], playerLastFireTime := now)
    else w
  }

  function BulletsMoved(w: World): World
  {
    w.(bullets := Rise(w.bullets, BulletSpeed))
  }

  /** Some invader touches an edge: `x <= 0 or x >= screen_width - enemy_width`. */
  predicate AtEdge(enemies: seq<Point>)
  {
    exists k :: 0 <= k < |enemies| && (enemies[k].x <= 0 || enemies[k].x >= Width - EnemyWidth)
  }

  lemma AtEdgeSnoc(enemies: seq<Point>, i: nat)
    requires i < |enemies|
    ensures AtEdge(enemies[..i + 1]) <==>
      AtEdge(enemies[..i]) || enemies[i].x <= 0 || enemies[i].x >= Width - EnemyWidth
  {
    assert enemies[..i + 1][i] == enemies[i];
    assert forall k :: 0 <= k < i ==> enemies[..i + 1][k] == enemies[..i][k];
  }

  /**
   * move_enemies: the march, then (edge hit) one reversal and a drop of the
   * whole formation, then the random reversal.
   */
  function EnemiesMoved(w: World, flip: bool): World
  {
    var marched := March(w.enemies, w.enemyDirection * EnemySpeed);
    var hit := AtEdge(marched);
    var dir := if hit then w.enemyDirection * -1 else w.enemyDirection;
    w.(enemies := if hit then Drop(marched, EnemyDropSpeed) else marched,
       enemyDirection := if flip then dir * -1 else dir)
  }

  /** The formation moves as one block: the same shift for every invader, along x by the direction and down by 0 or the drop. */
  lemma MarchRigid(w: World, flip: bool, i: nat)
    requires i < |w.enemies|
    ensures var w' := EnemiesMoved(w, flip); var hit := AtEdge(March(w.enemies, w.enemyDirection));
      |w'.enemies| == |w.enemies| &&
      w'.enemies[i] == Point(w.enemies[i].x + w.enemyDirection, w.enemies[i].y + (if hit then EnemyDropSpeed else 0)) &&
      w'.enemyDirection == (if hit != flip then -w.enemyDirection else w.enemyDirection)
  {
  }

  /** enemy_fire_bullet: after the fire interval, a bullet below the chosen invader. */
  function EnemyFired(w: World, now: real, pick: nat): World
    requires now - w.enemyLastFireTime > EnemyFireRate ==> pick < |w.enemies|
  {
    if now - w.enemyLastFireTime > EnemyFireRate then
      var e := w.enemies[pick];
      w.(enemyBullets := w.enemyBullets + [Point(e.x + EnemyWidth / 2, e.y + EnemyHeight)], enemyLastFireTime := now)
    else w
  }

  function EnemyBulletsMoved(w: World): World
  {
    w.(enemyBullets := Fall(w.enemyBullets, BulletSpeed))
  }

  /** An enemy bullet in the player's box (edges included). */
  predicate Shot(w: World)
  {
    exists k :: 0 <= k < |w.enemyBullets| && InBox(w.enemyBullets[k], Point(w.playerX, w.playerY), PlayerWidth, PlayerHeight)
  }

  /** An invader whose bottom edge reached the player's row. */
  predicate Landed(enemies: seq<Point>, playerY: int)
  {
    exists k :: 0 <= k < |enemies| && enemies[k].y + EnemyHeight >= playerY
  }

  /** check_collisions. */
  function Collided(w: World): World
  {
    var (kept, left) := Volley(w.bullets, w.enemies, EnemyWidth, EnemyHeight);
    w.(bullets := kept, enemies := left, gameOver := w.gameOver || Shot(w) || Landed(left, w.playerY))
  }

  /** One frame of update, from move_player to check_collisions. */
  function Tick(w: World, now: real, flip: bool, pick: nat): World
    requires pick < |w.enemies|
  {
    var w1 := Fired(PlayerMoved(w), now);
    var w2 := EnemiesMoved(BulletsMoved(w1), flip);
    Collided(EnemyBulletsMoved(EnemyFired(w2, now, pick)))
  }

  /** What every frame keeps: the player on screen and on its row, at most three bullets, a unit direction. */
  predicate Good(w: World)
  {
    0 <= w.playerX <= Width - PlayerWidth && w.playerY == Height - PlayerHeight - 1 &&
    |w.bullets| <= MaxBullets && (w.enemyDirection == 1 || w.enemyDirection == -1)
  }

  lemma InitialGood(now: real)
    ensures Good(Initial(now)) && |Initial(now).enemies| == NumEnemies
  {
  }

  /** fire_bullet adds at most one bullet, and none once three fly. */
  lemma FireCap(w: World, now: real)
    ensures |w.bullets| <= |Fired(w, now).bullets| <= |w.bullets| + 1
    ensures |Fired(w, now).bullets| == |w.bullets| + 1 <==>
            |w.bullets| < MaxBullets && now - w.playerLastFireTime > PlayerFireRate
    ensures |w.bullets| <= MaxBullets ==> |Fired(w, now).bullets| <= MaxBullets
  {
  }

  lemma {:induction false} TickGood(w: World, now: real, flip: bool, pick: nat)
    requires Good(w) && pick < |w.enemies|
    ensures Good(Tick(w, now, flip, pick))
    ensures |Tick(w, now, flip, pick).enemies| <= |w.enemies|
  {
    var w1 := Fired(PlayerMoved(w), now);
    FireCap(PlayerMoved(w), now);
    var w2 := EnemiesMoved(BulletsMoved(w1), flip);
    var w3 := EnemyBulletsMoved(EnemyFired(w2, now, pick));
    assert Good(w3);
    var r := Volley(w3.bullets, w3.enemies, EnemyWidth, EnemyHeight);
    SubSeqLength(r.0, w3.bullets);
  }

  /** Everything draw puts on the cleared screen: the player, the invaders and both kinds of bullet. */
  ghost function Scene(w: World): iset<Point>
  {
    Rect(w.playerX, w.playerY, PlayerWidth, PlayerHeight) + Boxes(w.enemies, EnemyWidth, EnemyHeight) +
    PointSet(w.bullets) + PointSet(w.enemyBullets)
  }

  const WinText: string := "Player Wins!"
  const LossText: string := "Invaders Win!"

  /** What display_message leaves on the screen: the message alone, at (0, 28). */
  ghost function Message(message: string): iset<Point>
  {
    Blit(iset{}, TextBox(message, 0, Height / 2 - 4), TextInk(message, 0, Height / 2 - 4))
  }

  class Game {
    const oled: Display
    var playerX: int
    var playerY: int
    var bullets: seq<Point>
    var enemyBullets: seq<Point>
    var enemies: seq<Point>
    var enemyDirection: int
    var playerLastFireTime: real
    var enemyLastFireTime: real
    var gameOver: bool
    var victory: bool
    var startTime: real

    function State(): World
      reads this
    {
      World(playerX, playerY, bullets, enemyBullets, enemies, enemyDirection,
            playerLastFireTime, enemyLastFireTime, gameOver, victory, startTime)
    }

    /** This copy's clear_display only zeroes the buffer. */
    ghost predicate Valid()
      reads this, oled
    {
      oled.Valid() && !oled.flushOnClear
    }

    constructor (oled: Display, now: real)
      requires oled.Valid() && !oled.flushOnClear
      ensures Valid() && this.oled == oled && State() == Initial(now)
    {
      this.oled := oled;
      new;
      ResetGame(now);
    }

    method ResetGame(now: real)
      modifies this
      ensures State() == Initial(now)
    {
      playerX := Width / 2 - PlayerWidth / 2;
      playerY := Height - PlayerHeight - 1;
      bullets := [];
      enemyBullets := [];
      enemies := Formation(NumEnemies / EnemyRows, EnemyRows, EnemyWidth + 3, EnemyHeight + 3);
      enemyDirection := 1;
      playerLastFireTime := 0.0;
      enemyLastFireTime := 0.0;
      gameOver := false;
      victory := false;
      startTime := now;
    }

    method MovePlayer()
      modifies this
      ensures State() == PlayerMoved(old(State()))
    {
      if enemies != [] {
        var target := Target(enemies, playerX);
        if playerX < target.x {
          playerX := playerX + PlayerSpeed;
        } else if playerX > target.x {
          playerX := playerX - PlayerSpeed;
        }
      }
      playerX := Clamp(playerX, 0, Width - PlayerWidth);
    }

    method FireBullet(now: real)
      modifies this
      ensures State() == Fired(old(State()), now)
    {
      if |bullets| < MaxBullets && now - playerLastFireTime > PlayerFireRate {
        bullets := bullets + [Point(playerX + PlayerWidth / 2, playerY)];
        playerLastFireTime := now;
      }
    }

    method MoveBullets()
      modifies this
      ensures State() == BulletsMoved(old(State()))
    {
      bullets := Rise(bullets, BulletSpeed);
    }

    /** The index loop of move_enemies: each invader is rewritten in place, and an edge hit is noted. */
    method MarchInPlace() returns (edgeHit: bool)
      modifies this
      ensures State() == old(State()).(enemies := March(old(enemies), enemyDirection * EnemySpeed))
      ensures edgeHit == AtEdge(enemies)
    {
      ghost var marched := March(enemies, enemyDirection * EnemySpeed);
      edgeHit := false;
      var i := 0;
      while i < |enemies|
        invariant 0 <= i <= |enemies| == |marched|
        invariant enemies == marched[..i] + old(enemies)[i..]
        invariant edgeHit <==> AtEdge(marched[..i])
        invariant State() == old(State()).(enemies := enemies)
      {
        var x, y := enemies[i].x, enemies[i].y;
        x := x + enemyDirection * EnemySpeed;
        MarchAt(old(enemies), enemyDirection * EnemySpeed, i);
        enemies := enemies[i := Point(x, y)];
        if x <= 0 || x >= Width - EnemyWidth {
          edgeHit := true;
        }
        AtEdgeSnoc(marched, i);
        i := i + 1;
      }
      assert marched[..i] == marched;
    }

    /** move_enemies: the march, the reversal and drop on an edge hit, and the random reversal. */
    method MoveEnemies(flip: bool)
      modifies this
      ensures State() == EnemiesMoved(old(State()), flip)
    {
      var edgeHit := MarchInPlace();
      if edgeHit {
        enemyDirection := enemyDirection * -1;
        enemies := Drop(enemies, EnemyDropSpeed);
      }
      if flip {
        enemyDirection := enemyDirection * -1;
      }
    }

    method EnemyFireBullet(now: real, pick: nat)
      requires now - enemyLastFireTime > EnemyFireRate ==> pick < |enemies|
      modifies this
      ensures State() == EnemyFired(old(State()), now, pick)
    {
      if now - enemyLastFireTime > EnemyFireRate {
        var shooter := enemies[pick];
        enemyBullets := enemyBullets + [Point(shooter.x + EnemyWidth / 2, shooter.y + EnemyHeight)];
        enemyLastFireTime := now;
      }
    }

    method MoveEnemyBullets()
      modifies this
      ensures State() == EnemyBulletsMoved(old(State()))
    {
      enemyBullets := Fall(enemyBullets, BulletSpeed);
    }

    /**
     * The inner loop of check_collisions for bullet b: the first invader
     * whose box holds b is removed with `enemies.remove`, and the search
     * stops there.
     */
    method Strike(b: Point) returns (hit: bool)
      modifies this
      ensures FirstHit(old(enemies), b, EnemyWidth, EnemyHeight).None? ==> !hit && enemies == old(enemies)
      ensures FirstHit(old(enemies), b, EnemyWidth, EnemyHeight).Some? ==>
        hit &&
        var j := FirstHit(old(enemies), b, EnemyWidth, EnemyHeight).value;
        enemies == old(enemies)[..j] + old(enemies)[j + 1..]
      ensures State() == old(State()).(enemies := enemies)
    {
      hit := false;
      var j := 0;
      while j < |enemies|
        invariant 0 <= j <= |enemies| && enemies == old(enemies)
        invariant forall k :: 0 <= k < j ==> !InBox(b, enemies[k], EnemyWidth, EnemyHeight)
      {
        var e := enemies[j];
        if e.x <= b.x <= e.x + EnemyWidth && e.y <= b.y <= e.y + EnemyHeight {
          FirstHitAt(enemies, b, EnemyWidth, EnemyHeight, j);
          assert e !in enemies[..j];
          RemoveFirst(enemies, j);
          enemies := RemoveValue(enemies, e);
          hit := true;
          break;
        }
        j := j + 1;
      }
    }

    /**
     * The bullet loop of check_collisions: each bullet goes through Strike,
     * and the ones that hit nothing become the new bullet list.
     */
    method SweepBullets()
      modifies this
      ensures State() == old(State()).(bullets := Volley(old(bullets), old(enemies), EnemyWidth, EnemyHeight).0,
                                       enemies := Volley(old(bullets), old(enemies), EnemyWidth, EnemyHeight).1)
    {
      var newBullets: seq<Point> := [];
      var i := 0;
      while i < |bullets|
        invariant 0 <= i <= |bullets|
        invariant (newBullets, enemies) == Volley(bullets[..i], old(enemies), EnemyWidth, EnemyHeight)
        invariant State() == old(State()).(enemies := enemies)
      {
        var b := bullets[i];
        VolleyLast(bullets, old(enemies), EnemyWidth, EnemyHeight, i);
        var hit := Strike(b);
        if !hit {
          newBullets := newBullets + [b];
        }
        i := i + 1;
      }
      assert bullets[..i] == bullets;
      bullets := newBullets;
    }

    /** The enemy-bullet scan of check_collisions: a bullet in the player's box ends the game. */
    method HitPlayer()
      modifies this
      ensures State() == old(State()).(gameOver := old(gameOver) || Shot(old(State())))
    {
      var k := 0;
      while k < |enemyBullets|
        invariant 0 <= k <= |enemyBullets| && State() == old(State())
        invariant forall m :: 0 <= m < k ==> !InBox(enemyBullets[m], Point(playerX, playerY), PlayerWidth, PlayerHeight)
      {
        var eb := enemyBullets[k];
        if playerX <= eb.x <= playerX + PlayerWidth && playerY <= eb.y <= playerY + PlayerHeight {
          gameOver := true;
          return;
        }
        k := k + 1;
      }
    }

    /** The last scan of check_collisions: an invader down at the player's row ends the game. */
    method CheckLanding()
      modifies this
      ensures State() == old(State()).(gameOver := old(gameOver) || Landed(old(enemies), old(playerY)))
    {
      var m := 0;
      while m < |enemies|
        invariant 0 <= m <= |enemies| && State() == old(State())
        invariant forall n :: 0 <= n < m ==> enemies[n].y + EnemyHeight < playerY
      {
        if enemies[m].y + EnemyHeight >= playerY {
          gameOver := true;
          return;
        }
        m := m + 1;
      }
    }

    /** check_collisions: the bullet loop, then the two game-over scans. */
    method CheckCollisions()
      modifies this
      ensures State() == Collided(old(State()))
    {
      SweepBullets();
      HitPlayer();
      CheckLanding();
    }

    /** draw: clear, the player, the invaders, both kinds of bullet, all in colour 1, then update_display. */
    method Draw() returns (ok: bool)
      requires Valid()
      modifies oled, oled.link.bus
      ensures Valid() && fresh(oled.buffer)
      ensures oled.Shown() == Scene(State()) * Screen
      ensures Sent(old(oled.link.bus.trace), oled.link.bus.trace, FlushFrames(oled.link.address, oled.buffer[..]), ok)
    {
      var _ := oled.ClearDisplay();
      ghost var player := Rect(playerX, playerY, PlayerWidth, PlayerHeight);
      oled.DrawRect(playerX, playerY, PlayerWidth, PlayerHeight, 1);
      ghost var drawn := player + Boxes(enemies, EnemyWidth, EnemyHeight);
      DrawBoxes(oled, enemies, EnemyWidth, EnemyHeight, player);
      DrawDots(oled, bullets, drawn);
      DrawDots(oled, enemyBullets, drawn + PointSet(bullets));
      PaintBlank(Scene(State()));
      ok := oled.UpdateDisplay();
    }

    /** display_message: the message in the 5x7 font at (0, 28) on a cleared screen, then update_display. */
    method DisplayMessage(message: string) returns (ok: bool)
      requires Valid()
      modifies oled, oled.link.bus
      ensures Valid() && fresh(oled.buffer)
      ensures oled.Shown() == Message(message)
      ensures Sent(old(oled.link.bus.trace), oled.link.bus.trace, FlushFrames(oled.link.address, oled.buffer[..]), ok)
    {
      var _ := oled.ClearDisplay();
      oled.DrawText(message, 0, Height / 2 - 4);
      ok := oled.UpdateDisplay();
    }

    /**
     * update: a finished game shows its message and reports True; otherwise
     * one frame of moves, the collision check, and the redraw.
     */
    method Update(now: real, flip: bool, pick: nat) returns (ended: bool, ok: bool)
      requires Valid() && (enemies != [] ==> pick < |enemies|)
      modifies this, oled, oled.link.bus
      ensures Valid() && (ended <==> old(gameOver) || old(enemies) == [])
      ensures old(gameOver) ==>
        State() == old(State()) &&
        oled.Shown() == Message(LossText)
      ensures !old(gameOver) && old(enemies) == [] ==>
        State() == old(State()).(victory := true) &&
        oled.Shown() == Message(WinText)
      ensures !ended ==> State() == Tick(old(State()), now, flip, pick) && oled.Shown() == Scene(State()) * Screen
      ensures Sent(old(oled.link.bus.trace), oled.link.bus.trace, FlushFrames(oled.link.address, oled.buffer[..]), ok)
    {
      if gameOver {
        ok := DisplayMessage(LossText);
        return true, ok;
      }
      if enemies == [] {
        ok := Won();
        return true, ok;
      }
      ok := Frame(now, flip, pick);
      return false, ok;
    }

    /** update with no invaders left: victory is set and "Player Wins!" shown. */
    method Won() returns (ok: bool)
      requires Valid()
      modifies this, oled, oled.link.bus
      ensures Valid() && State() == old(State()).(victory := true)
      ensures oled.Shown() == Message(WinText)
      ensures Sent(old(oled.link.bus.trace), oled.link.bus.trace, FlushFrames(oled.link.address, oled.buffer[..]), ok)
    {
      ghost var t0 := oled.link.bus.trace;
      victory := true;
      assert oled.link.bus.trace == t0;
      ok := DisplayMessage(WinText);
    }

    /** update while the game goes on: the moves in source order, the collision check, and the redraw. */
    method Frame(now: real, flip: bool, pick: nat) returns (ok: bool)
      requires Valid() && !gameOver && enemies != [] && pick < |enemies|
      modifies this, oled, oled.link.bus
      ensures Valid() && State() == Tick(old(State()), now, flip, pick) && oled.Shown() == Scene(State()) * Screen
      ensures Sent(old(oled.link.bus.trace), oled.link.bus.trace, FlushFrames(oled.link.address, oled.buffer[..]), ok)
    {
      MovePlayer();
      FireBullet(now);
      MoveBullets();
      MoveEnemies(flip);
      EnemyFireBullet(now, pick);
      MoveEnemyBullets();
      CheckCollisions();
      ok := Draw();
    }
  }
}
