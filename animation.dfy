/**
 * `SpaceInvadersGame` of the OLED-Animation demo: the earlier, smaller
 * self-playing Space Invaders. Twelve invaders in two rows, a 3x3 player
 * that chases the nearest one, invaders that aim at where the player will
 * be, `list.remove` for every hit, and a round that runs until a win or a
 * loss and then shows "YOU WIN!" or "YOU LOST!".
 *
 * As in the other game, the fields are the object's state, `State()`
 * reads them into a `World`, and each method is specified by the pure step
 * on worlds it performs. `now` stands for `time.time()`; `pick` for the
 * index `random.choice` draws, taken modulo the length of the list it
 * chooses from, so that every choice is one of the values `pick` can take.
 */
module Animation {
  import opened Pixels
  import opened Bus
  import opened Ssd1306
  import opened Glyphs
  import opened Driver
  import opened Sprites
  import opened Wrappers

  const PlayerWidth := 3
  const PlayerHeight := 3
  const EnemyWidth := 5
  const EnemyHeight := 3
  const NumEnemies := 12
  const EnemyRows := 2
  const BulletSpeed := 3
  const PlayerSpeed := 4
  const EnemySpeed := 3
  const EnemyDropSpeed := 5
  const PlayerFireRate: real := 0.5
  const EnemyFireRate: real := 1.0
  const MaxBullets := 3
  /** fire_enemy_bullet aims where the player would be after ten frames of `player_speed`. */
  const LookAhead := 10

  /** The game's fields, as one value. */
  datatype World = World(
    playerX: int, playerY: int,
    bullets: seq<Point>, enemyBullets: seq<Point>, enemies: seq<Point>,
    enemyDirection: int,
    playerLastFireTime: real, enemyLastFireTime: real,
    gameOver: bool, victory: bool)

  /** `__init__`: the player centred on the bottom row, six invaders in each of two rows. */
  function Initial(): World
  {
    World(Width / 2 - PlayerWidth / 2, Height - PlayerHeight - 1, [], [],
          Formation(NumEnemies / EnemyRows, EnemyRows, EnemyWidth + 3, EnemyHeight + 3),
          1, 0.0, 0.0, false, false)
  }

  /** move_player: a step of `player_speed` towards the target, clamped to the screen. */
  function PlayerMoved(w: World): World
  {
    w.(playerX := Chase(w.playerX, w.enemies, PlayerSpeed, Width - PlayerWidth))
  }

  /** fire_bullet: a bullet from the player's centre when fewer than three fly and half a second has passed. */
  function Fired(w: World, now: real): World
  {
    if |w.bullets| < MaxBullets && now - w.playerLastFireTime > PlayerFireRate then
      w.(bullets := w.bullets + [Point(w.playerX + PlayerWidth / 2, w.playerY)], playerLastFireTime := now)
    else w
  }

  function BulletsMoved(w: World): World
  {
    w.(bullets := Rise(w.bullets, BulletSpeed))
  }

  /** An invader past an edge: `x < 0 or x > screen_width - enemy_width`. */
  predicate Beyond(e: Point)
  {
    e.x < 0 || e.x > Width - EnemyWidth
  }

  predicate Astray(enemies: seq<Point>)
  {
    exists k :: 0 <= k < |enemies| && Beyond(enemies[k])
  }

  /** move_enemies: the march, then, when an invader is past an edge, one reversal and a drop. */
  function EnemiesMoved(w: World): World
  {
    var marched := March(w.enemies, w.enemyDirection * EnemySpeed);
    if Astray(marched) then
      w.(enemies := Drop(marched, EnemyDropSpeed), enemyDirection := w.enemyDirection * -1)
    else w.(enemies := marched)
  }

  function EnemyBulletsMoved(w: World): World
  {
    w.(enemyBullets := Fall(w.enemyBullets, BulletSpeed))
  }

  /** The column the player is predicted to reach, clamped to the screen. */
  function FutureX(px: int): (f: int)
    ensures 0 <= f <= Width - PlayerWidth
    ensures 0 <= px + PlayerSpeed * LookAhead <= Width - PlayerWidth ==> f == px + PlayerSpeed * LookAhead
  {
    Clamp(px + PlayerSpeed * LookAhead, 0, Width - PlayerWidth)
  }

  /** Invader e's columns, edges included, take in column fx. */
  predicate Covers(e: Point, fx: int)
  {
    e.x <= fx <= e.x + EnemyWidth
  }

  /** `[e for e in enemies if e[0] <= fx <= e[0] + enemy_width]`. */
  function Aligned(enemies: seq<Point>, fx: int): (r: seq<Point>)
    ensures |r| <= |enemies|
    ensures forall e :: e in r ==> e in enemies && Covers(e, fx)
  {
    if enemies == [] then []
    else
      var n := |enemies| - 1;
      assert enemies == enemies[..n] + [enemies[n]];
      Aligned(enemies[..n], fx) + (if Covers(enemies[n], fx) then [enemies[n]] else [])
  }

  /** The comprehension keeps exactly the invaders that cover the column. */
  lemma {:induction false} AlignedMembers(enemies: seq<Point>, fx: int, e: Point)
    ensures e in Aligned(enemies, fx) <==> e in enemies && Covers(e, fx)
  {
    if enemies != [] {
      var n := |enemies| - 1;
      assert enemies == enemies[..n] + [enemies[n]];
      AlignedMembers(enemies[..n], fx, e);
    }
  }

  /** `max(e[1] for e in enemies)`: the row of the lowest invaders. */
  function BottomY(enemies: seq<Point>): (y: int)
    requires enemies != []
    ensures exists k :: 0 <= k < |enemies| && enemies[k].y == y
    ensures forall k :: 0 <= k < |enemies| ==> enemies[k].y <= y
  {
    var n := |enemies| - 1;
    if n == 0 then enemies[0].y
    else
      var y := BottomY(enemies[..n]);
      assert forall k :: 0 <= k < n ==> enemies[..n][k] == enemies[k];
      if enemies[n].y > y then enemies[n].y else y
  }

  /** `[e for e in enemies if e[1] == y]`. */
  function RowAt(enemies: seq<Point>, y: int): (r: seq<Point>)
    ensures |r| <= |enemies|
    ensures forall e :: e in r ==> e in enemies && e.y == y
  {
    if enemies == [] then []
    else
      var n := |enemies| - 1;
      assert enemies == enemies[..n] + [enemies[n]];
      RowAt(enemies[..n], y) + (if enemies[n].y == y then [enemies[n]] else [])
  }

  /** The comprehension keeps exactly the invaders on row y. */
  lemma {:induction false} RowAtMembers(enemies: seq<Point>, y: int, e: Point)
    ensures e in RowAt(enemies, y) <==> e in enemies && e.y == y
  {
    if enemies != [] {
      var n := |enemies| - 1;
      assert enemies == enemies[..n] + [enemies[n]];
      RowAtMembers(enemies[..n], y, e);
    }
  }

  /** The bottom row is never empty: the lowest invader is in it. */
  lemma BottomRowHasOne(enemies: seq<Point>)
    requires enemies != []
    ensures RowAt(enemies, BottomY(enemies)) != []
  {
    var k :| 0 <= k < |enemies| && enemies[k].y == BottomY(enemies);
    RowAtMembers(enemies, BottomY(enemies), enemies[k]);
  }

  /**
   * The invaders fire_enemy_bullet chooses among: those whose columns take
   * in the player's predicted column, or, when there are none, the bottom
   * row.
   */
  function Shooters(enemies: seq<Point>, px: int): (r: seq<Point>)
    requires enemies != []
    ensures r != []
  {
    var aligned := Aligned(enemies, FutureX(px));
    if aligned != [] then aligned
    else
      BottomRowHasOne(enemies);
      RowAt(enemies, BottomY(enemies))
  }

  /**
   * Every possible shooter is an invader; it covers the predicted column
   * when any invader does, and otherwise it is as low as the lowest.
   */
  lemma ShooterChoice(enemies: seq<Point>, px: int, e: Point)
    requires enemies != [] && e in Shooters(enemies, px)
    ensures e in enemies
    ensures (exists a :: a in enemies && Covers(a, FutureX(px))) ==> Covers(e, FutureX(px))
    ensures (forall a :: a in enemies ==> !Covers(a, FutureX(px))) ==>
      forall k :: 0 <= k < |enemies| ==> enemies[k].y <= e.y
  {
    var fx := FutureX(px);
    AlignedMembers(enemies, fx, e);
    RowAtMembers(enemies, BottomY(enemies), e);
    if exists a :: a in enemies && Covers(a, fx) {
      var a :| a in enemies && Covers(a, fx);
      AlignedMembers(enemies, fx, a);
    }
  }

  /** fire_enemy_bullet: once a second, while invaders remain, a bullet below the chosen shooter. */
  function EnemyFired(w: World, now: real, pick: nat): World
  {
    if w.enemies != [] && now - w.enemyLastFireTime > EnemyFireRate then
      var pool := Shooters(w.enemies, w.playerX);
      var e := pool[pick % |pool|];
      w.(enemyBullets := w.enemyBullets + [Point(e.x + EnemyWidth / 2, e.y + EnemyHeight)], enemyLastFireTime := now)
    else w
  }

  /** The index of the first point inside the box (corner, w, h), edges included. */
  function FirstInBox(points: seq<Point>, corner: Point, w: int, h: int): (r: Option<nat>)
    ensures r.Some? ==> r.value < |points| && InBox(points[r.value], corner, w, h) &&
                        forall k :: 0 <= k < r.value ==> !InBox(points[k], corner, w, h)
    ensures r.None? ==> forall k :: 0 <= k < |points| ==> !InBox(points[k], corner, w, h)
  {
    if points == [] then None
    else if InBox(points[0], corner, w, h) then Some(0)
    else match FirstInBox(points[1..], corner, w, h)
      case None => None
      case Some(j) => Some(j + 1)
  }

  /** The first point in the box is the one the scan stops at. */
  lemma FirstInBoxAt(points: seq<Point>, corner: Point, w: int, h: int, k: nat)
    requires k < |points| && InBox(points[k], corner, w, h)
    requires forall m :: 0 <= m < k ==> !InBox(points[m], corner, w, h)
    ensures FirstInBox(points, corner, w, h) == Some(k)
  {
  }

  /**
   * check_collisions: the bullet loop; then the first enemy bullet in the
   * player's box is removed and ends the game, and only when none is there
   * does an empty formation win it.
   */
  function Collided(w: World): World
  {
    var (kept, left) := Volley(w.bullets, w.enemies, EnemyWidth, EnemyHeight);
    var w1 := w.(bullets := kept, enemies := left);
    match FirstInBox(w.enemyBullets, Point(w.playerX, w.playerY), PlayerWidth, PlayerHeight)
    case Some(k) => w1.(enemyBullets := w.enemyBullets[..k] + w.enemyBullets[k + 1..], gameOver := true)
    case None => if left == [] then w1.(victory := true) else w1
  }

  /** One pass of the main loop, in its order, before the redraw. */
  function Frame(w: World, now: real, pick: nat): World
  {
    var w1 := EnemyBulletsMoved(EnemiesMoved(BulletsMoved(w)));
    Fired(PlayerMoved(EnemyFired(Collided(w1), now, pick)), now)
  }

  /** What every frame keeps: the player on screen on its row, at most three bullets, a unit direction, no win with invaders left. */
  predicate Good(w: World)
  {
    0 <= w.playerX <= Width - PlayerWidth && w.playerY == Height - PlayerHeight - 1 &&
    |w.bullets| <= MaxBullets && (w.enemyDirection == 1 || w.enemyDirection == -1) &&
    (w.victory ==> w.enemies == [])
  }

  lemma InitialGood()
    ensures Good(Initial()) && |Initial().enemies| == NumEnemies
    ensures Initial().playerX == 63 && Initial().playerY == 60
  {
  }

  /** The collision check keeps Good and never adds an invader: bullets only go, and a win needs an empty formation. */
  lemma CollidedGood(w: World)
    requires Good(w)
    ensures Good(Collided(w)) && |Collided(w).enemies| <= |w.enemies|
  {
    var r := Volley(w.bullets, w.enemies, EnemyWidth, EnemyHeight);
    SubSeqLength(r.0, w.bullets);
  }

  /** A frame keeps Good and never adds an invader. */
  lemma FrameGood(w: World, now: real, pick: nat)
    requires Good(w)
    ensures Good(Frame(w, now, pick))
    ensures |Frame(w, now, pick).enemies| <= |w.enemies|
  {
    var w1 := EnemyBulletsMoved(EnemiesMoved(BulletsMoved(w)));
    assert Good(w1) && |w1.enemies| == |w.enemies|;
    CollidedGood(w1);
  }

  /** A round is lost exactly when an enemy bullet is in the player's box after the moves; the frame removes that bullet. */
  lemma LostFrame(w: World, now: real, pick: nat)
    requires !w.gameOver
    ensures var w1 := EnemyBulletsMoved(EnemiesMoved(BulletsMoved(w)));
      Frame(w, now, pick).gameOver <==>
      exists k :: 0 <= k < |w1.enemyBullets| && InBox(w1.enemyBullets[k], Point(w.playerX, w.playerY), PlayerWidth, PlayerHeight)
  {
    var w1 := EnemyBulletsMoved(EnemiesMoved(BulletsMoved(w)));
    var hit := FirstInBox(w1.enemyBullets, Point(w.playerX, w.playerY), PlayerWidth, PlayerHeight);
    if hit.Some? {
      assert InBox(w1.enemyBullets[hit.value], Point(w.playerX, w.playerY), PlayerWidth, PlayerHeight);
    }
  }

  /** Everything draw puts on the cleared screen while the round is on: the player, both kinds of bullet, the invaders. */
  ghost function Scene(w: World): iset<Point>
  {
    Rect(w.playerX, w.playerY, PlayerWidth, PlayerHeight) + PointSet(w.bullets) + PointSet(w.enemyBullets) +
    Boxes(w.enemies, EnemyWidth, EnemyHeight)
  }

  const WinText: string := "YOU WIN!"
  const LossText: string := "YOU LOST!"

  /** What draw shows for a world: the win message, the loss message, or the scene. */
  ghost function Picture(w: World): iset<Point>
  {
    if w.victory then Blit(iset{}, TextBox(WinText, 40, 28), TextInk(WinText, 40, 28))
    else if w.gameOver then Blit(iset{}, TextBox(LossText, 32, 28), TextInk(LossText, 32, 28))
    else Scene(w) * Screen
  }

  class Game {
    const oled: Display
    var playerX: int
    var playerY: int
    var bullets: seq<Point>
    var enemyBullets: seq<Point>
    var enemies: seq<Point>
    var enemyDirection: int
    var playerLastFireTime: real
    var enemyLastFireTime: real
    var gameOver: bool
    var victory: bool

    function State(): World
      reads this
    {
      World(playerX, playerY, bullets, enemyBullets, enemies, enemyDirection,
            playerLastFireTime, enemyLastFireTime, gameOver, victory)
    }

    /** This copy's clear_display only zeroes the buffer. */
    ghost predicate Valid()
      reads this, oled
    {
      oled.Valid() && !oled.flushOnClear
    }

    constructor (oled: Display)
      requires oled.Valid() && !oled.flushOnClear
      ensures Valid() && this.oled == oled && State() == Initial()
    {
      this.oled := oled;
      playerX := Width / 2 - PlayerWidth / 2;
      playerY := Height - PlayerHeight - 1;
      bullets := [];
      enemyBullets := [];
      enemies := Formation(NumEnemies / EnemyRows, EnemyRows, EnemyWidth + 3, EnemyHeight + 3);
      enemyDirection := 1;
      playerLastFireTime := 0.0;
      enemyLastFireTime := 0.0;
      gameOver := false;
      victory := false;
    }

    method MovePlayer()
      modifies this
      ensures State() == PlayerMoved(old(State()))
    {
      if enemies != [] {
        var target := Target(enemies, playerX);
        if playerX < target.x {
          playerX := playerX + PlayerSpeed;
        } else if playerX > target.x {
          playerX := playerX - PlayerSpeed;
        }
      }
      playerX := Clamp(playerX, 0, Width - PlayerWidth);
    }

    method FireBullet(now: real)
      modifies this
      ensures State() == Fired(old(State()), now)
    {
      if |bullets| < 3 && now - playerLastFireTime > PlayerFireRate {
        bullets := bullets + [Point(playerX + PlayerWidth / 2, playerY)];
        playerLastFireTime := now;
      }
    }

    method MoveBullets()
      modifies this
      ensures State() == BulletsMoved(old(State()))
    {
      bullets := Rise(bullets, BulletSpeed);
    }

    /** The first loop of move_enemies: each invader is rewritten in place. */
    method MarchInPlace()
      modifies this
      ensures State() == old(State()).(enemies := March(old(enemies), enemyDirection * EnemySpeed))
    {
      var d := enemyDirection * EnemySpeed;
      var row := enemies;
      var i := 0;
      while i < |row|
        invariant 0 <= i <= |row| == |enemies|
        invariant row == March(enemies, d)[..i] + enemies[i..]
        modifies {}
      {
        var x, y := row[i].x, row[i].y;
        x := x + d;
        MarchAt(enemies, d, i);
        row := row[i := Point(x, y)];
        i := i + 1;
      }
      assert March(enemies, d)[..i] == March(enemies, d);
      enemies := row;
    }

    /** move_enemies: the march, the search for an invader past an edge (reversing once), and the drop. */
    method MoveEnemies()
      modifies this
      ensures State() == EnemiesMoved(old(State()))
    {
      MarchInPlace();
      var edgeHit := false;
      var i := 0;
      while i < |enemies|
        invariant 0 <= i <= |enemies| && !edgeHit
        invariant forall k :: 0 <= k < i ==> !Beyond(enemies[k])
        invariant State() == old(State()).(enemies := March(old(enemies), old(enemyDirection) * EnemySpeed))
      {
        if enemies[i].x < 0 || enemies[i].x > Width - EnemyWidth {
          enemyDirection := enemyDirection * -1;
          edgeHit := true;
          break;
        }
        i := i + 1;
      }
      if edgeHit {
        enemies := Drop(enemies, EnemyDropSpeed);
      }
    }

    /**
     * The shooter of fire_enemy_bullet: `random.choice` (entry `pick`) over
     * the invaders that cover the predicted column, or over the bottom row
     * when none does.
     */
    method ChooseShooter(pick: nat) returns (shooter: Point)
      requires enemies != []
      ensures var pool := Shooters(enemies, playerX); shooter == pool[pick % |pool|]
    {
      var future := Clamp(playerX + PlayerSpeed * LookAhead, 0, Width - PlayerWidth);
      assert future == FutureX(playerX);
      var pool := Aligned(enemies, future);
      if pool == [] {
        BottomRowHasOne(enemies);
        pool := RowAt(enemies, BottomY(enemies));
      }
      shooter := pool[pick % |pool|];
    }

    method FireEnemyBullet(now: real, pick: nat)
      modifies this
      ensures State() == EnemyFired(old(State()), now, pick)
    {
      if enemies != [] && now - enemyLastFireTime > EnemyFireRate {
        var shooter := ChooseShooter(pick);
        enemyBullets := enemyBullets + [Point(shooter.x + EnemyWidth / 2, shooter.y + EnemyHeight)];
        enemyLastFireTime := now;
      }
    }

    method MoveEnemyBullets()
      modifies this
      ensures State() == EnemyBulletsMoved(old(State()))
    {
      enemyBullets := Fall(enemyBullets, BulletSpeed);
    }

    /**
     * The inner loop of check_collisions for bullet b, over a copy of the
     * invaders: on the first invader whose box holds b, both are removed
     * by value and the search stops.
     */
    method Shoot(b: Point) returns (hit: bool)
      requires b in bullets
      modifies this
      ensures var j := FirstHit(old(enemies), b, EnemyWidth, EnemyHeight);
        (j.None? ==> !hit && bullets == old(bullets) && enemies == old(enemies)) &&
        (j.Some? ==> hit && bullets == RemoveValue(old(bullets), b) &&
                     enemies == old(enemies)[..j.value] + old(enemies)[j.value + 1..])
      ensures State() == old(State()).(bullets := bullets, enemies := enemies)
    {
      hit := false;
      var targets := enemies;
      var j := 0;
      while j < |targets|
        invariant 0 <= j <= |targets| && enemies == targets == old(enemies) && bullets == old(bullets)
        invariant forall k :: 0 <= k < j ==> !InBox(b, targets[k], EnemyWidth, EnemyHeight)
      {
        var e := targets[j];
        if e.x <= b.x <= e.x + EnemyWidth && e.y <= b.y <= e.y + EnemyHeight {
          FirstHitAt(targets, b, EnemyWidth, EnemyHeight, j);
          assert e !in enemies[..j];
          RemoveFirst(enemies, j);
          bullets := RemoveValue(bullets, b);
          enemies := RemoveValue(enemies, e);
          hit := true;
          break;
        }
        j := j + 1;
      }
    }

    /** Shoot for bullet i of the copy the bullet loop walks, keeping the loop's account of the lists. */
    method ShootNext(b: Point, ghost shots: seq<Point>, ghost start: seq<Point>, ghost i: nat)
      requires i < |shots| && shots[i] == b
      requires bullets == Volley(shots[..i], start, EnemyWidth, EnemyHeight).0 + shots[i..]
      requires enemies == Volley(shots[..i], start, EnemyWidth, EnemyHeight).1
      modifies this
      ensures bullets == Volley(shots[..i + 1], start, EnemyWidth, EnemyHeight).0 + shots[i + 1..]
      ensures enemies == Volley(shots[..i + 1], start, EnemyWidth, EnemyHeight).1
      ensures State() == old(State()).(bullets := bullets, enemies := enemies)
    {
      VolleyByValue(shots, start, EnemyWidth, EnemyHeight, i);
      var hit := Shoot(b);
    }

    /**
     * The bullet loop of check_collisions, over a copy of the bullets,
     * removing each hitting bullet by value: it ends with the bullets that
     * hit nothing, in their order, as in the other game's loop.
     */
    method SweepBullets()
      modifies this
      ensures State() == old(State()).(bullets := Volley(old(bullets), old(enemies), EnemyWidth, EnemyHeight).0,
                                       enemies := Volley(old(bullets), old(enemies), EnemyWidth, EnemyHeight).1)
    {
      var shots := bullets;
      var i := 0;
      while i < |shots|
        invariant 0 <= i <= |shots| && shots == old(bullets)
        invariant bullets == Volley(shots[..i], old(enemies), EnemyWidth, EnemyHeight).0 + shots[i..]
        invariant enemies == Volley(shots[..i], old(enemies), EnemyWidth, EnemyHeight).1
        invariant State() == old(State()).(bullets := bullets, enemies := enemies)
      {
        ShootNext(shots[i], shots, old(enemies), i);
        i := i + 1;
      }
      assert shots[..i] == shots;
    }

    /** The rest of check_collisions: the enemy-bullet scan, with its early return, then the win check. */
    method Judge()
      modifies this
      ensures var hit := FirstInBox(old(enemyBullets), Point(playerX, playerY), PlayerWidth, PlayerHeight);
        (hit.Some? ==> State() == old(State()).(enemyBullets := old(enemyBullets)[..hit.value] + old(enemyBullets)[hit.value + 1..],
                                                gameOver := true)) &&
        (hit.None? ==> State() == old(State()).(victory := old(victory) || old(enemies) == []))
    {
      var incoming := enemyBullets;
      var k := 0;
      while k < |incoming|
        invariant 0 <= k <= |incoming| && unchanged(this) && incoming == enemyBullets
        invariant forall m :: 0 <= m < k ==> !InBox(incoming[m], Point(playerX, playerY), PlayerWidth, PlayerHeight)
      {
        var eb := incoming[k];
        if playerX <= eb.x <= playerX + PlayerWidth && playerY <= eb.y <= playerY + PlayerHeight {
          FirstInBoxAt(incoming, Point(playerX, playerY), PlayerWidth, PlayerHeight, k);
          assert eb !in incoming[..k] by {
            forall m | 0 <= m < k
              ensures incoming[..k][m] != eb
            {
              assert !InBox(incoming[m], Point(playerX, playerY), PlayerWidth, PlayerHeight);
            }
          }
          PlayerShot(k);
          return;
        }
        k := k + 1;
      }
      if enemies == [] {
        victory := true;
      }
    }

    /** The hit branch of the enemy-bullet scan: `enemy_bullets.remove(eb)`, then the game is lost. */
    method PlayerShot(k: nat)
      requires k < |enemyBullets| && enemyBullets[k] !in enemyBullets[..k]
      modifies this
      ensures State() == old(State()).(enemyBullets := old(enemyBullets)[..k] + old(enemyBullets)[k + 1..], gameOver := true)
    {
      RemoveFirst(enemyBullets, k);
      enemyBullets := RemoveValue(enemyBullets, enemyBullets[k]);
      gameOver := true;
    }

    method CheckCollisions()
      modifies this
      ensures State() == Collided(old(State()))
    {
      SweepBullets();
      Judge();
    }

    /**
     * draw: clear, then the win message at (40, 28), the loss message at
     * (32, 28), or the player, the bullets, the enemy bullets and the
     * invaders in colour 1; then update_display.
     */
    method Draw() returns (ok: bool)
      requires Valid()
      modifies oled, oled.link.bus
      ensures Valid() && fresh(oled.buffer)
      ensures oled.Shown() == Picture(State())
      ensures Sent(old(oled.link.bus.trace), oled.link.bus.trace, FlushFrames(oled.link.address, oled.buffer[..]), ok)
    {
      var _ := oled.ClearDisplay();
      DrawPicture();
      ok := oled.UpdateDisplay();
    }

    /** What draw paints on the cleared buffer: the end-of-game message or the scene. */
    method DrawPicture()
      requires Valid() && oled.Shown() == iset{}
      modifies oled.buffer
      ensures oled.Shown() == Picture(State())
    {
      if victory {
        oled.DrawText(WinText, 40, 28);
      } else if gameOver {
        oled.DrawText(LossText, 32, 28);
      } else {
        DrawScene();
      }
    }

    /** draw while the round is on: the player, the player's bullets, the invaders' bullets and the invaders, in colour 1. */
    method DrawScene()
      requires Valid() && oled.Shown() == iset{}
      modifies oled.buffer
      ensures oled.Shown() == Scene(State()) * Screen
    {
      ghost var player := Rect(playerX, playerY, PlayerWidth, PlayerHeight);
      oled.DrawRect(playerX, playerY, PlayerWidth, PlayerHeight, 1);
      DrawDots(oled, bullets, player);
      DrawDots(oled, enemyBullets, player + PointSet(bullets));
      DrawBoxes(oled, enemies, EnemyWidth, EnemyHeight, player + PointSet(bullets) + PointSet(enemyBullets));
      PaintBlank(Scene(State()));
    }

    /** One pass of main's inner loop: the moves in their order, the collision check, the shots, the redraw. */
    method Step(now: real, pick: nat) returns (ok: bool)
      requires Valid()
      modifies this, oled, oled.link.bus
      ensures Valid() && fresh(oled.buffer)
      ensures State() == Frame(old(State()), now, pick)
      ensures oled.Shown() == Picture(State())
      ensures Sent(old(oled.link.bus.trace), oled.link.bus.trace, FlushFrames(oled.link.address, oled.buffer[..]), ok)
    {
      MoveBullets();
      MoveEnemies();
      MoveEnemyBullets();
      CheckCollisions();
      FireEnemyBullet(now, pick);
      MovePlayer();
      FireBullet(now);
      ok := Draw();
    }
  }
}
