/**
 * js/games/game1-logic.js: the obstacle game. The player's 30x30 box moves
 * with the arrow keys (or WASD) inside the game area, picks up 20x20
 * collectibles worth 10 points each, and loses on touching an obstacle or
 * when the 60-second clock runs out. Picking up the last collectible raises
 * the level and rebuilds the field with two more obstacles per level.
 *
 * `Math.random` is a stream of values in [0, 1), taken in groups: every
 * createObstacle call takes the next group of six (width, height, x, y,
 * speed, angle), every createCollectible call the first two of the next
 * group (x, y). The game counts the groups used so far. Positions and sizes
 * are reals. The browser's animation frames and the
 * one-second interval are events the caller delivers; `frameRequested`
 * records whether a frame callback is pending.
 */
module ObstacleGame {
  import opened Wrappers
  import UserStore
  import ScoreStore

  const GameId := "game1"
  const StartTime := 60
  const PlayerSpeed: real := 5.0
  /** The box the collision checks give the player, whatever its drawn size. */
  const PlayerSize: real := 30.0
  const CollectibleSize: real := 20.0
  const CollectibleCount := 5
  const CollectiblePoints := 10
  /** Milliseconds per normalised frame in `deltaTime`. */
  const FrameMs: real := 16.0
  /**
   * The points `hits` pickups are worth, ten apiece (the factor is written
   * as a numeral so that the solver sees a linear term).
   */
  function PointsFor(hits: int): int { 10 * hits }

  /** A score made of whole pickups. */
  predicate WholePoints(score: int) { score % 10 == 0 }

  /** A value `Math.random` can return. */
  type Unit = r: real | 0.0 <= r < 1.0

  /** The `Math.random` values one created obstacle or collectible takes, in order. */
  datatype Draws = Draws(r0: real, r1: real, r2: real, r3: real, r4: real, r5: real)

  /** Every value of the group lies in [0, 1). */
  predicate InUnit(g: Draws) {
    && 0.0 <= g.r0 < 1.0 && 0.0 <= g.r1 < 1.0 && 0.0 <= g.r2 < 1.0
    && 0.0 <= g.r3 < 1.0 && 0.0 <= g.r4 < 1.0 && 0.0 <= g.r5 < 1.0
  }

  /** A stream of `Math.random` results: every value lies in [0, 1). */
  ghost predicate RandomStream(random: nat -> Draws) {
    forall d: nat :: InUnit(random(d))
  }

  datatype Pos = Pos(x: real, y: real)

  /** An axis-aligned box: top-left corner, width and height. */
  datatype Rect = Rect(x: real, y: real, width: real, height: real)

  /**
   * An obstacle's box, its speed, and its heading as a fraction of a full
   * turn (the angle is `turn * 2 * Math.PI`).
   */
  datatype Obstacle = Obstacle(box: Rect, speed: real, turn: real)

  /** isColliding(rect1, rect2): the boxes overlap strictly on both axes. */
  predicate IsColliding(a: Rect, b: Rect) {
    a.x < b.x + b.width && a.x + a.width > b.x && a.y < b.y + b.height && a.y + a.height > b.y
  }

  /** A point strictly inside a box. */
  predicate Interior(r: Rect, px: real, py: real) {
    r.x < px < r.x + r.width && r.y < py < r.y + r.height
  }

  function Max(a: real, b: real): real { if a >= b then a else b }
  function Min(a: real, b: real): real { if a <= b then a else b }

  /**
   * For boxes of positive size, isColliding holds exactly when some point
   * lies inside both; boxes that only share an edge or a corner do not
   * collide, and the test does not depend on the order of its arguments.
   */
  lemma CollidingMeansOverlap(a: Rect, b: Rect)
    requires a.width > 0.0 && a.height > 0.0 && b.width > 0.0 && b.height > 0.0
    ensures IsColliding(a, b) <==> exists px, py :: Interior(a, px, py) && Interior(b, px, py)
    ensures IsColliding(a, b) <==> IsColliding(b, a)
  {
    if IsColliding(a, b) {
      var px := (Max(a.x, b.x) + Min(a.x + a.width, b.x + b.width)) / 2.0;
      var py := (Max(a.y, b.y) + Min(a.y + a.height, b.y + b.height)) / 2.0;
      assert Interior(a, px, py) && Interior(b, px, py);
    }
  }

  /** Boxes that meet along a vertical edge do not collide. */
  lemma TouchingDoesNotCollide(a: Rect, b: Rect)
    requires a.x + a.width == b.x
    ensures !IsColliding(a, b) && !IsColliding(b, a)
  {
  }

  /** A key counts as held once keydown set it and until keyup cleared it. */
  predicate Held(keys: map<string, bool>, key: string) {
    key in keys && keys[key]
  }

  /** The keys movePlayer reads for each direction. */
  predicate LeftHeld(keys: map<string, bool>) { Held(keys, "ArrowLeft") || Held(keys, "a") }
  predicate RightHeld(keys: map<string, bool>) { Held(keys, "ArrowRight") || Held(keys, "d") }
  predicate UpHeld(keys: map<string, bool>) { Held(keys, "ArrowUp") || Held(keys, "w") }
  predicate DownHeld(keys: map<string, bool>) { Held(keys, "ArrowDown") || Held(keys, "s") }

  /**
   * movePlayer on one axis: a step of `step` pixels back, then forth, each
   * clamped to [0, max]. A position inside [0, max] stays inside and moves
   * by at most one step; with neither key held it stays put.
   */
  function Axis(v: real, back: bool, forth: bool, step: real, max: real): (r: real)
    ensures step >= 0.0 && 0.0 <= v <= max ==> 0.0 <= r <= max && v - step <= r <= v + step
    ensures !back && !forth ==> r == v
  {
    var v1 := if back then Max(0.0, v - step) else v;
    if forth then Min(max, v1 + step) else v1
  }

  /**
   * movePlayer's position update for a step of `step` pixels: left, then
   * right on x, up, then down on y.
   */
  function Move(p: Pos, keys: map<string, bool>, step: real, maxX: real, maxY: real): Pos {
    Pos(Axis(p.x, LeftHeld(keys), RightHeld(keys), step, maxX),
        Axis(p.y, UpHeld(keys), DownHeld(keys), step, maxY))
  }

  /**
   * A box of length `size` placed at a random fraction of the free length
   * `w - size` stays within [0, w].
   */
  lemma Placed(u: Unit, w: real, size: real)
    ensures size <= w ==> 0.0 <= u * (w - size) && u * (w - size) + size <= w
  {
    if size <= w {
      var v := w - size;
      NonNegativeProduct(u, v);
      NonNegativeProduct(1.0 - u, v);
      assert (1.0 - u) * v == v - u * v;
    }
  }

  lemma NonNegativeProduct(a: real, b: real)
    requires a >= 0.0 && b >= 0.0
    ensures a * b >= 0.0
  {
  }

  lemma PositiveProduct(a: real, b: real)
    requires a > 0.0 && b > 0.0
    ensures a * b > 0.0
  {
  }

  /** A fraction of a non-negative `n` lies in [0, n), and is 0 only for n = 0. */
  lemma Fraction(u: Unit, n: real)
    requires n >= 0.0
    ensures 0.0 <= u * n
    ensures n > 0.0 ==> u * n < n
  {
    NonNegativeProduct(u, n);
    if n > 0.0 {
      PositiveProduct(1.0 - u, n);
      assert (1.0 - u) * n == n - u * n;
    }
  }

  /** 3 + level * 2 obstacles on each level. */
  function ObstacleCount(level: nat): nat {
    3 + level * 2
  }

  /** createObstacle with the values of group d: size, position, speed and heading. */
  function NewObstacle(random: nat -> Draws, d: nat, level: nat, w: real, h: real): Obstacle {
    var g := random(d);
    var width := 30.0 + g.r0 * 50.0;
    var height := 30.0 + g.r1 * 50.0;
    Obstacle(Rect(g.r2 * (w - width), g.r3 * (h - height), width, height),
             1.0 + g.r4 * level as real, g.r5)
  }

  /**
   * A new obstacle is 30 to 80 pixels wide and high, lies inside an area
   * large enough for it, and moves at a speed in [1, 1 + level).
   */
  lemma ObstacleShape(random: nat -> Draws, d: nat, level: nat, w: real, h: real)
    requires RandomStream(random)
    ensures var o := NewObstacle(random, d, level, w, h);
      && 30.0 <= o.box.width < 80.0 && 30.0 <= o.box.height < 80.0
      && (o.box.width <= w ==> 0.0 <= o.box.x && o.box.x + o.box.width <= w)
      && (o.box.height <= h ==> 0.0 <= o.box.y && o.box.y + o.box.height <= h)
      && (level >= 1 ==> 1.0 <= o.speed < 1.0 + level as real)
      && 0.0 <= o.turn < 1.0
  {
    var g := random(d);
    assert InUnit(g);
    var width := 30.0 + g.r0 * 50.0;
    var height := 30.0 + g.r1 * 50.0;
    var n := level as real;
    var o := NewObstacle(random, d, level, w, h);
    assert o == Obstacle(Rect(g.r2 * (w - width), g.r3 * (h - height), width, height), 1.0 + g.r4 * n, g.r5);
    Placed(g.r2, w, width);
    Placed(g.r3, h, height);
    assert level >= 1 ==> n >= 1.0;
    Fraction(g.r4, n);
  }

  /** The first `count` obstacles createObstacles builds from group `d` on. */
  function Obstacles(random: nat -> Draws, d: nat, count: nat, level: nat, w: real, h: real): (r: seq<Obstacle>)
    ensures |r| == count
  {
    if count == 0 then []
    else Obstacles(random, d, count - 1, level, w, h) + [NewObstacle(random, d + (count - 1), level, w, h)]
  }

  /** One more obstacle is one more at the end, from the next group. */
  lemma ObstaclesStep(random: nat -> Draws, d: nat, i: nat, level: nat, w: real, h: real)
    ensures Obstacles(random, d, i + 1, level, w, h) ==
      Obstacles(random, d, i, level, w, h) + [NewObstacle(random, d + i, level, w, h)]
  {
  }

  /** Obstacle k is built from group d + k. */
  lemma {:induction false} ObstaclesAt(random: nat -> Draws, d: nat, count: nat, level: nat, w: real, h: real)
    ensures forall k :: 0 <= k < count ==>
      Obstacles(random, d, count, level, w, h)[k] == NewObstacle(random, d + k, level, w, h)
  {
    if count > 0 {
      ObstaclesAt(random, d, count - 1, level, w, h);
    }
  }

  /** createCollectible with the first two values of group d: a 20x20 box. */
  function NewCollectible(random: nat -> Draws, d: nat, w: real, h: real): (c: Rect)
    ensures c.width == CollectibleSize && c.height == CollectibleSize
  {
    var g := random(d);
    Rect(g.r0 * (w - CollectibleSize), g.r1 * (h - CollectibleSize), CollectibleSize, CollectibleSize)
  }

  /** A new collectible lies inside an area at least 20 pixels wide and high. */
  lemma CollectibleInside(random: nat -> Draws, d: nat, w: real, h: real)
    requires RandomStream(random)
    ensures var c := NewCollectible(random, d, w, h);
      && (CollectibleSize <= w ==> 0.0 <= c.x && c.x + c.width <= w)
      && (CollectibleSize <= h ==> 0.0 <= c.y && c.y + c.height <= h)
  {
    Placed(random(d).r0, w, CollectibleSize);
    Placed(random(d).r1, h, CollectibleSize);
  }

  /** The first `count` collectibles createCollectibles builds from group `d` on. */
  function Collectibles(random: nat -> Draws, d: nat, count: nat, w: real, h: real): (r: seq<Rect>)
    ensures |r| == count
  {
    if count == 0 then []
    else Collectibles(random, d, count - 1, w, h) + [NewCollectible(random, d + (count - 1), w, h)]
  }

  /** One more collectible is one more at the end, from the next group. */
  lemma CollectiblesStep(random: nat -> Draws, d: nat, i: nat, w: real, h: real)
    ensures Collectibles(random, d, i + 1, w, h) ==
      Collectibles(random, d, i, w, h) + [NewCollectible(random, d + i, w, h)]
  {
  }

  /** Collectible k is built from group d + k. */
  lemma {:induction false} CollectiblesAt(random: nat -> Draws, d: nat, count: nat, w: real, h: real)
    ensures forall k :: 0 <= k < count ==>
      Collectibles(random, d, count, w, h)[k] == NewCollectible(random, d + k, w, h)
  {
    if count > 0 {
      CollectiblesAt(random, d, count - 1, w, h);
    }
  }

  /** Every collectible createCollectibles builds is 20x20. */
  lemma {:induction false} CollectiblesSized(random: nat -> Draws, d: nat, count: nat, w: real, h: real)
    ensures forall c :: c in Collectibles(random, d, count, w, h) ==>
      c.width == CollectibleSize && c.height == CollectibleSize
  {
    if count > 0 {
      CollectiblesSized(random, d, count - 1, w, h);
    }
  }

  /** The player's hit box at a position. */
  function PlayerBox(p: Pos): Rect {
    Rect(p.x, p.y, PlayerSize, PlayerSize)
  }

  /** The collectibles the player's box does not touch, in their order. */
  function Keep(box: Rect, cs: seq<Rect>): seq<Rect> {
    if cs == [] then []
    else (if IsColliding(box, cs[0]) then [] else [cs[0]]) + Keep(box, cs[1..])
  }

  /** How many collectibles the player's box touches. */
  function Hits(box: Rect, cs: seq<Rect>): nat {
    if cs == [] then 0
    else (if IsColliding(box, cs[0]) then 1 else 0) + Hits(box, cs[1..])
  }

  /**
   * The pickup pass loses nothing and invents nothing: every collectible is
   * either touched and counted, or kept; what is kept is untouched and was
   * there before.
   */
  lemma {:induction false} PickupAccounts(box: Rect, cs: seq<Rect>)
    ensures |Keep(box, cs)| + Hits(box, cs) == |cs|
    ensures forall c :: c in Keep(box, cs) ==> c in cs && !IsColliding(box, c)
    ensures forall c :: c in cs && !IsColliding(box, c) ==> c in Keep(box, cs)
    ensures Hits(box, cs) == 0 <==> Keep(box, cs) == cs
  {
    if cs != [] {
      PickupAccounts(box, cs[1..]);
      assert cs == [cs[0]] + cs[1..];
      if Hits(box, cs[1..]) != 0 {
        assert |Keep(box, cs[1..])| < |cs[1..]|;
      }
    }
  }

  /** Peeling the last-but-rest element off a suffix, as the backward scan does. */
  lemma PickupStep(box: Rect, cs: seq<Rect>, i: nat)
    requires i < |cs|
    ensures Keep(box, cs[i..]) == (if IsColliding(box, cs[i]) then [] else [cs[i]]) + Keep(box, cs[i + 1..])
    ensures Hits(box, cs[i..]) == (if IsColliding(box, cs[i]) then 1 else 0) + Hits(box, cs[i + 1..])
  {
    assert cs[i..][0] == cs[i];
    assert cs[i..][1..] == cs[i + 1..];
  }

  /** Adding whole pickups keeps a score a multiple of the pickup value. */
  lemma WholePickups(s0: int, hits: nat)
    requires WholePoints(s0)
    ensures WholePoints(s0 + PointsFor(hits))
  {
    var q := s0 / 10;
    assert s0 + PointsFor(hits) == 10 * (q + hits);
  }

  /** Whether the pickup pass takes the last collectible left. */
  predicate Cleared(box: Rect, cs: seq<Rect>) {
    Hits(box, cs) > 0 && Keep(box, cs) == []
  }

  /**
   * One step of the backward scan over `cs` at index `i`, where `current`
   * is the list left by the steps above `i`: entry `i` is still `cs[i]`;
   * splicing it out, or keeping it, gives the list for the suffix from `i`;
   * and the list is empty only once the whole of `cs` has been cleared.
   */
  lemma ScanStep(box: Rect, cs: seq<Rect>, i: nat, current: seq<Rect>)
    requires i < |cs| && current == cs[..i + 1] + Keep(box, cs[i + 1..])
    ensures i < |current| && current[i] == cs[i]
    ensures IsColliding(box, cs[i]) ==> current[..i] + current[i + 1..] == cs[..i] + Keep(box, cs[i..])
    ensures !IsColliding(box, cs[i]) ==> current == cs[..i] + Keep(box, cs[i..])
    ensures Hits(box, cs[i..]) == (if IsColliding(box, cs[i]) then 1 else 0) + Hits(box, cs[i + 1..])
    ensures |cs[..i] + Keep(box, cs[i..])| == 0 ==> i == 0 && cs[i..] == cs
  {
    PickupStep(box, cs, i);
    assert current[..i] == cs[..i];
    assert current[i + 1..] == Keep(box, cs[i + 1..]);
    assert cs[..i + 1] == cs[..i] + [cs[i]];
  }

  /** When the scan has passed index 0 the suffix is the whole list. */
  lemma ScanDone(cs: seq<Rect>)
    ensures cs[0..] == cs && cs[..0] == []
  {
  }

  /** Whether some obstacle touches the player's box. */
  predicate HitsObstacle(box: Rect, obstacles: seq<Obstacle>) {
    exists j :: 0 <= j < |obstacles| && IsColliding(box, obstacles[j].box)
  }

  /** The score log after gameOver saved `score` for whoever is signed in. */
  function Saved(m: ScoreStore.Scores, session: Option<UserStore.Session>, score: int, now: int): ScoreStore.Scores {
    if session.Some? then ScoreStore.WithEntry(m, session.value.user.id, GameId, ScoreStore.Entry(score, now)) else m
  }

  class Game {
    var score: int
    var level: nat
    var timeLeft: int
    var isGameOver: bool
    var obstacles: seq<Obstacle>
    var collectibles: seq<Rect>
    var pos: Pos
    var keys: map<string, bool>
    var lastTime: real
    /** Whether the one-second interval is set. */
    var timerRunning: bool
    /** Whether a requestAnimationFrame callback for gameLoop is pending. */
    var frameRequested: bool
    /** How many groups of `Math.random` values have been used. */
    var drawn: nat

    /** The game area's bounding box size, used for placement. */
    const areaWidth: real
    const areaHeight: real
    /** The game area's and the player element's client sizes, used for clamping. */
    const clientWidth: real
    const clientHeight: real
    const playerWidth: real
    const playerHeight: real
    /** The values `Math.random` returns, in order. */
    const random: nat -> Draws
    const users: UserStore.UserStorage
    const store: ScoreStore.GameStorage

    /**
     * The bookkeeping the game keeps: the obstacle count of the level, one to
     * five 20x20 collectibles, a score made of 10-point pickups, a running
     * clock with time left exactly while the game is on.
     */
    ghost predicate Valid()
      reads this`level, this`obstacles, this`collectibles, this`score, this`timerRunning, this`isGameOver, this`timeLeft
    {
      && level >= 1
      && |obstacles| == ObstacleCount(level)
      && 1 <= |collectibles| <= CollectibleCount
      && (forall c :: c in collectibles ==> c.width == CollectibleSize && c.height == CollectibleSize)
      && score >= 0 && WholePoints(score)
      && timerRunning == !isGameOver
      && (!isGameOver ==> timeLeft >= 1)
    }

    /**
     * The field levelUp builds from level `l0` with draws from `d0` on: the
     * next level, its obstacles, then five collectibles.
     */
    ghost predicate FreshLevel(l0: nat, d0: nat)
      reads this`level, this`obstacles, this`collectibles, this`drawn
    {
      level == l0 + 1 && BuiltFrom(d0)
    }

    /**
     * The obstacles and then the collectibles createObstacles and
     * createCollectibles build for the current level from group `d0` on.
     */
    ghost predicate BuiltFrom(d0: nat)
      reads this`level, this`obstacles, this`collectibles, this`drawn
    {
      && obstacles == Obstacles(random, d0, ObstacleCount(level), level, areaWidth, areaHeight)
      && collectibles == Collectibles(random, d0 + ObstacleCount(level), CollectibleCount, areaWidth, areaHeight)
      && drawn == d0 + ObstacleCount(level) + CollectibleCount
    }

    /** A field built for the level has the level's obstacle count and five 20x20 collectibles. */
    lemma FieldShape(d0: nat)
      requires BuiltFrom(d0)
      ensures |obstacles| == ObstacleCount(level) && |collectibles| == CollectibleCount
      ensures forall c :: c in collectibles ==> c.width == CollectibleSize && c.height == CollectibleSize
    {
      CollectiblesSized(random, d0 + ObstacleCount(level), CollectibleCount, areaWidth, areaHeight);
    }

    /** Whether the game looks running but no animation frame will ever come. */
    predicate Stalled()
      reads this`isGameOver, this`frameRequested
    {
      !isGameOver && !frameRequested
    }

    /** The start position: centred horizontally, 50 pixels above the bottom. */
    function StartPos(): Pos
    {
      Pos(areaWidth / 2.0 - 15.0, areaHeight - 50.0)
    }

    /** The constructor and init(): a fresh level-1 field, the clock and the loop started. */
    constructor (areaWidth: real, areaHeight: real, clientWidth: real, clientHeight: real,
                 playerWidth: real, playerHeight: real, random: nat -> Draws,
                 users: UserStore.UserStorage, store: ScoreStore.GameStorage, now: real)
      ensures Valid() && !Stalled()
      ensures score == 0 && level == 1 && timeLeft == StartTime && !isGameOver && keys == map[]
      ensures pos == Pos(areaWidth / 2.0 - 15.0, areaHeight - 50.0)
      ensures FreshLevel(0, 0)
      ensures lastTime == now
      ensures this.users == users && this.store == store && this.random == random
    {
      this.areaWidth := areaWidth;
      this.areaHeight := areaHeight;
      this.clientWidth := clientWidth;
      this.clientHeight := clientHeight;
      this.playerWidth := playerWidth;
      this.playerHeight := playerHeight;
      this.random := random;
      this.users := users;
      this.store := store;
      score := 0;
      level := 1;
      timeLeft := StartTime;
      isGameOver := false;
      obstacles := [];
      collectibles := [];
      keys := map[];
      drawn := 0;
      pos := Pos(0.0, 0.0);
      new;
      Init(now);
      FieldShape(0);
    }

    /**
     * init(): the player at the start, the field built for the current
     * level, the clock and the animation loop started. The key listeners
     * and the restart button's listener are not modelled.
     */
    method Init(now: real)
      modifies this`pos, this`obstacles, this`collectibles, this`drawn, this`lastTime, this`frameRequested, this`timerRunning
      ensures pos == StartPos() && BuiltFrom(old(drawn))
      ensures lastTime == now && frameRequested && timerRunning
    {
      ResetPlayerPosition();
      CreateField();
      lastTime := now;
      frameRequested := true;
      timerRunning := true;
    }

    /** resetPlayerPosition. */
    method ResetPlayerPosition()
      modifies this`pos
      ensures pos == StartPos()
    {
      pos := Pos(areaWidth / 2.0 - 15.0, areaHeight - 50.0);
    }

    /** handleKeyDown: the key is held. */
    method HandleKeyDown(key: string)
      modifies this`keys
      ensures keys == old(keys)[key := true] && Held(keys, key)
    {
      keys := keys[key := true];
    }

    /** handleKeyUp: the key is released. */
    method HandleKeyUp(key: string)
      modifies this`keys
      ensures keys == old(keys)[key := false] && !Held(keys, key)
    {
      keys := keys[key := false];
    }

    /** createObstacle: one obstacle from the next group of values. */
    method CreateObstacle()
      modifies this`obstacles, this`drawn
      ensures obstacles == old(obstacles) + [NewObstacle(random, old(drawn), level, areaWidth, areaHeight)]
      ensures drawn == old(drawn) + 1
    {
      obstacles := obstacles + [NewObstacle(random, drawn, level, areaWidth, areaHeight)];
      drawn := drawn + 1;
    }

    /** createObstacles: the old obstacles are dropped and 3 + level * 2 new ones made. */
    method CreateObstacles()
      modifies this`obstacles, this`drawn
      ensures obstacles == Obstacles(random, old(drawn), ObstacleCount(level), level, areaWidth, areaHeight)
      ensures drawn == old(drawn) + ObstacleCount(level)
    {
      obstacles := [];
      var numObstacles := 3 + level * 2;
      ghost var lv, d0 := level, drawn;
      for i := 0 to numObstacles
        invariant obstacles == Obstacles(random, d0, i, lv, areaWidth, areaHeight)
        invariant drawn == d0 + i
      {
        ObstaclesStep(random, d0, i, lv, areaWidth, areaHeight);
        CreateObstacle();
      }
    }

    /** createCollectible: one collectible from the next group of values. */
    method CreateCollectible()
      modifies this`collectibles, this`drawn
      ensures collectibles == old(collectibles) + [NewCollectible(random, old(drawn), areaWidth, areaHeight)]
      ensures drawn == old(drawn) + 1
    {
      collectibles := collectibles + [NewCollectible(random, drawn, areaWidth, areaHeight)];
      drawn := drawn + 1;
    }

    /** createCollectibles: the old collectibles are dropped and five new ones made. */
    method CreateCollectibles()
      modifies this`collectibles, this`drawn
      ensures collectibles == Collectibles(random, old(drawn), CollectibleCount, areaWidth, areaHeight)
      ensures drawn == old(drawn) + CollectibleCount
    {
      collectibles := [];
      var numCollectibles := 5;
      ghost var d0 := drawn;
      for i := 0 to numCollectibles
        invariant collectibles == Collectibles(random, d0, i, areaWidth, areaHeight)
        invariant drawn == d0 + i
      {
        CollectiblesStep(random, d0, i, areaWidth, areaHeight);
        CreateCollectible();
      }
    }

    /** levelUp: one level higher, with a new field for it. */
    method LevelUp()
      modifies this`level, this`obstacles, this`collectibles, this`drawn
      ensures FreshLevel(old(level), old(drawn))
    {
      level := level + 1;
      CreateField();
    }

    /**
     * createObstacles() followed by createCollectibles(), as init, levelUp
     * and restart call them: the field for the current level.
     */
    method CreateField()
      modifies this`obstacles, this`collectibles, this`drawn
      ensures BuiltFrom(old(drawn))
    {
      CreateObstacles();
      ghost var obs := obstacles;
      CreateCollectibles();
      assert obstacles == obs;
    }

    /** movePlayer(deltaTime): the held keys move the player `5 * deltaTime` pixels. */
    method MovePlayer(deltaTime: real)
      modifies this`pos
      ensures pos == Move(old(pos), keys, PlayerSpeed * deltaTime, clientWidth - playerWidth, clientHeight - playerHeight)
    {
      var moveSpeed := PlayerSpeed * deltaTime;
      var x, y := pos.x, pos.y;
      if LeftHeld(keys) {
        x := Max(0.0, x - moveSpeed);
      }
      if RightHeld(keys) {
        var maxX := clientWidth - playerWidth;
        x := Min(maxX, x + moveSpeed);
      }
      if UpHeld(keys) {
        y := Max(0.0, y - moveSpeed);
      }
      if DownHeld(keys) {
        var maxY := clientHeight - playerHeight;
        y := Min(maxY, y + moveSpeed);
      }
      pos := Pos(x, y);
    }

    /**
     * gameOver: the game stops, the clock is cleared and the score is saved
     * for the user signed in at that moment, if any.
     */
    method GameOver(now: int)
      modifies this`isGameOver, this`timerRunning, store
      ensures isGameOver && !timerRunning
      ensures store.scores == Saved(old(store.scores), users.session, score, now)
    {
      isGameOver := true;
      timerRunning := false;
      var currentUser := users.GetCurrentUser();
      if currentUser.Some? {
        store.SaveScore(currentUser.value.user.id, GameId, score, now);
      }
    }

    /**
     * The state the collectible scan leaves, from score `s0`, collectibles
     * `cs`, level `l0`, obstacles `obs0` and draw count `d0`: 10 points per
     * collectible the box touches; a new level if it touched them all, and
     * otherwise the untouched ones in their order.
     */
    ghost predicate PickedUp(box: Rect, s0: int, cs: seq<Rect>, l0: nat, obs0: seq<Obstacle>, d0: nat)
      reads this`score, this`collectibles, this`level, this`obstacles, this`drawn
    {
      && score == s0 + PointsFor(Hits(box, cs))
      && (Cleared(box, cs) ==> FreshLevel(l0, d0))
      && (!Cleared(box, cs) ==> level == l0 && obstacles == obs0 && drawn == d0 && collectibles == Keep(box, cs))
    }

    /** The scan keeps the bookkeeping of Valid. */
    lemma PickUpKeepsValid(box: Rect, s0: int, cs: seq<Rect>, l0: nat, obs0: seq<Obstacle>, d0: nat)
      requires PickedUp(box, s0, cs, l0, obs0, d0)
      requires l0 >= 1 && |obs0| == ObstacleCount(l0)
      requires 1 <= |cs| <= CollectibleCount
      requires forall c :: c in cs ==> c.width == CollectibleSize && c.height == CollectibleSize
      requires s0 >= 0 && WholePoints(s0)
      requires timerRunning == !isGameOver && (!isGameOver ==> timeLeft >= 1)
      ensures Valid()
    {
      WholePickups(s0, Hits(box, cs));
      if Cleared(box, cs) {
        FieldShape(d0);
      } else {
        PickupAccounts(box, cs);
      }
    }

    /**
     * The collectible half of checkCollisions for the player's hit box
     * `box`: scanning from the last collectible down, every one the box
     * touches is spliced out for 10 points, and splicing out the last one
     * left calls levelUp.
     */
    method PickUp(box: Rect)
      modifies this`score, this`collectibles, this`level, this`obstacles, this`drawn
      ensures PickedUp(box, old(score), old(collectibles), old(level), old(obstacles), old(drawn))
    {
      ghost var cs := collectibles;
      ghost var levelled := false;
      var i := |collectibles| - 1;
      while i >= 0
        invariant -1 <= i < |cs|
        invariant score == old(score) + PointsFor(Hits(box, cs[i + 1..]))
        invariant !levelled ==>
          && collectibles == cs[..i + 1] + Keep(box, cs[i + 1..])
          && level == old(level) && obstacles == old(obstacles) && drawn == old(drawn)
          && (collectibles == [] ==> Hits(box, cs[i + 1..]) == 0)
        invariant levelled ==> i == -1 && Cleared(box, cs) && FreshLevel(old(level), old(drawn))
      {
        ScanStep(box, cs, i, collectibles);
        if IsColliding(box, collectibles[i]) {
          collectibles := collectibles[..i] + collectibles[i + 1..];
          score := score + CollectiblePoints;
          if |collectibles| == 0 {
            LevelUp();
            levelled := true;
          }
        }
        i := i - 1;
      }
      ScanDone(cs);
    }

    /**
     * The state the obstacle scan leaves, from the flags `over0` and
     * `running0` and the saved scores `m0`: touching an obstacle ends the
     * game and saves the score; otherwise nothing changes.
     */
    ghost predicate ObstacleChecked(box: Rect, over0: bool, running0: bool, m0: ScoreStore.Scores, now: int)
      reads this`obstacles, this`isGameOver, this`timerRunning, this`score, store`scores, users`session
    {
      && (HitsObstacle(box, obstacles) ==>
            isGameOver && !timerRunning && store.scores == Saved(m0, users.session, score, now))
      && (!HitsObstacle(box, obstacles) ==>
            isGameOver == over0 && timerRunning == running0 && store.scores == m0)
    }

    /**
     * The obstacle half of checkCollisions: the first obstacle the player
     * touches ends the game and stops the scan.
     */
    method HitObstacles(now: int)
      requires Valid()
      modifies this`isGameOver, this`timerRunning, store
      ensures Valid()
      ensures ObstacleChecked(PlayerBox(pos), old(isGameOver), old(timerRunning), old(store.scores), now)
    {
      var box := PlayerBox(pos);
      for j := 0 to |obstacles|
        invariant forall k :: 0 <= k < j ==> !IsColliding(box, obstacles[k].box)
      {
        if IsColliding(box, obstacles[j].box) {
          GameOver(now);
          return;
        }
      }
    }

    /** checkCollisions: the pickups, then the obstacles of the (possibly new) level. */
    method CheckCollisions(now: int)
      requires Valid()
      modifies this`score, this`collectibles, this`level, this`obstacles, this`drawn, this`isGameOver, this`timerRunning, store
      ensures Valid()
      ensures PickedUp(PlayerBox(pos), old(score), old(collectibles), old(level), old(obstacles), old(drawn))
      ensures ObstacleChecked(PlayerBox(pos), old(isGameOver), old(timerRunning), old(store.scores), now)
    {
      var box := PlayerBox(pos);
      PickUp(box);
      PickUpKeepsValid(box, old(score), old(collectibles), old(level), old(obstacles), old(drawn));
      ghost var picked := PickedUp(box, old(score), old(collectibles), old(level), old(obstacles), old(drawn));
      assert picked;
      assert isGameOver == old(isGameOver) && timerRunning == old(timerRunning) && store.scores == old(store.scores);
      HitObstacles(now);
      assert picked == PickedUp(box, old(score), old(collectibles), old(level), old(obstacles), old(drawn));
    }

    /**
     * updateTimer, the one-second interval: nothing once the game is over;
     * otherwise one second less, and the game ends when none is left.
     */
    method UpdateTimer(now: int)
      requires Valid()
      modifies this`timeLeft, this`isGameOver, this`timerRunning, store
      ensures Valid()
      ensures old(isGameOver) ==> timeLeft == old(timeLeft) && isGameOver && store.scores == old(store.scores)
      ensures !old(isGameOver) ==> timeLeft == old(timeLeft) - 1
      ensures !old(isGameOver) ==> (isGameOver <==> timeLeft <= 0)
      ensures !old(isGameOver) && timeLeft <= 0 ==> store.scores == Saved(old(store.scores), users.session, score, now)
      ensures !old(isGameOver) && timeLeft > 0 ==> store.scores == old(store.scores)
    {
      if isGameOver {
        return;
      }
      timeLeft := timeLeft - 1;
      if timeLeft <= 0 {
        GameOver(now);
      }
    }

    /**
     * gameLoop(timestamp): nothing once the game is over; otherwise a frame
     * of play.
     */
    method GameLoop(timestamp: real, now: int)
      requires Valid()
      modifies this`lastTime, this`pos, this`score, this`collectibles, this`level, this`obstacles, this`drawn,
        this`isGameOver, this`timerRunning, this`frameRequested, store
      ensures Valid()
      ensures old(isGameOver) ==>
        && lastTime == old(lastTime) && pos == old(pos) && frameRequested == old(frameRequested)
        && Unmoved(old(score), old(collectibles), old(level), old(obstacles), old(drawn))
        && isGameOver && store.scores == old(store.scores)
      ensures !old(isGameOver) ==>
        && lastTime == timestamp && frameRequested
        && pos == Move(old(pos), keys, PlayerSpeed * ((timestamp - old(lastTime)) / FrameMs),
                       clientWidth - playerWidth, clientHeight - playerHeight)
        && PickedUp(PlayerBox(pos), old(score), old(collectibles), old(level), old(obstacles), old(drawn))
        && ObstacleChecked(PlayerBox(pos), old(isGameOver), old(timerRunning), old(store.scores), now)
    {
      if isGameOver {
        return;
      }
      Play(timestamp, now);
    }

    /**
     * A frame of play: the player moves by the time since the last frame in
     * 16 ms units, the collisions are checked and the next frame is
     * requested (even when the check has just ended the game). The request
     * is recorded first; nothing in the frame reads it.
     */
    method Play(timestamp: real, now: int)
      requires Valid()
      modifies this`lastTime, this`pos, this`score, this`collectibles, this`level, this`obstacles, this`drawn,
        this`isGameOver, this`timerRunning, this`frameRequested, store
      ensures Valid()
      ensures lastTime == timestamp && frameRequested
      ensures pos == Move(old(pos), keys, PlayerSpeed * ((timestamp - old(lastTime)) / FrameMs),
                          clientWidth - playerWidth, clientHeight - playerHeight)
      ensures PickedUp(PlayerBox(pos), old(score), old(collectibles), old(level), old(obstacles), old(drawn))
      ensures ObstacleChecked(PlayerBox(pos), old(isGameOver), old(timerRunning), old(store.scores), now)
    {
      var deltaTime := (timestamp - lastTime) / FrameMs;
      lastTime := timestamp;
      frameRequested := true;
      MovePlayer(deltaTime);
      ghost var p, k := pos, keys;
      assert p == Move(old(pos), k, PlayerSpeed * ((timestamp - old(lastTime)) / FrameMs),
                       clientWidth - playerWidth, clientHeight - playerHeight);
      assert Unmoved(old(score), old(collectibles), old(level), old(obstacles), old(drawn));
      CheckCollisions(now);
      assert pos == p && keys == k;
    }

    /** Score, field and draw count are as they were. */
    ghost predicate Unmoved(s0: int, cs: seq<Rect>, l0: nat, obs0: seq<Obstacle>, d0: nat)
      reads this`score, this`collectibles, this`level, this`obstacles, this`drawn
    {
      score == s0 && collectibles == cs && level == l0 && obstacles == obs0 && drawn == d0
    }

    /**
     * The browser running the pending requestAnimationFrame callback: with
     * none pending nothing happens; otherwise the request is used up and
     * gameLoop runs, which asks for the next frame only while the game is on.
     */
    method AnimationFrame(timestamp: real, now: int)
      requires Valid()
      modifies this`lastTime, this`pos, this`score, this`collectibles, this`level, this`obstacles, this`drawn,
        this`isGameOver, this`timerRunning, this`frameRequested, store
      ensures Valid()
      ensures !old(frameRequested) ==>
        && lastTime == old(lastTime) && pos == old(pos) && !frameRequested
        && Unmoved(old(score), old(collectibles), old(level), old(obstacles), old(drawn))
        && isGameOver == old(isGameOver) && timerRunning == old(timerRunning) && store.scores == old(store.scores)
      ensures old(frameRequested) && old(isGameOver) ==>
        && !frameRequested && lastTime == old(lastTime) && pos == old(pos)
        && Unmoved(old(score), old(collectibles), old(level), old(obstacles), old(drawn))
        && isGameOver && store.scores == old(store.scores)
      ensures old(frameRequested) && !old(isGameOver) ==>
        && frameRequested && lastTime == timestamp
        && pos == Move(old(pos), keys, PlayerSpeed * ((timestamp - old(lastTime)) / FrameMs),
                       clientWidth - playerWidth, clientHeight - playerHeight)
        && PickedUp(PlayerBox(pos), old(score), old(collectibles), old(level), old(obstacles), old(drawn))
        && ObstacleChecked(PlayerBox(pos), old(isGameOver), old(timerRunning), old(store.scores), now)
    {
      if !frameRequested {
        return;
      }
      frameRequested := false;
      GameLoop(timestamp, now);
    }

    /**
     * restart(), as written: score, level, clock and field are reset and the
     * one-second interval is set again, but no animation frame is requested.
     * The loop stopped at the first frame after gameOver, so once that frame
     * has passed the restarted game is stalled: the clock runs, the player
     * cannot move and nothing is picked up or hit.
     */
    method Restart()
      modifies this`score, this`level, this`timeLeft, this`isGameOver, this`pos, this`obstacles,
        this`collectibles, this`drawn, this`timerRunning
      ensures Reset(old(drawn)) && pos == StartPos()
      ensures !old(frameRequested) ==> Stalled()
    {
      score := 0;
      level := 1;
      timeLeft := StartTime;
      isGameOver := false;
      ResetPlayerPosition();
      CreateField();
      timerRunning := true;
    }

    /**
     * The state restart leaves, with the field built from group `d0` on:
     * score 0, level 1, a full clock that runs, the game on.
     */
    ghost predicate Reset(d0: nat)
      reads this`score, this`level, this`timeLeft, this`isGameOver, this`timerRunning,
        this`obstacles, this`collectibles, this`drawn
    {
      && score == 0 && level == 1 && timeLeft == StartTime && !isGameOver && timerRunning
      && BuiltFrom(d0)
    }

    /** A reset game keeps the bookkeeping of Valid. */
    lemma ResetIsValid(d0: nat)
      requires Reset(d0)
      ensures Valid()
    {
      FieldShape(d0);
    }

    /**
     * restart() as evidently intended: as Restart, and the animation loop
     * started again the way init starts it, so the new game is never stalled.
     */
    method RestartAndResume(timestamp: real)
      modifies this`score, this`level, this`timeLeft, this`isGameOver, this`pos, this`obstacles,
        this`collectibles, this`drawn, this`timerRunning, this`lastTime, this`frameRequested
      ensures Valid() && !Stalled()
      ensures Reset(old(drawn)) && pos == StartPos()
      ensures frameRequested && lastTime == timestamp
    {
      Restart();
      lastTime := timestamp;
      frameRequested := true;
      ResetIsValid(old(drawn));
    }
  }

  /**
   * A game over followed by its last animation frame and a click on the
   * restart button, with the code as written: the new game is stalled.
   */
  method RestartAfterGameOver(areaWidth: real, areaHeight: real, clientWidth: real, clientHeight: real,
                              playerWidth: real, playerHeight: real, random: nat -> Draws,
                              start: real, frame: real, now: int)
    returns (game: Game)
    ensures game.Valid() && game.Stalled() && game.timerRunning
  {
    var users := new UserStore.UserStorage();
    var store := new ScoreStore.GameStorage();
    game := new Game(areaWidth, areaHeight, clientWidth, clientHeight, playerWidth, playerHeight,
                     random, users, store, start);
    game.GameOver(now);
    game.AnimationFrame(frame, now);
    ghost var d0 := game.drawn;
    game.Restart();
    game.ResetIsValid(d0);
  }

  /** The same events with the corrected restart: the new game keeps its loop. */
  method ResumeAfterGameOver(areaWidth: real, areaHeight: real, clientWidth: real, clientHeight: real,
                             playerWidth: real, playerHeight: real, random: nat -> Draws,
                             start: real, frame: real, now: int)
    returns (game: Game)
    ensures game.Valid() && !game.Stalled() && game.frameRequested
  {
    var users := new UserStore.UserStorage();
    var store := new ScoreStore.GameStorage();
    game := new Game(areaWidth, areaHeight, clientWidth, clientHeight, playerWidth, playerHeight,
                     random, users, store, start);
    game.GameOver(now);
    game.AnimationFrame(frame, now);
    game.RestartAndResume(frame);
  }
}
