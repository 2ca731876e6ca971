/** The vertical shooter: a player ship at the bottom of a 600 x 800 canvas fires upward at
    falling enemies, picks up power-ups that raise its firepower, and after 30 kills faces a boss
    that bounces left and right. The game keeps one mutable record and updates it step by step
    on every animation frame; here that record is the class `Game`, and each step of a frame is
    a method whose new state is stated as a function of the old one (`GameState`). Clock reads
    and `Math.random` values are parameters. */
module Shooter {

  import opened Seqs

  const CanvasWidth: real := 600.0
  const CanvasHeight: real := 800.0
  const PlayerWidth: real := 40.0
  const PlayerHeight: real := 30.0
  const EnemyWidth: real := 30.0
  const EnemyHeight: real := 30.0
  const BulletWidth: real := 4.0
  const BulletHeight: real := 10.0
  const PowerUpSize: real := 20.0
  const BossWidth: real := 100.0
  const BossHeight: real := 80.0

  /** Kills needed before the boss appears. */
  const BossThreshold: int := 30

  // ---------------------------------------------------------------------------
  // Game objects

  /** A game object's axis-aligned box: top-left corner, width and height. */
  datatype Rect = Rect(x: real, y: real, width: real, height: real)

  datatype Player = Player(box: Rect, speed: real, firepower: int)
  datatype Enemy = Enemy(box: Rect, speed: real, hp: int, color: string)
  datatype Bullet = Bullet(box: Rect, speed: real)
  datatype PowerUp = PowerUp(box: Rect, hp: int)
  datatype Boss = Boss(box: Rect, speed: real, hp: int, maxHp: int)

  /** The shot clock and the enemy spawn clock, in milliseconds. */
  datatype Clocks = Clocks(lastShot: int, shootDelay: int, spawnTimer: int, spawnDelay: int)

  /** The score and stage counters, the kill count, and whether a boss is out. */
  datatype Progress = Progress(score: int, stage: int, defeated: int, bossSpawned: bool)

  /** The whole mutable game record, together with the score and stage counters. */
  datatype GameState = GameState(
    player: Player,
    bullets: seq<Bullet>,
    enemies: seq<Enemy>,
    powerups: seq<PowerUp>,
    boss: Option<Boss>,
    keys: map<string, bool>,
    clocks: Clocks,
    progress: Progress,
    gameOver: bool,
    paused: bool)

  const StartPlayer: Player :=
    Player(Rect(CanvasWidth / 2.0 - PlayerWidth / 2.0, CanvasHeight - 100.0, PlayerWidth, PlayerHeight), 5.0, 1)

  /** The state a new game starts from, on mount and on restart. */
  const Initial: GameState :=
    GameState(StartPlayer, [], [], [], None, map[], Clocks(0, 200, 0, 1000), Progress(0, 1, 0, false), false, false)

  function Min(a: int, b: int): int { if a <= b then a else b }
  function MinReal(a: real, b: real): real { if a <= b then a else b }
  function MaxReal(a: real, b: real): real { if a >= b then a else b }

  /** The key is currently held down. */
  predicate Held(keys: map<string, bool>, k: string)
  {
    k in keys && keys[k]
  }

  // ---------------------------------------------------------------------------
  // Collision

  /** `checkCollision(a, b)`: the boxes overlap on both axes, with strict comparisons. */
  predicate Collides(a: Rect, b: Rect)
  {
    a.x < b.x + b.width && a.x + a.width > b.x && a.y < b.y + b.height && a.y + a.height > b.y
  }

  /** The point lies strictly inside the box. */
  predicate Inside(r: Rect, px: real, py: real)
  {
    r.x < px < r.x + r.width && r.y < py < r.y + r.height
  }

  /** For boxes of positive size the test is symmetric and means exactly that some point lies
      strictly inside both boxes; boxes that only share an edge do not collide. */
  lemma CollidesIffCommonPoint(a: Rect, b: Rect)
    requires a.width > 0.0 && a.height > 0.0 && b.width > 0.0 && b.height > 0.0
    ensures Collides(a, b) <==> Collides(b, a)
    ensures Collides(a, b) <==> exists px, py :: Inside(a, px, py) && Inside(b, px, py)
    ensures a.x + a.width == b.x || b.x + b.width == a.x || a.y + a.height == b.y || b.y + b.height == a.y
      ==> !Collides(a, b)
  {
    if Collides(a, b) {
      var px := (MaxReal(a.x, b.x) + MinReal(a.x + a.width, b.x + b.width)) / 2.0;
      var py := (MaxReal(a.y, b.y) + MinReal(a.y + a.height, b.y + b.height)) / 2.0;
      assert Inside(a, px, py) && Inside(b, px, py);
    }
  }

  // ---------------------------------------------------------------------------
  // Player movement and shooting

  /** The left move: `speed` to the left, stopping at the left edge. */
  function MoveLeft(p: Player): (r: Player)
    ensures r.box.x >= 0.0 && r.box.x >= p.box.x - p.speed
    ensures r.box.x == p.box.x - p.speed || (r.box.x == 0.0 && p.box.x - p.speed < 0.0)
    ensures p.speed >= 0.0 && p.box.width <= CanvasWidth && p.box.x <= CanvasWidth - p.box.width ==>
      r.box.x <= CanvasWidth - p.box.width
    ensures r == p.(box := r.box) && r.box == p.box.(x := r.box.x)
  {
    p.(box := p.box.(x := MaxReal(0.0, p.box.x - p.speed)))
  }

  /** The right move: `speed` to the right, stopping where the ship touches the right edge. */
  function MoveRight(p: Player): (r: Player)
    ensures r.box.x <= CanvasWidth - p.box.width && r.box.x <= p.box.x + p.speed
    ensures r.box.x == p.box.x + p.speed ||
            (r.box.x == CanvasWidth - p.box.width && p.box.x + p.speed > CanvasWidth - p.box.width)
    ensures p.speed >= 0.0 && p.box.x >= 0.0 && p.box.width <= CanvasWidth ==> r.box.x >= 0.0
    ensures r == p.(box := r.box) && r.box == p.box.(x := r.box.x)
  {
    p.(box := p.box.(x := MinReal(CanvasWidth - p.box.width, p.box.x + p.speed)))
  }

  /** The movement part of a frame: left if a left key is held, then right if a right key is. */
  function Steered(s: GameState): (t: GameState)
    ensures t == s.(player := t.player) && t.player == s.player.(box := t.player.box)
    ensures s.player.speed >= 0.0 && s.player.box.width <= CanvasWidth &&
            0.0 <= s.player.box.x <= CanvasWidth - s.player.box.width ==>
            0.0 <= t.player.box.x <= CanvasWidth - t.player.box.width
  {
    var p1 := if Held(s.keys, "ArrowLeft") || Held(s.keys, "a") then MoveLeft(s.player) else s.player;
    var p2 := if Held(s.keys, "ArrowRight") || Held(s.keys, "d") then MoveRight(p1) else p1;
    s.(player := p2)
  }

  function NewBullet(x: real, y: real): Bullet
  {
    Bullet(Rect(x, y, BulletWidth, BulletHeight), 10.0)
  }

  /** The bullets one shot adds: one, two or three by firepower, all at the ship's top edge,
      all within the ship's width, and placed mirror-symmetrically about its centre line. */
  function Volley(p: Player): (r: seq<Bullet>)
    ensures |r| == if p.firepower == 1 then 1 else if p.firepower == 2 then 2 else 3
    ensures forall i :: 0 <= i < |r| ==> r[i] == NewBullet(r[i].box.x, p.box.y)
    ensures p.box.width == PlayerWidth ==>
      forall i :: 0 <= i < |r| ==> p.box.x <= r[i].box.x && r[i].box.x + BulletWidth <= p.box.x + p.box.width
    ensures forall i :: 0 <= i < |r| ==> r[i].box.x + r[|r| - 1 - i].box.x + BulletWidth == 2.0 * p.box.x + p.box.width
  {
    var x, y, w := p.box.x, p.box.y, p.box.width;
    if p.firepower == 1 then
      [NewBullet(x + w / 2.0 - BulletWidth / 2.0, y)]
    else if p.firepower == 2 then
      [NewBullet(x + 10.0, y), NewBullet(x + w - 14.0, y)]
    else
      [NewBullet(x + 5.0, y), NewBullet(x + w / 2.0 - BulletWidth / 2.0, y), NewBullet(x + w - 9.0, y)]
  }

  /** `shoot()` at clock time `now`: too soon after the last shot it does nothing; otherwise it
      records the time and appends a volley. */
  function Shot(s: GameState, now: int): (t: GameState)
    ensures now - s.clocks.lastShot < s.clocks.shootDelay ==> t == s
    ensures now - s.clocks.lastShot >= s.clocks.shootDelay ==>
      t == s.(clocks := s.clocks.(lastShot := now), bullets := t.bullets) && |t.bullets| == |s.bullets| + |Volley(s.player)| &&
      t.bullets[..|s.bullets|] == s.bullets && t.bullets[|s.bullets|..] == Volley(s.player)
  {
    if now - s.clocks.lastShot < s.clocks.shootDelay then s
    else s.(clocks := s.clocks.(lastShot := now), bullets := s.bullets + Volley(s.player))
  }

  /** Within the delay after a shot, a second shot does nothing. */
  lemma ShotCooldown(s: GameState, now: int, later: int)
    requires now - s.clocks.lastShot >= s.clocks.shootDelay && later - now < s.clocks.shootDelay
    ensures Shot(Shot(s, now), later) == Shot(s, now)
    ensures |Shot(s, now).bullets| > |s.bullets|
  {
    var v := Volley(s.player);
    assert |v| >= 1;
  }

  // ---------------------------------------------------------------------------
  // Bullets, enemies and the boss move

  function Rise(b: Bullet): Bullet
  {
    b.(box := b.box.(y := b.box.y - b.speed))
  }

  /** Every bullet moved up by its speed. */
  function Lifted(bs: seq<Bullet>): (r: seq<Bullet>)
    ensures |r| == |bs| && forall i :: 0 <= i < |bs| ==> r[i] == Rise(bs[i])
  {
    seq(|bs|, i requires 0 <= i < |bs| => Rise(bs[i]))
  }

  /** A bullet stays while some of it is below the top edge. */
  predicate Aloft(b: Bullet)
  {
    b.box.y > -b.box.height
  }

  /** The bullet filter: every bullet moves up, and exactly the ones still on screen stay, in order. */
  function Risen(bs: seq<Bullet>): (r: seq<Bullet>)
    ensures IsSubsequence(r, Lifted(bs))
    ensures forall i :: 0 <= i < |r| ==> Aloft(r[i])
    ensures forall i :: 0 <= i < |bs| && Aloft(Rise(bs[i])) ==> Rise(bs[i]) in r
    ensures forall x :: multiset(r)[x] == if Aloft(x) then multiset(Lifted(bs))[x] else 0
  {
    var l := Lifted(bs);
    assert forall i :: 0 <= i < |bs| ==> l[i] == Rise(bs[i]);
    FilterCounts(l, Aloft);
    Filter(l, Aloft)
  }

  function Lower(e: Enemy): Enemy
  {
    e.(box := e.box.(y := e.box.y + e.speed))
  }

  /** Every enemy moved down by its speed. */
  function Lowered(es: seq<Enemy>): (r: seq<Enemy>)
    ensures |r| == |es| && forall i :: 0 <= i < |es| ==> r[i] == Lower(es[i])
  {
    seq(|es|, i requires 0 <= i < |es| => Lower(es[i]))
  }

  /** An enemy whose top has not passed the bottom edge. */
  predicate Above(e: Enemy)
  {
    e.box.y <= CanvasHeight
  }

  /** Some enemy passes the bottom edge in this frame. */
  predicate Landed(es: seq<Enemy>)
  {
    exists i :: 0 <= i < |es| && !Above(Lower(es[i]))
  }

  /** The enemy filter: every enemy moves down, the ones that pass the bottom edge are removed,
      and the game is over exactly when there was one. */
  function Descended(s: GameState): (t: GameState)
    ensures IsSubsequence(t.enemies, Lowered(s.enemies))
    ensures forall i :: 0 <= i < |t.enemies| ==> Above(t.enemies[i])
    ensures forall i :: 0 <= i < |s.enemies| && Above(Lower(s.enemies[i])) ==> Lower(s.enemies[i]) in t.enemies
    ensures forall x :: multiset(t.enemies)[x] == if Above(x) then multiset(Lowered(s.enemies))[x] else 0
    ensures t.gameOver <==> s.gameOver || exists i :: 0 <= i < |s.enemies| && Lower(s.enemies[i]).box.y > CanvasHeight
    ensures t == s.(enemies := t.enemies, gameOver := t.gameOver)
  {
    var l := Lowered(s.enemies);
    assert forall i :: 0 <= i < |s.enemies| ==> l[i] == Lower(s.enemies[i]);
    FilterCounts(l, Above);
    s.(enemies := Filter(l, Above), gameOver := s.gameOver || Landed(s.enemies))
  }

  /** The boss's track: its x is an even whole number, moving right by 2 anywhere short of the
      right end, or left by 2 anywhere past the left end. */
  predicate OnTrack(b: Boss)
  {
    var x := b.box.x;
    b.box.width == BossWidth && x == x.Floor as real && x.Floor % 2 == 0 &&
    ((b.speed == 2.0 && 0.0 <= x <= CanvasWidth - BossWidth - 2.0) ||
     (b.speed == -2.0 && 2.0 <= x <= CanvasWidth - BossWidth))
  }

  /** The boss moves by its speed and turns round at either edge; on its track it never leaves
      the screen. */
  function Roam(b: Boss): (r: Boss)
    ensures r == b.(box := r.box, speed := r.speed) && r.box == b.box.(x := b.box.x + b.speed)
    ensures r.speed == b.speed || r.speed == -b.speed
    ensures OnTrack(b) ==> OnTrack(r) && 0.0 <= r.box.x <= CanvasWidth - r.box.width
  {
    var x := b.box.x + b.speed;
    var speed := if x <= 0.0 || x >= CanvasWidth - b.box.width then -b.speed else b.speed;
    assert OnTrack(b) ==> x.Floor == b.box.x.Floor + (if b.speed == 2.0 then 2 else -2);
    b.(box := b.box.(x := x), speed := speed)
  }

  // ---------------------------------------------------------------------------
  // Power-ups

  function Drift(p: PowerUp): PowerUp
  {
    p.(box := p.box.(y := p.box.y + 2.0))
  }

  /** A drifted power-up stays when it does not touch the ship and has not reached the bottom edge. */
  predicate Stays(ship: Rect, p: PowerUp)
  {
    !Collides(p.box, ship) && p.box.y < CanvasHeight
  }

  /** The filter callback's verdict for a given ship. */
  function StaysBy(ship: Rect): PowerUp -> bool
  {
    p => Stays(ship, p)
  }

  /** The power-ups the filter keeps: each drifts down by 2 and stays unless it touches the ship
      or has reached the bottom edge. */
  function Gathered(ps: seq<PowerUp>, ship: Rect): (r: seq<PowerUp>)
    ensures |r| + Pickups(ps, ship) <= |ps|
    ensures forall i :: 0 <= i < |r| ==> !Collides(r[i].box, ship) && r[i].box.y < CanvasHeight
    ensures forall i :: 0 <= i < |ps| && Stays(ship, Drift(ps[i])) ==> Drift(ps[i]) in r
  {
    if ps == [] then []
    else
      var rest := Gathered(ps[..|ps| - 1], ship);
      assert forall i :: 0 <= i < |ps| - 1 ==> ps[i] == ps[..|ps| - 1][i];
      var d := Drift(ps[|ps| - 1]);
      if Collides(d.box, ship) || d.box.y >= CanvasHeight then rest else rest + [d]
  }

  /** The kept list is `ps.map(Drift).filter(Stays)`. */
  lemma {:induction false} GatheredIsFilter(ps: seq<PowerUp>, ship: Rect)
    ensures Gathered(ps, ship) == Filter(MapSeq(ps, Drift), StaysBy(ship))
    decreases |ps|
  {
    if ps != [] {
      var front := ps[..|ps| - 1];
      var d := Drift(ps[|ps| - 1]);
      GatheredIsFilter(front, ship);
      DriftedSnoc(ps);
      FilterAppend(MapSeq(front, Drift), [d], StaysBy(ship));
      assert Filter([d], StaysBy(ship)) == if Stays(ship, d) then [d] else [];
    }
  }

  /** Drifting a list drifts its front, then its last power-up. */
  lemma DriftedSnoc(ps: seq<PowerUp>)
    requires ps != []
    ensures MapSeq(ps, Drift) == MapSeq(ps[..|ps| - 1], Drift) + [Drift(ps[|ps| - 1])]
  {
  }

  /** The kept power-ups are the drifted input power-ups, in input order, with every copy of a
      staying one kept and none of the others. */
  lemma GatheredFromInput(ps: seq<PowerUp>, ship: Rect)
    ensures IsSubsequence(Gathered(ps, ship), MapSeq(ps, Drift))
    ensures forall x :: multiset(Gathered(ps, ship))[x] ==
                        if Stays(ship, x) then multiset(MapSeq(ps, Drift))[x] else 0
  {
    GatheredIsFilter(ps, ship);
    FilterCounts(MapSeq(ps, Drift), StaysBy(ship));
  }

  /** How many power-ups touch the ship after drifting. */
  function Pickups(ps: seq<PowerUp>, ship: Rect): nat
  {
    if ps == [] then 0
    else Pickups(ps[..|ps| - 1], ship) + (if Collides(Drift(ps[|ps| - 1]).box, ship) then 1 else 0)
  }

  /** The firepower after `n` pickups, each adding one capped at 3. */
  function Boosted(fp: int, n: nat): (r: int)
    ensures n == 0 ==> r == fp
    ensures n > 0 ==> r <= 3 && (r == 3 || r == fp + n)
    ensures 1 <= fp <= 3 ==> fp <= r <= 3
  {
    if n == 0 then fp else Min(3, fp + n)
  }

  /** The power-up filter: each pickup adds one to the firepower, capped at 3. */
  function Collected(s: GameState): (t: GameState)
    ensures t.player.firepower == Boosted(s.player.firepower, Pickups(s.powerups, s.player.box))
    ensures t == s.(powerups := Gathered(s.powerups, s.player.box), player := t.player)
    ensures t.player == s.player.(firepower := t.player.firepower)
  {
    var n := Pickups(s.powerups, s.player.box);
    s.(powerups := Gathered(s.powerups, s.player.box),
       player := s.player.(firepower := Boosted(s.player.firepower, n)))
  }

  // ---------------------------------------------------------------------------
  // Hits

  /** The counters threaded through one bullet's pass over the enemies: where the bullet is, the
      enemies kept so far, the score, the kill count and the power-ups. */
  datatype Tally = Tally(bullet: Rect, kept: seq<Enemy>, score: int, defeated: int, drops: seq<PowerUp>)

  /** `spawnPowerUp(x, y)` at a killed enemy's corner. */
  function Drop(e: Enemy): PowerUp
  {
    PowerUp(Rect(e.box.x, e.box.y, PowerUpSize, PowerUpSize), 3)
  }

  /** One enemy against the bullet: a hit costs the enemy one hit point and moves the bullet off
      screen; an enemy with no hit points left is removed and counted. */
  function Strike(t: Tally, e: Enemy): Tally
  {
    if Collides(t.bullet, e.box) then
      var hit := e.(hp := e.hp - 1);
      var b := t.bullet.(y := -100.0);
      if hit.hp <= 0 then
        var d := t.defeated + 1;
        Tally(b, t.kept, t.score + 10, d, if d % 10 == 0 then t.drops + [Drop(hit)] else t.drops)
      else
        Tally(b, t.kept + [hit], t.score, t.defeated, t.drops)
    else
      t.(kept := t.kept + [e])
  }

  /** The bullet's pass over the enemies, in order. */
  function StrikeAll(t: Tally, es: seq<Enemy>): Tally
  {
    if es == [] then t else Strike(StrikeAll(t, es[..|es| - 1]), es[|es| - 1])
  }

  /** The number of multiples of ten in `(lo, hi]`. */
  function TensBetween(lo: int, hi: int): nat
    decreases hi - lo
  {
    if hi <= lo then 0 else TensBetween(lo, hi - 1) + (if hi % 10 == 0 then 1 else 0)
  }

  /** Counting multiples of ten is a difference of quotients. */
  lemma {:induction false} TensBetweenQuotients(lo: int, hi: int)
    requires lo <= hi
    ensures TensBetween(lo, hi) == hi / 10 - lo / 10
    decreases hi - lo
  {
    if hi > lo {
      TensBetweenQuotients(lo, hi - 1);
      assert hi / 10 == (hi - 1) / 10 + (if hi % 10 == 0 then 1 else 0);
    }
  }

  /** Over one pass, each kill adds 10 to the score and 1 to the kill count, every enemy is
      either kept or killed, and a power-up drops exactly at each kill count that is a multiple
      of ten. */
  lemma {:induction false} StrikeAllCounts(t: Tally, es: seq<Enemy>)
    ensures var r := StrikeAll(t, es);
      r.defeated >= t.defeated && r.score == t.score + 10 * (r.defeated - t.defeated) &&
      |r.kept| + (r.defeated - t.defeated) == |t.kept| + |es| &&
      |r.drops| == |t.drops| + TensBetween(t.defeated, r.defeated) && r.drops[..|t.drops|] == t.drops
    decreases |es|
  {
    if es != [] {
      var p := StrikeAll(t, es[..|es| - 1]);
      StrikeAllCounts(t, es[..|es| - 1]);
      var r := Strike(p, es[|es| - 1]);
      assert r.defeated == p.defeated || r.defeated == p.defeated + 1;
      if r.defeated == p.defeated + 1 {
        assert TensBetween(t.defeated, r.defeated) ==
          TensBetween(t.defeated, p.defeated) + (if r.defeated % 10 == 0 then 1 else 0);
      }
    }
  }

  /** An enemy the game can hold: alive, within the canvas width, and falling. */
  predicate EnemyOk(e: Enemy)
  {
    e.hp >= 1 && 0.0 <= e.box.x <= CanvasWidth - EnemyWidth && e.speed >= 1.0
  }

  /** The enemies a pass keeps are still alive and still where they were across. */
  lemma {:induction false} StrikeAllKeepsEnemies(t: Tally, es: seq<Enemy>)
    ensures EnemiesOk(t.kept) && EnemiesOk(es) ==> EnemiesOk(StrikeAll(t, es).kept)
    decreases |es|
  {
    if es != [] {
      var init := es[..|es| - 1];
      assert EnemiesOk(es) ==> EnemiesOk(init) && EnemyOk(es[|es| - 1]);
      StrikeAllKeepsEnemies(t, init);
    }
  }

  /** The effect of one bullet's pass on the game record. */
  function Absorb(s: GameState, bi: int, r: Tally): (t: GameState)
    requires 0 <= bi < |s.bullets|
    ensures |t.bullets| == |s.bullets|
  {
    s.(bullets := s.bullets[bi := s.bullets[bi].(box := r.bullet)], enemies := r.kept,
       progress := s.progress.(score := r.score, defeated := r.defeated), powerups := r.drops)
  }

  function PassStart(s: GameState, bi: int): Tally
    requires 0 <= bi < |s.bullets|
  {
    Tally(s.bullets[bi].box, [], s.progress.score, s.progress.defeated, s.powerups)
  }

  /** Bullet `bi` against every enemy: the core invariant is kept and the score never drops. */
  function EnemyPass(s: GameState, bi: int): (t: GameState)
    requires 0 <= bi < |s.bullets|
    ensures |t.bullets| == |s.bullets|
    ensures Core(s) ==> Core(t) && t.progress.score >= s.progress.score && t.progress.stage == s.progress.stage
  {
    var t0 := PassStart(s, bi);
    StrikeAllCounts(t0, s.enemies);
    StrikeAllKeepsEnemies(t0, s.enemies);
    Absorb(s, bi, StrikeAll(t0, s.enemies))
  }

  /** Bullet `bi` against the boss: a hit costs one hit point and moves the bullet off screen;
      the boss's last hit point scores 500, advances the stage, removes the boss and restarts the
      kill count. */
  function BossPass(s: GameState, bi: int): (t: GameState)
    requires 0 <= bi < |s.bullets|
    ensures |t.bullets| == |s.bullets|
    ensures s.boss.None? || !Collides(s.bullets[bi].box, s.boss.value.box) ==> t == s
    ensures s.boss.Some? && Collides(s.bullets[bi].box, s.boss.value.box) && s.boss.value.hp <= 1 ==>
      t.progress == Progress(s.progress.score + 500, s.progress.stage + 1, 0, false) && t.boss.None?
    ensures s.boss.Some? && Collides(s.bullets[bi].box, s.boss.value.box) && s.boss.value.hp > 1 ==>
      t.boss == Some(s.boss.value.(hp := s.boss.value.hp - 1)) &&
      t.progress == s.progress
    ensures Core(s) ==> Core(t) && t.progress.score >= s.progress.score && t.progress.stage >= s.progress.stage
  {
    if s.boss.Some? && Collides(s.bullets[bi].box, s.boss.value.box) then
      var b := s.boss.value.(hp := s.boss.value.hp - 1);
      var s1 := s.(bullets := s.bullets[bi := s.bullets[bi].(box := s.bullets[bi].box.(y := -100.0))]);
      if b.hp <= 0 then
        s1.(progress := Progress(s.progress.score + 500, s.progress.stage + 1, 0, false), boss := None)
      else
        s1.(boss := Some(b))
    else
      s
  }

  /** The first `n` bullets, each against the enemies and then the boss. */
  function Resolved(s: GameState, n: int): (t: GameState)
    requires 0 <= n <= |s.bullets|
    ensures |t.bullets| == |s.bullets|
    ensures Core(s) ==> Core(t) && t.progress.score >= s.progress.score && t.progress.stage >= s.progress.stage
  {
    if n == 0 then s else BulletHits(Resolved(s, n - 1), n - 1)
  }

  /** Bullet `bi` against the enemies and then the boss. */
  function BulletHits(s: GameState, bi: int): (t: GameState)
    requires 0 <= bi < |s.bullets|
    ensures |t.bullets| == |s.bullets|
    ensures Core(s) ==> Core(t) && t.progress.score >= s.progress.score && t.progress.stage >= s.progress.stage
  {
    BossPass(EnemyPass(s, bi), bi)
  }

  // ---------------------------------------------------------------------------
  // Spawning

  /** `spawnEnemy()` with `Math.random()` values `r1` (position) and `r2` (speed). */
  function NewEnemy(r1: real, r2: real): Enemy
  {
    Enemy(Rect(r1 * (CanvasWidth - EnemyWidth), -EnemyHeight, EnemyWidth, EnemyHeight), 1.0 + r2 * 2.0, 1, "#ff6600")
  }

  const NewBoss: Boss := Boss(Rect(CanvasWidth / 2.0 - BossWidth / 2.0, 50.0, BossWidth, BossHeight), 2.0, 50, 50)

  /** The spawning part of a frame, skipped while a boss is out: the timer advances by the
      frame's `dt` and an enemy appears when it passes the delay; 30 kills bring the boss. */
  function Spawned(s: GameState, dt: int, r1: real, r2: real): (t: GameState)
    ensures s.progress.bossSpawned ==> t == s
    ensures !s.progress.bossSpawned && s.progress.defeated >= BossThreshold ==>
      t.boss == Some(NewBoss) && t.progress == s.progress.(bossSpawned := true)
    ensures !s.progress.bossSpawned && s.progress.defeated < BossThreshold ==> t.boss == s.boss && t.progress == s.progress
    ensures !s.progress.bossSpawned && s.clocks.spawnTimer + dt > s.clocks.spawnDelay ==>
      t.enemies == s.enemies + [NewEnemy(r1, r2)] && t.clocks == s.clocks.(spawnTimer := 0)
    ensures !s.progress.bossSpawned && s.clocks.spawnTimer + dt <= s.clocks.spawnDelay ==>
      t.enemies == s.enemies && t.clocks == s.clocks.(spawnTimer := s.clocks.spawnTimer + dt)
  {
    if s.progress.bossSpawned then s
    else
      var timer := s.clocks.spawnTimer + dt;
      var s1 := if timer > s.clocks.spawnDelay then s.(enemies := s.enemies + [NewEnemy(r1, r2)], clocks := s.clocks.(spawnTimer := 0))
                else s.(clocks := s.clocks.(spawnTimer := timer));
      if s1.progress.defeated >= BossThreshold then s1.(boss := Some(NewBoss), progress := s1.progress.(bossSpawned := true)) else s1
  }

  // ---------------------------------------------------------------------------
  // A whole frame

  /** The shooting part of a frame: a shot while the space bar or Z is held. */
  function Fired(s: GameState, now: int): (t: GameState)
    ensures !(Held(s.keys, " ") || Held(s.keys, "z")) ==> t == s
    ensures Held(s.keys, " ") || Held(s.keys, "z") ==> t == Shot(s, now)
  {
    if Held(s.keys, " ") || Held(s.keys, "z") then Shot(s, now) else s
  }

  /** The bullet filter applied to the record. */
  function BulletsRisen(s: GameState): (t: GameState)
    ensures t == s.(bullets := Risen(s.bullets))
  {
    s.(bullets := Risen(s.bullets))
  }

  /** The boss's move, when there is one. */
  function Roamed(s: GameState): (t: GameState)
    ensures s.boss.None? ==> t == s
    ensures s.boss.Some? ==> t == s.(boss := Some(Roam(s.boss.value)))
  {
    if s.boss.Some? then s.(boss := Some(Roam(s.boss.value))) else s
  }

  /** All hits of a frame: every bullet, in order. */
  function Hits(s: GameState): (t: GameState)
    ensures t == Resolved(s, |s.bullets|)
  {
    Resolved(s, |s.bullets|)
  }

  /** `update(deltaTime)` at clock time `now`: nothing while the game is over or paused;
      otherwise movement, shooting, bullets, enemies, boss, power-ups, hits and spawning, in
      that order. */
  function Updated(s: GameState, now: int, dt: int, r1: real, r2: real): (t: GameState)
    ensures s.gameOver || s.paused ==> t == s
    ensures !(s.gameOver || s.paused) ==>
      t == Spawned(Hits(Collected(Roamed(Descended(BulletsRisen(Fired(Steered(s), now)))))), dt, r1, r2)
  {
    if s.gameOver || s.paused then s
    else Spawned(Hits(Collected(Roamed(Descended(BulletsRisen(Fired(Steered(s), now)))))), dt, r1, r2)
  }

  /** `handleKeyDown`: P toggles the pause and is not recorded as held; any other key is. */
  function KeyPressed(s: GameState, key: string): (t: GameState)
    ensures key == "p" || key == "P" ==> t == s.(paused := !s.paused)
    ensures key != "p" && key != "P" ==>
      t == s.(keys := t.keys) && Held(t.keys, key) &&
      forall k :: k != key ==> (Held(t.keys, k) <==> Held(s.keys, k))
  {
    if key == "p" || key == "P" then s.(paused := !s.paused) else s.(keys := s.keys[key := true])
  }

  /** `handleKeyUp`: the key is no longer held. */
  function KeyReleased(s: GameState, key: string): (t: GameState)
    ensures t == s.(keys := t.keys) && !Held(t.keys, key)
    ensures forall k :: k != key ==> (Held(t.keys, k) <==> Held(s.keys, k))
  {
    s.(keys := s.keys[key := false])
  }

  // ---------------------------------------------------------------------------
  // The invariant

  /** The boss the game can hold: on its track, with hit points left out of 50. */
  predicate BossOk(b: Boss)
  {
    OnTrack(b) && b.maxHp == 50 && 0 < b.hp <= b.maxHp
  }

  /** The ship stays inside the canvas with firepower 1 to 3. */
  predicate ShipOk(p: Player)
  {
    p.box.width == PlayerWidth && p.speed >= 0.0 && 0.0 <= p.box.x <= CanvasWidth - PlayerWidth &&
    1 <= p.firepower <= 3
  }

  predicate EnemiesOk(es: seq<Enemy>)
  {
    forall i :: 0 <= i < |es| ==> EnemyOk(es[i])
  }

  /** What every step of a frame keeps: the ship's bounds and firepower, live enemies, a boss
      exactly while `bossSpawned`, and a score that is a whole number of tens. */
  predicate Core(s: GameState)
  {
    ShipOk(s.player) && EnemiesOk(s.enemies) &&
    (s.progress.bossSpawned <==> s.boss.Some?) && (s.boss.Some? ==> BossOk(s.boss.value)) &&
    s.progress.defeated >= 0 && s.progress.score >= 0 && s.progress.score % 10 == 0 && s.progress.stage >= 1
  }

  /** Between frames, in addition: without a boss, fewer than 30 kills have been counted. */
  predicate Inv(s: GameState)
  {
    Core(s) && (!s.progress.bossSpawned ==> s.progress.defeated < BossThreshold)
  }

  lemma InitialInv()
    ensures Inv(Initial)
    ensures Initial.player.box.x == 280.0 && Initial.player.box.y == 700.0
  {
  }

  /** Steering, shooting and the bullet filter keep the core and touch no counter. */
  lemma MovesCore(s: GameState, now: int)
    requires Core(s)
    ensures var t := BulletsRisen(Fired(Steered(s), now));
      Core(t) && t.progress.score == s.progress.score && t.progress.stage == s.progress.stage
  {
    var s1 := Steered(s);
    assert ShipOk(s1.player);
    var s2 := Fired(s1, now);
    assert s2.player == s1.player && s2.enemies == s.enemies && s2.boss == s.boss;
  }

  /** Falling enemies keep their place across and their hit points. */
  lemma DescendedCore(s: GameState)
    requires Core(s)
    ensures Core(Descended(s)) && Descended(s).progress.score == s.progress.score && Descended(s).progress.stage == s.progress.stage
  {
    var t := Descended(s);
    var l := Lowered(s.enemies);
    forall i | 0 <= i < |t.enemies| ensures EnemyOk(t.enemies[i]) {
      assert t.enemies[i] in l;
      var j :| 0 <= j < |l| && l[j] == t.enemies[i];
      assert EnemyOk(s.enemies[j]);
    }
  }

  /** The boss's move and the power-up filter keep the core and touch no counter. */
  lemma RoamedCollectedCore(s: GameState)
    requires Core(s)
    ensures var t := Collected(Roamed(s));
      Core(t) && t.progress.score == s.progress.score && t.progress.stage == s.progress.stage
  {
    var s1 := Roamed(s);
    assert s1.boss.Some? ==> BossOk(s1.boss.value);
    assert Core(s1);
  }

  /** Spawning with random values in [0, 1) restores the full invariant: an enemy appears within
      the canvas width, and 30 kills without a boss bring one. */
  lemma SpawnedInv(s: GameState, dt: int, r1: real, r2: real)
    requires Core(s) && 0.0 <= r1 < 1.0 && 0.0 <= r2 < 1.0
    ensures var t := Spawned(s, dt, r1, r2);
      Inv(t) && t.progress.score == s.progress.score && t.progress.stage == s.progress.stage
  {
    var e := NewEnemy(r1, r2);
    assert EnemyOk(e);
    assert BossOk(NewBoss) by {
      assert NewBoss.box.x == 250.0 && (250.0).Floor == 250;
    }
    var t := Spawned(s, dt, r1, r2);
    assert EnemiesOk(t.enemies) by {
      if t.enemies != s.enemies {
        assert t.enemies == s.enemies + [e];
      }
    }
  }

  /** A whole frame keeps the invariant and never lowers the score or the stage. */
  lemma UpdatedInv(s: GameState, now: int, dt: int, r1: real, r2: real)
    requires Inv(s) && 0.0 <= r1 < 1.0 && 0.0 <= r2 < 1.0
    ensures var t := Updated(s, now, dt, r1, r2);
      Inv(t) && t.progress.score >= s.progress.score && t.progress.stage >= s.progress.stage
  {
    if !(s.gameOver || s.paused) {
      var s3 := BulletsRisen(Fired(Steered(s), now));
      MovesCore(s, now);
      var s4 := Descended(s3);
      DescendedCore(s3);
      var s6 := Collected(Roamed(s4));
      RoamedCollectedCore(s4);
      var s7 := Hits(s6);
      SpawnedInv(s7, dt, r1, r2);
    }
  }

  // ---------------------------------------------------------------------------
  // The game record, updated in place

  class Game {
    var player: Player
    var bullets: seq<Bullet>
    var enemies: seq<Enemy>
    var powerups: seq<PowerUp>
    var boss: Option<Boss>
    var keys: map<string, bool>
    var clocks: Clocks
    var progress: Progress
    var gameOver: bool
    var paused: bool

    /** The record's current value. */
    function State(): GameState
      reads this
    {
      GameState(player, bullets, enemies, powerups, boss, keys, clocks, progress, gameOver, paused)
    }

    ghost predicate Valid()
      reads this
    {
      Inv(State())
    }

    /** The record as the component first creates it. */
    constructor ()
      ensures State() == Initial
    {
      player := StartPlayer;
      bullets := [];
      enemies := [];
      powerups := [];
      boss := None;
      keys := map[];
      clocks := Initial.clocks;
      progress := Initial.progress;
      gameOver := false;
      paused := false;
    }

    /** `handleRestart`: a fresh record, score 0 and stage 1. */
    method Restart()
      modifies this
      ensures State() == Initial
    {
      player := StartPlayer;
      bullets := [];
      enemies := [];
      powerups := [];
      boss := None;
      keys := map[];
      clocks := Initial.clocks;
      progress := Initial.progress;
      gameOver := false;
      paused := false;
    }

    method KeyDown(key: string)
      modifies this
      ensures State() == KeyPressed(old(State()), key)
    {
      if key == "p" || key == "P" {
        paused := !paused;
        return;
      }
      keys := keys[key := true];
    }

    method KeyUp(key: string)
      modifies this
      ensures State() == KeyReleased(old(State()), key)
    {
      keys := keys[key := false];
    }

    /** Left, then right, while the matching keys are held. */
    method Steer()
      modifies this
      ensures State() == Steered(old(State()))
    {
      if Held(keys, "ArrowLeft") || Held(keys, "a") {
        player := MoveLeft(player);
      }
      if Held(keys, "ArrowRight") || Held(keys, "d") {
        player := MoveRight(player);
      }
    }

    method Shoot(now: int)
      modifies this
      ensures State() == Shot(old(State()), now)
    {
      if now - clocks.lastShot < clocks.shootDelay {
        return;
      }
      clocks := clocks.(lastShot := now);
      bullets := bullets + Volley(player);
    }

    /** The bullet filter. */
    method MoveBullets()
      modifies this
      ensures State() == BulletsRisen(old(State()))
    {
      bullets := Risen(bullets);
    }

    /** The boss's move, when there is one. */
    method MoveBoss()
      modifies this
      ensures State() == Roamed(old(State()))
    {
      if boss.Some? {
        boss := Some(Roam(boss.value));
      }
    }

    /** The enemy filter, whose callback ends the game when an enemy lands. */
    method MoveEnemies()
      modifies this
      ensures State() == Descended(old(State()))
    {
      var es := enemies;
      enemies := Filter(Lowered(es), Above);
      if Landed(es) {
        gameOver := true;
      }
    }

    /** The power-up filter, whose callback raises the firepower on each pickup. */
    method CollectPowerUps()
      modifies this
      ensures State() == Collected(old(State()))
    {
      var ps := powerups;
      var ship := player.box;
      var fp := player.firepower;
      var kept: seq<PowerUp> := [];
      var i := 0;
      while i < |ps|
        invariant 0 <= i <= |ps|
        invariant kept == Gathered(ps[..i], ship)
        invariant fp == Boosted(player.firepower, Pickups(ps[..i], ship))
      {
        assert ps[..i + 1][..i] == ps[..i];
        var d := Drift(ps[i]);
        if Collides(d.box, ship) {
          fp := Min(3, fp + 1);
        } else if d.box.y < CanvasHeight {
          kept := kept + [d];
        }
        i := i + 1;
      }
      assert ps[..i] == ps;
      player := player.(firepower := fp);
      powerups := kept;
    }

    /** Bullet `bi` against every enemy, through the enemy filter. */
    method StrikeEnemies(bi: int)
      requires 0 <= bi < |bullets|
      modifies this
      ensures State() == EnemyPass(old(State()), bi)
    {
      var es := enemies;
      var bullet := bullets[bi].box;
      var sc, d, drops := progress.score, progress.defeated, powerups;
      ghost var t0 := Tally(bullet, [], sc, d, drops);
      var kept: seq<Enemy> := [];
      var j := 0;
      while j < |es|
        invariant 0 <= j <= |es|
        invariant Tally(bullet, kept, sc, d, drops) == StrikeAll(t0, es[..j])
      {
        assert es[..j + 1][..j] == es[..j];
        var e := es[j];
        if Collides(bullet, e.box) {
          var hit := e.(hp := e.hp - 1);
          bullet := bullet.(y := -100.0);
          if hit.hp <= 0 {
            sc := sc + 10;
            d := d + 1;
            if d % 10 == 0 {
              drops := drops + [Drop(hit)];
            }
          } else {
            kept := kept + [hit];
          }
        } else {
          kept := kept + [e];
        }
        j := j + 1;
      }
      assert es[..j] == es;
      bullets := bullets[bi := bullets[bi].(box := bullet)];
      enemies, powerups := kept, drops;
      progress := progress.(score := sc, defeated := d);
    }

    /** Bullet `bi` against the boss. */
    method StrikeBoss(bi: int)
      requires 0 <= bi < |bullets|
      modifies this
      ensures State() == BossPass(old(State()), bi)
    {
      if boss.Some? && Collides(bullets[bi].box, boss.value.box) {
        var b := boss.value.(hp := boss.value.hp - 1);
        bullets := bullets[bi := bullets[bi].(box := bullets[bi].box.(y := -100.0))];
        if b.hp <= 0 {
          progress := Progress(progress.score + 500, progress.stage + 1, 0, false);
          boss := None;
        } else {
          boss := Some(b);
        }
      }
    }

    /** The hit loop over all bullets. */
    method ResolveHits()
      modifies this
      ensures State() == Hits(old(State()))
    {
      ghost var s0 := State();
      var n := |bullets|;
      var i := 0;
      while i < n
        invariant 0 <= i <= n == |s0.bullets| && State() == Resolved(s0, i)
      {
        ghost var si := State();
        StrikeEnemies(i);
        StrikeBoss(i);
        assert State() == BulletHits(si, i);
        i := i + 1;
      }
    }

    /** The spawning part of a frame. */
    method Spawn(dt: int, r1: real, r2: real)
      modifies this
      ensures State() == Spawned(old(State()), dt, r1, r2)
    {
      if !progress.bossSpawned {
        clocks := clocks.(spawnTimer := clocks.spawnTimer + dt);
        if clocks.spawnTimer > clocks.spawnDelay {
          enemies := enemies + [NewEnemy(r1, r2)];
          clocks := clocks.(spawnTimer := 0);
        }
        if progress.defeated >= BossThreshold {
          boss := Some(NewBoss);
          progress := progress.(bossSpawned := true);
        }
      }
    }

    /** One frame: `update(deltaTime)` at clock time `now`, with `r1` and `r2` the random values
        an enemy spawned in this frame uses. */
    method Update(now: int, dt: int, r1: real, r2: real)
      requires Valid() && 0.0 <= r1 < 1.0 && 0.0 <= r2 < 1.0
      modifies this
      ensures State() == Updated(old(State()), now, dt, r1, r2)
      ensures Valid() && progress.score >= old(progress.score) && progress.stage >= old(progress.stage)
    {
      ghost var s := State();
      UpdatedInv(s, now, dt, r1, r2);
      if !gameOver && !paused {
        Frame(now, dt, r1, r2);
      }
    }

    /** One frame of a running game: movement, shooting, bullets, enemies, boss, power-ups, hits
        and spawning, in that order. */
    method Frame(now: int, dt: int, r1: real, r2: real)
      requires !gameOver && !paused
      modifies this
      ensures State() == Updated(old(State()), now, dt, r1, r2)
    {
      ghost var s := State();
      Steer();
      if Held(keys, " ") || Held(keys, "z") {
        Shoot(now);
      }
      ghost var s2 := Fired(Steered(s), now);
      assert State() == s2;
      MoveBullets();
      MoveEnemies();
      MoveBoss();
      CollectPowerUps();
      ghost var s6 := Collected(Roamed(Descended(BulletsRisen(s2))));
      assert State() == s6;
      ResolveHits();
      Spawn(dt, r1, r2);
    }
  }
}
