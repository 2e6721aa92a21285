/** backend/game/enemies.js: enemy waves and their bouncing movement, the timed
    enemy beam, and the boss with its sway and its volleys. `Date.now()` is the
    parameter `now`, `Math.random()` a parameter in [0, 1), and the sine in
    updateBossPosition the parameter `sway`. */
module Enemies {
  import opened Tables
  import opened Arena
  import opened Constants
  import opened Room
  import opened Bullets

  /** addEnemy's record for its three random draws: on the right edge, at a random
      height, drifting left. */
  function NewEnemy(roll: EnemyRoll): Enemy {
    SpawnEnemy(roll, GAME_WIDTH - PLAYER_SIZE, GAME_HEIGHT - PLAYER_SIZE, PLAYER_SPEED)
  }

  function AfterAddEnemy(s: RoomState, id: EnemyId, roll: EnemyRoll): RoomState {
    s.WithEnemies(s.EnemiesBook().Put(id, NewEnemy(roll)))
  }

  /** The keys `enemy_${now}_${i}` of one wave, in loop order. */
  function WaveIds(now: int, n: nat): (ids: seq<EnemyId>)
    ensures |ids| == n && Distinct(ids)
    ensures forall i :: 0 <= i < n ==> ids[i] == EnemyId(now, i)
  {
    seq(n, i requires 0 <= i < n => EnemyId(now, i))
  }

  /** The records of one wave: `rolls[i]` holds the draws of the i-th addEnemy. */
  function WaveEnemies(rolls: seq<EnemyRoll>, n: nat): (es: seq<Enemy>)
    requires n <= |rolls|
    ensures |es| == n
    ensures forall i :: 0 <= i < n ==> es[i] == NewEnemy(rolls[i])
  {
    seq(n, i requires 0 <= i < n => NewEnemy(rolls[i]))
  }

  /** spawnEnemyWave: the wave counter goes up by one and that many pairs of enemies
      are added. */
  function AfterSpawnEnemyWave(s: RoomState, now: int, rolls: seq<EnemyRoll>): RoomState
    requires |rolls| >= 2 * (s.waveNumber + 1)
  {
    var s1 := s.(waveNumber := s.waveNumber + 1);
    var n := 2 * s1.waveNumber;
    s1.WithEnemies(s1.EnemiesBook().PutAll(WaveIds(now, n), WaveEnemies(rolls, n)))
  }

  /** One round of updateEnemyPositions' loop: an enemy still present bounces. */
  function MoveEnemyStep(b: Book<EnemyId, Enemy>, id: EnemyId): Book<EnemyId, Enemy> {
    if id in b.t.m then b.Put(id, Bounce(b.t.m[id], GAME_WIDTH, GAME_HEIGHT, PLAYER_SIZE)) else b
  }

  function MoveEnemies(b: Book<EnemyId, Enemy>, ks: seq<EnemyId>): Book<EnemyId, Enemy> {
    if ks == [] then b else MoveEnemyStep(MoveEnemies(b, ks[..|ks| - 1]), ks[|ks| - 1])
  }

  function AfterUpdateEnemyPositions(s: RoomState): RoomState {
    s.WithEnemies(MoveEnemies(s.EnemiesBook(), s.enemies.keys))
  }

  /** `Math.floor(r * n)` for a draw `r` in [0, 1): an index into `n` values. */
  function PickIndex(r: real, n: nat): (i: nat)
    requires 0.0 <= r < 1.0 && n > 0
    ensures i < n
  {
    ScaleBelow(r, n as real);
    var x := r * n as real;
    var f := x.Floor;
    assert f as real <= x < n as real;
    assert f < n;
    f
  }

  /** fireEnemyBeam: a beam 20 high through the enemy's middle, from the enemy to the
      far wall, keyed by `beam_${now}`. */
  function BeamFrom(e: Enemy, now: int): Beam {
    var isLeftSide := e.x < GAME_WIDTH / 2.0;
    Beam(if isLeftSide then e.x else 0.0, e.y + PLAYER_SIZE / 2.0 - 10.0,
         if isLeftSide then GAME_WIDTH - e.x else e.x, 20.0,
         if isLeftSide then Right else Left, now)
  }

  function AfterFireEnemyBeam(s: RoomState, e: Enemy, now: int): RoomState {
    s.WithBeams(s.BeamsBook().Put(BeamId(now), BeamFrom(e, now)))
  }

  /** checkAndFireEnemyBeam: once more than ENEMY_BEAM_INTERVAL has passed since the
      last beam, restart the interval and, when there are enemies, fire from the one
      the draw picks among `Object.values(enemies)`. */
  function AfterCheckAndFireEnemyBeam(s: RoomState, now: int, pick: real): RoomState
    requires s.enemies.Valid() && 0.0 <= pick < 1.0
  {
    if now - s.lastEnemyBeamTime > ENEMY_BEAM_INTERVAL then
      var s1 := s.(lastEnemyBeamTime := now);
      var ks := s.enemies.keys;
      if |ks| > 0 then AfterFireEnemyBeam(s1, s.enemies.m[ks[PickIndex(pick, |ks|)]], now) else s1
    else s
  }

  /** spawnBoss: a boss at the right edge, centred vertically, at full health, whose
      first volley is held back two seconds beyond the usual delay. */
  function NewBoss(now: int): Boss {
    Boss(now, GAME_WIDTH - BOSS_SIZE, (GAME_HEIGHT - BOSS_SIZE) / 2.0, BOSS_HEALTH, now + 2000)
  }

  function AfterSpawnBoss(s: RoomState, now: int): RoomState {
    s.(boss := Some(NewBoss(now)), changes := s.changes.(boss := Some(Live)))
  }

  /** updateBossPosition, with `sway` standing for `Math.sin(Date.now() / 1000)`. */
  function AfterUpdateBossPosition(s: RoomState, sway: real): RoomState {
    match s.boss
    case None => s
    case Some(b) =>
      s.(boss := Some(b.(y := Clamp(GAME_HEIGHT - BOSS_SIZE, b.y + sway * 2.0))),
         changes := s.changes.(boss := Some(Live)))
  }

  const VOLLEY_COUNT: nat := 10

  /** The i-th bullet of a boss volley: from the boss's left edge, `i` tenths of its
      height down, flying left at 5 with no owner. */
  function VolleyBullet(b: Boss, i: nat): Bullet {
    Bullet(b.x, b.y + (BOSS_SIZE / 10.0) * (i as real), -5.0, 0.0, None, true)
  }

  function VolleyIds(now: int): (ids: seq<BulletId>)
    ensures |ids| == VOLLEY_COUNT && Distinct(ids)
    ensures forall i :: 0 <= i < VOLLEY_COUNT ==> ids[i] == BossShot(now, i)
  {
    seq(VOLLEY_COUNT, i requires 0 <= i < VOLLEY_COUNT => BossShot(now, i))
  }

  function Volley(b: Boss): (bs: seq<Bullet>)
    ensures |bs| == VOLLEY_COUNT
    ensures forall i :: 0 <= i < VOLLEY_COUNT ==> bs[i] == VolleyBullet(b, i)
  {
    seq(VOLLEY_COUNT, i requires 0 <= i < VOLLEY_COUNT => VolleyBullet(b, i))
  }

  /** fireBossWave: nothing without a boss or within 2000 ms of its last volley;
      otherwise the boss's clock restarts and ten bullets are stored and logged. The
      boss's own change entry is not written. */
  function AfterFireBossWave(s: RoomState, now: int): RoomState {
    match s.boss
    case None => s
    case Some(b) =>
      if now - b.lastShootTime < 2000 then s
      else
        var b1 := b.(lastShootTime := now);
        var s1 := s.(boss := Some(b1));
        s1.WithBullets(s1.BulletsBook().PutAll(VolleyIds(now), Volley(b1)))
  }

  // ---------------------------------------------------------------------------
  // Properties

  /** A new enemy starts on the right edge, at a height inside the arena, drifting
      left at between PLAYER_SPEED/2 - 0.5 and PLAYER_SPEED/2 + 0.5 and moving
      vertically at less than PLAYER_SPEED/2. */
  lemma NewEnemyBounds(roll: EnemyRoll)
    requires roll.InUnit() && PLAYER_SIZE < GAME_HEIGHT
    ensures var e := NewEnemy(roll); var half: real := PLAYER_SPEED / 2.0;
      && e.x == GAME_WIDTH - PLAYER_SIZE
      && 0.0 <= e.y < GAME_HEIGHT - PLAYER_SIZE
      && -half - 0.5 <= e.dx < -half + 0.5
      && -half <= e.dy < half
  {
    SpawnEnemyBounds(roll, GAME_WIDTH - PLAYER_SIZE, GAME_HEIGHT - PLAYER_SIZE, PLAYER_SPEED);
  }

  /** A wave raises the counter by one and stores exactly the enemies
      `enemy_${now}_0` .. `enemy_${now}_${2w-1}` for the new counter `w`, each with
      its own draws and logged live; earlier enemies stay as they were. */
  lemma WaveSpawned(s: RoomState, now: int, rolls: seq<EnemyRoll>)
    requires |rolls| >= 2 * (s.waveNumber + 1)
    ensures var r := AfterSpawnEnemyWave(s, now, rolls); var n := 2 * (s.waveNumber + 1);
      && r.waveNumber == s.waveNumber + 1
      && (forall id :: id in r.enemies.m <==> id in s.enemies.m || (id.stamp == now && id.index < n))
      && (forall i :: 0 <= i < n ==>
            EnemyId(now, i) in r.enemies.m && r.enemies.m[EnemyId(now, i)] == NewEnemy(rolls[i])
            && EnemyId(now, i) in r.changes.enemies && r.changes.enemies[EnemyId(now, i)] == Live)
      && (forall id :: id in s.enemies.m && !(id.stamp == now && id.index < n) ==>
            r.enemies.m[id] == s.enemies.m[id])
      && r.players == s.players && r.bullets == s.bullets
  {
    var n := 2 * (s.waveNumber + 1);
    var s1 := s.(waveNumber := s.waveNumber + 1);
    var ids := WaveIds(now, n);
    PutAllStores(s1.EnemiesBook(), ids, WaveEnemies(rolls, n));
    PutAllLogs(s1.EnemiesBook(), ids, WaveEnemies(rolls, n));
    forall id ensures id in ids <==> id.stamp == now && id.index < n {
      if id.stamp == now && id.index < n {
        assert ids[id.index] == id;
      }
    }
  }

  /** On a room without enemies a wave adds exactly twice the new wave number of
      them, and keeps the room well formed. */
  lemma WaveCount(s: RoomState, now: int, rolls: seq<EnemyRoll>)
    requires |rolls| >= 2 * (s.waveNumber + 1) && s.enemies.m == map[]
    ensures |AfterSpawnEnemyWave(s, now, rolls).enemies.m| == 2 * (s.waveNumber + 1)
    ensures s.Valid() ==> AfterSpawnEnemyWave(s, now, rolls).Valid()
  {
    var n := 2 * (s.waveNumber + 1);
    var s1 := s.(waveNumber := s.waveNumber + 1);
    PutAllCount(s1.EnemiesBook(), WaveIds(now, n), WaveEnemies(rolls, n));
    if s.Valid() {
      PutAllValid(s1.EnemiesBook(), WaveIds(now, n), WaveEnemies(rolls, n));
    }
  }

  lemma {:induction false} MoveEnemiesClosed(b: Book<EnemyId, Enemy>, ks: seq<EnemyId>)
    requires Distinct(ks) && forall k :: k in ks ==> k in b.t.m
    ensures var r := MoveEnemies(b, ks);
      && r.t.m.Keys == b.t.m.Keys
      && (forall id :: id in b.t.m ==>
            r.t.m[id] == if id in ks then Bounce(b.t.m[id], GAME_WIDTH, GAME_HEIGHT, PLAYER_SIZE) else b.t.m[id])
      && (forall id :: id in r.log <==> id in b.log || id in ks)
      && (forall id :: id in ks ==> r.log[id] == Live)
      && (forall id :: id in b.log && id !in ks ==> r.log[id] == b.log[id])
  {
    if ks != [] {
      var pre := ks[..|ks| - 1];
      var last := ks[|ks| - 1];
      SplitLast(ks);
      MoveEnemiesClosed(b, pre);
      var t := MoveEnemies(b, pre);
      assert MoveEnemies(b, ks) == MoveEnemyStep(t, last);
      assert last in t.t.m && t.t.m[last] == b.t.m[last];
    }
  }

  lemma {:induction false} MoveEnemiesValid(b: Book<EnemyId, Enemy>, ks: seq<EnemyId>)
    requires b.Valid()
    ensures MoveEnemies(b, ks).Valid()
  {
    if ks != [] {
      MoveEnemiesValid(b, ks[..|ks| - 1]);
    }
  }

  /** After updateEnemyPositions every enemy is its old record bounced once, is inside
      the arena when the arena is larger than an enemy, and is logged live. */
  lemma EnemiesAfterMove(s: RoomState)
    requires s.Valid()
    ensures var r := AfterUpdateEnemyPositions(s);
      && r.Valid()
      && r.enemies.m.Keys == s.enemies.m.Keys
      && (forall id :: id in r.enemies.m ==>
            r.enemies.m[id] == Bounce(s.enemies.m[id], GAME_WIDTH, GAME_HEIGHT, PLAYER_SIZE)
            && id in r.changes.enemies && r.changes.enemies[id] == Live)
      && (Fits() ==> forall id :: id in r.enemies.m ==>
            0.0 <= r.enemies.m[id].x <= GAME_WIDTH - PLAYER_SIZE
            && 0.0 <= r.enemies.m[id].y <= GAME_HEIGHT - PLAYER_SIZE)
  {
    MoveEnemiesClosed(s.EnemiesBook(), s.enemies.keys);
    MoveEnemiesValid(s.EnemiesBook(), s.enemies.keys);
  }

  /** A beam runs from the enemy's x to the far wall: rightward from an enemy in the
      left half, leftward from one in the right half; it is centred on the enemy's
      middle, 20 high, and always at least half the arena wide. */
  lemma BeamReachesFarWall(e: Enemy, now: int)
    ensures var bm := BeamFrom(e, now);
      && (e.x < GAME_WIDTH / 2.0 ==> bm.direction == Right && bm.x == e.x && bm.x + bm.width == GAME_WIDTH)
      && (e.x >= GAME_WIDTH / 2.0 ==> bm.direction == Left && bm.x == 0.0 && bm.width == e.x)
      && bm.y + bm.height / 2.0 == e.y + PLAYER_SIZE / 2.0 && bm.height == 20.0
      && bm.width >= GAME_WIDTH / 2.0
      && bm.createdAt == now
  {
  }

  /** The beam timer: within the interval nothing changes; past it the interval
      restarts, and a beam keyed by the moment is fired from one of the enemies
      exactly when there is one. */
  lemma BeamTimer(s: RoomState, now: int, pick: real)
    requires s.enemies.Valid() && 0.0 <= pick < 1.0
    ensures var r := AfterCheckAndFireEnemyBeam(s, now, pick);
      && (now - s.lastEnemyBeamTime <= ENEMY_BEAM_INTERVAL ==> r == s)
      && (now - s.lastEnemyBeamTime > ENEMY_BEAM_INTERVAL ==>
            && r.lastEnemyBeamTime == now
            && r.enemies == s.enemies && r.players == s.players && r.bullets == s.bullets
            && (s.enemies.m == map[] ==> r.beams == s.beams && r.changes == s.changes)
            && (s.enemies.m != map[] ==>
                  r.beams.m.Keys == s.beams.m.Keys + {BeamId(now)}
                  && (exists id :: id in s.enemies.m && r.beams.m[BeamId(now)] == BeamFrom(s.enemies.m[id], now))
                  && r.changes.beams[BeamId(now)] == Live))
    ensures s.Valid() ==> AfterCheckAndFireEnemyBeam(s, now, pick).Valid()
  {
    s.enemies.NoKeys();
    if now - s.lastEnemyBeamTime > ENEMY_BEAM_INTERVAL && |s.enemies.keys| > 0 {
      var id := s.enemies.keys[PickIndex(pick, |s.enemies.keys|)];
      assert id in s.enemies.m;
    }
  }

  /** A fresh boss is inside the arena when it fits, at full health, and holds its
      fire until 4000 ms after it appeared; the tracker reports it. */
  lemma BossSpawned(s: RoomState, now: int)
    ensures var r := AfterSpawnBoss(s, now);
      && r.boss == Some(NewBoss(now)) && r.changes.boss == Some(Live)
      && r.boss.value.health == BOSS_HEALTH
      && (Fits() ==> 0.0 <= r.boss.value.y <= GAME_HEIGHT - BOSS_SIZE && 0.0 <= r.boss.value.x)
      && (forall t :: t < now + 4000 ==> AfterFireBossWave(r, t) == r)
    ensures s.Valid() ==> AfterSpawnBoss(s, now).Valid()
  {
  }

  /** The boss sways along y only, by at most 2 per tick from a position inside the
      arena, and stays inside it; without a boss nothing changes. */
  lemma BossSway(s: RoomState, sway: real)
    requires -1.0 <= sway <= 1.0
    ensures var r := AfterUpdateBossPosition(s, sway);
      && (s.boss.None? ==> r == s)
      && (s.boss.Some? ==>
            && r.boss.Some? && r.boss.value == s.boss.value.(y := r.boss.value.y)
            && (BOSS_SIZE <= GAME_HEIGHT ==> 0.0 <= r.boss.value.y <= GAME_HEIGHT - BOSS_SIZE)
            && (0.0 <= s.boss.value.y <= GAME_HEIGHT - BOSS_SIZE ==>
                  -2.0 <= r.boss.value.y - s.boss.value.y <= 2.0)
            && r.changes.boss == Some(Live))
    ensures s.Valid() ==> AfterUpdateBossPosition(s, sway).Valid()
  {
  }

  /** The i-th volley bullet lies i tenths of the boss's height below its top, so the
      ten of them are strictly stacked and stay within the boss's height. */
  lemma VolleyStacked(b: Boss, i: nat, j: nat)
    requires i < j < VOLLEY_COUNT
    ensures VolleyBullet(b, i).y < VolleyBullet(b, j).y
    ensures b.y <= VolleyBullet(b, i).y && VolleyBullet(b, j).y < b.y + BOSS_SIZE
  {
    var step: real := BOSS_SIZE / 10.0;
    assert step * 10.0 == BOSS_SIZE;
    ScaleLess(step, i as real, j as real);
    assert (j as real) < 10.0;
    ScaleLess(step, j as real, 10.0);
    assert step * (j as real) < BOSS_SIZE;
    if i > 0 {
      ScaleLess(step, 0.0, i as real);
    }
    assert VolleyBullet(b, i).y == b.y + step * (i as real);
    assert VolleyBullet(b, j).y == b.y + step * (j as real);
  }

  /** Scaling by a positive factor keeps a strict order. */
  lemma ScaleLess(c: real, x: real, y: real)
    requires c > 0.0 && x < y
    ensures c * x < c * y
  {
    PositiveProduct(c, y - x);
    assert c * (y - x) == c * y - c * x;
  }

  lemma PositiveProduct(a: real, b: real)
    requires a > 0.0 && b > 0.0
    ensures a * b > 0.0
  {
  }

  /** A volley fires exactly when a boss is there and at least 2000 ms have passed
      since its clock; it then restarts the clock, leaves the boss's change entry
      alone, and keeps the room well formed. */
  lemma VolleyTimer(s: RoomState, now: int)
    ensures var r := AfterFireBossWave(s, now);
      && (s.boss.None? || now - s.boss.value.lastShootTime < 2000 ==> r == s)
      && (s.boss.Some? && now - s.boss.value.lastShootTime >= 2000 ==>
            r.boss == Some(s.boss.value.(lastShootTime := now)) && r.changes.boss == s.changes.boss
            && r.players == s.players && r.enemies == s.enemies)
    ensures s.Valid() ==> AfterFireBossWave(s, now).Valid()
  {
    if s.Valid() && s.boss.Some? && now - s.boss.value.lastShootTime >= 2000 {
      var b1 := s.boss.value.(lastShootTime := now);
      var s1 := s.(boss := Some(b1));
      PutAllValid(s1.BulletsBook(), VolleyIds(now), Volley(b1));
    }
  }

  /** A volley stores ten owner-less boss bullets from the boss's left edge, each
      logged live; every other bullet and change entry, earlier volleys' included,
      stays as it was. */
  lemma VolleyStored(s: RoomState, now: int)
    requires s.boss.Some? && now - s.boss.value.lastShootTime >= 2000
    ensures var r := AfterFireBossWave(s, now);
      && (forall i :: 0 <= i < VOLLEY_COUNT ==>
            BossShot(now, i) in r.bullets.m
            && r.bullets.m[BossShot(now, i)] == VolleyBullet(s.boss.value, i)
            && r.bullets.m[BossShot(now, i)].isBossBullet
            && r.bullets.m[BossShot(now, i)].playerId == None
            && BossShot(now, i) in r.changes.bullets && r.changes.bullets[BossShot(now, i)] == Live)
      && (forall id :: id in s.bullets.m && id !in VolleyIds(now) ==> id in r.bullets.m && r.bullets.m[id] == s.bullets.m[id])
      && (forall id :: id in s.changes.bullets && id !in VolleyIds(now) ==>
            id in r.changes.bullets && r.changes.bullets[id] == s.changes.bullets[id])
  {
    var b1 := s.boss.value.(lastShootTime := now);
    var s1 := s.(boss := Some(b1));
    var ids := VolleyIds(now);
    PutAllStores(s1.BulletsBook(), ids, Volley(b1));
    PutAllLogs(s1.BulletsBook(), ids, Volley(b1));
    assert forall i :: 0 <= i < VOLLEY_COUNT ==> ids[i] in ids;
  }

  // ---------------------------------------------------------------------------
  // The functions of enemies.js on the room object

  method AddEnemy(g: Room, id: EnemyId, roll: EnemyRoll)
    modifies g
    ensures g.Data() == AfterAddEnemy(old(g.Data()), id, roll)
  {
    g.enemies := g.enemies.Put(id, NewEnemy(roll));
    g.changes := g.changes.(enemies := g.changes.enemies[id := Live]);
  }

  /** `rolls[i]` holds the draws of the i-th addEnemy call. */
  method SpawnEnemyWave(g: Room, now: int, rolls: seq<EnemyRoll>)
    requires |rolls| >= 2 * (g.waveNumber + 1)
    modifies g
    ensures g.Data() == AfterSpawnEnemyWave(old(g.Data()), now, rolls)
  {
    g.waveNumber := g.waveNumber + 1;
    var enemyCount := g.waveNumber * 2;
    AddWave(g, now, rolls, enemyCount);
  }

  /** spawnEnemyWave's counted loop. */
  method AddWave(g: Room, now: int, rolls: seq<EnemyRoll>, enemyCount: nat)
    requires enemyCount <= |rolls|
    modifies g
    ensures g.Data() == old(g.Data()).WithEnemies(
      old(g.Data()).EnemiesBook().PutAll(WaveIds(now, enemyCount), WaveEnemies(rolls, enemyCount)))
  {
    ghost var s0 := g.Data();
    ghost var ids := WaveIds(now, enemyCount);
    ghost var es := WaveEnemies(rolls, enemyCount);
    var i := 0;
    while i < enemyCount
      invariant 0 <= i <= enemyCount
      invariant g.Data() == s0.WithEnemies(s0.EnemiesBook().PutAll(ids[..i], es[..i]))
    {
      AddEnemy(g, EnemyId(now, i), rolls[i]);
      assert ids[..i + 1][..i] == ids[..i] && es[..i + 1][..i] == es[..i];
      i := i + 1;
    }
    assert ids[..i] == ids && es[..i] == es;
  }

  method UpdateEnemyPositions(g: Room)
    modifies g
    ensures g.Data() == AfterUpdateEnemyPositions(old(g.Data()))
  {
    ghost var s0 := g.Data();
    var ks := g.enemies.keys;
    var i := 0;
    while i < |ks|
      invariant 0 <= i <= |ks|
      invariant g.Data() == s0.WithEnemies(MoveEnemies(s0.EnemiesBook(), ks[..i]))
    {
      MoveEnemyAt(g, ks[i]);
      assert ks[..i + 1][..i] == ks[..i];
      i := i + 1;
    }
    assert ks[..i] == ks;
  }

  /** The body of updateEnemyPositions' loop for one key. */
  method MoveEnemyAt(g: Room, enemyId: EnemyId)
    modifies g
    ensures g.Data() == old(g.Data()).WithEnemies(MoveEnemyStep(old(g.Data()).EnemiesBook(), enemyId))
  {
    if enemyId in g.enemies.m {
      var enemy := g.enemies.m[enemyId];
      var x := enemy.x + enemy.dx;
      var y := enemy.y + enemy.dy;
      var dx, dy := enemy.dx, enemy.dy;
      if y <= 0.0 || y + PLAYER_SIZE >= GAME_HEIGHT {
        dy := -dy;
      }
      y := Max(0.0, Min(GAME_HEIGHT - PLAYER_SIZE, y));
      if x < 0.0 || x + PLAYER_SIZE > GAME_WIDTH {
        dx := -dx;
      }
      x := Max(0.0, Min(GAME_WIDTH - PLAYER_SIZE, x));
      g.enemies := g.enemies.Put(enemyId, Enemy(x, y, dx, dy));
      g.changes := g.changes.(enemies := g.changes.enemies[enemyId := Live]);
    }
  }

  /** `pick` is the `Math.random()` draw. */
  method CheckAndFireEnemyBeam(g: Room, now: int, pick: real)
    requires g.enemies.Valid() && 0.0 <= pick < 1.0
    modifies g
    ensures g.Data() == AfterCheckAndFireEnemyBeam(old(g.Data()), now, pick)
  {
    if now - g.lastEnemyBeamTime > ENEMY_BEAM_INTERVAL {
      g.lastEnemyBeamTime := now;
      var enemies := g.enemies.keys;
      if |enemies| > 0 {
        var randomEnemy := g.enemies.m[enemies[PickIndex(pick, |enemies|)]];
        FireEnemyBeam(g, randomEnemy, now);
      }
    }
  }

  method FireEnemyBeam(g: Room, enemy: Enemy, now: int)
    modifies g
    ensures g.Data() == AfterFireEnemyBeam(old(g.Data()), enemy, now)
  {
    var beamId := BeamId(now);
    var isLeftSide := enemy.x < GAME_WIDTH / 2.0;
    var beamWidth := if isLeftSide then GAME_WIDTH - enemy.x else enemy.x;
    var beam := Beam(if isLeftSide then enemy.x else 0.0, enemy.y + PLAYER_SIZE / 2.0 - 10.0,
                     beamWidth, 20.0, if isLeftSide then Right else Left, now);
    g.beams := g.beams.Put(beamId, beam);
    g.changes := g.changes.(beams := g.changes.beams[beamId := Live]);
  }

  method SpawnBoss(g: Room, now: int)
    modifies g
    ensures g.Data() == AfterSpawnBoss(old(g.Data()), now)
  {
    g.boss := Some(Boss(now, GAME_WIDTH - BOSS_SIZE, (GAME_HEIGHT - BOSS_SIZE) / 2.0, BOSS_HEALTH, now + 2000));
    g.changes := g.changes.(boss := Some(Live));
  }

  /** `sway` is `Math.sin(Date.now() / 1000)`. */
  method UpdateBossPosition(g: Room, sway: real)
    modifies g
    ensures g.Data() == AfterUpdateBossPosition(old(g.Data()), sway)
  {
    if g.boss.None? {
      return;
    }
    var boss := g.boss.value;
    var y := boss.y + sway * 2.0;
    y := Max(0.0, Min(GAME_HEIGHT - BOSS_SIZE, y));
    g.boss := Some(boss.(y := y));
    g.changes := g.changes.(boss := Some(Live));
  }

  method FireBossWave(g: Room, now: int)
    modifies g
    ensures g.Data() == AfterFireBossWave(old(g.Data()), now)
  {
    if g.boss.None? || now - g.boss.value.lastShootTime < 2000 {
      return;
    }
    g.boss := Some(g.boss.value.(lastShootTime := now));
    FireVolley(g, g.boss.value, now);
  }

  /** fireBossWave's counted loop, for the boss `b` already stored in the room. */
  method FireVolley(g: Room, b: Boss, now: int)
    modifies g
    ensures g.Data() == old(g.Data()).WithBullets(old(g.Data()).BulletsBook().PutAll(VolleyIds(now), Volley(b)))
  {
    ghost var s1 := g.Data();
    ghost var ids := VolleyIds(now);
    ghost var bs := Volley(b);
    var bulletCount := VOLLEY_COUNT;
    var i := 0;
    while i < bulletCount
      invariant 0 <= i <= bulletCount
      invariant g.Data() == s1.WithBullets(s1.BulletsBook().PutAll(ids[..i], bs[..i]))
    {
      var bulletId := BossShot(now, i);
      StoreBullet(g, bulletId, VolleyBullet(b, i));
      assert ids[..i + 1][..i] == ids[..i] && bs[..i + 1][..i] == bs[..i];
      i := i + 1;
    }
    assert ids[..i] == ids && bs[..i] == bs;
  }
}
