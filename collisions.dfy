/** backend/game/collisions.js: the collision passes of one tick, in the order
    checkCollisions runs them, each against the room as the passes before it left it.

    The overlap tests take their sizes in the order each call passes them: the bullet
    against enemy test pads the bullet by PLAYER_SIZE and the enemy by BULLET_SIZE, the
    boss bullet against player test does the same, and the player against boss test
    pads the player by BOSS_SIZE and the boss by PLAYER_SIZE. */
module Collisions {
  import opened Tables
  import opened Arena
  import opened Constants
  import opened Room
  import PowerUps

  // ---------------------------------------------------------------------------
  // The overlap tests

  /** checkBulletCollisions' enemy test. */
  predicate Strikes(b: Bullet, e: Enemy) {
    IsColliding(b.At(), e.At(), PLAYER_SIZE, BULLET_SIZE)
  }

  function StrikesOf(b: Bullet): Enemy -> bool { e => Strikes(b, e) }

  /** checkBulletCollisions' boss test, written out inline: a bullet that is not the
      boss's own, padded by BULLET_SIZE, against the boss padded by BOSS_SIZE. */
  predicate Wounds(b: Bullet, boss: Boss) {
    !b.isBossBullet && IsColliding(b.At(), boss.At(), BULLET_SIZE, BOSS_SIZE)
  }

  function WoundsOf(boss: Boss): Bullet -> bool { b => Wounds(b, boss) }

  /** A player that neither a boss bullet, a beam nor the boss can kill: one already
      dead, or one under a shield. */
  predicate Exposed(p: Player) {
    !p.isDead && !p.shield
  }

  /** checkBossBulletCollisions' test: a boss bullet only hits a player that is alive
      and unshielded. */
  predicate Shoots(b: Bullet, p: Player) {
    Exposed(p) && IsColliding(b.At(), p.At(), PLAYER_SIZE, BULLET_SIZE)
  }

  function ShootsOf(b: Bullet): Player -> bool { p => Shoots(b, p) }

  /** checkPlayerBossCollision's test. */
  predicate Rams(p: Player, boss: Boss) {
    IsColliding(p.At(), boss.At(), BOSS_SIZE, PLAYER_SIZE)
  }

  function RamsOf(boss: Boss): Player -> bool { p => Rams(p, boss) }

  /** checkPlayerEnemyCollisions' test, with PLAYER_SIZE for both. */
  predicate Bumps(p: Player, e: Enemy) {
    IsColliding(p.At(), e.At(), PLAYER_SIZE, PLAYER_SIZE)
  }

  function BumpsOf(p: Player): Enemy -> bool { e => Bumps(p, e) }

  /** checkBeamCollisions' test: the player's box against the beam's width and a band
      of 5 above and below its top edge; the beam's height is not used. */
  predicate Scorches(beam: Beam, p: Player) {
    && p.x < beam.x + beam.width && p.x + PLAYER_SIZE > beam.x
    && p.y < beam.y + 5.0 && p.y + PLAYER_SIZE > beam.y - 5.0
  }

  function ScorchesOf(beam: Beam): Player -> bool { p => Scorches(beam, p) }

  /** A beam older than BEAM_DURATION, strictly, at `now`. */
  predicate Expired(beam: Beam, now: int) {
    now - beam.createdAt > BEAM_DURATION
  }

  // ---------------------------------------------------------------------------
  // Scoring and killing players

  /** `players[owner].score += points`, with the owner's entry written as an alias,
      when the owner is a player; nothing otherwise. A bullet without an owner looks
      up the key "undefined". */
  function Score(b: Book<string, Player>, owner: string, points: int): Book<string, Player> {
    if owner in b.t.m then b.Put(owner, b.t.m[owner].(score := b.t.m[owner].score + points)) else b
  }

  /** `player.isDead = true` with the entry written as an alias. */
  function Slay(b: Book<string, Player>, id: string): Book<string, Player>
    requires id in b.t.m
  {
    b.Put(id, b.t.m[id].(isDead := true))
  }

  /** One round of a loop over the players that kills each exposed player the test
      `hit` accepts and leaves every other player alone. */
  function SlayStep(b: Book<string, Player>, id: string, hit: Player -> bool): Book<string, Player> {
    if id in b.t.m && Exposed(b.t.m[id]) && hit(b.t.m[id]) then Slay(b, id) else b
  }

  function SlayAll(b: Book<string, Player>, ks: seq<string>, hit: Player -> bool): Book<string, Player> {
    if ks == [] then b else SlayStep(SlayAll(b, ks[..|ks| - 1], hit), ks[|ks| - 1], hit)
  }

  // ---------------------------------------------------------------------------
  // checkBulletCollisions, lines 22-39: bullets against enemies

  /** The enemy pass part way through: the three tables it touches, which enemy each
      bullet took and which bullet took each enemy. */
  datatype StrikeRun = StrikeRun(
    players: Book<string, Player>, bullets: Book<BulletId, Bullet>, enemies: Book<EnemyId, Enemy>,
    hits: map<BulletId, EnemyId>, hitBy: map<EnemyId, BulletId>)

  /** One round of the enemy pass: a bullet still present takes the first enemy, in
      enumeration order, that it strikes; both are deleted and tombstoned and the
      owner, when it is a player, scores 100. Boss bullets are not skipped. */
  function StrikeStep(run: StrikeRun, id: BulletId): StrikeRun {
    if id !in run.bullets.t.m then run
    else
      var b := run.bullets.t.m[id];
      var ks := run.enemies.t.keys;
      var i := FirstWhere(ks, run.enemies.t.m, StrikesOf(b));
      if i == |ks| then run else Strike(run, id, ks[i])
  }

  /** Bullet `id` takes enemy `e`. */
  function Strike(run: StrikeRun, id: BulletId, e: EnemyId): StrikeRun
    requires id in run.bullets.t.m
  {
    StrikeRun(Score(run.players, run.bullets.t.m[id].OwnerKey(), 100), run.bullets.Drop(id), run.enemies.Drop(e),
              run.hits[id := e], run.hitBy[e := id])
  }

  function StrikeSteps(run: StrikeRun, ks: seq<BulletId>): StrikeRun {
    if ks == [] then run else StrikeStep(StrikeSteps(run, ks[..|ks| - 1]), ks[|ks| - 1])
  }

  /** The enemy pass over the bullets in enumeration order. */
  function StrikePass(s: RoomState): StrikeRun {
    StrikeSteps(StrikeRun(s.PlayersBook(), s.BulletsBook(), s.EnemiesBook(), map[], map[]), s.bullets.keys)
  }

  function AfterStrikePass(s: RoomState): RoomState {
    var run := StrikePass(s);
    s.WithPlayers(run.players).WithBullets(run.bullets).WithEnemies(run.enemies)
  }

  // ---------------------------------------------------------------------------
  // checkBulletCollisions, lines 41-71: bullets against the boss

  /** One round of the boss-kill bonus: every player, dead or alive, scores 1000, and
      its entry is a copy taken after the bonus. */
  function BonusStep(b: Book<string, Player>, id: string): Book<string, Player> {
    if id !in b.t.m then b
    else
      var p := b.t.m[id].(score := b.t.m[id].score + 1000);
      Book(b.t.Put(id, p), b.log[id := Copy(p)])
  }

  function Bonus(b: Book<string, Player>, ks: seq<string>): Book<string, Player> {
    if ks == [] then b else BonusStep(Bonus(b, ks[..|ks| - 1]), ks[|ks| - 1])
  }

  /** The boss pass: the first bullet, in enumeration order, that wounds the boss
      takes 10 health from it and is deleted and tombstoned, and the boss's entry
      becomes a copy of the wounded boss. At 0 health or below the boss is gone, its
      entry is the tombstone and every player gets the bonus. At most one bullet
      wounds the boss per call. */
  function AfterBossPass(s: RoomState): RoomState {
    if s.boss.None? then s
    else
      var boss := s.boss.value;
      var ks := s.bullets.keys;
      var i := FirstWhere(ks, s.bullets.m, WoundsOf(boss));
      if i == |ks| then s
      else
        var hurt := boss.(health := boss.health - 10);
        var s1 := s.WithBullets(s.BulletsBook().Drop(ks[i]));
        if hurt.health <= 0 then
          s1.(boss := None, changes := s1.changes.(boss := Some(Removed))).WithPlayers(Bonus(s1.PlayersBook(), s1.players.keys))
        else
          s1.(boss := Some(hurt), changes := s1.changes.(boss := Some(Copy(hurt))))
  }

  /** checkBulletCollisions */
  function AfterCheckBulletCollisions(s: RoomState): RoomState {
    AfterBossPass(AfterStrikePass(s))
  }

  // ---------------------------------------------------------------------------
  // checkBeamCollisions

  datatype BeamRun = BeamRun(players: Book<string, Player>, beams: Book<BeamId, Beam>)

  /** One round of the beam pass: an expired beam is deleted and tombstoned and hits
      nobody; a live one kills every exposed player it scorches. */
  function BeamStep(run: BeamRun, id: BeamId, now: int): BeamRun {
    if id !in run.beams.t.m then run
    else
      var beam := run.beams.t.m[id];
      if Expired(beam, now) then run.(beams := run.beams.Drop(id))
      else run.(players := SlayAll(run.players, run.players.t.keys, ScorchesOf(beam)))
  }

  function BeamSteps(run: BeamRun, ks: seq<BeamId>, now: int): BeamRun {
    if ks == [] then run else BeamStep(BeamSteps(run, ks[..|ks| - 1], now), ks[|ks| - 1], now)
  }

  function BeamPass(s: RoomState, now: int): BeamRun {
    BeamSteps(BeamRun(s.PlayersBook(), s.BeamsBook()), s.beams.keys, now)
  }

  /** checkBeamCollisions, with `Date.now()` as `now`. */
  function AfterCheckBeamCollisions(s: RoomState, now: int): RoomState {
    var run := BeamPass(s, now);
    s.WithPlayers(run.players).WithBeams(run.beams)
  }

  /** Some live beam among the keys `ks` of `m` scorches player `p`. */
  predicate Burns(p: Player, ks: seq<BeamId>, m: map<BeamId, Beam>, now: int) {
    ks != [] &&
    (Burns(p, ks[..|ks| - 1], m, now)
     || (ks[|ks| - 1] in m && !Expired(m[ks[|ks| - 1]], now) && Scorches(m[ks[|ks| - 1]], p)))
  }

  // ---------------------------------------------------------------------------
  // checkBossBulletCollisions

  /** The boss bullet pass part way through, with which player each bullet killed and
      which bullet killed each player. */
  datatype ShotRun = ShotRun(
    players: Book<string, Player>, bullets: Book<BulletId, Bullet>,
    kills: map<BulletId, string>, killedBy: map<string, BulletId>)

  /** One round of the boss bullet pass: a boss bullet still present kills the first
      player, in enumeration order, that it shoots, and is deleted and tombstoned;
      every other bullet is skipped. */
  function ShotStep(run: ShotRun, id: BulletId): ShotRun {
    if id !in run.bullets.t.m || !run.bullets.t.m[id].isBossBullet then run
    else
      var b := run.bullets.t.m[id];
      var ks := run.players.t.keys;
      var i := FirstWhere(ks, run.players.t.m, ShootsOf(b));
      if i == |ks| then run
      else
        var v := ks[i];
        ShotRun(Slay(run.players, v), run.bullets.Drop(id), run.kills[id := v], run.killedBy[v := id])
  }

  function ShotSteps(run: ShotRun, ks: seq<BulletId>): ShotRun {
    if ks == [] then run else ShotStep(ShotSteps(run, ks[..|ks| - 1]), ks[|ks| - 1])
  }

  function ShotPass(s: RoomState): ShotRun {
    ShotSteps(ShotRun(s.PlayersBook(), s.BulletsBook(), map[], map[]), s.bullets.keys)
  }

  /** checkBossBulletCollisions */
  function AfterCheckBossBulletCollisions(s: RoomState): RoomState {
    var run := ShotPass(s);
    s.WithPlayers(run.players).WithBullets(run.bullets)
  }

  // ---------------------------------------------------------------------------
  // checkPlayerBossCollision

  /** checkPlayerBossCollision: with a boss present, every exposed player it rams is
      killed; the shielded survive and the boss is unharmed. */
  function AfterCheckPlayerBossCollision(s: RoomState): RoomState {
    if s.boss.None? then s
    else s.WithPlayers(SlayAll(s.PlayersBook(), s.players.keys, RamsOf(s.boss.value)))
  }

  // ---------------------------------------------------------------------------
  // checkPlayerEnemyCollisions

  /** The player against enemy pass part way through: the tables, whether no player
      visited so far was alive, and which enemy each player bumped and which player
      bumped each enemy. */
  datatype BumpRun = BumpRun(
    players: Book<string, Player>, enemies: Book<EnemyId, Enemy>, gameOver: bool,
    bumps: map<string, EnemyId>, bumpedBy: map<EnemyId, string>)

  /** One round of the pass: a dead player is skipped; a live one clears the game-over
      flag and bumps into the first enemy, in enumeration order, that it overlaps. That
      enemy is deleted and tombstoned even when the player is shielded; an unshielded
      player dies. */
  function BumpStep(run: BumpRun, id: string): BumpRun {
    if id !in run.players.t.m || run.players.t.m[id].isDead then run
    else
      var p := run.players.t.m[id];
      var ks := run.enemies.t.keys;
      var i := FirstWhere(ks, run.enemies.t.m, BumpsOf(p));
      if i == |ks| then run.(gameOver := false)
      else
        var e := ks[i];
        BumpRun(if p.shield then run.players else Slay(run.players, id), run.enemies.Drop(e), false,
                run.bumps[id := e], run.bumpedBy[e := id])
  }

  function BumpSteps(run: BumpRun, ks: seq<string>): BumpRun {
    if ks == [] then run else BumpStep(BumpSteps(run, ks[..|ks| - 1]), ks[|ks| - 1])
  }

  function BumpPass(s: RoomState): BumpRun {
    BumpSteps(BumpRun(s.PlayersBook(), s.EnemiesBook(), true, map[], map[]), s.players.keys)
  }

  /** checkPlayerEnemyCollisions: the room after the pass and its result. */
  function AfterCheckPlayerEnemyCollisions(s: RoomState): (RoomState, bool) {
    var run := BumpPass(s);
    (s.WithPlayers(run.players).WithEnemies(run.enemies), run.gameOver)
  }

  // ---------------------------------------------------------------------------
  // checkCollisions

  /** checkCollisions: every pass in turn; when the player against enemy pass reports
      the game over, the power-up pickup is skipped and the result is true. */
  function AfterCheckCollisions(s: RoomState, now: int): (RoomState, bool) {
    var s1 := AfterCheckBulletCollisions(s);
    var s2 := AfterCheckBeamCollisions(s1, now);
    var s3 := AfterCheckBossBulletCollisions(s2);
    var s4 := AfterCheckPlayerBossCollision(s3);
    var (s5, over) := AfterCheckPlayerEnemyCollisions(s4);
    if over then (s5, true) else (PowerUps.AfterCheckPlayerPowerUpCollisions(s5, now), false)
  }

  // ---------------------------------------------------------------------------
  // The functions of collisions.js on the room object

  /** checkCollisions, with `Date.now()` as `now` for both the beam pass and the
      pickup pass. */
  method CheckCollisions(g: Room, now: int) returns (over: bool)
    modifies g
    ensures (g.Data(), over) == AfterCheckCollisions(old(g.Data()), now)
  {
    CheckBulletCollisions(g);
    CheckBeamCollisions(g, now);
    CheckBossBulletCollisions(g);
    CheckPlayerBossCollision(g);
    over := CheckPlayerEnemyCollisions(g);
    if !over {
      PowerUps.CheckPlayerPowerUpCollisions(g, now);
    }
  }

  method CheckBulletCollisions(g: Room)
    modifies g
    ensures g.Data() == AfterCheckBulletCollisions(old(g.Data()))
  {
    ghost var s0 := g.Data();
    ghost var r0 := StrikeRun(s0.PlayersBook(), s0.BulletsBook(), s0.EnemiesBook(), map[], map[]);
    var ks := g.bullets.keys;
    var i := 0;
    while i < |ks|
      invariant 0 <= i <= |ks|
      invariant var run := StrikeSteps(r0, ks[..i]);
        g.Data() == s0.WithPlayers(run.players).WithBullets(run.bullets).WithEnemies(run.enemies)
    {
      ghost var run := StrikeSteps(r0, ks[..i]);
      StrikeAt(g, ks[i], run.hits, run.hitBy);
      assert ks[..i + 1][..i] == ks[..i];
      i := i + 1;
    }
    assert ks[..i] == ks;
    BossHit(g);
  }

  /** The body of checkBulletCollisions' enemy loop for one bullet; `hits` and `hitBy`
      only carry the record of the pass so far. */
  method StrikeAt(g: Room, id: BulletId, ghost hits: map<BulletId, EnemyId>, ghost hitBy: map<EnemyId, BulletId>)
    modifies g
    ensures var run := StrikeStep(StrikeRun(old(g.Data()).PlayersBook(), old(g.Data()).BulletsBook(), old(g.Data()).EnemiesBook(), hits, hitBy), id);
      g.Data() == old(g.Data()).WithPlayers(run.players).WithBullets(run.bullets).WithEnemies(run.enemies)
  {
    if id in g.bullets.m {
      var bullet := g.bullets.m[id];
      var ks := g.enemies.keys;
      var i := FindFirst(ks, g.enemies.m, StrikesOf(bullet));
      if i < |ks| {
        ScoreAt(g, bullet.OwnerKey(), 100);
        DropBullet(g, id);
        DropEnemy(g, ks[i]);
      }
    }
  }

  /** `delete gameState.bullets[id]; gameState.changes.bullets[id] = null` */
  method DropBullet(g: Room, id: BulletId)
    modifies g
    ensures g.Data() == old(g.Data()).WithBullets(old(g.Data()).BulletsBook().Drop(id))
  {
    g.bullets := g.bullets.Remove(id);
    g.changes := g.changes.(bullets := g.changes.bullets[id := Removed]);
  }

  /** `delete gameState.enemies[id]; gameState.changes.enemies[id] = null` */
  method DropEnemy(g: Room, id: EnemyId)
    modifies g
    ensures g.Data() == old(g.Data()).WithEnemies(old(g.Data()).EnemiesBook().Drop(id))
  {
    g.enemies := g.enemies.Remove(id);
    g.changes := g.changes.(enemies := g.changes.enemies[id := Removed]);
  }

  /** The owner's score and change entry after a hit. */
  method ScoreAt(g: Room, owner: string, points: int)
    modifies g
    ensures g.Data() == old(g.Data()).WithPlayers(Score(old(g.Data()).PlayersBook(), owner, points))
  {
    if owner in g.players.m {
      g.players := g.players.Put(owner, g.players.m[owner].(score := g.players.m[owner].score + points));
      g.changes := g.changes.(players := g.changes.players[owner := Live]);
    }
  }

  /** `player.isDead = true; gameState.changes.players[id] = player` */
  method SlayAt(g: Room, id: string)
    requires id in g.players.m
    modifies g
    ensures g.Data() == old(g.Data()).WithPlayers(Slay(old(g.Data()).PlayersBook(), id))
  {
    g.players := g.players.Put(id, g.players.m[id].(isDead := true));
    g.changes := g.changes.(players := g.changes.players[id := Live]);
  }

  /** checkBulletCollisions' boss loop. */
  method BossHit(g: Room)
    modifies g
    ensures g.Data() == AfterBossPass(old(g.Data()))
  {
    if g.boss.Some? {
      var boss := g.boss.value;
      var ks := g.bullets.keys;
      var i := FindFirst(ks, g.bullets.m, WoundsOf(boss));
      if i < |ks| {
        DropBullet(g, ks[i]);
        boss := boss.(health := boss.health - 10);
        g.boss := Some(boss);
        g.changes := g.changes.(boss := Some(Copy(boss)));
        if boss.health <= 0 {
          g.boss := None;
          g.changes := g.changes.(boss := Some(Removed));
          AwardBonus(g);
        }
      }
    }
  }

  /** The boss-kill bonus loop over the players. */
  method AwardBonus(g: Room)
    modifies g
    ensures g.Data() == old(g.Data()).WithPlayers(Bonus(old(g.Data()).PlayersBook(), old(g.players.keys)))
  {
    ghost var s0 := g.Data();
    var ks := g.players.keys;
    var i := 0;
    while i < |ks|
      invariant 0 <= i <= |ks|
      invariant g.Data() == s0.WithPlayers(Bonus(s0.PlayersBook(), ks[..i]))
    {
      var id := ks[i];
      if id in g.players.m {
        var p := g.players.m[id].(score := g.players.m[id].score + 1000);
        g.players := g.players.Put(id, p);
        g.changes := g.changes.(players := g.changes.players[id := Copy(p)]);
      }
      assert ks[..i + 1][..i] == ks[..i];
      i := i + 1;
    }
    assert ks[..i] == ks;
  }

  /** checkBeamCollisions, with `Date.now()` as `now`. */
  method CheckBeamCollisions(g: Room, now: int)
    modifies g
    ensures g.Data() == AfterCheckBeamCollisions(old(g.Data()), now)
  {
    ghost var s0 := g.Data();
    ghost var r0 := BeamRun(s0.PlayersBook(), s0.BeamsBook());
    var ks := g.beams.keys;
    var i := 0;
    while i < |ks|
      invariant 0 <= i <= |ks|
      invariant g.Data() == s0.WithPlayers(BeamSteps(r0, ks[..i], now).players).WithBeams(BeamSteps(r0, ks[..i], now).beams)
    {
      var id := ks[i];
      if id in g.beams.m {
        var beam := g.beams.m[id];
        if Expired(beam, now) {
          g.beams := g.beams.Remove(id);
          g.changes := g.changes.(beams := g.changes.beams[id := Removed]);
        } else {
          SlayWhere(g, ScorchesOf(beam));
        }
      }
      assert ks[..i + 1][..i] == ks[..i];
      i := i + 1;
    }
    assert ks[..i] == ks;
  }

  /** A loop over the players that kills each exposed player `hit` accepts. */
  method SlayWhere(g: Room, hit: Player -> bool)
    modifies g
    ensures g.Data() == old(g.Data()).WithPlayers(SlayAll(old(g.Data()).PlayersBook(), old(g.players.keys), hit))
  {
    ghost var s0 := g.Data();
    var ks := g.players.keys;
    var i := 0;
    while i < |ks|
      invariant 0 <= i <= |ks|
      invariant g.Data() == s0.WithPlayers(SlayAll(s0.PlayersBook(), ks[..i], hit))
    {
      var id := ks[i];
      if id in g.players.m && Exposed(g.players.m[id]) && hit(g.players.m[id]) {
        SlayAt(g, id);
      }
      assert ks[..i + 1][..i] == ks[..i];
      i := i + 1;
    }
    assert ks[..i] == ks;
  }

  method CheckBossBulletCollisions(g: Room)
    modifies g
    ensures g.Data() == AfterCheckBossBulletCollisions(old(g.Data()))
  {
    ghost var s0 := g.Data();
    ghost var r0 := ShotRun(s0.PlayersBook(), s0.BulletsBook(), map[], map[]);
    var ks := g.bullets.keys;
    var i := 0;
    while i < |ks|
      invariant 0 <= i <= |ks|
      invariant g.Data() == s0.WithPlayers(ShotSteps(r0, ks[..i]).players).WithBullets(ShotSteps(r0, ks[..i]).bullets)
    {
      ghost var run := ShotSteps(r0, ks[..i]);
      ShotAt(g, ks[i], run.kills, run.killedBy);
      assert ks[..i + 1][..i] == ks[..i];
      i := i + 1;
    }
    assert ks[..i] == ks;
  }

  /** The body of checkBossBulletCollisions' outer loop for one bullet. */
  method ShotAt(g: Room, id: BulletId, ghost kills: map<BulletId, string>, ghost killedBy: map<string, BulletId>)
    modifies g
    ensures var run := ShotStep(ShotRun(old(g.Data()).PlayersBook(), old(g.Data()).BulletsBook(), kills, killedBy), id);
      g.Data() == old(g.Data()).WithPlayers(run.players).WithBullets(run.bullets)
  {
    if id in g.bullets.m && g.bullets.m[id].isBossBullet {
      var bullet := g.bullets.m[id];
      var ks := g.players.keys;
      var i := FindFirst(ks, g.players.m, ShootsOf(bullet));
      if i < |ks| {
        SlayAt(g, ks[i]);
        DropBullet(g, id);
      }
    }
  }

  method CheckPlayerBossCollision(g: Room)
    modifies g
    ensures g.Data() == AfterCheckPlayerBossCollision(old(g.Data()))
  {
    if g.boss.Some? {
      SlayWhere(g, RamsOf(g.boss.value));
    }
  }

  method CheckPlayerEnemyCollisions(g: Room) returns (over: bool)
    modifies g
    ensures (g.Data(), over) == AfterCheckPlayerEnemyCollisions(old(g.Data()))
  {
    ghost var s0 := g.Data();
    ghost var r0 := BumpRun(s0.PlayersBook(), s0.EnemiesBook(), true, map[], map[]);
    over := true;
    var ks := g.players.keys;
    var i := 0;
    while i < |ks|
      invariant 0 <= i <= |ks|
      invariant var run := BumpSteps(r0, ks[..i]);
        g.Data() == s0.WithPlayers(run.players).WithEnemies(run.enemies) && over == run.gameOver
    {
      ghost var run := BumpSteps(r0, ks[..i]);
      var id := ks[i];
      if id in g.players.m && !g.players.m[id].isDead {
        over := false;
        BumpAt(g, id, run.bumps, run.bumpedBy);
      }
      assert ks[..i + 1][..i] == ks[..i];
      i := i + 1;
    }
    assert ks[..i] == ks;
  }

  /** The body of checkPlayerEnemyCollisions' loop for one live player. */
  method BumpAt(g: Room, id: string, ghost bumps: map<string, EnemyId>, ghost bumpedBy: map<EnemyId, string>)
    requires id in g.players.m && !g.players.m[id].isDead
    modifies g
    ensures var run := BumpStep(BumpRun(old(g.Data()).PlayersBook(), old(g.Data()).EnemiesBook(), false, bumps, bumpedBy), id);
      g.Data() == old(g.Data()).WithPlayers(run.players).WithEnemies(run.enemies)
  {
    var player := g.players.m[id];
    var ks := g.enemies.keys;
    var i := FindFirst(ks, g.enemies.m, BumpsOf(player));
    if i < |ks| {
      if !player.shield {
        SlayAt(g, id);
      }
      DropEnemy(g, ks[i]);
    }
  }
}
