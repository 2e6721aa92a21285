/** The monolithic room state of backend/game/gameState.js: players, bullets and
    enemies keyed by id, a change tracker with one map per kind, and the wave counter.
    This copy predates players.js and collisions.js; its records carry no death or buff
    flags, and its arena constants are the ones at the top of that file. The session
    registry (sessionmanager.dfy) uses this version. */
module GameState {
  import opened Tables
  import opened Arena

  const GAME_WIDTH: real := 1000.0
  const GAME_HEIGHT: real := 500.0
  const PLAYER_SIZE: real := 20.0
  const PLAYER_SPEED: real := 3.0
  const BULLET_SIZE: real := 5.0
  const BULLET_SPEED: real := 5.0

  datatype Player = Player(x: real, y: real, dx: real, dy: real, direction: Direction, score: int)

  datatype Bullet = Bullet(x: real, y: real, dx: real, dy: real, playerId: string)

  /** Bullets are keyed by `Date.now().toString()`, the millisecond stamp of the shot. */
  type BulletId = int

  datatype Changes = Changes(
    players: map<string, Change<Player>>,
    bullets: map<BulletId, Change<Bullet>>,
    enemies: map<EnemyId, Change<Enemy>>)

  const NoChanges: Changes := Changes(map[], map[], map[])

  /** The value of a game-state object. */
  datatype State = State(
    players: Table<string, Player>,
    bullets: Table<BulletId, Bullet>,
    enemies: Table<EnemyId, Enemy>,
    changes: Changes,
    waveNumber: nat,
    isGameStarted: bool)
  {
    ghost predicate Valid() {
      Kept(players, changes.players) && Kept(bullets, changes.bullets) && Kept(enemies, changes.enemies)
    }
  }

  /** What getChanges hands to the broadcaster: every tracked id with its current
      record or `null`, and the wave number. */
  datatype Delta = Delta(
    players: map<string, Option<Player>>,
    bullets: map<BulletId, Option<Bullet>>,
    enemies: map<EnemyId, Option<Enemy>>,
    waveNumber: nat)

  // ---------------------------------------------------------------------------
  // Records

  /** The record addPlayer stores. */
  function NewPlayer(): Player {
    Player(0.0, 0.0, 0.0, 0.0, Right, 0)
  }

  /** addBullet's `directionOffsets[player.direction]`: x offset, y offset, dx, dy. */
  function Offsets(d: Direction): (real, real, real, real) {
    match d
    case Left => (-PLAYER_SIZE / 2.0, 0.0, -BULLET_SPEED, 0.0)
    case Right => (PLAYER_SIZE / 2.0, 0.0, BULLET_SPEED, 0.0)
    case Up => (0.0, -PLAYER_SIZE / 2.0, 0.0, -BULLET_SPEED)
    case Down => (0.0, PLAYER_SIZE / 2.0, 0.0, BULLET_SPEED)
  }

  function ShotFrom(p: Player, owner: string): Bullet {
    var (xOffset, yOffset, dx, dy) := Offsets(p.direction);
    Bullet(p.x + PLAYER_SIZE / 2.0 + xOffset, p.y + PLAYER_SIZE / 2.0 + yOffset, dx, dy, owner)
  }

  /** A shot leaves the player's centre half a player-width toward the facing side and
      flies along the facing axis only, at BULLET_SPEED. */
  lemma ShotAlongFacing(p: Player, owner: string)
    ensures var b := ShotFrom(p, owner); var (ux, uy) := Facing(p.direction);
      && b.x == p.x + PLAYER_SIZE / 2.0 + (PLAYER_SIZE / 2.0) * ux
      && b.y == p.y + PLAYER_SIZE / 2.0 + (PLAYER_SIZE / 2.0) * uy
      && b.dx == BULLET_SPEED * ux && b.dy == BULLET_SPEED * uy
      && (b.dx == 0.0 || b.dy == 0.0)
      && b.playerId == owner
  {
  }

  /** addEnemy's record for the three random draws. */
  function NewEnemy(roll: EnemyRoll): (e: Enemy)
    ensures e.x == GAME_WIDTH - PLAYER_SIZE
    ensures roll.InUnit() ==> 0.0 <= e.y < GAME_HEIGHT - PLAYER_SIZE
    ensures roll.InUnit() ==> -2.0 <= e.dx < -1.0 && -1.5 <= e.dy < 1.5
  {
    SpawnEnemy(roll, GAME_WIDTH - PLAYER_SIZE, GAME_HEIGHT - PLAYER_SIZE, PLAYER_SPEED)
  }

  /** One step of updatePlayerPositions for one player. */
  function MovePlayer(p: Player): (q: Player)
    ensures 0.0 <= q.x <= GAME_WIDTH - PLAYER_SIZE && 0.0 <= q.y <= GAME_HEIGHT - PLAYER_SIZE
    ensures 0.0 <= p.x + p.dx <= GAME_WIDTH - PLAYER_SIZE ==> q.x == p.x + p.dx
    ensures 0.0 <= p.y + p.dy <= GAME_HEIGHT - PLAYER_SIZE ==> q.y == p.y + p.dy
    ensures q.dx == p.dx && q.dy == p.dy && q.direction == p.direction && q.score == p.score
  {
    p.(x := Clamp(GAME_WIDTH - PLAYER_SIZE, p.x + p.dx),
       y := Clamp(GAME_HEIGHT - PLAYER_SIZE, p.y + p.dy))
  }

  /** One step of updateEnemyPositions for one enemy: move, reflect dy when the moved
      box touches the top or bottom (inclusive), clamp y, reflect dx when it crosses the
      left or right wall (strict), clamp x. */
  function BounceEnemy(e: Enemy): (r: Enemy)
    ensures 0.0 <= r.x <= GAME_WIDTH - PLAYER_SIZE && 0.0 <= r.y <= GAME_HEIGHT - PLAYER_SIZE
    ensures (e.y + e.dy <= 0.0 || e.y + e.dy + PLAYER_SIZE >= GAME_HEIGHT) ==> r.dy == -e.dy
    ensures !(e.y + e.dy <= 0.0 || e.y + e.dy + PLAYER_SIZE >= GAME_HEIGHT) ==> r.dy == e.dy && r.y == e.y + e.dy
    ensures (e.x + e.dx < 0.0 || e.x + e.dx + PLAYER_SIZE > GAME_WIDTH) ==> r.dx == -e.dx
    ensures !(e.x + e.dx < 0.0 || e.x + e.dx + PLAYER_SIZE > GAME_WIDTH) ==> r.dx == e.dx && r.x == e.x + e.dx
  {
    Bounce(e, GAME_WIDTH, GAME_HEIGHT, PLAYER_SIZE)
  }

  function MoveBullet(b: Bullet): Bullet {
    b.(x := b.x + b.dx, y := b.y + b.dy)
  }

  predicate OutOfArena(b: Bullet) {
    b.x + BULLET_SIZE < 0.0 || b.x > GAME_WIDTH || b.y + BULLET_SIZE < 0.0 || b.y > GAME_HEIGHT
  }

  /** The inline overlap test of checkBulletCollisions: the bullet's box padded by
      BULLET_SIZE against the enemy's padded by PLAYER_SIZE, open at the edges. */
  predicate Hits(b: Bullet, e: Enemy) {
    IsColliding(Point(b.x, b.y), e.At(), BULLET_SIZE, PLAYER_SIZE)
  }

  function HitsOf(b: Bullet): Enemy -> bool { e => Hits(b, e) }

  // ---------------------------------------------------------------------------
  // Operations on the state value

  /** `r` differs from `s` at most in the players and their change entries. */
  ghost predicate OnlyPlayers(s: State, r: State) {
    && r.bullets == s.bullets && r.enemies == s.enemies
    && r.changes.bullets == s.changes.bullets && r.changes.enemies == s.changes.enemies
    && r.waveNumber == s.waveNumber && r.isGameStarted == s.isGameStarted
  }

  ghost predicate OnlyEnemies(s: State, r: State) {
    && r.players == s.players && r.bullets == s.bullets
    && r.changes.players == s.changes.players && r.changes.bullets == s.changes.bullets
    && r.waveNumber == s.waveNumber && r.isGameStarted == s.isGameStarted
  }

  ghost predicate OnlyBullets(s: State, r: State) {
    && r.players == s.players && r.enemies == s.enemies
    && r.changes.players == s.changes.players && r.changes.enemies == s.changes.enemies
    && r.waveNumber == s.waveNumber && r.isGameStarted == s.isGameStarted
  }

  ghost predicate SameRound(s: State, r: State) {
    r.waveNumber == s.waveNumber && r.isGameStarted == s.isGameStarted
  }

  /** The value createGameState returns: nothing stored, nothing tracked, wave 0. */
  function Initial(): (s: State)
    ensures s.Valid()
  {
    State(Empty(), Empty(), Empty(), NoChanges, 0, false)
  }

  function AfterAddPlayer(s: State, id: string): (r: State)
    ensures s.Valid() ==> r.Valid()
  {
    s.(players := s.players.Put(id, NewPlayer()),
       changes := s.changes.(players := s.changes.players[id := Live]))
  }

  function AfterRemovePlayer(s: State, id: string): (r: State)
    ensures s.Valid() ==> r.Valid()
  {
    s.(players := s.players.Remove(id),
       changes := s.changes.(players := s.changes.players[id := Removed]))
  }

  function AfterAddBullet(s: State, playerId: string, now: int): (r: State)
    requires playerId in s.players.m
    ensures s.Valid() ==> r.Valid()
  {
    var b := ShotFrom(s.players.m[playerId], playerId);
    s.(bullets := s.bullets.Put(now, b),
       changes := s.changes.(bullets := s.changes.bullets[now := Live]))
  }

  function AfterAddEnemy(s: State, id: EnemyId, roll: EnemyRoll): (r: State)
    ensures s.Valid() ==> r.Valid()
  {
    s.(enemies := s.enemies.Put(id, NewEnemy(roll)),
       changes := s.changes.(enemies := s.changes.enemies[id := Live]))
  }

  /** The first `n` rounds of spawnEnemyWave's counted loop. */
  function AddEnemies(s: State, now: int, rolls: seq<EnemyRoll>, n: nat): (r: State)
    requires n <= |rolls|
    ensures s.Valid() ==> r.Valid()
    ensures OnlyEnemies(s, r)
  {
    if n == 0 then s
    else AfterAddEnemy(AddEnemies(s, now, rolls, n - 1), EnemyId(now, n - 1), rolls[n - 1])
  }

  function AfterSpawnEnemyWave(s: State, now: int, rolls: seq<EnemyRoll>): (r: State)
    requires |rolls| >= 2 * (s.waveNumber + 1)
    ensures s.Valid() ==> r.Valid()
  {
    var s1 := s.(waveNumber := s.waveNumber + 1);
    AddEnemies(s1, now, rolls, 2 * s1.waveNumber)
  }

  function AfterCheckAndSpawnNewWave(s: State, now: int, rolls: seq<EnemyRoll>): (r: State)
    requires |rolls| >= 2 * (s.waveNumber + 1)
    ensures s.Valid() ==> r.Valid()
    ensures |s.enemies.keys| != 0 ==> r == s
    ensures |s.enemies.keys| == 0 ==> r.waveNumber == s.waveNumber + 1
  {
    if |s.enemies.keys| == 0 then AfterSpawnEnemyWave(s, now, rolls) else s
  }

  function AfterHandlePlayerInput(s: State, id: string, input: string, now: int): (r: State)
    ensures s.Valid() ==> r.Valid()
    ensures r.players.m.Keys == s.players.m.Keys && r.isGameStarted == s.isGameStarted
    ensures id !in s.players.m ==> r == s
    ensures input !in {"shoot", "left", "right", "up", "down", "stopX", "stopY"} ==> r == s
    ensures id in s.players.m && input == "stopX" ==> r.players.m == s.players.m[id := s.players.m[id].(dx := 0.0)]
    ensures id in s.players.m && input == "stopY" ==> r.players.m == s.players.m[id := s.players.m[id].(dy := 0.0)]
    ensures id in s.players.m && IsDirectionToken(input) ==>
      id in r.players.m && var q := r.players.m[id];
      && q.direction == TokenDirection(input)
      && q.dx == PLAYER_SPEED * Facing(q.direction).0 && q.dy == PLAYER_SPEED * Facing(q.direction).1
      && r.players.m == s.players.m[id := q]
  {
    if id !in s.players.m then s
    else if input == "shoot" then AfterAddBullet(s, id, now)
    else
      var p := s.players.m[id];
      match Steer(input, PLAYER_SPEED, p.dx, p.dy, p.direction)
      case None => s
      case Some((dx, dy, direction)) =>
        s.(players := s.players.Put(id, p.(dx := dx, dy := dy, direction := direction)),
           changes := s.changes.(players := s.changes.players[id := Live]))
  }

  /** One round of updatePlayerPositions' loop: a player still present moves. */
  function MovePlayerStep(t: State, id: string): (r: State)
    ensures t.Valid() ==> r.Valid()
    ensures OnlyPlayers(t, r)
    ensures r.players.keys == t.players.keys && r.players.m.Keys == t.players.m.Keys
  {
    if id in t.players.m then
      t.(players := t.players.Put(id, MovePlayer(t.players.m[id])),
         changes := t.changes.(players := t.changes.players[id := Live]))
    else t
  }

  /** updatePlayerPositions over the keys `ks`. */
  function MovePlayers(s: State, ks: seq<string>): (r: State)
    ensures s.Valid() ==> r.Valid()
    ensures OnlyPlayers(s, r)
    ensures r.players.keys == s.players.keys && r.players.m.Keys == s.players.m.Keys
  {
    if ks == [] then s else MovePlayerStep(MovePlayers(s, ks[..|ks| - 1]), ks[|ks| - 1])
  }

  function AfterUpdatePlayerPositions(s: State): State {
    MovePlayers(s, s.players.keys)
  }

  /** One round of updateEnemyPositions' loop: an enemy still present bounces. */
  function MoveEnemyStep(t: State, id: EnemyId): (r: State)
    ensures t.Valid() ==> r.Valid()
    ensures OnlyEnemies(t, r)
    ensures r.enemies.keys == t.enemies.keys && r.enemies.m.Keys == t.enemies.m.Keys
  {
    if id in t.enemies.m then
      t.(enemies := t.enemies.Put(id, BounceEnemy(t.enemies.m[id])),
         changes := t.changes.(enemies := t.changes.enemies[id := Live]))
    else t
  }

  /** updateEnemyPositions over the keys `ks`. */
  function MoveEnemies(s: State, ks: seq<EnemyId>): (r: State)
    ensures s.Valid() ==> r.Valid()
    ensures OnlyEnemies(s, r)
    ensures r.enemies.keys == s.enemies.keys && r.enemies.m.Keys == s.enemies.m.Keys
  {
    if ks == [] then s else MoveEnemyStep(MoveEnemies(s, ks[..|ks| - 1]), ks[|ks| - 1])
  }

  function AfterUpdateEnemyPositions(s: State): State {
    MoveEnemies(s, s.enemies.keys)
  }

  /** One round of updateBulletPositions' loop: a bullet still present moves, and is
      deleted and tombstoned when it has left the arena. */
  function MoveBulletStep(t: State, id: BulletId): (r: State)
    ensures t.Valid() ==> r.Valid()
    ensures OnlyBullets(t, r)
    ensures r.bullets.m.Keys <= t.bullets.m.Keys
  {
    if id in t.bullets.m then
      var b := MoveBullet(t.bullets.m[id]);
      if OutOfArena(b) then
        t.(bullets := t.bullets.Remove(id),
           changes := t.changes.(bullets := t.changes.bullets[id := Removed]))
      else
        t.(bullets := t.bullets.Put(id, b),
           changes := t.changes.(bullets := t.changes.bullets[id := Live]))
    else t
  }

  /** updateBulletPositions over the keys `ks`. */
  function MoveBullets(s: State, ks: seq<BulletId>): (r: State)
    ensures s.Valid() ==> r.Valid()
    ensures OnlyBullets(s, r)
    ensures r.bullets.m.Keys <= s.bullets.m.Keys
  {
    if ks == [] then s else MoveBulletStep(MoveBullets(s, ks[..|ks| - 1]), ks[|ks| - 1])
  }

  function AfterUpdateBulletPositions(s: State): State {
    MoveBullets(s, s.bullets.keys)
  }

  /** The state of checkBulletCollisions after some bullets: the state, which bullet
      took which enemy, and whether the pass has thrown. */
  datatype HitRun = HitRun(state: State, hits: map<BulletId, EnemyId>, thrown: bool)

  /** One round of checkBulletCollisions' outer loop. A bullet still present takes the
      first enemy, in enumeration order, that it overlaps: both are deleted and
      tombstoned and the owner scores 100. When the owner is no longer in `players`
      the score update throws a TypeError, which ends the pass. */
  function HitStep(run: HitRun, id: BulletId): (r: HitRun)
    ensures SameRound(run.state, r.state)
  {
    var t := run.state;
    if run.thrown || id !in t.bullets.m then run
    else
      var bullet := t.bullets.m[id];
      var i := FirstWhere(t.enemies.keys, t.enemies.m, HitsOf(bullet));
      if i == |t.enemies.keys| then run
      else
        Credit(run, id, t.enemies.keys[i])
  }

  /** Bullet `id` has hit enemy `e`: both go, and the owner scores, or the pass throws
      when the owner is not in `players`. */
  function Credit(run: HitRun, id: BulletId, e: EnemyId): (r: HitRun)
    requires id in run.state.bullets.m
    ensures SameRound(run.state, r.state)
    ensures r.hits == run.hits[id := e]
  {
    var t1 := Kill(run.state, id, e);
    var owner := run.state.bullets.m[id].playerId;
    if owner in t1.players.m then HitRun(Award(t1, owner), run.hits[id := e], false)
    else HitRun(t1, run.hits[id := e], true)
  }

  lemma CreditValid(run: HitRun, id: BulletId, e: EnemyId)
    requires id in run.state.bullets.m
    ensures run.state.Valid() ==> Credit(run, id, e).state.Valid()
  {
    var t1 := Kill(run.state, id, e);
    var owner := run.state.bullets.m[id].playerId;
    KillValid(run.state, id, e);
    if owner in t1.players.m {
      AwardValid(t1, owner);
    }
  }

  lemma KillValid(t: State, b: BulletId, e: EnemyId)
    ensures t.Valid() ==> Kill(t, b, e).Valid()
  {
  }

  lemma AwardValid(t: State, owner: string)
    requires owner in t.players.m
    ensures t.Valid() ==> Award(t, owner).Valid()
  {
  }

  /** A bullet and the enemy it hit are deleted and tombstoned. */
  function Kill(t: State, b: BulletId, e: EnemyId): (r: State)
    ensures r.players == t.players && r.changes.players == t.changes.players
    ensures r.bullets.m == t.bullets.m - {b} && r.enemies.m == t.enemies.m - {e}
    ensures r.changes.bullets == t.changes.bullets[b := Removed]
    ensures r.changes.enemies == t.changes.enemies[e := Removed]
  {
    t.(enemies := t.enemies.Remove(e),
       bullets := t.bullets.Remove(b),
       changes := t.changes.(enemies := t.changes.enemies[e := Removed],
                             bullets := t.changes.bullets[b := Removed]))
  }

  /** `players[owner].score += 100` and the owner marked changed. */
  function Award(t: State, owner: string): (r: State)
    requires owner in t.players.m
    ensures r.players.m == t.players.m[owner := t.players.m[owner].(score := t.players.m[owner].score + 100)]
    ensures r.changes.players == t.changes.players[owner := Live]
  {
    var p := t.players.m[owner];
    t.(players := t.players.Put(owner, p.(score := p.score + 100)),
       changes := t.changes.(players := t.changes.players[owner := Live]))
  }

  /** checkBulletCollisions over the bullet keys `ks`. */
  function BulletHits(s: State, ks: seq<BulletId>): (run: HitRun)
    ensures SameRound(s, run.state)
  {
    if ks == [] then HitRun(s, map[], false) else HitStep(BulletHits(s, ks[..|ks| - 1]), ks[|ks| - 1])
  }

  lemma HitStepValid(run: HitRun, id: BulletId)
    ensures run.state.Valid() ==> HitStep(run, id).state.Valid()
  {
    var t := run.state;
    if !run.thrown && id in t.bullets.m {
      var i := FirstWhere(t.enemies.keys, t.enemies.m, HitsOf(t.bullets.m[id]));
      if i < |t.enemies.keys| {
        CreditValid(run, id, t.enemies.keys[i]);
      }
    }
  }

  lemma {:induction false} BulletHitsValid(s: State, ks: seq<BulletId>)
    ensures s.Valid() ==> BulletHits(s, ks).state.Valid()
  {
    if ks != [] {
      BulletHitsValid(s, ks[..|ks| - 1]);
      HitStepValid(BulletHits(s, ks[..|ks| - 1]), ks[|ks| - 1]);
    }
  }

  function AfterCheckBulletCollisions(s: State): HitRun {
    BulletHits(s, s.bullets.keys)
  }

  /** updateGameState: the state after one tick and whether the tick threw. */
  function AfterUpdateGameState(s: State, now: int, rolls: seq<EnemyRoll>): (r: (State, bool))
    requires |rolls| >= 2 * (s.waveNumber + 1)
  {
    var s1 := AfterUpdatePlayerPositions(s);
    var s2 := AfterUpdateBulletPositions(s1);
    var s3 := AfterUpdateEnemyPositions(s2);
    var run := AfterCheckBulletCollisions(s3);
    if run.thrown then (run.state, true)
    else (AfterCheckAndSpawnNewWave(run.state, now, rolls), false)
  }

  /** What getChanges returns: one entry per tracked id, `null` exactly for the
      tombstones, and the current wave number. */
  function ChangesOf(s: State): (d: Delta)
    requires s.Valid()
    ensures d.waveNumber == s.waveNumber
    ensures d.players.Keys == s.changes.players.Keys && d.bullets.Keys == s.changes.bullets.Keys
    ensures d.enemies.Keys == s.changes.enemies.Keys
    ensures forall id :: id in d.players ==> (d.players[id].None? <==> s.changes.players[id].Removed?)
    ensures forall id :: id in d.bullets ==> (d.bullets[id].None? <==> s.changes.bullets[id].Removed?)
    ensures forall id :: id in d.enemies ==> (d.enemies[id].None? <==> s.changes.enemies[id].Removed?)
  {
    Delta(Resolve(s.changes.players, s.players),
          Resolve(s.changes.bullets, s.bullets),
          Resolve(s.changes.enemies, s.enemies),
          s.waveNumber)
  }

  // ---------------------------------------------------------------------------
  // The mutable game-state object and the functions of gameState.js

  class GameState {
    var players: Table<string, Player>
    var bullets: Table<BulletId, Bullet>
    var enemies: Table<EnemyId, Enemy>
    var changes: Changes
    var waveNumber: nat
    var isGameStarted: bool

    ghost function Data(): State
      reads this
    {
      State(players, bullets, enemies, changes, waveNumber, isGameStarted)
    }

    ghost predicate Valid()
      reads this
    {
      Data().Valid()
    }

    /** createGameState. `isGameStarted` is not set there and reads as false. */
    constructor ()
      ensures Valid()
      ensures players.m == map[] && bullets.m == map[] && enemies.m == map[]
      ensures changes == NoChanges && waveNumber == 0 && !isGameStarted
      ensures Data() == Initial()
    {
      players := Empty();
      bullets := Empty();
      enemies := Empty();
      changes := NoChanges;
      waveNumber := 0;
      isGameStarted := false;
    }
  }

  method AddPlayer(g: GameState, id: string)
    requires g.Valid()
    modifies g
    ensures g.Valid() && g.Data() == AfterAddPlayer(old(g.Data()), id)
  {
    g.players := g.players.Put(id, NewPlayer());
    g.changes := g.changes.(players := g.changes.players[id := Live]);
  }

  method AddBullet(g: GameState, playerId: string, now: int)
    requires g.Valid() && playerId in g.players.m
    modifies g
    ensures g.Valid() && g.Data() == AfterAddBullet(old(g.Data()), playerId, now)
  {
    var player := g.players.m[playerId];
    var bulletId := now;
    var bullet := ShotFrom(player, playerId);
    g.bullets := g.bullets.Put(bulletId, bullet);
    g.changes := g.changes.(bullets := g.changes.bullets[bulletId := Live]);
  }

  method RemovePlayer(g: GameState, id: string)
    requires g.Valid()
    modifies g
    ensures g.Valid() && g.Data() == AfterRemovePlayer(old(g.Data()), id)
  {
    g.players := g.players.Remove(id);
    g.changes := g.changes.(players := g.changes.players[id := Removed]);
  }

  method AddEnemy(g: GameState, id: EnemyId, roll: EnemyRoll)
    modifies g
    ensures g.Data() == AfterAddEnemy(old(g.Data()), id, roll)
  {
    g.enemies := g.enemies.Put(id, NewEnemy(roll));
    g.changes := g.changes.(enemies := g.changes.enemies[id := Live]);
  }

  /** `rolls[i]` holds the draws of the i-th addEnemy call. */
  method SpawnEnemyWave(g: GameState, now: int, rolls: seq<EnemyRoll>)
    requires g.Valid() && |rolls| >= 2 * (g.waveNumber + 1)
    modifies g
    ensures g.Valid() && g.Data() == AfterSpawnEnemyWave(old(g.Data()), now, rolls)
  {
    g.waveNumber := g.waveNumber + 1;
    var enemyCount := g.waveNumber * 2;
    AddWave(g, now, rolls, enemyCount);
  }

  /** spawnEnemyWave's counted loop. */
  method AddWave(g: GameState, now: int, rolls: seq<EnemyRoll>, enemyCount: nat)
    requires enemyCount <= |rolls|
    modifies g
    ensures g.Data() == AddEnemies(old(g.Data()), now, rolls, enemyCount)
  {
    ghost var s1 := g.Data();
    var i := 0;
    while i < enemyCount
      invariant 0 <= i <= enemyCount
      invariant g.Data() == AddEnemies(s1, now, rolls, i)
    {
      AddEnemy(g, EnemyId(now, i), rolls[i]);
      i := i + 1;
    }
  }

  method CheckAndSpawnNewWave(g: GameState, now: int, rolls: seq<EnemyRoll>)
    requires g.Valid() && |rolls| >= 2 * (g.waveNumber + 1)
    modifies g
    ensures g.Valid() && g.Data() == AfterCheckAndSpawnNewWave(old(g.Data()), now, rolls)
  {
    if |g.enemies.keys| == 0 {
      SpawnEnemyWave(g, now, rolls);
    }
  }

  method HandlePlayerInput(g: GameState, id: string, input: string, now: int)
    requires g.Valid()
    modifies g
    ensures g.Valid() && g.Data() == AfterHandlePlayerInput(old(g.Data()), id, input, now)
  {
    if id !in g.players.m {
      return;
    }
    var player := g.players.m[id];
    if input == "shoot" {
      AddBullet(g, id, now);
    } else {
      var steer := Steer(input, PLAYER_SPEED, player.dx, player.dy, player.direction);
      if steer.Some? {
        var (dx, dy, direction) := steer.value;
        g.players := g.players.Put(id, player.(dx := dx, dy := dy, direction := direction));
        g.changes := g.changes.(players := g.changes.players[id := Live]);
      }
    }
  }

  method UpdatePlayerPositions(g: GameState)
    requires g.Valid()
    modifies g
    ensures g.Valid() && g.Data() == AfterUpdatePlayerPositions(old(g.Data()))
  {
    ghost var s0 := g.Data();
    var ks := g.players.keys;
    var i := 0;
    while i < |ks|
      invariant 0 <= i <= |ks|
      invariant g.Data() == MovePlayers(s0, ks[..i])
    {
      MovePlayerAt(g, ks[i]);
      assert ks[..i + 1][..i] == ks[..i];
      i := i + 1;
    }
    assert ks[..i] == ks;
  }

  /** The body of updatePlayerPositions' loop for one key. */
  method MovePlayerAt(g: GameState, playerId: string)
    modifies g
    ensures g.Data() == MovePlayerStep(old(g.Data()), playerId)
  {
    if playerId in g.players.m {
      var player := g.players.m[playerId];
      var x := Max(0.0, Min(GAME_WIDTH - PLAYER_SIZE, player.x + player.dx));
      var y := Max(0.0, Min(GAME_HEIGHT - PLAYER_SIZE, player.y + player.dy));
      g.players := g.players.Put(playerId, player.(x := x, y := y));
      g.changes := g.changes.(players := g.changes.players[playerId := Live]);
    }
  }

  method UpdateEnemyPositions(g: GameState)
    requires g.Valid()
    modifies g
    ensures g.Valid() && g.Data() == AfterUpdateEnemyPositions(old(g.Data()))
  {
    ghost var s0 := g.Data();
    var ks := g.enemies.keys;
    var i := 0;
    while i < |ks|
      invariant 0 <= i <= |ks|
      invariant g.Data() == MoveEnemies(s0, ks[..i])
    {
      MoveEnemyAt(g, ks[i]);
      assert ks[..i + 1][..i] == ks[..i];
      i := i + 1;
    }
    assert ks[..i] == ks;
  }

  /** The body of updateEnemyPositions' loop for one key. */
  method MoveEnemyAt(g: GameState, enemyId: EnemyId)
    modifies g
    ensures g.Data() == MoveEnemyStep(old(g.Data()), enemyId)
  {
    if enemyId in g.enemies.m {
      var enemy := g.enemies.m[enemyId];
      var x := enemy.x + enemy.dx;
      var y := enemy.y + enemy.dy;
      var dx, dy := enemy.dx, enemy.dy;
      if y <= 0.0 || y + PLAYER_SIZE >= GAME_HEIGHT {
        dy := -dy;
      }
      y := Max(0.0, Min(GAME_HEIGHT - PLAYER_SIZE, y));
      if x < 0.0 || x + PLAYER_SIZE > GAME_WIDTH {
        dx := -dx;
      }
      x := Max(0.0, Min(GAME_WIDTH - PLAYER_SIZE, x));
      g.enemies := g.enemies.Put(enemyId, Enemy(x, y, dx, dy));
      g.changes := g.changes.(enemies := g.changes.enemies[enemyId := Live]);
    }
  }

  method UpdateBulletPositions(g: GameState)
    requires g.Valid()
    modifies g
    ensures g.Valid() && g.Data() == AfterUpdateBulletPositions(old(g.Data()))
  {
    ghost var s0 := g.Data();
    var ks := g.bullets.keys;
    var i := 0;
    while i < |ks|
      invariant 0 <= i <= |ks|
      invariant g.Data() == MoveBullets(s0, ks[..i])
    {
      MoveBulletAt(g, ks[i]);
      assert ks[..i + 1][..i] == ks[..i];
      i := i + 1;
    }
    assert ks[..i] == ks;
  }

  /** The body of updateBulletPositions' loop for one key. */
  method MoveBulletAt(g: GameState, bulletId: BulletId)
    modifies g
    ensures g.Data() == MoveBulletStep(old(g.Data()), bulletId)
  {
    if bulletId in g.bullets.m {
      var bullet := g.bullets.m[bulletId];
      bullet := bullet.(x := bullet.x + bullet.dx, y := bullet.y + bullet.dy);
      if bullet.x + BULLET_SIZE < 0.0 || bullet.x > GAME_WIDTH
         || bullet.y + BULLET_SIZE < 0.0 || bullet.y > GAME_HEIGHT
      {
        g.bullets := g.bullets.Remove(bulletId);
        g.changes := g.changes.(bullets := g.changes.bullets[bulletId := Removed]);
      } else {
        g.bullets := g.bullets.Put(bulletId, bullet);
        g.changes := g.changes.(bullets := g.changes.bullets[bulletId := Live]);
      }
    }
  }

  /** Once the pass has thrown, the remaining bullets are never visited. */
  lemma {:induction false} ThrownIsFinal(s: State, ks: seq<BulletId>, n: nat)
    requires n <= |ks| && BulletHits(s, ks[..n]).thrown
    ensures BulletHits(s, ks) == BulletHits(s, ks[..n])
    decreases |ks| - n
  {
    if n < |ks| {
      assert ks[..n + 1][..n] == ks[..n];
      assert BulletHits(s, ks[..n + 1]) == HitStep(BulletHits(s, ks[..n]), ks[n]);
      ThrownIsFinal(s, ks, n + 1);
    } else {
      assert ks[..n] == ks;
    }
  }

  /** Returns whether the pass threw (gameState.js:181 on a departed owner). */
  method CheckBulletCollisions(g: GameState) returns (thrown: bool)
    modifies g
    ensures g.Data() == AfterCheckBulletCollisions(old(g.Data())).state
    ensures thrown == AfterCheckBulletCollisions(old(g.Data())).thrown
  {
    ghost var s0 := g.Data();
    var ks := g.bullets.keys;
    thrown := false;
    var i := 0;
    while i < |ks| && !thrown
      invariant 0 <= i <= |ks|
      invariant g.Data() == BulletHits(s0, ks[..i]).state
      invariant thrown == BulletHits(s0, ks[..i]).thrown
    {
      ghost var run := BulletHits(s0, ks[..i]);
      assert run == HitRun(g.Data(), run.hits, false);
      thrown := HitAt(g, ks[i], run.hits);
      assert ks[..i + 1][..i] == ks[..i];
      assert BulletHits(s0, ks[..i + 1]) == HitStep(run, ks[i]);
      i := i + 1;
    }
    if thrown {
      ThrownIsFinal(s0, ks, i);
    } else {
      assert ks[..i] == ks;
    }
  }

  /** The body of checkBulletCollisions' outer loop for one bullet key, with the
      inner search over the enemies; returns whether it threw. */
  method HitAt(g: GameState, bulletId: BulletId, ghost hits: map<BulletId, EnemyId>) returns (thrown: bool)
    modifies g
    ensures g.Data() == HitStep(HitRun(old(g.Data()), hits, false), bulletId).state
    ensures thrown == HitStep(HitRun(old(g.Data()), hits, false), bulletId).thrown
  {
    thrown := false;
    if bulletId in g.bullets.m {
      var bullet := g.bullets.m[bulletId];
      var eks := g.enemies.keys;
      var j := FindFirst(eks, g.enemies.m, HitsOf(bullet));
      if j < |eks| {
        var enemyId := eks[j];
        KillAt(g, bulletId, enemyId);
        if bullet.playerId in g.players.m {
          AwardAt(g, bullet.playerId);
        } else {
          thrown := true;
        }
      }
    }
  }

  method KillAt(g: GameState, bulletId: BulletId, enemyId: EnemyId)
    modifies g
    ensures g.Data() == Kill(old(g.Data()), bulletId, enemyId)
  {
    g.enemies := g.enemies.Remove(enemyId);
    g.bullets := g.bullets.Remove(bulletId);
    g.changes := g.changes.(enemies := g.changes.enemies[enemyId := Removed],
                            bullets := g.changes.bullets[bulletId := Removed]);
  }

  method AwardAt(g: GameState, playerId: string)
    requires playerId in g.players.m
    modifies g
    ensures g.Data() == Award(old(g.Data()), playerId)
  {
    var owner := g.players.m[playerId];
    g.players := g.players.Put(playerId, owner.(score := owner.score + 100));
    g.changes := g.changes.(players := g.changes.players[playerId := Live]);
  }

  /** Returns whether the tick threw; a throw skips the wave check. */
  method UpdateGameState(g: GameState, now: int, rolls: seq<EnemyRoll>) returns (thrown: bool)
    requires g.Valid() && |rolls| >= 2 * (g.waveNumber + 1)
    modifies g
    ensures g.Valid()
    ensures (g.Data(), thrown) == AfterUpdateGameState(old(g.Data()), now, rolls)
  {
    UpdatePlayerPositions(g);
    UpdateBulletPositions(g);
    UpdateEnemyPositions(g);
    ghost var s3 := g.Data();
    thrown := CheckBulletCollisions(g);
    BulletHitsValid(s3, s3.bullets.keys);
    if !thrown {
      CheckAndSpawnNewWave(g, now, rolls);
    }
  }

  method GetChanges(g: GameState) returns (current: Delta)
    requires g.Valid()
    modifies g
    ensures g.Valid()
    ensures current == ChangesOf(old(g.Data()))
    ensures g.Data() == old(g.Data()).(changes := NoChanges)
  {
    current := Delta(Resolve(g.changes.players, g.players),
                     Resolve(g.changes.bullets, g.bullets),
                     Resolve(g.changes.enemies, g.enemies),
                     g.waveNumber);
    g.changes := NoChanges;
  }
}
