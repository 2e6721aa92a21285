/** The room state the split modules (players.js, bullets.js, enemies.js,
    collisions.js, powerups.js) share: the entity tables, the boss, the change tracker
    and the timers. The object is created elsewhere (gameState.js's createGameState
    builds only the older subset), so `Room`'s constructor builds the empty room these
    passes start from. */
module Room {
  import opened Tables
  import opened Arena
  import opened Constants

  /** players.js's record. It has no `id` field: code that reads `player.id` gets
      `undefined`. */
  datatype Player = Player(
    x: real, y: real, dx: real, dy: real, direction: Direction,
    isDead: bool, score: int,
    shield: bool, shieldEndTime: int,
    radialBlast: bool, radialBlastEndTime: int,
    isHost: bool)
  {
    function At(): Point { Point(x, y) }
  }

  /** Bullet keys: `Date.now().toString()` for a single shot, `radial_${now}_${i}` for
      a radial blast and `bossBullet_${now}_${i}` for a boss volley. A decimal stamp
      contains no letter and no `_`, so the three forms never collide. */
  datatype BulletId = Shot(stamp: int) | Radial(stamp: int, index: nat) | BossShot(stamp: int, index: nat)

  /** `playerId` is absent (`undefined`) on radial and boss bullets; `isBossBullet` is
      absent, and so false, on player bullets. */
  datatype Bullet = Bullet(x: real, y: real, dx: real, dy: real, playerId: Option<string>, isBossBullet: bool)
  {
    function At(): Point { Point(x, y) }

    /** The key `players[bullet.playerId]` looks up: an `undefined` id becomes the
        property name "undefined". */
    function OwnerKey(): string {
      match playerId
      case Some(p) => p
      case None => "undefined"
    }
  }

  /** `beam_${Date.now()}` */
  datatype BeamId = BeamId(stamp: int)

  /** A beam only ever faces Left or Right. */
  datatype Beam = Beam(x: real, y: real, width: real, height: real, direction: Direction, createdAt: int)

  /** `id` is the stamp of `boss_${Date.now()}`. */
  datatype Boss = Boss(id: int, x: real, y: real, health: int, lastShootTime: int)
  {
    function At(): Point { Point(x, y) }
  }

  datatype PowerUpType = RadialBlast | Shield

  /** `powerup_${Date.now()}` */
  datatype PowerUpId = PowerUpId(stamp: int)

  datatype PowerUp = PowerUp(id: PowerUpId, kind: PowerUpType, x: real, y: real)
  {
    function At(): Point { Point(x, y) }
  }

  /** The change tracker. `boss` is None while `changes.boss` has not been written. */
  datatype Changes = Changes(
    players: map<string, Change<Player>>,
    bullets: map<BulletId, Change<Bullet>>,
    enemies: map<EnemyId, Change<Enemy>>,
    beams: map<BeamId, Change<Beam>>,
    powerups: map<PowerUpId, Change<PowerUp>>,
    boss: Option<Change<Boss>>)

  const NoChanges: Changes := Changes(map[], map[], map[], map[], map[], None)

  /** The value of a room. `boss` is None for both `null` and never spawned. */
  datatype RoomState = RoomState(
    players: Table<string, Player>,
    bullets: Table<BulletId, Bullet>,
    enemies: Table<EnemyId, Enemy>,
    beams: Table<BeamId, Beam>,
    powerups: Table<PowerUpId, PowerUp>,
    boss: Option<Boss>,
    changes: Changes,
    waveNumber: nat,
    isGameOver: bool,
    host: Option<string>,
    lastEnemyBeamTime: int,
    lastPowerUpSpawnTime: int)
  {
    /** Every table is well formed and every live change entry aliases a stored record. */
    ghost predicate Valid() {
      && PlayersBook().Valid() && BulletsBook().Valid() && EnemiesBook().Valid()
      && BeamsBook().Valid() && PowerUpsBook().Valid()
      && (changes.boss == Some(Live) ==> boss.Some?)
    }

    function PlayersBook(): Book<string, Player> { Book(players, changes.players) }
    function BulletsBook(): Book<BulletId, Bullet> { Book(bullets, changes.bullets) }
    function EnemiesBook(): Book<EnemyId, Enemy> { Book(enemies, changes.enemies) }
    function BeamsBook(): Book<BeamId, Beam> { Book(beams, changes.beams) }
    function PowerUpsBook(): Book<PowerUpId, PowerUp> { Book(powerups, changes.powerups) }

    function WithPlayers(b: Book<string, Player>): RoomState {
      this.(players := b.t, changes := changes.(players := b.log))
    }
    function WithBullets(b: Book<BulletId, Bullet>): RoomState {
      this.(bullets := b.t, changes := changes.(bullets := b.log))
    }
    function WithEnemies(b: Book<EnemyId, Enemy>): RoomState {
      this.(enemies := b.t, changes := changes.(enemies := b.log))
    }
    function WithBeams(b: Book<BeamId, Beam>): RoomState {
      this.(beams := b.t, changes := changes.(beams := b.log))
    }
    function WithPowerUps(b: Book<PowerUpId, PowerUp>): RoomState {
      this.(powerups := b.t, changes := changes.(powerups := b.log))
    }
  }

  class Room {
    var players: Table<string, Player>
    var bullets: Table<BulletId, Bullet>
    var enemies: Table<EnemyId, Enemy>
    var beams: Table<BeamId, Beam>
    var powerups: Table<PowerUpId, PowerUp>
    var boss: Option<Boss>
    var changes: Changes
    var waveNumber: nat
    var isGameOver: bool
    var host: Option<string>
    var lastEnemyBeamTime: int
    var lastPowerUpSpawnTime: int

    ghost function Data(): RoomState
      reads this
    {
      RoomState(players, bullets, enemies, beams, powerups, boss, changes, waveNumber,
                isGameOver, host, lastEnemyBeamTime, lastPowerUpSpawnTime)
    }

    ghost predicate Valid()
      reads this
    {
      Data().Valid()
    }

    /** An empty room whose timers start at `now`. */
    constructor (now: int)
      ensures Valid()
      ensures players.m == map[] && bullets.m == map[] && enemies.m == map[]
      ensures beams.m == map[] && powerups.m == map[] && boss == None
      ensures changes == NoChanges && waveNumber == 0 && !isGameOver && host == None
      ensures lastEnemyBeamTime == now && lastPowerUpSpawnTime == now
    {
      players := Empty();
      bullets := Empty();
      enemies := Empty();
      beams := Empty();
      powerups := Empty();
      boss := None;
      changes := NoChanges;
      waveNumber := 0;
      isGameOver := false;
      host := None;
      lastEnemyBeamTime := now;
      lastPowerUpSpawnTime := now;
    }
  }
}
