/** backend/game/bullets.js: a single shot, the sixteen-bullet radial blast, and the
    per-tick bullet movement, on the shared room state. */
module Bullets {
  import opened Tables
  import opened Arena
  import opened Constants
  import opened Room

  /** addBullet's `directionOffsets[player.direction]`: x offset, y offset, dx, dy. */
  function Offsets(d: Direction): (real, real, real, real) {
    var half: real := PLAYER_SIZE / 2.0;
    var speed: real := BULLET_SPEED;
    match d
    case Left => (-half, 0.0, -speed, 0.0)
    case Right => (half, 0.0, speed, 0.0)
    case Up => (0.0, -half, 0.0, -speed)
    case Down => (0.0, half, 0.0, speed)
  }

  /** The bullet addBullet builds for a player: it leaves the player's centre half a
      player-width toward the facing side, flies along the facing axis only at
      BULLET_SPEED, and belongs to the shooter. */
  function ShotFrom(p: Player, owner: string): (b: Bullet)
    ensures var (ux, uy) := Facing(p.direction);
      && b.x == p.x + PLAYER_SIZE / 2.0 + (PLAYER_SIZE / 2.0) * ux
      && b.y == p.y + PLAYER_SIZE / 2.0 + (PLAYER_SIZE / 2.0) * uy
      && b.dx == BULLET_SPEED * ux && b.dy == BULLET_SPEED * uy
    ensures b.dx == 0.0 || b.dy == 0.0
    ensures b.playerId == Some(owner) && !b.isBossBullet
  {
    var (xOffset, yOffset, dx, dy) := Offsets(p.direction);
    Bullet(p.x + PLAYER_SIZE / 2.0 + xOffset, p.y + PLAYER_SIZE / 2.0 + yOffset, dx, dy, Some(owner), false)
  }

  /** `(cos(a) * BULLET_SPEED, sin(a) * BULLET_SPEED)` for the sixteen angles
      `i / 16 * 2 * PI` of createRadialBlast. The values are left unspecified: only
      their number matters here. */
  type Spread = s: seq<(real, real)> | |s| == 16 witness [(1.0, 0.0), (1.0, 0.0), (1.0, 0.0), (1.0, 0.0),
                                                         (1.0, 0.0), (1.0, 0.0), (1.0, 0.0), (1.0, 0.0),
                                                         (1.0, 0.0), (1.0, 0.0), (1.0, 0.0), (1.0, 0.0),
                                                         (1.0, 0.0), (1.0, 0.0), (1.0, 0.0), (1.0, 0.0)]

  const RADIAL_VELOCITIES: Spread

  const RADIAL_COUNT: nat := 16

  /** The i-th bullet of a radial blast: at the player's centre, with the i-th
      velocity of the spread. `player.id` is undefined on a player record, so the
      bullet has no owner. */
  function RadialFrom(p: Player, i: nat): (b: Bullet)
    requires i < RADIAL_COUNT
    ensures b.At() == Point(p.x + PLAYER_SIZE / 2.0, p.y + PLAYER_SIZE / 2.0)
    ensures (b.dx, b.dy) == RADIAL_VELOCITIES[i]
    ensures b.playerId == None && !b.isBossBullet
  {
    Bullet(p.x + PLAYER_SIZE / 2.0, p.y + PLAYER_SIZE / 2.0,
           RADIAL_VELOCITIES[i].0, RADIAL_VELOCITIES[i].1, None, false)
  }

  function MoveBullet(b: Bullet): Bullet {
    b.(x := b.x + b.dx, y := b.y + b.dy)
  }

  /** The box of a bullet lies wholly outside the arena on some side. */
  predicate OutOfArena(b: Bullet) {
    b.x + BULLET_SIZE < 0.0 || b.x > GAME_WIDTH || b.y + BULLET_SIZE < 0.0 || b.y > GAME_HEIGHT
  }

  /** addBullet for a player who is present. The key is the millisecond stamp, so a
      second shot in the same millisecond replaces the first in place. */
  function AfterAddBullet(s: RoomState, playerId: string, now: int): RoomState
    requires playerId in s.players.m
  {
    s.WithBullets(s.BulletsBook().Put(Shot(now), ShotFrom(s.players.m[playerId], playerId)))
  }

  /** The keys `radial_${now}_${i}` of one blast, in loop order. */
  function RadialIds(now: int): (ids: seq<BulletId>)
    ensures |ids| == RADIAL_COUNT && Distinct(ids)
    ensures forall i :: 0 <= i < RADIAL_COUNT ==> ids[i] == Radial(now, i)
  {
    seq(RADIAL_COUNT, i requires 0 <= i < RADIAL_COUNT => Radial(now, i))
  }

  /** The bullets of one blast, in loop order. */
  function RadialBullets(p: Player): (bs: seq<Bullet>)
    ensures |bs| == RADIAL_COUNT
    ensures forall i :: 0 <= i < RADIAL_COUNT ==> bs[i] == RadialFrom(p, i)
  {
    seq(RADIAL_COUNT, i requires 0 <= i < RADIAL_COUNT => RadialFrom(p, i))
  }

  /** createRadialBlast: each of the sixteen rounds stores one bullet and logs it. */
  function AfterCreateRadialBlast(s: RoomState, p: Player, now: int): RoomState {
    s.WithBullets(s.BulletsBook().PutAll(RadialIds(now), RadialBullets(p)))
  }

  /** One round of updateBulletPositions' loop: a bullet still present moves, and is
      deleted and tombstoned when it has left the arena. */
  function MoveBulletStep(b: Book<BulletId, Bullet>, id: BulletId): Book<BulletId, Bullet> {
    if id in b.t.m then
      var moved := MoveBullet(b.t.m[id]);
      if OutOfArena(moved) then b.Drop(id) else b.Put(id, moved)
    else b
  }

  /** updateBulletPositions over the keys `ks`. */
  function MoveBullets(b: Book<BulletId, Bullet>, ks: seq<BulletId>): Book<BulletId, Bullet> {
    if ks == [] then b else MoveBulletStep(MoveBullets(b, ks[..|ks| - 1]), ks[|ks| - 1])
  }

  function AfterUpdateBulletPositions(s: RoomState): RoomState {
    s.WithBullets(MoveBullets(s.BulletsBook(), s.bullets.keys))
  }

  // ---------------------------------------------------------------------------
  // Properties

  /** A single shot is stored under the stamp of the moment, logged live, and is the
      shooter's own bullet; every other bullet is untouched. */
  lemma AddBulletStores(s: RoomState, playerId: string, now: int)
    requires playerId in s.players.m
    ensures var r := AfterAddBullet(s, playerId, now);
      && r.bullets.m.Keys == s.bullets.m.Keys + {Shot(now)}
      && r.bullets.m[Shot(now)] == ShotFrom(s.players.m[playerId], playerId)
      && r.bullets.m[Shot(now)].playerId == Some(playerId)
      && (forall id :: id in s.bullets.m && id != Shot(now) ==> r.bullets.m[id] == s.bullets.m[id])
      && r.changes.bullets[Shot(now)] == Live
    ensures s.Valid() ==> AfterAddBullet(s, playerId, now).Valid()
  {
  }

  /** Two shots in the same millisecond leave one bullet, the second, in the place the
      first took. */
  lemma SameStampShotsCollide(s: RoomState, a: string, b: string, now: int)
    requires a in s.players.m && b in s.players.m
    ensures var r := AfterAddBullet(AfterAddBullet(s, a, now), b, now);
      && r.bullets.m == s.bullets.m[Shot(now) := ShotFrom(s.players.m[b], b)]
      && (s.bullets.Valid() ==> |r.bullets.keys| == |s.bullets.keys| + (if Shot(now) in s.bullets.m then 0 else 1))
  {
    var s1 := AfterAddBullet(s, a, now);
    assert s1.players == s.players;
  }

  /** A radial blast stores sixteen bullets, all from the player's centre with the
      spread's velocities, none of them owned by anyone, each logged live; every
      other bullet and change entry stays as it was. */
  lemma RadialBlastStores(s: RoomState, p: Player, now: int)
    ensures var r := AfterCreateRadialBlast(s, p, now);
      && (forall i :: 0 <= i < RADIAL_COUNT ==>
            Radial(now, i) in r.bullets.m
            && r.bullets.m[Radial(now, i)].At() == Point(p.x + PLAYER_SIZE / 2.0, p.y + PLAYER_SIZE / 2.0)
            && (r.bullets.m[Radial(now, i)].dx, r.bullets.m[Radial(now, i)].dy) == RADIAL_VELOCITIES[i]
            && r.bullets.m[Radial(now, i)].playerId == None
            && Radial(now, i) in r.changes.bullets && r.changes.bullets[Radial(now, i)] == Live)
      && (forall id :: id in s.bullets.m && id !in RadialIds(now) ==> id in r.bullets.m && r.bullets.m[id] == s.bullets.m[id])
      && (forall id :: id in s.changes.bullets && id !in RadialIds(now) ==>
            id in r.changes.bullets && r.changes.bullets[id] == s.changes.bullets[id])
  {
    var ids := RadialIds(now);
    PutAllStores(s.BulletsBook(), ids, RadialBullets(p));
    PutAllLogs(s.BulletsBook(), ids, RadialBullets(p));
    assert forall i :: 0 <= i < RADIAL_COUNT ==> ids[i] in ids;
  }

  /** On a room without bullets of this stamp a radial blast adds exactly sixteen
      bullets, and keeps the room well formed. */
  lemma RadialBlastAddsSixteen(s: RoomState, p: Player, now: int)
    requires forall i :: 0 <= i < RADIAL_COUNT ==> Radial(now, i) !in s.bullets.m
    ensures |AfterCreateRadialBlast(s, p, now).bullets.m| == |s.bullets.m| + RADIAL_COUNT
    ensures s.Valid() ==> AfterCreateRadialBlast(s, p, now).Valid()
  {
    PutAllCount(s.BulletsBook(), RadialIds(now), RadialBullets(p));
    if s.Valid() {
      PutAllValid(s.BulletsBook(), RadialIds(now), RadialBullets(p));
    }
  }

  /** The bullets updateBulletPositions keeps when it visits the keys `ks`. */
  predicate Survives(b: Book<BulletId, Bullet>, ks: seq<BulletId>, id: BulletId)
    requires id in b.t.m
  {
    id !in ks || !OutOfArena(MoveBullet(b.t.m[id]))
  }

  /** updateBulletPositions over distinct present keys keeps the bullets that survive
      and moves each visited one once... */
  lemma {:induction false} MoveBulletsKept(b: Book<BulletId, Bullet>, ks: seq<BulletId>)
    requires Distinct(ks) && forall k :: k in ks ==> k in b.t.m
    ensures var r := MoveBullets(b, ks);
      && (forall id :: id in r.t.m <==> id in b.t.m && Survives(b, ks, id))
      && (forall id :: id in r.t.m ==> r.t.m[id] == if id in ks then MoveBullet(b.t.m[id]) else b.t.m[id])
  {
    if ks != [] {
      var pre := ks[..|ks| - 1];
      var last := ks[|ks| - 1];
      SplitLast(ks);
      MoveBulletsKept(b, pre);
      var t := MoveBullets(b, pre);
      assert MoveBullets(b, ks) == MoveBulletStep(t, last);
      assert last in t.t.m && t.t.m[last] == b.t.m[last];
    }
  }

  /** ... and logs each visited one live, or as a tombstone when it left. */
  lemma {:induction false} MoveBulletsLogged(b: Book<BulletId, Bullet>, ks: seq<BulletId>)
    requires Distinct(ks) && forall k :: k in ks ==> k in b.t.m
    ensures var r := MoveBullets(b, ks);
      && (forall id :: id in r.log <==> id in b.log || id in ks)
      && (forall id :: id in ks ==> r.log[id] == if OutOfArena(MoveBullet(b.t.m[id])) then Removed else Live)
      && (forall id :: id in b.log && id !in ks ==> r.log[id] == b.log[id])
  {
    if ks != [] {
      var pre := ks[..|ks| - 1];
      var last := ks[|ks| - 1];
      SplitLast(ks);
      MoveBulletsLogged(b, pre);
      MoveBulletsKept(b, pre);
      var t := MoveBullets(b, pre);
      assert MoveBullets(b, ks) == MoveBulletStep(t, last);
      assert last in t.t.m && t.t.m[last] == b.t.m[last];
    }
  }

  lemma {:induction false} MoveBulletsValid(b: Book<BulletId, Bullet>, ks: seq<BulletId>)
    requires b.Valid()
    ensures MoveBullets(b, ks).Valid()
  {
    if ks != [] {
      MoveBulletsValid(b, ks[..|ks| - 1]);
    }
  }

  /** updateBulletPositions moves every bullet, boss bullets included, by exactly
      (dx, dy); it keeps exactly the moved bullets that are not out of the arena, logs
      each kept one live and tombstones each dropped one. */
  lemma BulletsAfterMove(s: RoomState)
    requires s.Valid()
    ensures var r := AfterUpdateBulletPositions(s);
      && r.Valid()
      && (forall id :: id in r.bullets.m <==> id in s.bullets.m && !OutOfArena(MoveBullet(s.bullets.m[id])))
      && (forall id :: id in r.bullets.m ==>
            r.bullets.m[id] == MoveBullet(s.bullets.m[id])
            && id in r.changes.bullets && r.changes.bullets[id] == Live)
      && (forall id :: id in s.bullets.m && id !in r.bullets.m ==>
            id in r.changes.bullets && r.changes.bullets[id] == Removed)
  {
    MoveBulletsKept(s.BulletsBook(), s.bullets.keys);
    MoveBulletsLogged(s.BulletsBook(), s.bullets.keys);
    MoveBulletsValid(s.BulletsBook(), s.bullets.keys);
  }

  // ---------------------------------------------------------------------------
  // The functions of bullets.js on the room object

  method AddBullet(g: Room, playerId: string, now: int)
    requires playerId in g.players.m
    modifies g
    ensures g.Data() == AfterAddBullet(old(g.Data()), playerId, now)
  {
    var player := g.players.m[playerId];
    var bulletId := Shot(now);
    var bullet := ShotFrom(player, playerId);
    StoreBullet(g, bulletId, bullet);
  }

  method CreateRadialBlast(g: Room, player: Player, now: int)
    modifies g
    ensures g.Data() == AfterCreateRadialBlast(old(g.Data()), player, now)
  {
    ghost var s0 := g.Data();
    ghost var ids := RadialIds(now);
    ghost var bs := RadialBullets(player);
    var bulletCount := RADIAL_COUNT;
    var i := 0;
    while i < bulletCount
      invariant 0 <= i <= bulletCount
      invariant g.Data() == s0.WithBullets(s0.BulletsBook().PutAll(ids[..i], bs[..i]))
    {
      var bulletId := Radial(now, i);
      StoreBullet(g, bulletId, RadialFrom(player, i));
      assert ids[..i + 1][..i] == ids[..i] && bs[..i + 1][..i] == bs[..i];
      i := i + 1;
    }
    assert ids[..i] == ids && bs[..i] == bs;
  }

  /** `bullets[id] = b; changes.bullets[id] = bullets[id]` on the room object. */
  method StoreBullet(g: Room, bulletId: BulletId, bullet: Bullet)
    modifies g
    ensures g.Data() == old(g.Data()).WithBullets(old(g.Data()).BulletsBook().Put(bulletId, bullet))
  {
    g.bullets := g.bullets.Put(bulletId, bullet);
    g.changes := g.changes.(bullets := g.changes.bullets[bulletId := Live]);
  }

  /** `delete bullets[id]; changes.bullets[id] = null` on the room object. */
  method DropBullet(g: Room, bulletId: BulletId)
    modifies g
    ensures g.Data() == old(g.Data()).WithBullets(old(g.Data()).BulletsBook().Drop(bulletId))
  {
    g.bullets := g.bullets.Remove(bulletId);
    g.changes := g.changes.(bullets := g.changes.bullets[bulletId := Removed]);
  }

  method UpdateBulletPositions(g: Room)
    modifies g
    ensures g.Data() == AfterUpdateBulletPositions(old(g.Data()))
  {
    ghost var s0 := g.Data();
    var ks := g.bullets.keys;
    var i := 0;
    while i < |ks|
      invariant 0 <= i <= |ks|
      invariant g.Data() == s0.WithBullets(MoveBullets(s0.BulletsBook(), ks[..i]))
    {
      MoveBulletAt(g, ks[i]);
      assert ks[..i + 1][..i] == ks[..i];
      i := i + 1;
    }
    assert ks[..i] == ks;
  }

  /** The body of updateBulletPositions' loop for one key. */
  method MoveBulletAt(g: Room, bulletId: BulletId)
    modifies g
    ensures g.Data() == old(g.Data()).WithBullets(MoveBulletStep(old(g.Data()).BulletsBook(), bulletId))
  {
    if bulletId in g.bullets.m {
      var bullet := g.bullets.m[bulletId];
      bullet := bullet.(x := bullet.x + bullet.dx, y := bullet.y + bullet.dy);
      if bullet.x + BULLET_SIZE < 0.0 || bullet.x > GAME_WIDTH
         || bullet.y + BULLET_SIZE < 0.0 || bullet.y > GAME_HEIGHT
      {
        DropBullet(g, bulletId);
      } else {
        StoreBullet(g, bulletId, bullet);
      }
    }
  }
}
