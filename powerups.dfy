/** backend/game/powerups.js: spawning power-ups on a timer, the pickup pass that
    grants their buffs, and the per-tick expiry of those buffs. */
module PowerUps {
  import opened Tables
  import opened Arena
  import opened Constants
  import opened Room

  /** The three `Math.random()` draws of createPowerUp, in call order: the type, then
      x, then y. */
  datatype PowerUpRoll = PowerUpRoll(kind: real, x: real, y: real) {
    predicate InUnit() {
      0.0 <= kind < 1.0 && 0.0 <= x < 1.0 && 0.0 <= y < 1.0
    }
  }

  /** applyPowerUp writes the radial blast's duration out as 5000 ms; the shield lasts
      POWERUP_DURATION. */
  const RADIAL_BLAST_DURATION: int := 5000

  /** The record createPowerUp stores under `powerup_${now}`: a radial blast when the
      first draw is below one half and a shield otherwise, placed by the other two
      draws within the arena less the power-up's size. */
  function NewPowerUp(now: int, roll: PowerUpRoll): PowerUp {
    PowerUp(PowerUpId(now), if roll.kind < 0.5 then RadialBlast else Shield,
            Scale(roll.x, GAME_WIDTH - POWERUP_SIZE), Scale(roll.y, GAME_HEIGHT - POWERUP_SIZE))
  }

  /** createPowerUp */
  function AfterCreatePowerUp(s: RoomState, now: int, roll: PowerUpRoll): RoomState {
    s.WithPowerUps(s.PowerUpsBook().Put(PowerUpId(now), NewPowerUp(now, roll)))
  }

  /** The buff a pickup of `kind` grants at `now`. */
  function Buff(p: Player, kind: PowerUpType, now: int): Player {
    match kind
    case RadialBlast => p.(radialBlast := true, radialBlastEndTime := now + RADIAL_BLAST_DURATION)
    case Shield => p.(shield := true, shieldEndTime := now + POWERUP_DURATION)
  }

  /** applyPowerUp's edit of the player: the stored record gains the buff in place and
      its change entry is not written. */
  function Grant(b: Book<string, Player>, id: string, kind: PowerUpType, now: int): Book<string, Player>
    requires id in b.t.m
  {
    Book(b.t.Put(id, Buff(b.t.m[id], kind, now)), b.log)
  }

  /** applyPowerUp: the buff of the power-up's type for the player, then the power-up
      deleted and tombstoned. The source reads both records without a check, so both
      must exist. */
  function AfterApplyPowerUp(s: RoomState, playerId: string, powerupId: PowerUpId, now: int): RoomState
    requires playerId in s.players.m && powerupId in s.powerups.m
  {
    s.WithPlayers(Grant(s.PlayersBook(), playerId, s.powerups.m[powerupId].kind, now))
     .WithPowerUps(s.PowerUpsBook().Drop(powerupId))
  }

  /** Whether updatePowerUps has anything to clear for this player at `now`. */
  predicate Expires(p: Player, now: int) {
    (p.shield && now > p.shieldEndTime) || (p.radialBlast && now > p.radialBlastEndTime)
  }

  /** updatePowerUps for one player: a buff whose end time has passed, strictly, is
      switched off; nothing else about the player changes. */
  function Expire(p: Player, now: int): (q: Player)
    ensures q.shield == (p.shield && !(now > p.shieldEndTime))
    ensures q.radialBlast == (p.radialBlast && !(now > p.radialBlastEndTime))
    ensures q == p.(shield := q.shield, radialBlast := q.radialBlast)
    ensures q == p <==> !Expires(p, now)
  {
    var p1 := if p.shield && now > p.shieldEndTime then p.(shield := false) else p;
    if p1.radialBlast && now > p1.radialBlastEndTime then p1.(radialBlast := false) else p1
  }

  /** One round of updatePowerUps' loop: a player with an expired buff is updated and
      logged live, any other is left alone. */
  function ExpireStep(b: Book<string, Player>, id: string, now: int): Book<string, Player> {
    if id !in b.t.m || !Expires(b.t.m[id], now) then b else b.Put(id, Expire(b.t.m[id], now))
  }

  function ExpireAll(b: Book<string, Player>, ks: seq<string>, now: int): Book<string, Player> {
    if ks == [] then b else ExpireStep(ExpireAll(b, ks[..|ks| - 1], now), ks[|ks| - 1], now)
  }

  /** updatePowerUps */
  function AfterUpdatePowerUps(s: RoomState, now: int): RoomState {
    s.WithPlayers(ExpireAll(s.PlayersBook(), s.players.keys, now))
  }

  /** checkAndSpawnPowerUp: strictly more than POWERUP_SPAWN_INTERVAL after the last
      spawn, the clock restarts and one power-up is created. */
  function AfterCheckAndSpawnPowerUp(s: RoomState, now: int, roll: PowerUpRoll): RoomState {
    if now - s.lastPowerUpSpawnTime > POWERUP_SPAWN_INTERVAL then
      AfterCreatePowerUp(s.(lastPowerUpSpawnTime := now), now, roll)
    else s
  }

  /** The overlap test of the pickup pass: the player padded by PLAYER_SIZE against
      the power-up padded by POWERUP_SIZE. */
  predicate Touches(p: Player, u: PowerUp) {
    IsColliding(p.At(), u.At(), PLAYER_SIZE, POWERUP_SIZE)
  }

  function TouchesOf(p: Player): PowerUp -> bool { u => Touches(p, u) }

  /** checkPlayerPowerUpCollisions part way through: the players, the power-ups,
      which power-up each player has taken, and which player has taken each
      power-up. */
  datatype PickRun = PickRun(players: Book<string, Player>, powerups: Book<PowerUpId, PowerUp>,
                             picks: map<string, PowerUpId>, takenBy: map<PowerUpId, string>)

  /** One round of the pickup pass: the player takes the first power-up, in
      enumeration order, that it touches. applyPowerUp grants the buff and deletes
      and tombstones the power-up (the loop's own second delete and tombstone change
      nothing more, see DropTwice). Dead players are not skipped. */
  function PickStep(run: PickRun, id: string, now: int): PickRun {
    if id !in run.players.t.m then run
    else
      var p := run.players.t.m[id];
      var ks := run.powerups.t.keys;
      var i := FirstWhere(ks, run.powerups.t.m, TouchesOf(p));
      if i == |ks| then run
      else
        var u := ks[i];
        PickRun(Grant(run.players, id, run.powerups.t.m[u].kind, now),
                run.powerups.Drop(u), run.picks[id := u], run.takenBy[u := id])
  }

  function Picks(run: PickRun, ks: seq<string>, now: int): PickRun {
    if ks == [] then run else PickStep(Picks(run, ks[..|ks| - 1], now), ks[|ks| - 1], now)
  }

  /** The pickup pass over the players in enumeration order. */
  function PickPass(s: RoomState, now: int): PickRun {
    Picks(PickRun(s.PlayersBook(), s.PowerUpsBook(), map[], map[]), s.players.keys, now)
  }

  /** checkPlayerPowerUpCollisions */
  function AfterCheckPlayerPowerUpCollisions(s: RoomState, now: int): RoomState {
    var run := PickPass(s, now);
    s.WithPlayers(run.players).WithPowerUps(run.powerups)
  }

  // ---------------------------------------------------------------------------
  // Properties

  /** With draws in [0, 1) and a power-up smaller than the arena, a new power-up is a
      radial blast exactly when the first draw is below one half, lies within
      [0, W - size) x [0, H - size), and is stored under its own id and logged. */
  lemma PowerUpSpawned(now: int, roll: PowerUpRoll)
    requires roll.InUnit() && POWERUP_SIZE < GAME_WIDTH && POWERUP_SIZE < GAME_HEIGHT
    ensures var u := NewPowerUp(now, roll);
      && u.id == PowerUpId(now)
      && (u.kind == RadialBlast <==> roll.kind < 0.5)
      && 0.0 <= u.x < GAME_WIDTH - POWERUP_SIZE && 0.0 <= u.y < GAME_HEIGHT - POWERUP_SIZE
  {
  }

  /** createPowerUp stores the new record under its id and logs it; nothing else
      changes. */
  lemma PowerUpStored(s: RoomState, now: int, roll: PowerUpRoll)
    ensures var r := AfterCreatePowerUp(s, now, roll);
      && r.powerups.m == s.powerups.m[PowerUpId(now) := NewPowerUp(now, roll)]
      && r.changes.powerups == s.changes.powerups[PowerUpId(now) := Live]
      && r == s.(powerups := r.powerups, changes := s.changes.(powerups := r.changes.powerups))
    ensures s.Valid() ==> AfterCreatePowerUp(s, now, roll).Valid()
  {
  }

  /** A pickup grants the buff of the power-up's type, lasting 5000 ms for a radial
      blast and POWERUP_DURATION for a shield, changes nothing else about the player
      and does not log it, and deletes and tombstones the power-up. */
  lemma PowerUpApplied(s: RoomState, playerId: string, powerupId: PowerUpId, now: int)
    requires playerId in s.players.m && powerupId in s.powerups.m
    ensures var r := AfterApplyPowerUp(s, playerId, powerupId, now);
      var p := s.players.m[playerId]; var kind := s.powerups.m[powerupId].kind;
      && r.players.m.Keys == s.players.m.Keys
      && (kind == RadialBlast ==>
            r.players.m[playerId] == p.(radialBlast := true, radialBlastEndTime := now + 5000))
      && (kind == Shield ==>
            r.players.m[playerId] == p.(shield := true, shieldEndTime := now + POWERUP_DURATION))
      && (forall q :: q in s.players.m && q != playerId ==> r.players.m[q] == s.players.m[q])
      && r.changes.players == s.changes.players
      && r.powerups.m == s.powerups.m - {powerupId}
      && r.changes.powerups == s.changes.powerups[powerupId := Removed]
    ensures s.Valid() ==> AfterApplyPowerUp(s, playerId, powerupId, now).Valid()
  {
  }

  /** The spawn timer is strict: exactly when more than POWERUP_SPAWN_INTERVAL has
      passed, the clock moves to `now` and one power-up is stored under
      `powerup_${now}` (a new one when that id is free); otherwise nothing changes. */
  lemma SpawnTimer(s: RoomState, now: int, roll: PowerUpRoll)
    ensures var r := AfterCheckAndSpawnPowerUp(s, now, roll);
      && (now - s.lastPowerUpSpawnTime > POWERUP_SPAWN_INTERVAL ==>
            && r.lastPowerUpSpawnTime == now
            && r.powerups.m == s.powerups.m[PowerUpId(now) := NewPowerUp(now, roll)]
            && r.changes.powerups == s.changes.powerups[PowerUpId(now) := Live]
            && (s.powerups.Valid() && PowerUpId(now) !in s.powerups.m ==>
                  |r.powerups.keys| == |s.powerups.keys| + 1))
      && (now - s.lastPowerUpSpawnTime <= POWERUP_SPAWN_INTERVAL ==> r == s)
  {
  }

  /** Each round of updatePowerUps deals with its own player... */
  lemma {:induction false} ExpireAllStores(b: Book<string, Player>, ks: seq<string>, now: int)
    requires Distinct(ks) && forall k :: k in ks ==> k in b.t.m
    ensures var r := ExpireAll(b, ks, now);
      && r.t.m.Keys == b.t.m.Keys
      && (forall id :: id in b.t.m ==>
            r.t.m[id] == if id in ks then Expire(b.t.m[id], now) else b.t.m[id])
  {
    if ks != [] {
      var pre := ks[..|ks| - 1];
      var last := ks[|ks| - 1];
      SplitLast(ks);
      ExpireAllStores(b, pre, now);
      var t := ExpireAll(b, pre, now);
      assert last in t.t.m && t.t.m[last] == b.t.m[last];
    }
  }

  /** ... and logs exactly the players it changed. */
  lemma {:induction false} ExpireAllLogs(b: Book<string, Player>, ks: seq<string>, now: int)
    requires Distinct(ks) && forall k :: k in ks ==> k in b.t.m
    ensures var r := ExpireAll(b, ks, now);
      && (forall id :: id in r.log <==> id in b.log || (id in ks && Expires(b.t.m[id], now)))
      && (forall id :: id in ks && Expires(b.t.m[id], now) ==> r.log[id] == Live)
      && (forall id :: id in b.log && !(id in ks && Expires(b.t.m[id], now)) ==> r.log[id] == b.log[id])
  {
    if ks != [] {
      var pre := ks[..|ks| - 1];
      var last := ks[|ks| - 1];
      SplitLast(ks);
      ExpireAllLogs(b, pre, now);
      ExpireAllStores(b, pre, now);
      var t := ExpireAll(b, pre, now);
      assert last in t.t.m && t.t.m[last] == b.t.m[last];
    }
  }

  lemma {:induction false} ExpireAllValid(b: Book<string, Player>, ks: seq<string>, now: int)
    requires b.Valid()
    ensures ExpireAll(b, ks, now).Valid() && ExpireAll(b, ks, now).t.keys == b.t.keys
  {
    if ks != [] {
      ExpireAllValid(b, ks[..|ks| - 1], now);
    }
  }

  /** After updatePowerUps each player's shield is on exactly when it was on and its
      end time has not strictly passed, and likewise its radial blast; nothing else
      about any player changes, exactly the players with an expired buff are logged
      live, and nothing but the players moves. */
  lemma PowerUpsExpire(s: RoomState, now: int)
    requires s.Valid()
    ensures var r := AfterUpdatePowerUps(s, now);
      && r.Valid()
      && r.players.m.Keys == s.players.m.Keys
      && (forall id :: id in s.players.m ==>
            var p := s.players.m[id]; var q := r.players.m[id];
            && q.shield == (p.shield && !(now > p.shieldEndTime))
            && q.radialBlast == (p.radialBlast && !(now > p.radialBlastEndTime))
            && q == p.(shield := q.shield, radialBlast := q.radialBlast))
      && (forall id :: id in s.players.m && Expires(s.players.m[id], now) ==>
            id in r.changes.players && r.changes.players[id] == Live)
      && (forall id :: id in s.changes.players && !(id in s.players.m && Expires(s.players.m[id], now)) ==>
            id in r.changes.players && r.changes.players[id] == s.changes.players[id])
      && r == s.(players := r.players, changes := s.changes.(players := r.changes.players))
  {
    ExpireAllStores(s.PlayersBook(), s.players.keys, now);
    ExpireAllLogs(s.PlayersBook(), s.players.keys, now);
    ExpireAllValid(s.PlayersBook(), s.players.keys, now);
  }

  /** A buff stays on through its end time and is cleared on the first tick after. */
  lemma ShieldLastsThroughEnd(p: Player, now: int)
    requires p.shield
    ensures Expire(p, p.shieldEndTime).shield
    ensures now > p.shieldEndTime ==> !Expire(p, now).shield
  {
  }

  /** A buff leaves the player where it is. */
  lemma BuffKeepsPlace(p: Player, kind: PowerUpType, now: int)
    ensures Buff(p, kind, now).At() == p.At()
  {
  }

  /** The pass starts with nothing taken. */
  predicate Fresh(s0: PickRun) {
    s0.picks == map[] && s0.takenBy == map[]
  }

  /** What the pickup pass keeps after visiting the players `ks`: it only takes
      power-ups away, takes them for visited players, keeps the two records of who
      took what inverse to each other, and leaves the players' keys and change
      entries alone. */
  ghost predicate Shrunk(s0: PickRun, ks: seq<string>, r: PickRun) {
    Kept(s0, r) && Inverse(s0, ks, r)
  }

  ghost predicate Kept(s0: PickRun, r: PickRun) {
    && r.powerups.t.Valid()
    && (forall u :: u in r.powerups.t.m ==> u in s0.powerups.t.m && r.powerups.t.m[u] == s0.powerups.t.m[u])
    && r.players.t.m.Keys == s0.players.t.m.Keys && r.players.log == s0.players.log
  }

  ghost predicate Inverse(s0: PickRun, ks: seq<string>, r: PickRun) {
    && (forall p :: p in r.picks ==> p in ks && r.picks[p] in r.takenBy && r.takenBy[r.picks[p]] == p)
    && (forall u :: u in r.takenBy ==> u in s0.powerups.t.m && u !in r.powerups.t.m
                                       && r.takenBy[u] in r.picks && r.picks[r.takenBy[u]] == u)
  }

  lemma {:induction false} PicksShrink(s0: PickRun, ks: seq<string>, now: int)
    requires Fresh(s0) && s0.powerups.t.Valid() && Distinct(ks)
    ensures Shrunk(s0, ks, Picks(s0, ks, now))
  {
    if ks != [] {
      var pre := ks[..|ks| - 1];
      SplitLast(ks);
      PicksShrink(s0, pre, now);
      PickStepShrunk(s0, pre, Picks(s0, pre, now), ks[|ks| - 1], now);
    }
  }

  /** The step of PicksShrink. */
  lemma PickStepShrunk(s0: PickRun, pre: seq<string>, t: PickRun, last: string, now: int)
    requires Shrunk(s0, pre, t) && last !in pre
    ensures Shrunk(s0, pre + [last], PickStep(t, last, now))
  {
    var r := PickStep(t, last, now);
    if last in t.players.t.m {
      var keys := t.powerups.t.keys;
      var i := FirstWhere(keys, t.powerups.t.m, TouchesOf(t.players.t.m[last]));
      if i < |keys| {
        PickKept(s0, t, last, keys[i], now);
        PickInverse(s0, pre, t, last, keys[i], r);
        return;
      }
    }
    assert r == t;
    assert forall p :: p in pre ==> p in pre + [last];
  }

  /** Taking `u` for `last` keeps Kept. */
  lemma PickKept(s0: PickRun, t: PickRun, last: string, u: PowerUpId, now: int)
    requires Kept(s0, t) && last in t.players.t.m && u in t.powerups.t.m
    ensures Kept(s0, PickRun(Grant(t.players, last, t.powerups.t.m[u].kind, now),
                            t.powerups.Drop(u), t.picks[last := u], t.takenBy[u := last]))
  {
    var d := t.powerups.Drop(u);
    assert d.t.m == t.powerups.t.m - {u};
  }

  /** Taking a stored `u` for a player not visited before keeps Inverse; `r` is the
      run after the take. */
  lemma PickInverse(s0: PickRun, pre: seq<string>, t: PickRun, last: string, u: PowerUpId, r: PickRun)
    requires Kept(s0, t) && Inverse(s0, pre, t) && last !in pre && u in t.powerups.t.m
    requires r.picks == t.picks[last := u] && r.takenBy == t.takenBy[u := last]
    requires r.powerups.t.m == t.powerups.t.m - {u}
    ensures Inverse(s0, pre + [last], r)
  {
    assert forall p :: p in pre ==> p in pre + [last];
  }

  /** A player gains exactly the buff of the power-up it took. */
  lemma {:induction false} PicksPlayers(s0: PickRun, ks: seq<string>, now: int)
    requires Fresh(s0) && s0.powerups.t.Valid() && Distinct(ks)
    ensures var r := Picks(s0, ks, now);
      forall p :: p in s0.players.t.m ==>
        && p in r.players.t.m
        && r.players.t.m[p]
             == if p in r.picks && r.picks[p] in s0.powerups.t.m
                then Buff(s0.players.t.m[p], s0.powerups.t.m[r.picks[p]].kind, now)
                else s0.players.t.m[p]
  {
    PicksShrink(s0, ks, now);
    if ks != [] {
      var pre := ks[..|ks| - 1];
      var last := ks[|ks| - 1];
      SplitLast(ks);
      PicksShrink(s0, pre, now);
      PicksPlayers(s0, pre, now);
      assert last !in Picks(s0, pre, now).picks;
    }
  }

  /** Exactly the taken power-ups are deleted, each tombstoned. */
  lemma {:induction false} PicksStore(s0: PickRun, ks: seq<string>, now: int)
    requires Fresh(s0) && s0.powerups.t.Valid()
    ensures var r := Picks(s0, ks, now);
      && (forall u :: u in r.powerups.t.m <==> u in s0.powerups.t.m && u !in r.takenBy)
      && (forall u :: u in r.powerups.log <==> u in s0.powerups.log || u in r.takenBy)
      && (forall u :: u in r.takenBy ==> r.powerups.log[u] == Removed)
      && (forall u :: u in s0.powerups.log && u !in r.takenBy ==> r.powerups.log[u] == s0.powerups.log[u])
  {
    if ks != [] {
      PicksStore(s0, ks[..|ks| - 1], now);
    }
  }

  /** A taker touched what it took; a visited player that took nothing touches no
      power-up that is left. */
  ghost predicate Paired(s0: PickRun, ks: seq<string>, r: PickRun) {
    && (forall p :: p in r.picks && p in s0.players.t.m && r.picks[p] in s0.powerups.t.m ==>
          Touches(s0.players.t.m[p], s0.powerups.t.m[r.picks[p]]))
    && (forall p, u :: p in ks && p in s0.players.t.m && p !in r.picks && u in r.powerups.t.m ==>
          !Touches(s0.players.t.m[p], r.powerups.t.m[u]))
  }

  lemma {:induction false} PicksPaired(s0: PickRun, ks: seq<string>, now: int)
    requires Fresh(s0) && s0.powerups.t.Valid() && Distinct(ks)
    ensures Paired(s0, ks, Picks(s0, ks, now))
  {
    if ks != [] {
      var pre := ks[..|ks| - 1];
      var last := ks[|ks| - 1];
      SplitLast(ks);
      PicksShrink(s0, pre, now);
      PicksPlayers(s0, pre, now);
      PicksPaired(s0, pre, now);
      PickStepPaired(s0, pre, Picks(s0, pre, now), last, now);
    }
  }

  /** The step of PicksPaired. */
  lemma PickStepPaired(s0: PickRun, pre: seq<string>, t: PickRun, last: string, now: int)
    requires Paired(s0, pre, t) && last !in pre && t.powerups.t.Valid()
    requires forall u :: u in t.powerups.t.m ==> u in s0.powerups.t.m && t.powerups.t.m[u] == s0.powerups.t.m[u]
    requires last !in t.picks && t.players.t.m.Keys == s0.players.t.m.Keys
    requires last in s0.players.t.m ==> t.players.t.m[last] == s0.players.t.m[last]
    ensures Paired(s0, pre + [last], PickStep(t, last, now))
  {
    var r := PickStep(t, last, now);
    if last in t.players.t.m {
      var keys := t.powerups.t.keys;
      var i := FirstWhere(keys, t.powerups.t.m, TouchesOf(t.players.t.m[last]));
      if i < |keys| {
        PairedTake(s0, pre, t, last, keys[i], r);
      } else {
        forall u | u in t.powerups.t.m ensures !Touches(t.players.t.m[last], t.powerups.t.m[u]) {
          var j :| 0 <= j < |keys| && keys[j] == u;
        }
        assert r == t;
        PairedSkip(s0, pre, t, last);
      }
    } else {
      assert r == t;
      PairedSkip(s0, pre, t, last);
    }
  }

  /** The player `last` takes the stored `u` it touches; `r` is the run after. */
  lemma PairedTake(s0: PickRun, pre: seq<string>, t: PickRun, last: string, u: PowerUpId, r: PickRun)
    requires Paired(s0, pre, t) && u in t.powerups.t.m
    requires forall v :: v in t.powerups.t.m ==> v in s0.powerups.t.m && t.powerups.t.m[v] == s0.powerups.t.m[v]
    requires last in s0.players.t.m ==> Touches(s0.players.t.m[last], t.powerups.t.m[u])
    requires r.picks == t.picks[last := u] && r.powerups.t.m == t.powerups.t.m - {u}
    ensures Paired(s0, pre + [last], r)
  {
    assert forall p :: p in pre + [last] && p != last ==> p in pre;
  }

  /** The player `last` takes nothing: it touches no stored power-up. */
  lemma PairedSkip(s0: PickRun, pre: seq<string>, t: PickRun, last: string)
    requires Paired(s0, pre, t)
    requires forall v :: v in t.powerups.t.m ==> v in s0.powerups.t.m && t.powerups.t.m[v] == s0.powerups.t.m[v]
    requires last in s0.players.t.m ==> forall v :: v in t.powerups.t.m ==> !Touches(s0.players.t.m[last], t.powerups.t.m[v])
    ensures Paired(s0, pre + [last], t)
  {
    assert forall p :: p in pre + [last] && p != last ==> p in pre;
  }

  lemma {:induction false} PicksValid(run: PickRun, ks: seq<string>, now: int)
    requires run.players.Valid() && run.powerups.Valid()
    ensures Picks(run, ks, now).players.Valid() && Picks(run, ks, now).powerups.Valid()
  {
    if ks != [] {
      PicksValid(run, ks[..|ks| - 1], now);
    }
  }

  /** checkPlayerPowerUpCollisions gives each player at most one pickup and each
      power-up to at most one player: `picks` and `takenBy` are inverse to each other.
      A player that takes one touched it and gains exactly that power-up's buff;
      every other player is unchanged, and a player that took nothing touches none
      of the power-ups left. Exactly the taken power-ups are deleted and tombstoned,
      and the players' change entries are not written. */
  lemma PickupsPaired(s: RoomState, now: int)
    requires s.Valid()
    ensures var run := PickPass(s, now); var r := AfterCheckPlayerPowerUpCollisions(s, now);
      && r.Valid()
      && (forall p :: p in run.picks ==> run.picks[p] in run.takenBy && run.takenBy[run.picks[p]] == p)
      && (forall u :: u in run.takenBy ==> run.takenBy[u] in run.picks && run.picks[run.takenBy[u]] == u)
      && (forall p :: p in run.picks ==>
            p in s.players.m && run.picks[p] in s.powerups.m
            && Touches(s.players.m[p], s.powerups.m[run.picks[p]]))
      && r.players.m.Keys == s.players.m.Keys
      && (forall p :: p in s.players.m ==>
            r.players.m[p]
              == if p in run.picks then Buff(s.players.m[p], s.powerups.m[run.picks[p]].kind, now)
                 else s.players.m[p])
      && (forall p, u :: p in s.players.m && p !in run.picks && u in r.powerups.m ==>
            !Touches(s.players.m[p], r.powerups.m[u]))
      && r.changes.players == s.changes.players
      && (forall u :: u in r.powerups.m <==> u in s.powerups.m && u !in run.takenBy)
      && (forall u :: u in run.takenBy ==> u in r.changes.powerups && r.changes.powerups[u] == Removed)
      && (forall u :: u in s.changes.powerups && u !in run.takenBy ==>
            u in r.changes.powerups && r.changes.powerups[u] == s.changes.powerups[u])
  {
    var s0 := PickRun(s.PlayersBook(), s.PowerUpsBook(), map[], map[]);
    PicksShrink(s0, s.players.keys, now);
    PicksPlayers(s0, s.players.keys, now);
    PicksStore(s0, s.players.keys, now);
    PicksPaired(s0, s.players.keys, now);
    PicksValid(s0, s.players.keys, now);
  }

  /** A pickup changes no player's life, score or position ... */
  lemma PickupsKeepPlayers(s: RoomState, now: int)
    requires s.Valid()
    ensures var r := AfterCheckPlayerPowerUpCollisions(s, now);
      forall p :: p in s.players.m ==>
        && p in r.players.m
        && r.players.m[p].isDead == s.players.m[p].isDead && r.players.m[p].score == s.players.m[p].score
        && r.players.m[p].At() == s.players.m[p].At()
  {
    var s0 := PickRun(s.PlayersBook(), s.PowerUpsBook(), map[], map[]);
    PicksPlayers(s0, s.players.keys, now);
  }

  /** ... lets no player join or leave, and keeps the room well formed. */
  lemma PickupsValid(s: RoomState, now: int)
    requires s.Valid()
    ensures var r := AfterCheckPlayerPowerUpCollisions(s, now); r.Valid() && r.players.m.Keys == s.players.m.Keys
  {
    var s0 := PickRun(s.PlayersBook(), s.PowerUpsBook(), map[], map[]);
    PicksShrink(s0, s.players.keys, now);
    PicksValid(s0, s.players.keys, now);
  }

  // ---------------------------------------------------------------------------
  // The functions of powerups.js on the room object

  method CreatePowerUp(g: Room, now: int, roll: PowerUpRoll)
    modifies g
    ensures g.Data() == AfterCreatePowerUp(old(g.Data()), now, roll)
  {
    var id := PowerUpId(now);
    var kind := if roll.kind < 0.5 then RadialBlast else Shield;
    var powerup := PowerUp(id, kind, Scale(roll.x, GAME_WIDTH - POWERUP_SIZE), Scale(roll.y, GAME_HEIGHT - POWERUP_SIZE));
    g.powerups := g.powerups.Put(id, powerup);
    g.changes := g.changes.(powerups := g.changes.powerups[id := Live]);
  }

  method ApplyPowerUp(g: Room, playerId: string, powerupId: PowerUpId, now: int)
    requires playerId in g.players.m && powerupId in g.powerups.m
    modifies g
    ensures g.Data() == AfterApplyPowerUp(old(g.Data()), playerId, powerupId, now)
  {
    var powerup := g.powerups.m[powerupId];
    var player := g.players.m[playerId];
    if powerup.kind == RadialBlast {
      player := player.(radialBlast := true, radialBlastEndTime := now + RADIAL_BLAST_DURATION);
    } else {
      player := player.(shield := true, shieldEndTime := now + POWERUP_DURATION);
    }
    g.players := g.players.Put(playerId, player);
    g.powerups := g.powerups.Remove(powerupId);
    g.changes := g.changes.(powerups := g.changes.powerups[powerupId := Removed]);
  }

  method UpdatePowerUps(g: Room, now: int)
    modifies g
    ensures g.Data() == AfterUpdatePowerUps(old(g.Data()), now)
  {
    ghost var s0 := g.Data();
    var ks := g.players.keys;
    var i := 0;
    while i < |ks|
      invariant 0 <= i <= |ks|
      invariant g.Data() == s0.WithPlayers(ExpireAll(s0.PlayersBook(), ks[..i], now))
    {
      ExpireAt(g, ks[i], now);
      assert ks[..i + 1][..i] == ks[..i];
      i := i + 1;
    }
    assert ks[..i] == ks;
  }

  /** The body of updatePowerUps' loop for one key. */
  method ExpireAt(g: Room, playerId: string, now: int)
    modifies g
    ensures g.Data() == old(g.Data()).WithPlayers(ExpireStep(old(g.Data()).PlayersBook(), playerId, now))
  {
    if playerId in g.players.m {
      var player := g.players.m[playerId];
      var logged := false;
      if player.shield && now > player.shieldEndTime {
        player := player.(shield := false);
        logged := true;
      }
      if player.radialBlast && now > player.radialBlastEndTime {
        player := player.(radialBlast := false);
        logged := true;
      }
      if logged {
        g.players := g.players.Put(playerId, player);
        g.changes := g.changes.(players := g.changes.players[playerId := Live]);
      }
    }
  }

  method CheckAndSpawnPowerUp(g: Room, now: int, roll: PowerUpRoll)
    modifies g
    ensures g.Data() == AfterCheckAndSpawnPowerUp(old(g.Data()), now, roll)
  {
    if now - g.lastPowerUpSpawnTime > POWERUP_SPAWN_INTERVAL {
      g.lastPowerUpSpawnTime := now;
      CreatePowerUp(g, now, roll);
    }
  }

  method CheckPlayerPowerUpCollisions(g: Room, now: int)
    modifies g
    ensures g.Data() == AfterCheckPlayerPowerUpCollisions(old(g.Data()), now)
  {
    ghost var s0 := g.Data();
    ghost var r0 := PickRun(s0.PlayersBook(), s0.PowerUpsBook(), map[], map[]);
    var ks := g.players.keys;
    var i := 0;
    while i < |ks|
      invariant 0 <= i <= |ks|
      invariant g.Data() == s0.WithPlayers(Picks(r0, ks[..i], now).players).WithPowerUps(Picks(r0, ks[..i], now).powerups)
    {
      ghost var run := Picks(r0, ks[..i], now);
      PickAt(g, ks[i], now, run.picks, run.takenBy);
      assert ks[..i + 1][..i] == ks[..i];
      i := i + 1;
    }
    assert ks[..i] == ks;
  }

  /** The body of checkPlayerPowerUpCollisions' outer loop for one key; `picks` and
      `takenBy` only carry the record of the pass so far. */
  method PickAt(g: Room, playerId: string, now: int, ghost picks: map<string, PowerUpId>, ghost takenBy: map<PowerUpId, string>)
    modifies g
    ensures var run := PickStep(PickRun(old(g.Data()).PlayersBook(), old(g.Data()).PowerUpsBook(), picks, takenBy), playerId, now);
      g.Data() == old(g.Data()).WithPlayers(run.players).WithPowerUps(run.powerups)
  {
    if playerId in g.players.m {
      var player := g.players.m[playerId];
      var ks := g.powerups.keys;
      var i := FindFirst(ks, g.powerups.m, TouchesOf(player));
      if i < |ks| {
        TakeAt(g, playerId, ks[i], now);
      }
    }
  }

  /** applyPowerUp followed by the loop's own second delete and tombstone. */
  method TakeAt(g: Room, playerId: string, powerupId: PowerUpId, now: int)
    requires playerId in g.players.m && powerupId in g.powerups.m
    modifies g
    ensures g.Data() == AfterApplyPowerUp(old(g.Data()), playerId, powerupId, now)
  {
    ApplyPowerUp(g, playerId, powerupId, now);
    DropTwice(old(g.Data()).PowerUpsBook(), powerupId);
    g.powerups := g.powerups.Remove(powerupId);
    g.changes := g.changes.(powerups := g.changes.powerups[powerupId := Removed]);
  }
}
