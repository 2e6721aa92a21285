/** Properties of the monolithic tick in backend/game/gameState.js, proved about the
    state-value functions that the methods of module GameState are verified against. */
module GameStateFacts {
  import opened Tables
  import opened Arena
  import opened GameState

  predicate PlayerInArena(p: Player) {
    0.0 <= p.x <= GAME_WIDTH - PLAYER_SIZE && 0.0 <= p.y <= GAME_HEIGHT - PLAYER_SIZE
  }

  predicate EnemyInArena(e: Enemy) {
    0.0 <= e.x <= GAME_WIDTH - PLAYER_SIZE && 0.0 <= e.y <= GAME_HEIGHT - PLAYER_SIZE
  }

  // ---------------------------------------------------------------------------
  // Movement

  /** updatePlayerPositions over distinct present keys moves exactly those players,
      once each, and marks each of them changed; nothing else changes. */
  lemma {:induction false} MovePlayersClosed(s: State, ks: seq<string>)
    requires Distinct(ks) && forall k :: k in ks ==> k in s.players.m
    ensures var r := MovePlayers(s, ks);
      && (forall id :: id in s.players.m ==>
            r.players.m[id] == if id in ks then MovePlayer(s.players.m[id]) else s.players.m[id])
      && (forall id :: id in r.changes.players <==> id in s.changes.players || id in ks)
      && (forall id :: id in ks ==> r.changes.players[id] == Live)
      && (forall id :: id in s.changes.players && id !in ks ==> r.changes.players[id] == s.changes.players[id])
  {
    if ks != [] {
      var pre := ks[..|ks| - 1];
      var last := ks[|ks| - 1];
      SplitLast(ks);
      MovePlayersClosed(s, pre);
    }
  }

  /** After updatePlayerPositions every player is inside the arena, and each one is
      its old record moved by one step. */
  lemma PlayersInArenaAfterMove(s: State)
    requires s.Valid()
    ensures var r := AfterUpdatePlayerPositions(s);
      && r.players.m.Keys == s.players.m.Keys
      && (forall id :: id in r.players.m ==> r.players.m[id] == MovePlayer(s.players.m[id]))
      && (forall id :: id in r.players.m ==> PlayerInArena(r.players.m[id]))
  {
    MovePlayersClosed(s, s.players.keys);
  }

  lemma {:induction false} MoveEnemiesClosed(s: State, ks: seq<EnemyId>)
    requires Distinct(ks) && forall k :: k in ks ==> k in s.enemies.m
    ensures var r := MoveEnemies(s, ks);
      && (forall id :: id in s.enemies.m ==>
            r.enemies.m[id] == if id in ks then BounceEnemy(s.enemies.m[id]) else s.enemies.m[id])
      && (forall id :: id in r.changes.enemies <==> id in s.changes.enemies || id in ks)
      && (forall id :: id in ks ==> r.changes.enemies[id] == Live)
      && (forall id :: id in s.changes.enemies && id !in ks ==> r.changes.enemies[id] == s.changes.enemies[id])
  {
    if ks != [] {
      var pre := ks[..|ks| - 1];
      var last := ks[|ks| - 1];
      SplitLast(ks);
      MoveEnemiesClosed(s, pre);
      var t := MoveEnemies(s, pre);
      assert MoveEnemies(s, ks) == MoveEnemyStep(t, last);
      assert last in t.enemies.m && t.enemies.m[last] == s.enemies.m[last];
    }
  }

  /** After updateEnemyPositions every enemy is inside the arena, and each one is its
      old record bounced once. */
  lemma EnemiesInArenaAfterMove(s: State)
    requires s.Valid()
    ensures var r := AfterUpdateEnemyPositions(s);
      && r.enemies.m.Keys == s.enemies.m.Keys
      && (forall id :: id in r.enemies.m ==> r.enemies.m[id] == BounceEnemy(s.enemies.m[id]))
      && (forall id :: id in r.enemies.m ==> EnemyInArena(r.enemies.m[id]))
  {
    MoveEnemiesClosed(s, s.enemies.keys);
  }

  /** The bullets updateBulletPositions keeps when it visits the keys `ks`. */
  predicate Survives(s: State, ks: seq<BulletId>, id: BulletId)
    requires id in s.bullets.m
  {
    id !in ks || !OutOfArena(MoveBullet(s.bullets.m[id]))
  }

  lemma {:induction false} MoveBulletsClosed(s: State, ks: seq<BulletId>)
    requires Distinct(ks) && forall k :: k in ks ==> k in s.bullets.m
    ensures var r := MoveBullets(s, ks);
      && (forall id :: id in r.bullets.m <==> id in s.bullets.m && Survives(s, ks, id))
      && (forall id :: id in r.bullets.m ==>
            r.bullets.m[id] == if id in ks then MoveBullet(s.bullets.m[id]) else s.bullets.m[id])
      && (forall id :: id in r.changes.bullets <==> id in s.changes.bullets || id in ks)
      && (forall id :: id in ks ==>
            r.changes.bullets[id] == if OutOfArena(MoveBullet(s.bullets.m[id])) then Removed else Live)
      && (forall id :: id in s.changes.bullets && id !in ks ==> r.changes.bullets[id] == s.changes.bullets[id])
  {
    if ks != [] {
      var pre := ks[..|ks| - 1];
      var last := ks[|ks| - 1];
      SplitLast(ks);
      MoveBulletsClosed(s, pre);
      var t := MoveBullets(s, pre);
      assert MoveBullets(s, ks) == MoveBulletStep(t, last);
      assert last in t.bullets.m && t.bullets.m[last] == s.bullets.m[last];
    }
  }

  /** updateBulletPositions moves every bullet by exactly (dx, dy); it keeps exactly the
      moved bullets that are not out of the arena, logs each kept one live, and
      tombstones each dropped one. */
  lemma BulletsAfterMove(s: State)
    requires s.Valid()
    ensures var r := AfterUpdateBulletPositions(s);
      && (forall id :: id in r.bullets.m <==> id in s.bullets.m && !OutOfArena(MoveBullet(s.bullets.m[id])))
      && (forall id :: id in r.bullets.m ==>
            r.bullets.m[id] == MoveBullet(s.bullets.m[id])
            && id in r.changes.bullets && r.changes.bullets[id] == Live)
      && (forall id :: id in s.bullets.m && id !in r.bullets.m ==>
            id in r.changes.bullets && r.changes.bullets[id] == Removed)
  {
    MoveBulletsClosed(s, s.bullets.keys);
  }

  // ---------------------------------------------------------------------------
  // Waves

  function WaveIds(now: int, n: nat): set<EnemyId> {
    set i | 0 <= i < n :: EnemyId(now, i)
  }

  lemma {:induction false} WaveIdsCount(now: int, n: nat)
    ensures |WaveIds(now, n)| == n
  {
    if n > 0 {
      WaveIdsCount(now, n - 1);
      assert WaveIds(now, n) == WaveIds(now, n - 1) + {EnemyId(now, n - 1)};
    }
  }

  predicate InWave(id: EnemyId, now: int, n: nat) {
    id.stamp == now && id.index < n
  }

  lemma {:induction false} AddEnemiesClosed(s: State, now: int, rolls: seq<EnemyRoll>, n: nat)
    requires n <= |rolls|
    ensures var r := AddEnemies(s, now, rolls, n);
      && (forall id :: id in r.enemies.m <==> id in s.enemies.m || InWave(id, now, n))
      && (forall id :: id in r.enemies.m ==>
            r.enemies.m[id] == if InWave(id, now, n) then NewEnemy(rolls[id.index]) else s.enemies.m[id])
  {
    if n > 0 {
      AddEnemiesClosed(s, now, rolls, n - 1);
      var t := AddEnemies(s, now, rolls, n - 1);
      var r := AddEnemies(s, now, rolls, n);
      var k := EnemyId(now, n - 1);
      assert r.enemies.m == t.enemies.m[k := NewEnemy(rolls[n - 1])];
      forall id ensures InWave(id, now, n) <==> InWave(id, now, n - 1) || id == k {
      }
    }
  }

  lemma {:induction false} AddEnemiesLogged(s: State, now: int, rolls: seq<EnemyRoll>, n: nat)
    requires n <= |rolls|
    ensures var r := AddEnemies(s, now, rolls, n);
      && (forall id :: InWave(id, now, n) ==> id in r.changes.enemies && r.changes.enemies[id] == Live)
      && (forall id :: id in s.changes.enemies && !InWave(id, now, n) ==>
            id in r.changes.enemies && r.changes.enemies[id] == s.changes.enemies[id])
  {
    if n > 0 {
      AddEnemiesLogged(s, now, rolls, n - 1);
      var t := AddEnemies(s, now, rolls, n - 1);
      var r := AddEnemies(s, now, rolls, n);
      var k := EnemyId(now, n - 1);
      assert r.changes.enemies == t.changes.enemies[k := Live];
      forall id ensures InWave(id, now, n) <==> InWave(id, now, n - 1) || id == k {
      }
    }
  }

  /** spawnEnemyWave raises the wave number by one and adds the ids
      `EnemyId(now, 0)` … `EnemyId(now, 2w - 1)` for the new wave number `w`, each an
      enemy at the right edge logged live; from an empty enemy table that is exactly
      2w distinct enemies. */
  lemma SpawnEnemyWaveCounts(s: State, now: int, rolls: seq<EnemyRoll>)
    requires |rolls| >= 2 * (s.waveNumber + 1)
    ensures var r := AfterSpawnEnemyWave(s, now, rolls);
      && r.waveNumber == s.waveNumber + 1
      && (forall id :: id in r.enemies.m <==> id in s.enemies.m || InWave(id, now, 2 * r.waveNumber))
      && (forall id :: InWave(id, now, 2 * r.waveNumber) ==>
            && id in r.enemies.m && r.enemies.m[id] == NewEnemy(rolls[id.index])
            && id in r.changes.enemies && r.changes.enemies[id] == Live)
      && (s.enemies.m == map[] ==> r.enemies.m.Keys == WaveIds(now, 2 * r.waveNumber)
                                   && |r.enemies.m| == 2 * r.waveNumber)
  {
    var w := s.waveNumber + 1;
    var s1 := s.(waveNumber := w);
    AddEnemiesClosed(s1, now, rolls, 2 * w);
    AddEnemiesLogged(s1, now, rolls, 2 * w);
    var r := AfterSpawnEnemyWave(s, now, rolls);
    if s.enemies.m == map[] {
      forall id | id in r.enemies.m ensures id in WaveIds(now, 2 * w) {
        assert id == EnemyId(now, id.index);
      }
      assert r.enemies.m.Keys == WaveIds(now, 2 * w);
      WaveIdsCount(now, 2 * w);
    }
  }

  /** checkAndSpawnNewWave spawns a wave exactly when the enemy table is empty, and then
      the table holds exactly 2w enemies for the new wave number w. */
  lemma CheckAndSpawnNewWaveSpec(s: State, now: int, rolls: seq<EnemyRoll>)
    requires s.Valid() && |rolls| >= 2 * (s.waveNumber + 1)
    ensures var r := AfterCheckAndSpawnNewWave(s, now, rolls);
      && (s.enemies.m != map[] ==> r == s)
      && (s.enemies.m == map[] ==> r.waveNumber == s.waveNumber + 1 && |r.enemies.m| == 2 * r.waveNumber)
  {
    s.enemies.NoKeys();
    if s.enemies.m == map[] {
      SpawnEnemyWaveCounts(s, now, rolls);
    }
  }

  // ---------------------------------------------------------------------------
  // Bullet hits

  /** The hits credited to player `p`: those of its bullets, by the records of `s`. */
  function Earned(s: State, hits: map<BulletId, EnemyId>, p: string): nat {
    |set b | b in hits && b in s.bullets.m && s.bullets.m[b].playerId == p|
  }

  lemma EarnedStep(s: State, hits: map<BulletId, EnemyId>, id: BulletId, e: EnemyId, p: string)
    requires id !in hits && id in s.bullets.m
    ensures Earned(s, hits[id := e], p) == Earned(s, hits, p) + (if s.bullets.m[id].playerId == p then 1 else 0)
  {
    var before := set b | b in hits && b in s.bullets.m && s.bullets.m[b].playerId == p;
    var after := set b | b in hits[id := e] && b in s.bullets.m && s.bullets.m[b].playerId == p;
    if s.bullets.m[id].playerId == p {
      assert after == before + {id};
    } else {
      assert after == before;
    }
  }

  /** Some hit took enemy `e`. */
  ghost predicate Taken(hits: map<BulletId, EnemyId>, e: EnemyId) {
    exists b :: b in hits && hits[b] == e
  }

  /** What checkBulletCollisions has done after visiting the bullet keys `seen`,
      relative to the state `s` it started from, in four parts. */
  ghost predicate HitTrace(s: State, seen: seq<BulletId>, run: HitRun) {
    TraceScores(s, run) && TraceStore(s, run) && TraceHits(s, seen, run) && TraceThrown(s, run)
  }

  /** Players are only credited, 100 per hit by one of their bullets. */
  ghost predicate TraceScores(s: State, run: HitRun) {
    && run.state.players.m.Keys == s.players.m.Keys
    && forall p :: p in s.players.m ==>
         run.state.players.m[p] == s.players.m[p].(score := s.players.m[p].score + 100 * Earned(s, run.hits, p))
  }

  /** Bullets and enemies are only removed, and only by a hit. */
  ghost predicate TraceStore(s: State, run: HitRun) {
    var t := run.state;
    && (forall b :: b in t.bullets.m ==> b in s.bullets.m && t.bullets.m[b] == s.bullets.m[b])
    && (forall e :: e in t.enemies.m ==> e in s.enemies.m && t.enemies.m[e] == s.enemies.m[e])
    && (forall b :: b in s.bullets.m && b !in run.hits ==> b in t.bullets.m)
    && (forall e :: e in s.enemies.m && !Taken(run.hits, e) ==> e in t.enemies.m)
  }

  /** Each hit paired an overlapping bullet and enemy, both now gone and tombstoned,
      and no enemy was taken twice. */
  ghost predicate TraceHits(s: State, seen: seq<BulletId>, run: HitRun) {
    var t := run.state;
    && (forall b :: b in run.hits ==>
          && b in seen && b in s.bullets.m && b !in t.bullets.m
          && run.hits[b] in s.enemies.m && run.hits[b] !in t.enemies.m
          && Hits(s.bullets.m[b], s.enemies.m[run.hits[b]]))
    && (forall b :: b in run.hits ==>
          && b in t.changes.bullets && t.changes.bullets[b] == Removed
          && run.hits[b] in t.changes.enemies && t.changes.enemies[run.hits[b]] == Removed)
    && (forall b, c :: b in run.hits && c in run.hits && b != c ==> run.hits[b] != run.hits[c])
  }

  /** The pass has thrown exactly when a hit bullet's owner was not a player. */
  ghost predicate TraceThrown(s: State, run: HitRun) {
    run.thrown <==> exists b :: b in run.hits && b in s.bullets.m && s.bullets.m[b].playerId !in s.players.m
  }

  /** The hypotheses of one hit: bullet `id`, not seen before, overlaps enemy `e`. */
  ghost predicate HitAhead(s: State, seen: seq<BulletId>, run: HitRun, id: BulletId, e: EnemyId) {
    && HitTrace(s, seen, run) && id !in seen && !run.thrown
    && id in run.state.bullets.m && e in run.state.enemies.m
    && Hits(run.state.bullets.m[id], run.state.enemies.m[e])
  }

  /** The player table after a hit by a bullet of `owner`: the owner scores 100 when
      still present, otherwise nothing changes. */
  function Credited(ps: map<string, Player>, owner: string): map<string, Player> {
    if owner in ps then ps[owner := ps[owner].(score := ps[owner].score + 100)] else ps
  }

  /** Credit spelled out field by field: what it removes and tombstones ... */
  lemma CreditRemovals(run: HitRun, id: BulletId, e: EnemyId)
    requires id in run.state.bullets.m
    ensures var r := Credit(run, id, e);
      && r.hits == run.hits[id := e]
      && r.state.bullets.m == run.state.bullets.m - {id} && r.state.enemies.m == run.state.enemies.m - {e}
      && r.state.changes.bullets == run.state.changes.bullets[id := Removed]
      && r.state.changes.enemies == run.state.changes.enemies[e := Removed]
  {
    var t1 := Kill(run.state, id, e);
    var owner := run.state.bullets.m[id].playerId;
    if owner in t1.players.m {
      var t2 := Award(t1, owner);
      assert Credit(run, id, e).state == t2;
      assert t2.bullets == t1.bullets && t2.enemies == t1.enemies;
      assert t2.changes.bullets == t1.changes.bullets && t2.changes.enemies == t1.changes.enemies;
    }
  }

  /** ... and what it does for the bullet's owner, when present ... */
  lemma CreditPresentOwner(run: HitRun, id: BulletId, e: EnemyId)
    requires id in run.state.bullets.m && run.state.bullets.m[id].playerId in run.state.players.m
    ensures var r := Credit(run, id, e); var owner := run.state.bullets.m[id].playerId;
      !r.thrown && r.state.players.m == Credited(run.state.players.m, owner)
  {
    CreditAwards(run, id, e);
  }

  lemma CreditAwards(run: HitRun, id: BulletId, e: EnemyId)
    requires id in run.state.bullets.m && run.state.bullets.m[id].playerId in run.state.players.m
    ensures var r := Credit(run, id, e);
      !r.thrown && r.state == Award(Kill(run.state, id, e), run.state.bullets.m[id].playerId)
  {
    assert Kill(run.state, id, e).players == run.state.players;
  }

  /** ... and when absent. */
  lemma CreditAbsentOwner(run: HitRun, id: BulletId, e: EnemyId)
    requires id in run.state.bullets.m && run.state.bullets.m[id].playerId !in run.state.players.m
    ensures var r := Credit(run, id, e);
      r.thrown && r.state.players.m == Credited(run.state.players.m, run.state.bullets.m[id].playerId)
  {
    var t1 := Kill(run.state, id, e);
    assert t1.players == run.state.players;
  }

  lemma CreditScores(s: State, run: HitRun, id: BulletId, e: EnemyId, r: HitRun)
    requires TraceScores(s, run) && id !in run.hits
    requires id in run.state.bullets.m && id in s.bullets.m && run.state.bullets.m[id] == s.bullets.m[id]
    requires r.hits == run.hits[id := e]
    requires r.state.players.m == Credited(run.state.players.m, s.bullets.m[id].playerId)
    ensures TraceScores(s, r)
  {
    forall p | p in s.players.m
      ensures r.state.players.m[p]
           == s.players.m[p].(score := s.players.m[p].score + 100 * Earned(s, r.hits, p))
    {
      EarnedStep(s, run.hits, id, e, p);
    }
  }

  lemma CreditStore(s: State, run: HitRun, id: BulletId, e: EnemyId, r: HitRun)
    requires TraceStore(s, run) && id !in run.hits
    requires r.hits == run.hits[id := e]
    requires r.state.bullets.m == run.state.bullets.m - {id} && r.state.enemies.m == run.state.enemies.m - {e}
    ensures TraceStore(s, r)
  {
    assert r.hits[id] == e;
    forall x | Taken(run.hits, x) ensures Taken(r.hits, x) {
      var b :| b in run.hits && run.hits[b] == x;
      assert b in r.hits && r.hits[b] == x;
    }
  }

  lemma CreditHits(s: State, seen: seq<BulletId>, run: HitRun, id: BulletId, e: EnemyId, r: HitRun)
    requires TraceHits(s, seen, run) && id !in seen && id !in run.hits
    requires id in run.state.bullets.m && id in s.bullets.m && run.state.bullets.m[id] == s.bullets.m[id]
    requires e in run.state.enemies.m && e in s.enemies.m && run.state.enemies.m[e] == s.enemies.m[e]
    requires Hits(s.bullets.m[id], s.enemies.m[e])
    requires r.hits == run.hits[id := e]
    requires r.state.bullets.m == run.state.bullets.m - {id} && r.state.enemies.m == run.state.enemies.m - {e}
    requires r.state.changes.bullets == run.state.changes.bullets[id := Removed]
    requires r.state.changes.enemies == run.state.changes.enemies[e := Removed]
    ensures TraceHits(s, seen + [id], r)
  {
    assert forall b :: b in run.hits ==> run.hits[b] != e;
    assert forall b :: b in seen ==> b in seen + [id];
  }

  lemma CreditThrown(s: State, run: HitRun, id: BulletId, e: EnemyId, r: HitRun)
    requires TraceThrown(s, run) && !run.thrown && run.state.players.m.Keys == s.players.m.Keys
    requires id in run.state.bullets.m && id in s.bullets.m && run.state.bullets.m[id] == s.bullets.m[id]
    requires r.hits == run.hits[id := e]
    requires r.thrown <==> s.bullets.m[id].playerId !in run.state.players.m
    ensures TraceThrown(s, r)
  {
    if r.thrown {
      assert id in r.hits && s.bullets.m[id].playerId !in s.players.m;
    }
  }

  /** The bullets a pass visits after `seen` leave the trace alone when they hit nothing. */
  lemma TraceWiden(s: State, seen: seq<BulletId>, run: HitRun, id: BulletId)
    requires HitTrace(s, seen, run)
    ensures HitTrace(s, seen + [id], run)
  {
    assert forall b :: b in seen ==> b in seen + [id];
  }

  lemma HitStepTrace(s: State, seen: seq<BulletId>, run: HitRun, id: BulletId)
    requires HitTrace(s, seen, run) && id !in seen && !run.thrown
    ensures HitTrace(s, seen + [id], HitStep(run, id))
  {
    var t := run.state;
    if id in t.bullets.m {
      var i := FirstWhere(t.enemies.keys, t.enemies.m, HitsOf(t.bullets.m[id]));
      if i < |t.enemies.keys| {
        var e := t.enemies.keys[i];
        var r := Credit(run, id, e);
        assert HitStep(run, id) == r;
        assert id !in run.hits;
        CreditRemovals(run, id, e);
        if t.bullets.m[id].playerId in t.players.m {
          CreditPresentOwner(run, id, e);
        } else {
          CreditAbsentOwner(run, id, e);
        }
        CreditScores(s, run, id, e, r);
        CreditStore(s, run, id, e, r);
        CreditHits(s, seen, run, id, e, r);
        CreditThrown(s, run, id, e, r);
        return;
      }
    }
    TraceWiden(s, seen, run, id);
  }

  lemma {:induction false} BulletHitsTrace(s: State, ks: seq<BulletId>)
    requires Distinct(ks)
    ensures HitTrace(s, ks, BulletHits(s, ks))
  {
    if ks != [] {
      var pre := ks[..|ks| - 1];
      var last := ks[|ks| - 1];
      SplitLast(ks);
      BulletHitsTrace(s, pre);
      var run := BulletHits(s, pre);
      if run.thrown {
        assert BulletHits(s, ks) == run;
        TraceWiden(s, pre, run, last);
      } else {
        HitStepTrace(s, pre, run, last);
      }
    }
  }

  /** checkBulletCollisions pairs bullets with enemies: each bullet takes at most one
      enemy (the trace is a map), no enemy is taken twice, and every pair overlapped
      at the start of the pass and is now gone and tombstoned. */
  lemma CheckBulletCollisionsPairs(s: State)
    requires s.Valid()
    ensures var run := AfterCheckBulletCollisions(s); var t := run.state;
      && (forall b :: b in run.hits ==>
            && b in s.bullets.m && run.hits[b] in s.enemies.m
            && Hits(s.bullets.m[b], s.enemies.m[run.hits[b]])
            && b !in t.bullets.m && run.hits[b] !in t.enemies.m
            && b in t.changes.bullets && t.changes.bullets[b] == Removed
            && run.hits[b] in t.changes.enemies && t.changes.enemies[run.hits[b]] == Removed)
      && (forall b, c :: b in run.hits && c in run.hits && b != c ==> run.hits[b] != run.hits[c])
  {
    BulletHitsTrace(s, s.bullets.keys);
  }

  /** checkBulletCollisions removes exactly the bullets and enemies of its hits and
      leaves every other record as it was. */
  lemma CheckBulletCollisionsRemovals(s: State)
    requires s.Valid()
    ensures var run := AfterCheckBulletCollisions(s); var t := run.state;
      && (forall b :: b in t.bullets.m <==> b in s.bullets.m && b !in run.hits)
      && (forall e :: e in t.enemies.m <==> e in s.enemies.m && !Taken(run.hits, e))
      && (forall b :: b in t.bullets.m ==> t.bullets.m[b] == s.bullets.m[b])
      && (forall e :: e in t.enemies.m ==> t.enemies.m[e] == s.enemies.m[e])
  {
    BulletHitsTrace(s, s.bullets.keys);
  }

  /** checkBulletCollisions raises each player's score by exactly 100 per hit by one of
      its bullets, so no score falls, and changes nothing else about players; it throws
      exactly when some hit bullet's owner is not in `players`. */
  lemma CheckBulletCollisionsScores(s: State)
    requires s.Valid()
    ensures var run := AfterCheckBulletCollisions(s); var t := run.state;
      && t.players.m.Keys == s.players.m.Keys
      && (forall p :: p in s.players.m ==>
            && t.players.m[p] == s.players.m[p].(score := t.players.m[p].score)
            && t.players.m[p].score == s.players.m[p].score + 100 * Earned(s, run.hits, p)
            && t.players.m[p].score >= s.players.m[p].score)
      && (run.thrown <==> exists b :: b in run.hits && b in s.bullets.m && s.bullets.m[b].playerId !in s.players.m)
  {
    BulletHitsTrace(s, s.bullets.keys);
  }

  // ---------------------------------------------------------------------------
  // The whole tick

  ghost predicate AllInArena(s: State) {
    && (forall id :: id in s.players.m ==> PlayerInArena(s.players.m[id]))
    && (forall id :: id in s.enemies.m ==> EnemyInArena(s.enemies.m[id]))
  }

  /** The four passes before the wave check leave everyone inside the arena. */
  lemma PassesKeepArena(s: State)
    requires s.Valid()
    ensures AllInArena(AfterCheckBulletCollisions(AfterUpdateEnemyPositions(
              AfterUpdateBulletPositions(AfterUpdatePlayerPositions(s)))).state)
  {
    var s1 := AfterUpdatePlayerPositions(s);
    PlayersInArenaAfterMove(s);
    var s2 := AfterUpdateBulletPositions(s1);
    var s3 := AfterUpdateEnemyPositions(s2);
    EnemiesInArenaAfterMove(s2);
    assert AllInArena(s3);
    CheckBulletCollisionsScores(s3);
    CheckBulletCollisionsRemovals(s3);
  }

  /** A spawned wave lands inside the arena when its draws lie in [0, 1). */
  lemma WaveKeepsArena(t: State, now: int, rolls: seq<EnemyRoll>)
    requires t.Valid() && AllInArena(t) && |rolls| >= 2 * (t.waveNumber + 1)
    requires forall i :: 0 <= i < |rolls| ==> rolls[i].InUnit()
    ensures AllInArena(AfterCheckAndSpawnNewWave(t, now, rolls))
  {
    var r := AfterCheckAndSpawnNewWave(t, now, rolls);
    if |t.enemies.keys| == 0 {
      SpawnEnemyWaveCounts(t, now, rolls);
      forall id | id in r.enemies.m ensures EnemyInArena(r.enemies.m[id]) {
        if InWave(id, now, 2 * r.waveNumber) {
          assert rolls[id.index].InUnit();
        }
      }
    }
  }

  /** After one updateGameState tick, thrown or not, every player and every enemy is
      inside the arena, given draws in [0, 1) for a wave it may spawn. */
  lemma TickKeepsArena(s: State, now: int, rolls: seq<EnemyRoll>)
    requires s.Valid() && |rolls| >= 2 * (s.waveNumber + 1)
    requires forall i :: 0 <= i < |rolls| ==> rolls[i].InUnit()
    ensures AllInArena(AfterUpdateGameState(s, now, rolls).0)
  {
    PassesKeepArena(s);
    var s3 := AfterUpdateEnemyPositions(AfterUpdateBulletPositions(AfterUpdatePlayerPositions(s)));
    var t := AfterCheckBulletCollisions(s3).state;
    BulletHitsValid(s3, s3.bullets.keys);
    if !AfterUpdateGameState(s, now, rolls).1 {
      WaveKeepsArena(t, now, rolls);
    }
  }
}
