/** Properties of the collision passes of backend/game/collisions.js. */
module CollisionFacts {
  import opened Tables
  import opened Arena
  import opened Constants
  import opened Room
  import opened Collisions
  import PowerUps

  // ---------------------------------------------------------------------------
  // Killing the exposed players a test accepts

  /** Player `id` is one that a loop over `ks` with the test `hit` kills. */
  ghost predicate Doomed(b: Book<string, Player>, ks: seq<string>, hit: Player -> bool, id: string) {
    id in b.t.m && id in ks && Exposed(b.t.m[id]) && hit(b.t.m[id])
  }

  /** A loop over distinct keys kills exactly the exposed players the test accepts,
      each judged as it was before the loop, and leaves every other player alone ... */
  lemma {:induction false} SlayAllRecords(b: Book<string, Player>, ks: seq<string>, hit: Player -> bool)
    requires Distinct(ks)
    ensures var r := SlayAll(b, ks, hit);
      && r.t.keys == b.t.keys && r.t.m.Keys == b.t.m.Keys && (b.t.Valid() ==> r.t.Valid())
      && (forall id :: id in b.t.m ==>
            r.t.m[id] == if Doomed(b, ks, hit, id) then b.t.m[id].(isDead := true) else b.t.m[id])
  {
    if ks != [] {
      var pre := ks[..|ks| - 1];
      SplitLast(ks);
      SlayAllRecords(b, pre, hit);
    }
  }

  /** ... logs each of them live and leaves every other entry alone ... */
  lemma {:induction false} SlayAllLog(b: Book<string, Player>, ks: seq<string>, hit: Player -> bool)
    requires Distinct(ks)
    ensures var r := SlayAll(b, ks, hit);
      && (forall id :: id in r.log <==> id in b.log || Doomed(b, ks, hit, id))
      && (forall id :: Doomed(b, ks, hit, id) ==> r.log[id] == Live)
      && (forall id :: id in b.log && !Doomed(b, ks, hit, id) ==> r.log[id] == b.log[id])
  {
    if ks != [] {
      var pre := ks[..|ks| - 1];
      SplitLast(ks);
      SlayAllRecords(b, pre, hit);
      SlayAllLog(b, pre, hit);
    }
  }

  /** ... and keeps the table well formed and its live entries stored. */
  lemma {:induction false} SlayAllValid(b: Book<string, Player>, ks: seq<string>, hit: Player -> bool)
    requires b.Valid()
    ensures SlayAll(b, ks, hit).Valid()
  {
    if ks != [] {
      SlayAllValid(b, ks[..|ks| - 1], hit);
    }
  }

  // ---------------------------------------------------------------------------
  // The boss-kill bonus

  /** The bonus raises the score of every player in `ks` by 1000, changes nothing
      else about any player, and logs a copy of each raised record. */
  lemma {:induction false} BonusClosed(b: Book<string, Player>, ks: seq<string>)
    requires Distinct(ks)
    ensures var r := Bonus(b, ks);
      && r.t.keys == b.t.keys && r.t.m.Keys == b.t.m.Keys
      && (forall id :: id in b.t.m ==>
            r.t.m[id] == if id in ks then b.t.m[id].(score := b.t.m[id].score + 1000) else b.t.m[id])
      && (forall id :: id in r.log <==> id in b.log || (id in ks && id in b.t.m))
      && (forall id :: id in ks && id in b.t.m ==> r.log[id] == Copy(r.t.m[id]))
      && (forall id :: id in b.log && !(id in ks && id in b.t.m) ==> r.log[id] == b.log[id])
      && (b.Valid() ==> r.Valid())
  {
    if ks != [] {
      var pre := ks[..|ks| - 1];
      SplitLast(ks);
      BonusClosed(b, pre);
    }
  }

  // ---------------------------------------------------------------------------
  // checkBeamCollisions

  /** Player `id` is exposed at the start of the pass and some live beam among `ks`
      scorches it there. */
  ghost predicate Burnt(s0: BeamRun, ks: seq<BeamId>, now: int, id: string) {
    id in s0.players.t.m && Exposed(s0.players.t.m[id]) && Burns(s0.players.t.m[id], ks, s0.beams.t.m, now)
  }

  /** Beam `k` is among `ks` and expired. */
  ghost predicate Stale(s0: BeamRun, ks: seq<BeamId>, now: int, k: BeamId) {
    k in ks && k in s0.beams.t.m && Expired(s0.beams.t.m[k], now)
  }

  /** The beam pass after the beams `ks`, for the players: the records ... */
  ghost predicate BeamPlayers(s0: BeamRun, ks: seq<BeamId>, now: int, r: BeamRun) {
    && r.players.t.keys == s0.players.t.keys && r.players.t.m.Keys == s0.players.t.m.Keys
    && r.players.t.Valid()
    && (forall id :: id in s0.players.t.m ==>
          r.players.t.m[id] == if Burnt(s0, ks, now, id) then s0.players.t.m[id].(isDead := true) else s0.players.t.m[id])
  }

  /** ... and their change entries. */
  ghost predicate BeamLog(s0: BeamRun, ks: seq<BeamId>, now: int, r: BeamRun) {
    && Tracks(r.players.log, r.players.t)
    && (forall id :: id in r.players.log <==> id in s0.players.log || Burnt(s0, ks, now, id))
    && (forall id :: Burnt(s0, ks, now, id) ==> r.players.log[id] == Live)
    && (forall id :: id in s0.players.log && !Burnt(s0, ks, now, id) ==> r.players.log[id] == s0.players.log[id])
  }

  /** The beam pass after the beams `ks`, for the beams: the table ... */
  ghost predicate BeamBeams(s0: BeamRun, ks: seq<BeamId>, now: int, r: BeamRun) {
    && r.beams.t.Valid()
    && (forall k :: k in r.beams.t.m <==> k in s0.beams.t.m && !Stale(s0, ks, now, k))
    && (forall k :: k in r.beams.t.m ==> r.beams.t.m[k] == s0.beams.t.m[k])
  }

  /** ... and its change entries. */
  ghost predicate BeamTombs(s0: BeamRun, ks: seq<BeamId>, now: int, r: BeamRun) {
    && Tracks(r.beams.log, r.beams.t)
    && (forall k :: k in r.beams.log <==> k in s0.beams.log || Stale(s0, ks, now, k))
    && (forall k :: Stale(s0, ks, now, k) ==> r.beams.log[k] == Removed)
    && (forall k :: k in s0.beams.log && !Stale(s0, ks, now, k) ==> r.beams.log[k] == s0.beams.log[k])
  }

  lemma {:induction false} BeamStepsClosed(s0: BeamRun, ks: seq<BeamId>, now: int)
    requires s0.players.Valid() && s0.beams.Valid() && Distinct(ks)
    ensures var r := BeamSteps(s0, ks, now);
      BeamPlayers(s0, ks, now, r) && BeamLog(s0, ks, now, r) && BeamBeams(s0, ks, now, r) && BeamTombs(s0, ks, now, r)
  {
    if ks != [] {
      var pre := ks[..|ks| - 1];
      SplitLast(ks);
      BeamStepsClosed(s0, pre, now);
      BeamStepClosed(s0, pre, BeamSteps(s0, pre, now), ks[|ks| - 1], now);
    }
  }

  lemma BeamStepClosed(s0: BeamRun, pre: seq<BeamId>, r: BeamRun, last: BeamId, now: int)
    requires BeamPlayers(s0, pre, now, r) && BeamLog(s0, pre, now, r) && BeamBeams(s0, pre, now, r)
    requires BeamTombs(s0, pre, now, r) && last !in pre
    ensures var r2 := BeamStep(r, last, now);
      && BeamPlayers(s0, pre + [last], now, r2) && BeamLog(s0, pre + [last], now, r2)
      && BeamBeams(s0, pre + [last], now, r2) && BeamTombs(s0, pre + [last], now, r2)
  {
    StepPlayers(s0, pre, r, last, now);
    StepLog(s0, pre, r, last, now);
    StepBeams(s0, pre, r, last, now);
    StepTombs(s0, pre, r, last, now);
  }

  lemma StepPlayers(s0: BeamRun, pre: seq<BeamId>, r: BeamRun, last: BeamId, now: int)
    requires BeamPlayers(s0, pre, now, r) && BeamBeams(s0, pre, now, r) && last !in pre
    ensures BeamPlayers(s0, pre + [last], now, BeamStep(r, last, now))
  {
    if last in r.beams.t.m && !Expired(r.beams.t.m[last], now) {
      ScorchPlayers(s0, pre, r, last, r.beams.t.m[last], now);
    } else {
      QuietPlayers(s0, pre, r, last, now);
    }
  }

  lemma StepLog(s0: BeamRun, pre: seq<BeamId>, r: BeamRun, last: BeamId, now: int)
    requires BeamPlayers(s0, pre, now, r) && BeamLog(s0, pre, now, r) && BeamBeams(s0, pre, now, r)
    requires last !in pre
    ensures BeamLog(s0, pre + [last], now, BeamStep(r, last, now))
  {
    if last in r.beams.t.m && !Expired(r.beams.t.m[last], now) {
      ScorchLog(s0, pre, r, last, r.beams.t.m[last], now);
    } else {
      QuietLog(s0, pre, r, last, now);
    }
  }

  /** An expired or missing beam kills nobody ... */
  lemma QuietPlayers(s0: BeamRun, pre: seq<BeamId>, r: BeamRun, last: BeamId, now: int)
    requires BeamPlayers(s0, pre, now, r) && BeamBeams(s0, pre, now, r) && last !in pre
    requires !(last in r.beams.t.m && !Expired(r.beams.t.m[last], now))
    ensures BeamPlayers(s0, pre + [last], now, BeamStep(r, last, now))
  {
    assert BeamStep(r, last, now).players == r.players;
    assert last in s0.beams.t.m ==> Expired(s0.beams.t.m[last], now);
    forall id | id in s0.players.t.m ensures Burnt(s0, pre + [last], now, id) == Burnt(s0, pre, now, id) {
      BurnsSnoc(s0.players.t.m[id], pre, last, s0.beams.t.m, now);
    }
  }

  /** ... and writes no entry. */
  lemma QuietLog(s0: BeamRun, pre: seq<BeamId>, r: BeamRun, last: BeamId, now: int)
    requires BeamLog(s0, pre, now, r) && BeamBeams(s0, pre, now, r) && last !in pre
    requires !(last in r.beams.t.m && !Expired(r.beams.t.m[last], now))
    ensures BeamLog(s0, pre + [last], now, BeamStep(r, last, now))
  {
    assert BeamStep(r, last, now).players == r.players;
    assert last in s0.beams.t.m ==> Expired(s0.beams.t.m[last], now);
    forall id ensures Burnt(s0, pre + [last], now, id) == Burnt(s0, pre, now, id) {
      if id in s0.players.t.m {
        BurnsSnoc(s0.players.t.m[id], pre, last, s0.beams.t.m, now);
      }
    }
  }

  lemma StepBeams(s0: BeamRun, pre: seq<BeamId>, r: BeamRun, last: BeamId, now: int)
    requires BeamBeams(s0, pre, now, r) && last !in pre
    ensures BeamBeams(s0, pre + [last], now, BeamStep(r, last, now))
  {
    if last in r.beams.t.m && Expired(r.beams.t.m[last], now) {
      assert BeamStep(r, last, now).beams == r.beams.Drop(last);
      assert forall k :: Stale(s0, pre + [last], now, k) <==> Stale(s0, pre, now, k) || k == last;
    } else {
      assert BeamStep(r, last, now).beams == r.beams;
      assert forall k :: Stale(s0, pre + [last], now, k) <==> Stale(s0, pre, now, k);
    }
  }

  lemma StepTombs(s0: BeamRun, pre: seq<BeamId>, r: BeamRun, last: BeamId, now: int)
    requires BeamBeams(s0, pre, now, r) && BeamTombs(s0, pre, now, r) && last !in pre
    ensures BeamTombs(s0, pre + [last], now, BeamStep(r, last, now))
  {
    if last in r.beams.t.m && Expired(r.beams.t.m[last], now) {
      TombDrop(s0, pre, r, last, now);
    } else {
      assert BeamStep(r, last, now).beams == r.beams;
      TombKeep(s0, pre, r, last, now);
    }
  }

  /** An expired beam is tombstoned ... */
  lemma TombDrop(s0: BeamRun, pre: seq<BeamId>, r: BeamRun, last: BeamId, now: int)
    requires BeamBeams(s0, pre, now, r) && BeamTombs(s0, pre, now, r) && last !in pre
    requires last in r.beams.t.m && Expired(r.beams.t.m[last], now)
    ensures BeamTombs(s0, pre + [last], now, BeamRun(r.players, r.beams.Drop(last)))
  {
    var log := r.beams.Drop(last).log;
    assert log == r.beams.log[last := Removed];
    assert Stale(s0, pre + [last], now, last);
    forall k | k != last ensures Stale(s0, pre + [last], now, k) == Stale(s0, pre, now, k) {
    }
    forall k | Stale(s0, pre + [last], now, k) ensures log[k] == Removed {
      if k != last {
        assert Stale(s0, pre, now, k);
      }
    }
  }

  /** ... and any other leaves the entries alone. */
  lemma TombKeep(s0: BeamRun, pre: seq<BeamId>, r: BeamRun, last: BeamId, now: int)
    requires BeamBeams(s0, pre, now, r) && BeamTombs(s0, pre, now, r) && last !in pre
    requires !(last in r.beams.t.m && Expired(r.beams.t.m[last], now))
    ensures BeamTombs(s0, pre + [last], now, r)
  {
    assert forall k :: Stale(s0, pre + [last], now, k) <==> Stale(s0, pre, now, k);
  }

  /** Burns over one more beam. */
  lemma BurnsSnoc(p: Player, pre: seq<BeamId>, last: BeamId, m: map<BeamId, Beam>, now: int)
    ensures Burns(p, pre + [last], m, now)
        <==> (Burns(p, pre, m, now) || (last in m && !Expired(m[last], now) && Scorches(m[last], p)))
  {
    var ks := pre + [last];
    assert ks[..|ks| - 1] == pre;
  }

  /** Some live beam among `ks` scorches `p`: `Burns` asks the same as a search over the
      keys would. */
  lemma {:induction false} BurnsSome(p: Player, ks: seq<BeamId>, m: map<BeamId, Beam>, now: int)
    ensures Burns(p, ks, m, now) <==> exists k :: k in ks && k in m && !Expired(m[k], now) && Scorches(m[k], p)
  {
    if ks != [] {
      var pre := ks[..|ks| - 1];
      var last := ks[|ks| - 1];
      assert ks == pre + [last];
      BurnsSome(p, pre, m, now);
      BurnsSnoc(p, pre, last, m, now);
      assert forall k :: k in ks <==> k in pre || k == last;
    }
  }

  /** A live beam kills the exposed players it scorches ... */
  lemma ScorchPlayers(s0: BeamRun, pre: seq<BeamId>, r: BeamRun, last: BeamId, beam: Beam, now: int)
    requires BeamPlayers(s0, pre, now, r)
    requires last in s0.beams.t.m && s0.beams.t.m[last] == beam && !Expired(beam, now)
    ensures BeamPlayers(s0, pre + [last], now, BeamRun(SlayAll(r.players, r.players.t.keys, ScorchesOf(beam)), r.beams))
  {
    SlayAllRecords(r.players, r.players.t.keys, ScorchesOf(beam));
    forall id | id in s0.players.t.m
      ensures Burnt(s0, pre + [last], now, id)
          == (Burnt(s0, pre, now, id) || Doomed(r.players, r.players.t.keys, ScorchesOf(beam), id))
    {
      BurnsSnoc(s0.players.t.m[id], pre, last, s0.beams.t.m, now);
      assert id in r.players.t.keys;
    }
  }

  /** ... and logs them live. */
  lemma ScorchLog(s0: BeamRun, pre: seq<BeamId>, r: BeamRun, last: BeamId, beam: Beam, now: int)
    requires BeamPlayers(s0, pre, now, r) && BeamLog(s0, pre, now, r)
    requires last in s0.beams.t.m && s0.beams.t.m[last] == beam && !Expired(beam, now)
    ensures BeamLog(s0, pre + [last], now, BeamRun(SlayAll(r.players, r.players.t.keys, ScorchesOf(beam)), r.beams))
  {
    SlayAllLog(r.players, r.players.t.keys, ScorchesOf(beam));
    SlayAllValid(r.players, r.players.t.keys, ScorchesOf(beam));
    forall id
      ensures Burnt(s0, pre + [last], now, id)
          == (Burnt(s0, pre, now, id) || Doomed(r.players, r.players.t.keys, ScorchesOf(beam), id))
    {
      if id in s0.players.t.m {
        BurnsSnoc(s0.players.t.m[id], pre, last, s0.beams.t.m, now);
        assert id in r.players.t.keys;
      }
    }
  }



  // ---------------------------------------------------------------------------
  // checkBulletCollisions, bullets against enemies

  /** The hits credited to player `p`: those by bullets it owns, by the records at the
      start of the pass. */
  function Earned(bullets: map<BulletId, Bullet>, hits: map<BulletId, EnemyId>, p: string): nat {
    |set b | b in hits && b in bullets && bullets[b].OwnerKey() == p|
  }

  lemma EarnedStep(bullets: map<BulletId, Bullet>, hits: map<BulletId, EnemyId>, id: BulletId, e: EnemyId, p: string)
    requires id !in hits && id in bullets
    ensures Earned(bullets, hits[id := e], p) == Earned(bullets, hits, p) + (if bullets[id].OwnerKey() == p then 1 else 0)
  {
    var before := set b | b in hits && b in bullets && bullets[b].OwnerKey() == p;
    var after := set b | b in hits[id := e] && b in bullets && bullets[b].OwnerKey() == p;
    if bullets[id].OwnerKey() == p {
      assert after == before + {id};
    } else {
      assert after == before;
    }
  }

  lemma EarnedAll(bullets: map<BulletId, Bullet>, hits: map<BulletId, EnemyId>, id: BulletId, e: EnemyId)
    requires id !in hits && id in bullets
    ensures forall p :: Earned(bullets, hits[id := e], p) == Earned(bullets, hits, p) + (if bullets[id].OwnerKey() == p then 1 else 0)
  {
    forall p {
      EarnedStep(bullets, hits, id, e, p);
    }
  }

  /** The bullets after the enemy pass has visited some: only those that struck an
      enemy are gone, and the rest are as they were ... */
  ghost predicate BulletTable(s0: StrikeRun, r: StrikeRun) {
    && r.bullets.t.Valid()
    && (forall b :: b in r.bullets.t.m <==> b in s0.bullets.t.m && b !in r.hits)
    && (forall b :: b in r.bullets.t.m ==> r.bullets.t.m[b] == s0.bullets.t.m[b])
  }

  /** ... only the struck enemies are gone, and the rest are as they were ... */
  ghost predicate EnemyTable(s0: StrikeRun, r: StrikeRun) {
    && r.enemies.t.Valid()
    && (forall e :: e in r.enemies.t.m <==> e in s0.enemies.t.m && e !in r.hitBy)
    && (forall e :: e in r.enemies.t.m ==> r.enemies.t.m[e] == s0.enemies.t.m[e])
  }

  /** ... and the players keep their keys. */
  ghost predicate PlayerKeys(s0: StrikeRun, r: StrikeRun) {
    && r.players.t.Valid()
    && r.players.t.keys == s0.players.t.keys && r.players.t.m.Keys == s0.players.t.m.Keys
  }

  /** Every struck bullet is tombstoned and every other entry is as it was. */
  ghost predicate BulletTombs(s0: StrikeRun, r: StrikeRun) {
    && Tracks(r.bullets.log, r.bullets.t)
    && (forall b :: b in r.bullets.log <==> b in s0.bullets.log || b in r.hits)
    && (forall b :: b in r.hits ==> r.bullets.log[b] == Removed)
    && (forall b :: b in s0.bullets.log && b !in r.hits ==> r.bullets.log[b] == s0.bullets.log[b])
  }

  /** Every struck enemy is tombstoned and every other entry is as it was. */
  ghost predicate EnemyTombs(s0: StrikeRun, r: StrikeRun) {
    && Tracks(r.enemies.log, r.enemies.t)
    && (forall e :: e in r.enemies.log <==> e in s0.enemies.log || e in r.hitBy)
    && (forall e :: e in r.hitBy ==> r.enemies.log[e] == Removed)
    && (forall e :: e in s0.enemies.log && e !in r.hitBy ==> r.enemies.log[e] == s0.enemies.log[e])
  }

  /** Each hit paired a visited bullet with an enemy it struck at the start of the
      pass, and `hits` and `hitBy` are inverse to each other. */
  ghost predicate StrikePairs(s0: StrikeRun, seen: seq<BulletId>, r: StrikeRun) {
    && (forall b :: b in r.hits ==>
          && b in seen && b in s0.bullets.t.m && r.hits[b] in s0.enemies.t.m
          && Strikes(s0.bullets.t.m[b], s0.enemies.t.m[r.hits[b]])
          && r.hits[b] in r.hitBy && r.hitBy[r.hits[b]] == b)
    && (forall e :: e in r.hitBy ==> r.hitBy[e] in r.hits && r.hits[r.hitBy[e]] == e)
  }

  /** A visited bullet that took no enemy strikes none of those left. */
  ghost predicate StrikeMissed(s0: StrikeRun, seen: seq<BulletId>, r: StrikeRun) {
    forall b, e :: b in seen && b in s0.bullets.t.m && b !in r.hits && e in r.enemies.t.m ==>
      !Strikes(s0.bullets.t.m[b], r.enemies.t.m[e])
  }

  /** Each player has scored 100 per hit by a bullet it owns, and nothing else about
      it has changed ... */
  ghost predicate StrikeScores(s0: StrikeRun, r: StrikeRun) {
    forall p :: p in s0.players.t.m ==>
      (p in r.players.t.m && r.players.t.m[p] == s0.players.t.m[p].(score := s0.players.t.m[p].score + 100 * Earned(s0.bullets.t.m, r.hits, p)))
  }

  /** ... and exactly the players that scored have their entries written live. */
  ghost predicate ScoreLog(s0: StrikeRun, r: StrikeRun) {
    && Tracks(r.players.log, r.players.t)
    && (forall p :: p in r.players.log <==> p in s0.players.log || (p in s0.players.t.m && Earned(s0.bullets.t.m, r.hits, p) > 0))
    && (forall p :: p in s0.players.t.m && Earned(s0.bullets.t.m, r.hits, p) > 0 ==> r.players.log[p] == Live)
    && (forall p :: p in s0.players.log && !(p in s0.players.t.m && Earned(s0.bullets.t.m, r.hits, p) > 0) ==>
          r.players.log[p] == s0.players.log[p])
  }

  ghost predicate StrikeTrace(s0: StrikeRun, seen: seq<BulletId>, r: StrikeRun) {
    && BulletTable(s0, r) && EnemyTable(s0, r) && PlayerKeys(s0, r)
    && BulletTombs(s0, r) && EnemyTombs(s0, r) && StrikePairs(s0, seen, r)
    && StrikeMissed(s0, seen, r) && StrikeScores(s0, r) && ScoreLog(s0, r)
  }

  lemma {:induction false} StrikeStepsTrace(s0: StrikeRun, ks: seq<BulletId>)
    requires s0.hits == map[] && s0.hitBy == map[] && Distinct(ks)
    requires s0.players.Valid() && s0.bullets.Valid() && s0.enemies.Valid()
    ensures StrikeTrace(s0, ks, StrikeSteps(s0, ks))
  {
    if ks != [] {
      var pre := ks[..|ks| - 1];
      SplitLast(ks);
      StrikeStepsTrace(s0, pre);
      StrikeStepTrace(s0, pre, StrikeSteps(s0, pre), ks[|ks| - 1]);
    }
  }

  /** The part of the trace about the players. */
  lemma StrikeStepsScores(s0: StrikeRun, ks: seq<BulletId>)
    requires s0.hits == map[] && s0.hitBy == map[] && Distinct(ks)
    requires s0.players.Valid() && s0.bullets.Valid() && s0.enemies.Valid()
    ensures StrikeScores(s0, StrikeSteps(s0, ks)) && ScoreLog(s0, StrikeSteps(s0, ks))
  {
    StrikeStepsTrace(s0, ks);
  }

  lemma StrikeStepTrace(s0: StrikeRun, seen: seq<BulletId>, r: StrikeRun, id: BulletId)
    requires StrikeTrace(s0, seen, r) && id !in seen
    ensures StrikeTrace(s0, seen + [id], StrikeStep(r, id))
  {
    if id in r.bullets.t.m && FirstWhere(r.enemies.t.keys, r.enemies.t.m, StrikesOf(r.bullets.t.m[id])) < |r.enemies.t.keys| {
      HitTrace(s0, seen, r, id);
    } else {
      MissTrace(s0, seen, r, id);
    }
  }

  /** A bullet that takes no enemy changes nothing. */
  lemma MissTrace(s0: StrikeRun, seen: seq<BulletId>, r: StrikeRun, id: BulletId)
    requires StrikeTrace(s0, seen, r) && id !in seen
    requires id in r.bullets.t.m ==> FirstWhere(r.enemies.t.keys, r.enemies.t.m, StrikesOf(r.bullets.t.m[id])) == |r.enemies.t.keys|
    ensures StrikeTrace(s0, seen + [id], StrikeStep(r, id))
  {
    if id in r.bullets.t.m {
      NoneWhere(r.enemies.t.keys, r.enemies.t.m, StrikesOf(r.bullets.t.m[id]));
    }
    assert StrikeStep(r, id) == r;
    assert forall b :: b in seen + [id] <==> b in seen || b == id;
  }

  /** A bullet that strikes the first enemy it overlaps. */
  lemma HitTrace(s0: StrikeRun, seen: seq<BulletId>, r: StrikeRun, id: BulletId)
    requires StrikeTrace(s0, seen, r) && id !in seen && id in r.bullets.t.m
    requires FirstWhere(r.enemies.t.keys, r.enemies.t.m, StrikesOf(r.bullets.t.m[id])) < |r.enemies.t.keys|
    ensures StrikeTrace(s0, seen + [id], StrikeStep(r, id))
  {
    var e := r.enemies.t.keys[FirstWhere(r.enemies.t.keys, r.enemies.t.m, StrikesOf(r.bullets.t.m[id]))];
    var r2 := StrikeStep(r, id);
    var owner := r.bullets.t.m[id].OwnerKey();
    assert r2 == Strike(r, id, e);
    assert id !in r.hits && e !in r.hitBy;
    assert r2.hits == r.hits[id := e] && r2.hitBy == r.hitBy[e := id];
    assert r2.bullets == r.bullets.Drop(id) && r2.enemies == r.enemies.Drop(e);
    assert r2.players == Score(r.players, owner, 100);
    HitBullets(s0, r, id, e, r2);
    HitEnemies(s0, r, id, e, r2);
    EarnedAll(s0.bullets.t.m, r.hits, id, e);
    HitKeys(s0, r, owner, r2);
    HitScores(s0, r, owner, r2);
    HitScoreLog(s0, r, owner, r2);
    HitPairs(s0, seen, r, id, e, r2);
    HitMissed(s0, seen, r, id, e, r2);
  }

  lemma HitBullets(s0: StrikeRun, r: StrikeRun, id: BulletId, e: EnemyId, r2: StrikeRun)
    requires BulletTable(s0, r) && BulletTombs(s0, r) && id in r.bullets.t.m
    requires r2.hits == r.hits[id := e] && r2.bullets == r.bullets.Drop(id)
    ensures BulletTable(s0, r2) && BulletTombs(s0, r2)
  {
    HitBulletsTable(s0, r, id, e, r2);
    HitBulletsTombs(s0, r, id, e, r2);
  }

  lemma HitBulletsTable(s0: StrikeRun, r: StrikeRun, id: BulletId, e: EnemyId, r2: StrikeRun)
    requires BulletTable(s0, r) && id in r.bullets.t.m
    requires r2.hits == r.hits[id := e] && r2.bullets == r.bullets.Drop(id)
    ensures BulletTable(s0, r2)
  {
  }

  lemma HitBulletsTombs(s0: StrikeRun, r: StrikeRun, id: BulletId, e: EnemyId, r2: StrikeRun)
    requires BulletTable(s0, r) && BulletTombs(s0, r) && id in r.bullets.t.m
    requires r2.hits == r.hits[id := e] && r2.bullets == r.bullets.Drop(id)
    ensures BulletTombs(s0, r2)
  {
  }

  lemma HitEnemies(s0: StrikeRun, r: StrikeRun, id: BulletId, e: EnemyId, r2: StrikeRun)
    requires EnemyTable(s0, r) && EnemyTombs(s0, r) && e in r.enemies.t.m
    requires r2.hitBy == r.hitBy[e := id] && r2.enemies == r.enemies.Drop(e)
    ensures EnemyTable(s0, r2) && EnemyTombs(s0, r2)
  {
    HitEnemyTable(s0, r, id, e, r2);
    HitEnemyTombs(s0, r, id, e, r2);
  }

  lemma HitEnemyTable(s0: StrikeRun, r: StrikeRun, id: BulletId, e: EnemyId, r2: StrikeRun)
    requires EnemyTable(s0, r) && e in r.enemies.t.m
    requires r2.hitBy == r.hitBy[e := id] && r2.enemies == r.enemies.Drop(e)
    ensures EnemyTable(s0, r2)
  {
  }

  lemma HitEnemyTombs(s0: StrikeRun, r: StrikeRun, id: BulletId, e: EnemyId, r2: StrikeRun)
    requires EnemyTable(s0, r) && EnemyTombs(s0, r) && e in r.enemies.t.m
    requires r2.hitBy == r.hitBy[e := id] && r2.enemies == r.enemies.Drop(e)
    ensures EnemyTombs(s0, r2)
  {
  }

  lemma HitKeys(s0: StrikeRun, r: StrikeRun, owner: string, r2: StrikeRun)
    requires PlayerKeys(s0, r) && r2.players == Score(r.players, owner, 100)
    ensures PlayerKeys(s0, r2)
  {
  }

  lemma HitScores(s0: StrikeRun, r: StrikeRun, owner: string, r2: StrikeRun)
    requires PlayerKeys(s0, r) && StrikeScores(s0, r) && r2.players == Score(r.players, owner, 100)
    requires forall p :: p in s0.players.t.m ==> Earned(s0.bullets.t.m, r2.hits, p) == Earned(s0.bullets.t.m, r.hits, p) + (if owner == p then 1 else 0)
    ensures StrikeScores(s0, r2)
  {
    if owner in r.players.t.m {
      ScoredScores(s0, r, owner, r2);
    } else {
      assert forall p :: p in s0.players.t.m ==> Earned(s0.bullets.t.m, r2.hits, p) == Earned(s0.bullets.t.m, r.hits, p);
    }
  }

  lemma HitScoreLog(s0: StrikeRun, r: StrikeRun, owner: string, r2: StrikeRun)
    requires PlayerKeys(s0, r) && ScoreLog(s0, r) && r2.players == Score(r.players, owner, 100)
    requires forall p :: p in s0.players.t.m ==> Earned(s0.bullets.t.m, r2.hits, p) == Earned(s0.bullets.t.m, r.hits, p) + (if owner == p then 1 else 0)
    ensures ScoreLog(s0, r2)
  {
    if owner in r.players.t.m {
      ScoredLog(s0, r, owner, r2);
    } else {
      assert forall p :: p in s0.players.t.m ==> Earned(s0.bullets.t.m, r2.hits, p) == Earned(s0.bullets.t.m, r.hits, p);
    }
  }

  lemma ScoredScores(s0: StrikeRun, r: StrikeRun, owner: string, r2: StrikeRun)
    requires PlayerKeys(s0, r) && StrikeScores(s0, r) && owner in r.players.t.m
    requires forall p :: p in s0.players.t.m ==> Earned(s0.bullets.t.m, r2.hits, p) == Earned(s0.bullets.t.m, r.hits, p) + (if owner == p then 1 else 0)
    requires r2.players == r.players.Put(owner, r.players.t.m[owner].(score := r.players.t.m[owner].score + 100))
    ensures StrikeScores(s0, r2)
  {
  }

  lemma ScoredLog(s0: StrikeRun, r: StrikeRun, owner: string, r2: StrikeRun)
    requires PlayerKeys(s0, r) && ScoreLog(s0, r) && owner in r.players.t.m
    requires forall p :: p in s0.players.t.m ==> Earned(s0.bullets.t.m, r2.hits, p) == Earned(s0.bullets.t.m, r.hits, p) + (if owner == p then 1 else 0)
    requires r2.players == r.players.Put(owner, r.players.t.m[owner].(score := r.players.t.m[owner].score + 100))
    ensures ScoreLog(s0, r2)
  {
    ScoredMembers(s0, r, owner, r2);
    ScoredLive(s0, r, owner, r2);
    ScoredKept(s0, r, owner, r2);
  }

  lemma ScoredMembers(s0: StrikeRun, r: StrikeRun, owner: string, r2: StrikeRun)
    requires PlayerKeys(s0, r) && ScoreLog(s0, r) && owner in r.players.t.m
    requires forall p :: p in s0.players.t.m ==> Earned(s0.bullets.t.m, r2.hits, p) == Earned(s0.bullets.t.m, r.hits, p) + (if owner == p then 1 else 0)
    requires r2.players == r.players.Put(owner, r.players.t.m[owner].(score := r.players.t.m[owner].score + 100))
    ensures forall p :: p in r2.players.log <==> p in s0.players.log || (p in s0.players.t.m && Earned(s0.bullets.t.m, r2.hits, p) > 0)
  {
  }

  lemma ScoredLive(s0: StrikeRun, r: StrikeRun, owner: string, r2: StrikeRun)
    requires PlayerKeys(s0, r) && ScoreLog(s0, r) && owner in r.players.t.m
    requires forall p :: p in s0.players.t.m ==> Earned(s0.bullets.t.m, r2.hits, p) == Earned(s0.bullets.t.m, r.hits, p) + (if owner == p then 1 else 0)
    requires r2.players == r.players.Put(owner, r.players.t.m[owner].(score := r.players.t.m[owner].score + 100))
    ensures forall p :: p in s0.players.t.m && Earned(s0.bullets.t.m, r2.hits, p) > 0 ==> r2.players.log[p] == Live
  {
  }

  lemma ScoredKept(s0: StrikeRun, r: StrikeRun, owner: string, r2: StrikeRun)
    requires PlayerKeys(s0, r) && ScoreLog(s0, r) && owner in r.players.t.m
    requires forall p :: p in s0.players.t.m ==> Earned(s0.bullets.t.m, r2.hits, p) == Earned(s0.bullets.t.m, r.hits, p) + (if owner == p then 1 else 0)
    requires r2.players == r.players.Put(owner, r.players.t.m[owner].(score := r.players.t.m[owner].score + 100))
    ensures forall p :: p in s0.players.log && !(p in s0.players.t.m && Earned(s0.bullets.t.m, r2.hits, p) > 0) ==>
      r2.players.log[p] == s0.players.log[p]
  {
  }

  lemma HitPairs(s0: StrikeRun, seen: seq<BulletId>, r: StrikeRun, id: BulletId, e: EnemyId, r2: StrikeRun)
    requires BulletTable(s0, r) && EnemyTable(s0, r) && StrikePairs(s0, seen, r) && id !in seen
    requires id in r.bullets.t.m && e in r.enemies.t.m && Strikes(r.bullets.t.m[id], r.enemies.t.m[e])
    requires r2.hits == r.hits[id := e] && r2.hitBy == r.hitBy[e := id]
    ensures StrikePairs(s0, seen + [id], r2)
  {
    assert forall b :: b in seen ==> b in seen + [id];
  }

  lemma HitMissed(s0: StrikeRun, seen: seq<BulletId>, r: StrikeRun, id: BulletId, e: EnemyId, r2: StrikeRun)
    requires StrikeMissed(s0, seen, r)
    requires r2.hits == r.hits[id := e] && r2.enemies.t.m == r.enemies.t.m - {e}
    ensures StrikeMissed(s0, seen + [id], r2)
  {
    assert forall b :: b in seen + [id] && b != id ==> b in seen;
  }

  /** checkBulletCollisions' enemy loop gives each bullet at most one enemy and each
      enemy to at most one bullet: `hits` and `hitBy` are inverse to each other. A
      bullet that took an enemy struck it as both were at the start of the pass, and
      exactly the struck bullets and enemies are deleted and tombstoned. No bullet
      left strikes any enemy left. */
  lemma EnemyPassPaired(s: RoomState)
    requires s.Valid()
    ensures var run := StrikePass(s); var r := AfterStrikePass(s);
      && (forall b :: b in run.hits ==>
            && b in s.bullets.m && run.hits[b] in s.enemies.m
            && Strikes(s.bullets.m[b], s.enemies.m[run.hits[b]])
            && run.hits[b] in run.hitBy && run.hitBy[run.hits[b]] == b)
      && (forall e :: e in run.hitBy ==> run.hitBy[e] in run.hits && run.hits[run.hitBy[e]] == e)
      && (forall b :: b in r.bullets.m <==> b in s.bullets.m && b !in run.hits)
      && (forall b :: b in r.bullets.m ==> r.bullets.m[b] == s.bullets.m[b])
      && (forall e :: e in r.enemies.m <==> e in s.enemies.m && e !in run.hitBy)
      && (forall e :: e in r.enemies.m ==> r.enemies.m[e] == s.enemies.m[e])
      && (forall b, e :: b in r.bullets.m && e in r.enemies.m ==> !Strikes(r.bullets.m[b], r.enemies.m[e]))
      && (forall b :: b in run.hits ==> b in r.changes.bullets && r.changes.bullets[b] == Removed)
      && (forall e :: e in run.hitBy ==> e in r.changes.enemies && r.changes.enemies[e] == Removed)
  {
    var s0 := StrikeRun(s.PlayersBook(), s.BulletsBook(), s.EnemiesBook(), map[], map[]);
    StrikeStepsTrace(s0, s.bullets.keys);
  }

  /** ... the room stays well formed and the players keep their keys ... */
  lemma EnemyPassValid(s: RoomState)
    requires s.Valid()
    ensures AfterStrikePass(s).Valid() && AfterStrikePass(s).players.keys == s.players.keys
  {
    var s0 := StrikeRun(s.PlayersBook(), s.BulletsBook(), s.EnemiesBook(), map[], map[]);
    StrikeStepsTrace(s0, s.bullets.keys);
  }

  /** ... and each player, alive or dead, scores 100 for every hit by a bullet it owns,
      and exactly the players that scored have their entries written. */
  lemma EnemyPassScores(s: RoomState)
    requires s.Valid()
    ensures var run := StrikePass(s); var r := AfterStrikePass(s);
      && (forall p :: p in s.players.m ==>
            (p in r.players.m && r.players.m[p] == s.players.m[p].(score := s.players.m[p].score + 100 * Earned(s.bullets.m, run.hits, p))))
      && (forall p :: p in s.players.m && Earned(s.bullets.m, run.hits, p) > 0 ==> p in r.changes.players && r.changes.players[p] == Live)
      && (forall p :: p in s.changes.players && !(p in s.players.m && Earned(s.bullets.m, run.hits, p) > 0) ==>
            p in r.changes.players && r.changes.players[p] == s.changes.players[p])
  {
    var s0 := StrikeRun(s.PlayersBook(), s.BulletsBook(), s.EnemiesBook(), map[], map[]);
    StrikeStepsScores(s0, s.bullets.keys);
  }

  // ---------------------------------------------------------------------------
  // checkBulletCollisions: the boss loop

  /** Without a boss, or with no bullet that wounds it, the boss loop changes nothing. */
  lemma BossUntouched(s: RoomState)
    requires s.boss.None? || forall b :: b in s.bullets.m ==> !Wounds(s.bullets.m[b], s.boss.value)
    ensures AfterBossPass(s) == s
  {
    if s.boss.Some? {
      var i := FirstWhere(s.bullets.keys, s.bullets.m, WoundsOf(s.boss.value));
      if i < |s.bullets.keys| {
        assert false;
      }
    }
  }

  /** With a boss, the first bullet in enumeration order that wounds it, if any, is the
      one deleted and tombstoned, and only that one: a boss takes at most one hit per
      call. The boss survives with 10 health less exactly when it had more than 10,
      and its entry is then a copy of the wounded boss; the players are untouched. */
  lemma BossWounded(s: RoomState)
    requires s.Valid() && s.boss.Some?
    requires FirstWhere(s.bullets.keys, s.bullets.m, WoundsOf(s.boss.value)) < |s.bullets.keys|
    ensures var boss := s.boss.value; var k := s.bullets.keys[FirstWhere(s.bullets.keys, s.bullets.m, WoundsOf(boss))];
      var r := AfterBossPass(s);
      && k in s.bullets.m && Wounds(s.bullets.m[k], boss)
      && r.Valid()
      && r.bullets.m == s.bullets.m - {k} && r.changes.bullets == s.changes.bullets[k := Removed]
      && |r.bullets.m| == |s.bullets.m| - 1
      && (r.boss.Some? <==> boss.health > 10)
      && (r.boss.Some? ==>
            && r.boss.value == boss.(health := boss.health - 10) && r.changes.boss == Some(Copy(r.boss.value))
            && r.players == s.players && r.changes.players == s.changes.players)
      && r.enemies == s.enemies && r.beams == s.beams && r.powerups == s.powerups
  {
    var boss := s.boss.value;
    var k := s.bullets.keys[FirstWhere(s.bullets.keys, s.bullets.m, WoundsOf(boss))];
    var s1 := s.WithBullets(s.BulletsBook().Drop(k));
    assert s1.Valid();
    if boss.health > 10 {
      assert AfterBossPass(s) == s1.(boss := Some(boss.(health := boss.health - 10)), changes := s1.changes.(boss := Some(Copy(boss.(health := boss.health - 10)))));
    } else {
      BossSlain(s);
    }
  }

  /** A boss brought to 0 health or below is gone and its entry is the tombstone; every
      player, dead or alive, scores 1000 and its entry is a copy of the raised record. */
  lemma BossSlain(s: RoomState)
    requires s.Valid() && s.boss.Some? && s.boss.value.health <= 10
    requires FirstWhere(s.bullets.keys, s.bullets.m, WoundsOf(s.boss.value)) < |s.bullets.keys|
    ensures var r := AfterBossPass(s);
      && r.Valid() && r.boss.None? && r.changes.boss == Some(Removed)
      && r.players.keys == s.players.keys && r.players.m.Keys == s.players.m.Keys
      && (forall p :: p in s.players.m ==> r.players.m[p] == s.players.m[p].(score := s.players.m[p].score + 1000))
      && (forall p :: p in s.players.m ==> p in r.changes.players && r.changes.players[p] == Copy(r.players.m[p]))
      && (forall p :: p in s.changes.players && p !in s.players.m ==> p in r.changes.players && r.changes.players[p] == s.changes.players[p])
  {
    var boss := s.boss.value;
    var k := s.bullets.keys[FirstWhere(s.bullets.keys, s.bullets.m, WoundsOf(boss))];
    var s1 := s.WithBullets(s.BulletsBook().Drop(k));
    var b := Bonus(s1.PlayersBook(), s1.players.keys);
    var s2 := s1.(boss := None, changes := s1.changes.(boss := Some(Removed)));
    assert AfterBossPass(s) == s2.WithPlayers(b);
    assert s1.players == s.players && s1.changes.players == s.changes.players;
    BonusClosed(s1.PlayersBook(), s1.players.keys);
  }

  // ---------------------------------------------------------------------------
  // checkBossBulletCollisions

  /** The bullets after the boss bullet pass has visited some: only those that killed
      a player are gone, and the rest are as they were ... */
  ghost predicate ShotBullets(s0: ShotRun, r: ShotRun) {
    && r.bullets.t.Valid()
    && (forall b :: b in r.bullets.t.m <==> b in s0.bullets.t.m && b !in r.kills)
    && (forall b :: b in r.bullets.t.m ==> r.bullets.t.m[b] == s0.bullets.t.m[b])
  }

  /** ... every bullet that killed is tombstoned ... */
  ghost predicate ShotTombs(s0: ShotRun, r: ShotRun) {
    && Tracks(r.bullets.log, r.bullets.t)
    && (forall b :: b in r.bullets.log <==> b in s0.bullets.log || b in r.kills)
    && (forall b :: b in r.kills ==> r.bullets.log[b] == Removed)
    && (forall b :: b in s0.bullets.log && b !in r.kills ==> r.bullets.log[b] == s0.bullets.log[b])
  }

  /** ... exactly the players shot are dead, with nothing else about them changed ... */
  ghost predicate ShotPlayers(s0: ShotRun, r: ShotRun) {
    && r.players.t.Valid()
    && r.players.t.keys == s0.players.t.keys && r.players.t.m.Keys == s0.players.t.m.Keys
    && (forall p :: p in s0.players.t.m ==>
          r.players.t.m[p] == if p in r.killedBy then s0.players.t.m[p].(isDead := true) else s0.players.t.m[p])
  }

  /** ... and have their entries written live. */
  ghost predicate ShotLog(s0: ShotRun, r: ShotRun) {
    && Tracks(r.players.log, r.players.t)
    && (forall p :: p in r.players.log <==> p in s0.players.log || p in r.killedBy)
    && (forall p :: p in r.killedBy ==> r.players.log[p] == Live)
    && (forall p :: p in s0.players.log && p !in r.killedBy ==> r.players.log[p] == s0.players.log[p])
  }

  /** Each kill paired a visited boss bullet with a player it shot at the start of the
      pass, and `kills` and `killedBy` are inverse to each other. */
  ghost predicate ShotPairs(s0: ShotRun, seen: seq<BulletId>, r: ShotRun) {
    && (forall b :: b in r.kills ==>
          && b in seen && b in s0.bullets.t.m && s0.bullets.t.m[b].isBossBullet && r.kills[b] in s0.players.t.m
          && Shoots(s0.bullets.t.m[b], s0.players.t.m[r.kills[b]])
          && r.kills[b] in r.killedBy && r.killedBy[r.kills[b]] == b)
    && (forall p :: p in r.killedBy ==> r.killedBy[p] in r.kills && r.kills[r.killedBy[p]] == p)
  }

  /** A visited boss bullet that killed nobody shoots none of the players as they are. */
  ghost predicate ShotMissed(s0: ShotRun, seen: seq<BulletId>, r: ShotRun) {
    forall b, p :: b in seen && b in s0.bullets.t.m && s0.bullets.t.m[b].isBossBullet && b !in r.kills && p in r.players.t.m ==>
      !Shoots(s0.bullets.t.m[b], r.players.t.m[p])
  }

  ghost predicate ShotTrace(s0: ShotRun, seen: seq<BulletId>, r: ShotRun) {
    && ShotBullets(s0, r) && ShotTombs(s0, r) && ShotPlayers(s0, r) && ShotLog(s0, r)
    && ShotPairs(s0, seen, r) && ShotMissed(s0, seen, r)
  }

  lemma {:induction false} ShotStepsTrace(s0: ShotRun, ks: seq<BulletId>)
    requires s0.kills == map[] && s0.killedBy == map[] && Distinct(ks)
    requires s0.players.Valid() && s0.bullets.Valid()
    ensures ShotTrace(s0, ks, ShotSteps(s0, ks))
  {
    if ks != [] {
      var pre := ks[..|ks| - 1];
      SplitLast(ks);
      ShotStepsTrace(s0, pre);
      ShotStepTrace(s0, pre, ShotSteps(s0, pre), ks[|ks| - 1]);
    }
  }

  lemma ShotStepTrace(s0: ShotRun, seen: seq<BulletId>, r: ShotRun, id: BulletId)
    requires ShotTrace(s0, seen, r) && id !in seen
    ensures ShotTrace(s0, seen + [id], ShotStep(r, id))
  {
    if id in r.bullets.t.m && r.bullets.t.m[id].isBossBullet
       && FirstWhere(r.players.t.keys, r.players.t.m, ShootsOf(r.bullets.t.m[id])) < |r.players.t.keys| {
      KillTrace(s0, seen, r, id);
    } else {
      DodgeTrace(s0, seen, r, id);
    }
  }

  /** A player bullet, or a boss bullet that shoots nobody, changes nothing. */
  lemma DodgeTrace(s0: ShotRun, seen: seq<BulletId>, r: ShotRun, id: BulletId)
    requires ShotTrace(s0, seen, r) && id !in seen
    requires id in r.bullets.t.m && r.bullets.t.m[id].isBossBullet ==>
      FirstWhere(r.players.t.keys, r.players.t.m, ShootsOf(r.bullets.t.m[id])) == |r.players.t.keys|
    ensures ShotTrace(s0, seen + [id], ShotStep(r, id))
  {
    if id in r.bullets.t.m && r.bullets.t.m[id].isBossBullet {
      NoneWhere(r.players.t.keys, r.players.t.m, ShootsOf(r.bullets.t.m[id]));
    }
    assert ShotStep(r, id) == r;
    assert forall b :: b in seen + [id] <==> b in seen || b == id;
  }

  /** A boss bullet that kills the first player it shoots. */
  lemma KillTrace(s0: ShotRun, seen: seq<BulletId>, r: ShotRun, id: BulletId)
    requires ShotTrace(s0, seen, r) && id !in seen && id in r.bullets.t.m && r.bullets.t.m[id].isBossBullet
    requires FirstWhere(r.players.t.keys, r.players.t.m, ShootsOf(r.bullets.t.m[id])) < |r.players.t.keys|
    ensures ShotTrace(s0, seen + [id], ShotStep(r, id))
  {
    var v := r.players.t.keys[FirstWhere(r.players.t.keys, r.players.t.m, ShootsOf(r.bullets.t.m[id]))];
    var r2 := ShotStep(r, id);
    assert v in r.players.t.m && Shoots(r.bullets.t.m[id], r.players.t.m[v]);
    assert id !in r.kills && v !in r.killedBy;
    assert s0.bullets.t.m[id] == r.bullets.t.m[id] && s0.players.t.m[v] == r.players.t.m[v];
    assert r2 == ShotRun(Slay(r.players, v), r.bullets.Drop(id), r.kills[id := v], r.killedBy[v := id]);
    KillBullets(s0, r, id, v, r2);
    KillPlayers(s0, r, id, v, r2);
    KillPairs(s0, seen, r, id, v, r2);
    KillMissed(s0, seen, r, id, v, r2);
  }

  lemma KillBullets(s0: ShotRun, r: ShotRun, id: BulletId, v: string, r2: ShotRun)
    requires ShotBullets(s0, r) && ShotTombs(s0, r) && id in r.bullets.t.m
    requires r2.kills == r.kills[id := v] && r2.bullets == r.bullets.Drop(id)
    ensures ShotBullets(s0, r2) && ShotTombs(s0, r2)
  {
    KillBulletsTable(s0, r, id, v, r2);
    KillBulletsTombs(s0, r, id, v, r2);
  }

  lemma KillBulletsTable(s0: ShotRun, r: ShotRun, id: BulletId, v: string, r2: ShotRun)
    requires ShotBullets(s0, r) && id in r.bullets.t.m
    requires r2.kills == r.kills[id := v] && r2.bullets == r.bullets.Drop(id)
    ensures ShotBullets(s0, r2)
  {
  }

  lemma KillBulletsTombs(s0: ShotRun, r: ShotRun, id: BulletId, v: string, r2: ShotRun)
    requires ShotBullets(s0, r) && ShotTombs(s0, r) && id in r.bullets.t.m
    requires r2.kills == r.kills[id := v] && r2.bullets == r.bullets.Drop(id)
    ensures ShotTombs(s0, r2)
  {
  }

  lemma KillPlayers(s0: ShotRun, r: ShotRun, id: BulletId, v: string, r2: ShotRun)
    requires ShotPlayers(s0, r) && ShotLog(s0, r) && v in r.players.t.m && v !in r.killedBy
    requires r2.killedBy == r.killedBy[v := id] && r2.players == Slay(r.players, v)
    ensures ShotPlayers(s0, r2) && ShotLog(s0, r2)
  {
  }

  lemma KillPairs(s0: ShotRun, seen: seq<BulletId>, r: ShotRun, id: BulletId, v: string, r2: ShotRun)
    requires ShotPairs(s0, seen, r) && id !in seen && id !in r.kills && v !in r.killedBy
    requires id in s0.bullets.t.m && s0.bullets.t.m[id].isBossBullet && v in s0.players.t.m
    requires Shoots(s0.bullets.t.m[id], s0.players.t.m[v])
    requires r2.kills == r.kills[id := v] && r2.killedBy == r.killedBy[v := id]
    ensures ShotPairs(s0, seen + [id], r2)
  {
    assert forall b :: b in seen ==> b in seen + [id];
  }

  lemma KillMissed(s0: ShotRun, seen: seq<BulletId>, r: ShotRun, id: BulletId, v: string, r2: ShotRun)
    requires ShotMissed(s0, seen, r) && v in r.players.t.m
    requires r2.kills == r.kills[id := v] && r2.players == Slay(r.players, v)
    ensures ShotMissed(s0, seen + [id], r2)
  {
    assert forall b :: b in seen + [id] && b != id ==> b in seen;
  }

  /** checkBossBulletCollisions gives each boss bullet at most one victim and each
      player at most one killer: `kills` and `killedBy` are inverse to each other. A
      killer is a boss bullet that shot its victim, alive and unshielded, as both were
      at the start of the pass; player bullets are skipped. Exactly the killers are
      deleted and tombstoned, and no boss bullet left shoots any player. */
  lemma BossShotsPaired(s: RoomState)
    requires s.Valid()
    ensures var run := ShotPass(s); var r := AfterCheckBossBulletCollisions(s);
      && (forall b :: b in run.kills ==>
            && b in s.bullets.m && s.bullets.m[b].isBossBullet && run.kills[b] in s.players.m
            && Shoots(s.bullets.m[b], s.players.m[run.kills[b]])
            && run.kills[b] in run.killedBy && run.killedBy[run.kills[b]] == b)
      && (forall p :: p in run.killedBy ==> run.killedBy[p] in run.kills && run.kills[run.killedBy[p]] == p)
      && (forall b :: b in r.bullets.m <==> b in s.bullets.m && b !in run.kills)
      && (forall b :: b in r.bullets.m ==> r.bullets.m[b] == s.bullets.m[b])
      && (forall b :: b in run.kills ==> b in r.changes.bullets && r.changes.bullets[b] == Removed)
      && (forall b :: b in s.changes.bullets && b !in run.kills ==> b in r.changes.bullets && r.changes.bullets[b] == s.changes.bullets[b])
      && (forall b, p :: b in r.bullets.m && r.bullets.m[b].isBossBullet && p in r.players.m ==> !Shoots(r.bullets.m[b], r.players.m[p]))
  {
    var s0 := ShotRun(s.PlayersBook(), s.BulletsBook(), map[], map[]);
    ShotStepsTrace(s0, s.bullets.keys);
  }

  /** ... exactly the players shot are dead, with nothing else about them changed, and
      their entries are written live; the room stays well formed. */
  lemma BossShotsKill(s: RoomState)
    requires s.Valid()
    ensures var run := ShotPass(s); var r := AfterCheckBossBulletCollisions(s);
      && r.Valid()
      && r.players.keys == s.players.keys && r.players.m.Keys == s.players.m.Keys
      && (forall p :: p in s.players.m ==>
            r.players.m[p] == if p in run.killedBy then s.players.m[p].(isDead := true) else s.players.m[p])
      && (forall p :: p in run.killedBy ==> p in r.changes.players && r.changes.players[p] == Live)
      && (forall p :: p in s.changes.players && p !in run.killedBy ==> p in r.changes.players && r.changes.players[p] == s.changes.players[p])
  {
    var s0 := ShotRun(s.PlayersBook(), s.BulletsBook(), map[], map[]);
    ShotStepsTrace(s0, s.bullets.keys);
  }

  // ---------------------------------------------------------------------------
  // checkPlayerBossCollision

  /** With a boss, exactly the exposed players it rams die and have their entries
      written live; the shielded and the dead are untouched, and so is the boss.
      Without a boss nothing changes. */
  lemma BossRams(s: RoomState)
    requires s.Valid()
    ensures var r := AfterCheckPlayerBossCollision(s);
      && r.Valid() && r.boss == s.boss
      && (s.boss.None? ==> r == s)
      && r.players.keys == s.players.keys && r.players.m.Keys == s.players.m.Keys
      && (s.boss.Some? ==>
            && (forall p :: p in s.players.m ==>
                  r.players.m[p]
                    == if Exposed(s.players.m[p]) && Rams(s.players.m[p], s.boss.value) then s.players.m[p].(isDead := true)
                       else s.players.m[p])
            && (forall p :: p in s.players.m && Exposed(s.players.m[p]) && Rams(s.players.m[p], s.boss.value) ==>
                  p in r.changes.players && r.changes.players[p] == Live)
            && (forall p :: p in s.changes.players && !(p in s.players.m && Exposed(s.players.m[p]) && Rams(s.players.m[p], s.boss.value)) ==>
                  p in r.changes.players && r.changes.players[p] == s.changes.players[p]))
  {
    if s.boss.Some? {
      var b := s.PlayersBook();
      SlayAllRecords(b, s.players.keys, RamsOf(s.boss.value));
      SlayAllLog(b, s.players.keys, RamsOf(s.boss.value));
      SlayAllValid(b, s.players.keys, RamsOf(s.boss.value));
    }
  }

  // ---------------------------------------------------------------------------
  // checkPlayerEnemyCollisions

  /** Player `p` bumped an enemy without a shield, and so died. */
  ghost predicate Crushed(s0: BumpRun, r: BumpRun, p: string) {
    p in r.bumps && p in s0.players.t.m && !s0.players.t.m[p].shield
  }

  /** The enemies after the pass has visited some players: only the bumped ones are
      gone, and the rest are as they were ... */
  ghost predicate BumpEnemies(s0: BumpRun, r: BumpRun) {
    && r.enemies.t.Valid()
    && (forall e :: e in r.enemies.t.m <==> e in s0.enemies.t.m && e !in r.bumpedBy)
    && (forall e :: e in r.enemies.t.m ==> r.enemies.t.m[e] == s0.enemies.t.m[e])
  }

  /** ... and every bumped enemy is tombstoned. */
  ghost predicate BumpTombs(s0: BumpRun, r: BumpRun) {
    && Tracks(r.enemies.log, r.enemies.t)
    && (forall e :: e in r.enemies.log <==> e in s0.enemies.log || e in r.bumpedBy)
    && (forall e :: e in r.bumpedBy ==> r.enemies.log[e] == Removed)
    && (forall e :: e in s0.enemies.log && e !in r.bumpedBy ==> r.enemies.log[e] == s0.enemies.log[e])
  }

  /** Exactly the crushed players are dead, with nothing else about them changed ... */
  ghost predicate BumpPlayers(s0: BumpRun, r: BumpRun) {
    && r.players.t.Valid()
    && r.players.t.keys == s0.players.t.keys && r.players.t.m.Keys == s0.players.t.m.Keys
    && (forall p :: p in s0.players.t.m ==>
          r.players.t.m[p] == if Crushed(s0, r, p) then s0.players.t.m[p].(isDead := true) else s0.players.t.m[p])
  }

  /** ... and exactly they have their entries written live. */
  ghost predicate BumpLog(s0: BumpRun, r: BumpRun) {
    && Tracks(r.players.log, r.players.t)
    && (forall p :: p in r.players.log <==> p in s0.players.log || Crushed(s0, r, p))
    && (forall p :: Crushed(s0, r, p) ==> r.players.log[p] == Live)
    && (forall p :: p in s0.players.log && !Crushed(s0, r, p) ==> r.players.log[p] == s0.players.log[p])
  }

  /** Each bump paired a visited player, alive at the start of the pass, with an enemy
      it overlapped there, and `bumps` and `bumpedBy` are inverse to each other. */
  ghost predicate BumpPairs(s0: BumpRun, seen: seq<string>, r: BumpRun) {
    && (forall p :: p in r.bumps ==>
          && p in seen && p in s0.players.t.m && !s0.players.t.m[p].isDead && r.bumps[p] in s0.enemies.t.m
          && Bumps(s0.players.t.m[p], s0.enemies.t.m[r.bumps[p]])
          && r.bumps[p] in r.bumpedBy && r.bumpedBy[r.bumps[p]] == p)
    && (forall e :: e in r.bumpedBy ==> r.bumpedBy[e] in r.bumps && r.bumps[r.bumpedBy[e]] == e)
  }

  /** A visited live player that bumped nothing overlaps none of the enemies left. */
  ghost predicate BumpMissed(s0: BumpRun, seen: seq<string>, r: BumpRun) {
    forall p, e :: p in seen && p in s0.players.t.m && !s0.players.t.m[p].isDead && p !in r.bumps && e in r.enemies.t.m ==>
      !Bumps(s0.players.t.m[p], r.enemies.t.m[e])
  }

  /** Every player visited was dead at the start of the pass. */
  ghost predicate AllDead(s0: BumpRun, seen: seq<string>) {
    forall p :: p in seen && p in s0.players.t.m ==> s0.players.t.m[p].isDead
  }

  /** The flag stays as it started while every player visited was dead. */
  ghost predicate BumpOver(s0: BumpRun, seen: seq<string>, r: BumpRun) {
    r.gameOver == (s0.gameOver && AllDead(s0, seen))
  }

  ghost predicate BumpTrace(s0: BumpRun, seen: seq<string>, r: BumpRun) {
    && BumpEnemies(s0, r) && BumpTombs(s0, r) && BumpPlayers(s0, r) && BumpLog(s0, r)
    && BumpPairs(s0, seen, r) && BumpMissed(s0, seen, r) && BumpOver(s0, seen, r)
  }

  lemma {:induction false} BumpStepsTrace(s0: BumpRun, ks: seq<string>)
    requires s0.bumps == map[] && s0.bumpedBy == map[] && Distinct(ks)
    requires s0.players.Valid() && s0.enemies.Valid()
    ensures BumpTrace(s0, ks, BumpSteps(s0, ks))
  {
    if ks != [] {
      var pre := ks[..|ks| - 1];
      SplitLast(ks);
      BumpStepsTrace(s0, pre);
      BumpStepTrace(s0, pre, BumpSteps(s0, pre), ks[|ks| - 1]);
    }
  }

  lemma BumpStepTrace(s0: BumpRun, seen: seq<string>, r: BumpRun, id: string)
    requires BumpTrace(s0, seen, r) && id !in seen
    ensures BumpTrace(s0, seen + [id], BumpStep(r, id))
  {
    if id !in r.players.t.m || r.players.t.m[id].isDead {
      BumpSkipTrace(s0, seen, r, id);
    } else if FirstWhere(r.enemies.t.keys, r.enemies.t.m, BumpsOf(r.players.t.m[id])) < |r.enemies.t.keys| {
      BumpHitTrace(s0, seen, r, id);
    } else {
      BumpClearTrace(s0, seen, r, id);
    }
  }

  /** A dead player is skipped. */
  lemma BumpSkipTrace(s0: BumpRun, seen: seq<string>, r: BumpRun, id: string)
    requires BumpTrace(s0, seen, r) && id !in seen
    requires id !in r.players.t.m || r.players.t.m[id].isDead
    ensures BumpTrace(s0, seen + [id], BumpStep(r, id))
  {
    assert BumpStep(r, id) == r;
    assert id !in r.bumps;
    assert forall p :: p in seen + [id] <==> p in seen || p == id;
  }

  /** A live player that overlaps no enemy only clears the flag. */
  lemma BumpClearTrace(s0: BumpRun, seen: seq<string>, r: BumpRun, id: string)
    requires BumpTrace(s0, seen, r) && id !in seen && id in r.players.t.m && !r.players.t.m[id].isDead
    requires FirstWhere(r.enemies.t.keys, r.enemies.t.m, BumpsOf(r.players.t.m[id])) == |r.enemies.t.keys|
    ensures BumpTrace(s0, seen + [id], BumpStep(r, id))
  {
    NoneWhere(r.enemies.t.keys, r.enemies.t.m, BumpsOf(r.players.t.m[id]));
    var r2 := BumpStep(r, id);
    assert r2 == r.(gameOver := false);
    assert id !in r.bumps;
    BumpKeep(s0, seen, r, id, r2);
    ClearMissed(s0, seen, r, id, r2);
    BumpHitOver(s0, seen, r, id, r2);
  }

  lemma BumpKeep(s0: BumpRun, seen: seq<string>, r: BumpRun, id: string, r2: BumpRun)
    requires BumpEnemies(s0, r) && BumpTombs(s0, r) && BumpPlayers(s0, r) && BumpLog(s0, r) && BumpPairs(s0, seen, r)
    requires r2.players == r.players && r2.enemies == r.enemies && r2.bumps == r.bumps && r2.bumpedBy == r.bumpedBy
    ensures BumpEnemies(s0, r2) && BumpTombs(s0, r2) && BumpPlayers(s0, r2) && BumpLog(s0, r2)
    ensures BumpPairs(s0, seen + [id], r2)
  {
    assert forall p :: Crushed(s0, r2, p) <==> Crushed(s0, r, p);
    assert forall p :: p in seen ==> p in seen + [id];
  }

  lemma ClearMissed(s0: BumpRun, seen: seq<string>, r: BumpRun, id: string, r2: BumpRun)
    requires BumpMissed(s0, seen, r) && id in s0.players.t.m && id in r.players.t.m
    requires s0.players.t.m[id] == r.players.t.m[id]
    requires forall e :: e in r.enemies.t.m ==> !Bumps(r.players.t.m[id], r.enemies.t.m[e])
    requires r2.bumps == r.bumps && r2.enemies == r.enemies
    ensures BumpMissed(s0, seen + [id], r2)
  {
    assert forall p :: p in seen + [id] <==> p in seen || p == id;
  }

  /** A live player that bumps the first enemy it overlaps. */
  lemma BumpHitTrace(s0: BumpRun, seen: seq<string>, r: BumpRun, id: string)
    requires BumpTrace(s0, seen, r) && id !in seen && id in r.players.t.m && !r.players.t.m[id].isDead
    requires FirstWhere(r.enemies.t.keys, r.enemies.t.m, BumpsOf(r.players.t.m[id])) < |r.enemies.t.keys|
    ensures BumpTrace(s0, seen + [id], BumpStep(r, id))
  {
    var p := r.players.t.m[id];
    var e := r.enemies.t.keys[FirstWhere(r.enemies.t.keys, r.enemies.t.m, BumpsOf(p))];
    var r2 := BumpStep(r, id);
    assert e in r.enemies.t.m && Bumps(p, r.enemies.t.m[e]);
    assert id !in r.bumps && e !in r.bumpedBy;
    assert s0.players.t.m[id] == p && s0.enemies.t.m[e] == r.enemies.t.m[e];
    assert r2 == BumpRun(if p.shield then r.players else Slay(r.players, id), r.enemies.Drop(e), false,
                         r.bumps[id := e], r.bumpedBy[e := id]);
    BumpHitEnemies(s0, r, id, e, r2);
    if p.shield {
      BumpShielded(s0, r, id, e, r2);
    } else {
      BumpCrushed(s0, r, id, e, r2);
    }
    BumpHitPairs(s0, seen, r, id, e, r2);
    BumpHitMissed(s0, seen, r, id, e, r2);
    BumpHitOver(s0, seen, r, id, r2);
  }

  lemma BumpHitEnemies(s0: BumpRun, r: BumpRun, id: string, e: EnemyId, r2: BumpRun)
    requires BumpEnemies(s0, r) && BumpTombs(s0, r) && e in r.enemies.t.m
    requires r2.bumpedBy == r.bumpedBy[e := id] && r2.enemies == r.enemies.Drop(e)
    ensures BumpEnemies(s0, r2) && BumpTombs(s0, r2)
  {
    BumpHitTable(s0, r, id, e, r2);
    BumpHitTombs(s0, r, id, e, r2);
  }

  lemma BumpHitTable(s0: BumpRun, r: BumpRun, id: string, e: EnemyId, r2: BumpRun)
    requires BumpEnemies(s0, r) && e in r.enemies.t.m
    requires r2.bumpedBy == r.bumpedBy[e := id] && r2.enemies == r.enemies.Drop(e)
    ensures BumpEnemies(s0, r2)
  {
  }

  lemma BumpHitTombs(s0: BumpRun, r: BumpRun, id: string, e: EnemyId, r2: BumpRun)
    requires BumpEnemies(s0, r) && BumpTombs(s0, r) && e in r.enemies.t.m
    requires r2.bumpedBy == r.bumpedBy[e := id] && r2.enemies == r.enemies.Drop(e)
    ensures BumpTombs(s0, r2)
  {
  }

  lemma BumpShielded(s0: BumpRun, r: BumpRun, id: string, e: EnemyId, r2: BumpRun)
    requires BumpPlayers(s0, r) && BumpLog(s0, r) && id in s0.players.t.m && s0.players.t.m[id].shield
    requires r2.bumps == r.bumps[id := e] && r2.players == r.players
    ensures BumpPlayers(s0, r2) && BumpLog(s0, r2)
  {
    assert forall p :: Crushed(s0, r2, p) <==> Crushed(s0, r, p);
  }

  lemma BumpCrushed(s0: BumpRun, r: BumpRun, id: string, e: EnemyId, r2: BumpRun)
    requires BumpPlayers(s0, r) && BumpLog(s0, r) && id in s0.players.t.m && !s0.players.t.m[id].shield
    requires id !in r.bumps && r.players.t.m[id] == s0.players.t.m[id]
    requires r2.bumps == r.bumps[id := e] && r2.players == Slay(r.players, id)
    ensures BumpPlayers(s0, r2) && BumpLog(s0, r2)
  {
    assert forall p :: Crushed(s0, r2, p) <==> Crushed(s0, r, p) || p == id;
    CrushedPlayers(s0, r, id, r2);
    CrushedLog(s0, r, id, r2);
  }

  lemma CrushedPlayers(s0: BumpRun, r: BumpRun, id: string, r2: BumpRun)
    requires BumpPlayers(s0, r) && id in s0.players.t.m && r.players.t.m[id] == s0.players.t.m[id]
    requires forall p :: Crushed(s0, r2, p) <==> Crushed(s0, r, p) || p == id
    requires r2.players == Slay(r.players, id)
    ensures BumpPlayers(s0, r2)
  {
  }

  lemma CrushedLog(s0: BumpRun, r: BumpRun, id: string, r2: BumpRun)
    requires BumpPlayers(s0, r) && BumpLog(s0, r) && id in s0.players.t.m
    requires forall p :: Crushed(s0, r2, p) <==> Crushed(s0, r, p) || p == id
    requires r2.players == Slay(r.players, id)
    ensures BumpLog(s0, r2)
  {
  }

  lemma BumpHitPairs(s0: BumpRun, seen: seq<string>, r: BumpRun, id: string, e: EnemyId, r2: BumpRun)
    requires BumpPairs(s0, seen, r) && id !in seen && id !in r.bumps && e !in r.bumpedBy
    requires id in s0.players.t.m && !s0.players.t.m[id].isDead && e in s0.enemies.t.m
    requires Bumps(s0.players.t.m[id], s0.enemies.t.m[e])
    requires r2.bumps == r.bumps[id := e] && r2.bumpedBy == r.bumpedBy[e := id]
    ensures BumpPairs(s0, seen + [id], r2)
  {
    assert forall p :: p in seen ==> p in seen + [id];
  }

  lemma BumpHitMissed(s0: BumpRun, seen: seq<string>, r: BumpRun, id: string, e: EnemyId, r2: BumpRun)
    requires BumpMissed(s0, seen, r)
    requires r2.bumps == r.bumps[id := e] && r2.enemies.t.m == r.enemies.t.m - {e}
    ensures BumpMissed(s0, seen + [id], r2)
  {
    assert forall p :: p in seen + [id] && p != id ==> p in seen;
  }

  lemma BumpHitOver(s0: BumpRun, seen: seq<string>, r: BumpRun, id: string, r2: BumpRun)
    requires id in s0.players.t.m && !s0.players.t.m[id].isDead && !r2.gameOver
    ensures BumpOver(s0, seen + [id], r2)
  {
    assert id in seen + [id];
  }

  /** checkBeamCollisions kills exactly the exposed players that some live beam
      scorches, each judged as it was at the start of the pass, and writes their
      entries live; the shielded and the dead are untouched. The room stays well
      formed. */
  lemma BeamsScorch(s: RoomState, now: int)
    requires s.Valid()
    ensures var r := AfterCheckBeamCollisions(s, now);
      && r.Valid()
      && r.players.keys == s.players.keys && r.players.m.Keys == s.players.m.Keys
      && (forall p :: p in s.players.m ==>
            r.players.m[p]
              == if Exposed(s.players.m[p]) && exists k :: k in s.beams.m && !Expired(s.beams.m[k], now) && Scorches(s.beams.m[k], s.players.m[p])
                 then s.players.m[p].(isDead := true) else s.players.m[p])
      && (forall p :: p in s.players.m && r.players.m[p] != s.players.m[p] ==> p in r.changes.players && r.changes.players[p] == Live)
      && (forall p :: p in s.changes.players && p in s.players.m && r.players.m[p] == s.players.m[p] ==>
            p in r.changes.players && r.changes.players[p] == s.changes.players[p])
  {
    var s0 := BeamRun(s.PlayersBook(), s.BeamsBook());
    BeamStepsClosed(s0, s.beams.keys, now);
    forall p | p in s.players.m
      ensures Burns(s.players.m[p], s.beams.keys, s.beams.m, now)
          <==> exists k :: k in s.beams.m && !Expired(s.beams.m[k], now) && Scorches(s.beams.m[k], s.players.m[p])
    {
      BurnsSome(s.players.m[p], s.beams.keys, s.beams.m, now);
    }
  }

  /** ... and deletes and tombstones exactly the expired beams, leaving the rest. */
  lemma BeamsExpire(s: RoomState, now: int)
    requires s.Valid()
    ensures var r := AfterCheckBeamCollisions(s, now);
      && (forall k :: k in r.beams.m <==> k in s.beams.m && !Expired(s.beams.m[k], now))
      && (forall k :: k in r.beams.m ==> r.beams.m[k] == s.beams.m[k])
      && (forall k :: k in s.beams.m && Expired(s.beams.m[k], now) ==> k in r.changes.beams && r.changes.beams[k] == Removed)
      && (forall k :: k in s.changes.beams && !(k in s.beams.m && Expired(s.beams.m[k], now)) ==>
            k in r.changes.beams && r.changes.beams[k] == s.changes.beams[k])
  {
    var s0 := BeamRun(s.PlayersBook(), s.BeamsBook());
    BeamStepsClosed(s0, s.beams.keys, now);
  }

  /** checkPlayerEnemyCollisions gives each live player at most one enemy and each
      enemy to at most one player: `bumps` and `bumpedBy` are inverse to each other. A
      player that bumped an enemy overlapped it, and was alive, at the start of the
      pass. Exactly the bumped enemies are deleted and tombstoned, and no live player
      that bumped nothing overlaps an enemy left. The result is true exactly when
      every player was dead, so an empty room is over. */
  lemma EnemiesTrample(s: RoomState)
    requires s.Valid()
    ensures var run := BumpPass(s); var r := AfterCheckPlayerEnemyCollisions(s).0;
      && (AfterCheckPlayerEnemyCollisions(s).1 <==> forall p :: p in s.players.m ==> s.players.m[p].isDead)
      && (forall p :: p in run.bumps ==>
            && p in s.players.m && !s.players.m[p].isDead && run.bumps[p] in s.enemies.m
            && Bumps(s.players.m[p], s.enemies.m[run.bumps[p]])
            && run.bumps[p] in run.bumpedBy && run.bumpedBy[run.bumps[p]] == p)
      && (forall e :: e in run.bumpedBy ==> run.bumpedBy[e] in run.bumps && run.bumps[run.bumpedBy[e]] == e)
      && (forall e :: e in r.enemies.m <==> e in s.enemies.m && e !in run.bumpedBy)
      && (forall e :: e in r.enemies.m ==> r.enemies.m[e] == s.enemies.m[e])
      && (forall e :: e in run.bumpedBy ==> e in r.changes.enemies && r.changes.enemies[e] == Removed)
      && (forall e :: e in s.changes.enemies && e !in run.bumpedBy ==> e in r.changes.enemies && r.changes.enemies[e] == s.changes.enemies[e])
      && (forall p, e :: p in s.players.m && !s.players.m[p].isDead && p !in run.bumps && e in r.enemies.m ==>
            !Bumps(s.players.m[p], r.enemies.m[e]))
  {
    var s0 := BumpRun(s.PlayersBook(), s.EnemiesBook(), true, map[], map[]);
    BumpStepsTrace(s0, s.players.keys);
  }

  /** ... an unshielded player that bumped an enemy dies and has its entry written
      live; a shielded one survives the bump, and every other player is untouched. The
      room stays well formed. */
  lemma EnemiesCrush(s: RoomState)
    requires s.Valid()
    ensures var run := BumpPass(s); var r := AfterCheckPlayerEnemyCollisions(s).0;
      && r.Valid()
      && r.players.keys == s.players.keys && r.players.m.Keys == s.players.m.Keys
      && (forall p :: p in s.players.m ==>
            r.players.m[p] == if p in run.bumps && !s.players.m[p].shield then s.players.m[p].(isDead := true) else s.players.m[p])
      && (forall p :: p in s.players.m && p in run.bumps && !s.players.m[p].shield ==> p in r.changes.players && r.changes.players[p] == Live)
      && (forall p :: p in s.changes.players && !(p in s.players.m && p in run.bumps && !s.players.m[p].shield) ==>
            p in r.changes.players && r.changes.players[p] == s.changes.players[p])
  {
    var s0 := BumpRun(s.PlayersBook(), s.EnemiesBook(), true, map[], map[]);
    BumpStepsTrace(s0, s.players.keys);
  }

  // ---------------------------------------------------------------------------
  // checkCollisions

  /** What every collision pass keeps: the room stays well formed, no player joins or
      leaves, none comes back to life, no score falls and nobody moves. */
  ghost predicate Follows(s: RoomState, r: RoomState) {
    && r.Valid()
    && r.players.m.Keys == s.players.m.Keys
    && forall p :: p in s.players.m ==>
         && (s.players.m[p].isDead ==> r.players.m[p].isDead)
         && r.players.m[p].score >= s.players.m[p].score
         && r.players.m[p].At() == s.players.m[p].At()
  }

  lemma FollowsTrans(a: RoomState, b: RoomState, c: RoomState)
    requires Follows(a, b) && Follows(b, c)
    ensures Follows(a, c)
  {
  }

  lemma BulletPassFollows(s: RoomState)
    requires s.Valid()
    ensures Follows(s, AfterCheckBulletCollisions(s))
  {
    EnemyPassValid(s);
    EnemyPassScores(s);
    var s1 := AfterStrikePass(s);
    assert Follows(s, s1);
    var boss := s1.boss;
    if boss.Some? && FirstWhere(s1.bullets.keys, s1.bullets.m, WoundsOf(boss.value)) < |s1.bullets.keys| {
      BossWounded(s1);
      if boss.value.health <= 10 {
        BossSlain(s1);
      }
    } else {
      if boss.Some? {
        NoneWhere(s1.bullets.keys, s1.bullets.m, WoundsOf(boss.value));
      }
      BossUntouched(s1);
    }
    FollowsTrans(s, s1, AfterBossPass(s1));
  }

  lemma BeamPassFollows(s: RoomState, now: int)
    requires s.Valid()
    ensures Follows(s, AfterCheckBeamCollisions(s, now))
  {
    BeamsScorch(s, now);
  }

  lemma BossBulletPassFollows(s: RoomState)
    requires s.Valid()
    ensures Follows(s, AfterCheckBossBulletCollisions(s))
  {
    BossShotsKill(s);
  }

  lemma RamPassFollows(s: RoomState)
    requires s.Valid()
    ensures Follows(s, AfterCheckPlayerBossCollision(s))
  {
    BossRams(s);
  }

  lemma BumpPassFollows(s: RoomState)
    requires s.Valid()
    ensures Follows(s, AfterCheckPlayerEnemyCollisions(s).0)
  {
    EnemiesCrush(s);
  }

  lemma PickupPassFollows(s: RoomState, now: int)
    requires s.Valid()
    ensures Follows(s, PowerUps.AfterCheckPlayerPowerUpCollisions(s, now))
  {
    PowerUps.PickupsKeepPlayers(s, now);
    PowerUps.PickupsValid(s, now);
  }

  /** The state checkCollisions hands to the player against enemy pass. */
  function BeforeBumps(s: RoomState, now: int): RoomState {
    AfterCheckPlayerBossCollision(AfterCheckBossBulletCollisions(AfterCheckBeamCollisions(AfterCheckBulletCollisions(s), now)))
  }

  lemma BeforeBumpsFollows(s: RoomState, now: int)
    requires s.Valid()
    ensures Follows(s, BeforeBumps(s, now))
  {
    var s1 := AfterCheckBulletCollisions(s);
    var s2 := AfterCheckBeamCollisions(s1, now);
    var s3 := AfterCheckBossBulletCollisions(s2);
    BulletPassFollows(s);
    BeamPassFollows(s1, now);
    BossBulletPassFollows(s2);
    RamPassFollows(s3);
    FollowsTrans(s, s1, s2);
    FollowsTrans(s, s2, s3);
    FollowsTrans(s, s3, BeforeBumps(s, now));
  }

  /** checkCollisions keeps everything `Follows` names. It reports the game over
      exactly when every player was dead once the boss had done its damage, and then
      skips the power-up pickup and leaves every player dead; a room whose players
      were all dead to begin with, an empty one included, is over. */
  lemma CollisionsSettle(s: RoomState, now: int)
    requires s.Valid()
    ensures var (r, over) := AfterCheckCollisions(s, now); var s4 := BeforeBumps(s, now);
      && Follows(s, r)
      && (over <==> forall p :: p in s4.players.m ==> s4.players.m[p].isDead)
      && (over ==> r == AfterCheckPlayerEnemyCollisions(s4).0 && forall p :: p in r.players.m ==> r.players.m[p].isDead)
      && ((forall p :: p in s.players.m ==> s.players.m[p].isDead) ==> over)
  {
    var s4 := BeforeBumps(s, now);
    BeforeBumpsFollows(s, now);
    EnemiesTrample(s4);
    BumpPassFollows(s4);
    var s5 := AfterCheckPlayerEnemyCollisions(s4).0;
    FollowsTrans(s, s4, s5);
    if !AfterCheckPlayerEnemyCollisions(s4).1 {
      PickupPassFollows(s5, now);
      FollowsTrans(s, s5, PowerUps.AfterCheckPlayerPowerUpCollisions(s5, now));
    }
  }
}
