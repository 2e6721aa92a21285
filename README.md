# Arena shooter backend: a Dafny model of the room simulation and the session registry

This project models the server side of a browser multiplayer arena shooter. Under
`backend/game/` the server keeps, per room, JavaScript objects used as dictionaries:
players, bullets, enemies, beams, power-ups and a boss. Each tick updates those
dictionaries in place. Every update also writes the affected id into a change tracker
`changes`, either as the live record or as a `null` tombstone, and the broadcaster
drains that tracker. A module-level `sessions` dictionary pairs sockets into rooms of
at most two players.

How the model is built:

- **Dictionaries.** A JS dictionary is `Tables.Table`: its keys in enumeration order,
  plus a map. Enumeration order is taken to be insertion order, which is the order
  JavaScript uses for keys that are not array indices (see "## Left out"). A `for…in` loop walks a snapshot of the keys and skips keys deleted
  during the walk, as JavaScript does.
- **Change tracker.** A dictionary's change entries are the `Change` values of a
  `Tables.Book`:
  - `Live`: the entry aliases the stored record;
  - `Copy(v)`: an `{...x}` snapshot;
  - `Removed`: `null`.
- **Room objects.** A room object is a `class` (`Room.Room` for the split modules,
  `GameState.GameState` for the older monolithic copy). Its `Data()` is the value of
  its fields.
- **Methods and specification functions.**
  - Every exported function is a method on that object. Its `ensures` equates the new
    `Data()` with a specification function of the old one.
  - Every `for…in` loop is a `while` loop whose invariant equates the state with that
    function folded over the keys visited so far.
  - The properties the code promises are lemmas about those functions.
- **Inputs from outside.**
  - `Date.now()` is a parameter `now`, read once per call.
  - `Math.random()` draws are parameters in [0, 1).
  - The sine in updateBossPosition is a parameter `sway`.
  - Sockets and loop-stop functions are opaque tokens.
- **Constants.**
  - gameState.js declares its own constants (W=1000, H=500, player size 20, player
    speed 3, bullet size 5, bullet speed 5), and module `GameState` uses them.
  - The split modules import theirs from `./constants`, which is not part of this
    model. Module `Constants` declares them as positive symbolic values.
  - Arena bounds for those modules are proved under `Constants.Fits()`, which says
    that every entity fits inside the arena.
- **Two copies of the logic.**
  - gameState.js is an older copy of logic that players.js, bullets.js, enemies.js
    and collisions.js also hold. Each is modelled as written, so the two copies
    differ where the code does.
  - For example, gameState.js:181 scores a hit without checking that the bullet's
    owner is still a player, which throws a TypeError; collisions.js:31 checks first.
- **Overlap tests.** The collision tests keep the order in which each call site passes
  the two paddings (collisions.js:26, 83, 101). `Arena.SizeOrderMatters` shows that
  this order changes the outcome.

Files:

| file | contents |
|---|---|
| `tables.dfy` | `Tables`: ordered dictionary, change tracker, first-match search |
| `arena.dfy` | `Arena`: facings, clamp, overlap test, steering table, enemy record and bounce |
| `constants.dfy` | `Constants`: the imported constants, symbolic |
| `room.dfy` | `Room`: room records, the room value and the room object |
| `players.dfy` | `Players`: players.js |
| `bullets.dfy` | `Bullets`: bullets.js |
| `enemies.dfy` | `Enemies`: enemies.js |
| `powerups.dfy` | `PowerUps`: powerups.js |
| `collisions.dfy` | `Collisions`: collisions.js, the functions and the methods |
| `collisions_facts.dfy` | `CollisionFacts`: what the collision passes promise |
| `gamestate.dfy` | `GameState`: gameState.js, the functions and the methods |
| `gamestate_facts.dfy` | `GameStateFacts`: what the monolithic tick promises |
| `sessionmanager.dfy` | `SessionManager`: sessionManager.js |

## Model

| member | source | states |
|---|---|---|
| Arena.Clamp | backend/game/players.js:69-76 | `Math.max(0, Math.min(limit, v))` always lands in `[0, limit]` for a non-negative limit. It is `v` when `v` is already inside, 0 below and `limit` above. |
| Arena.Scale | backend/game/powerups.js:23-24 | `Math.random() * extent` lies in `[0, extent)` for a draw in `[0, 1)`. |
| Arena.ScaleBelow | backend/game/enemies.js:14 | A draw in `[0, 1)` scaled by a positive extent stays below the extent. |
| Arena.TouchingIsNotColliding | backend/game/collisions.js:158-165 | The overlap test is strict: boxes that only share an edge, or lie apart on an axis, do not collide. |
| Arena.SizeOrderMatters | backend/game/collisions.js:26 | Swapping the two boxes swaps their paddings. With a bullet and an enemy, the order of the sizes at this call decides whether they collide. |
| Arena.SteerTable | backend/game/players.js:39-57 | A direction token sets the velocity to ±speed along its axis and 0 on the other, and turns the player. stopX zeroes dx and keeps dy and the facing; stopY zeroes dy and keeps dx and the facing. Every other token is absent from the table. |
| Arena.SpawnEnemy | backend/game/enemies.js:11-19 | A new enemy starts at the given x. With draws in [0, 1) its dx lies in [−speed/2 − 0.5, −speed/2 + 0.5). |
| Arena.SpawnEnemyBounds | backend/game/enemies.js:14-16 | With draws in [0, 1), a new enemy's y lies in `[0, span)` and its dy lies in [−speed/2, speed/2). |
| Arena.Bounce | backend/game/enemies.js:29-47 | After one step an enemy is inside the arena. dy is negated exactly when the moved box touches the top or bottom (inclusive test); dx is negated exactly when it crosses a side wall (strict test). Otherwise the enemy moved by exactly (dx, dy). |
| Players.MovePlayer | backend/game/players.js:69-76 | A live player moves by (dx, dy) clamped into [0, W−S] × [0, H−S]. Where the move stays inside, it is exact. Nothing but x and y changes. |
| Players.AddPlayerFacts | backend/game/players.js:9-28 | addPlayer stores an alive record at (0,0) with score 0 and no buffs, and logs it live. `host` becomes the id exactly when isHost is set. Bullets and enemies are untouched, and validity is kept. |
| Players.RemovePlayerFacts | backend/game/players.js:30-33 | removePlayer deletes the player and tombstones it. `host` is unchanged. |
| Players.HostOutlivesLeave | backend/game/players.js:25-33 | A host who joins and leaves is still recorded as host, though no longer a player. |
| Players.InputIgnored | backend/game/players.js:35-37 | Input from a missing or dead player, or an unknown token, leaves the room exactly as it was. |
| Players.InputSteers | backend/game/players.js:39-57 | A direction token from a live player sets ±PLAYER_SPEED on the named axis, 0 on the other, and the facing. stopX and stopY zero one axis only. Only that player's record and its live change entry change. |
| Players.InputShoots | backend/game/players.js:48-53 | "shoot" fires a radial blast when the player holds that buff, and otherwise one shot owned by the player. Player records are untouched. |
| Players.MovePlayersMoved | backend/game/players.js:62-78 | After visiting distinct keys, each visited live player has moved one clamped step. Dead and unvisited players are where they were. |
| Players.MovePlayersLogged | backend/game/players.js:62-78 | Each visited dead player is tombstoned and each live one is logged live. The flag is true exactly when every visited player was dead. |
| Players.MovePlayersValid | backend/game/players.js:62-78 | The loop keeps the players table well formed and its key order. |
| Players.PlayersAfterMove | backend/game/players.js:60-80 | After updatePlayerPositions, isGameOver holds exactly when no player is alive, an empty room included. Each live player moved one clamped step, lies inside the arena when `Fits()` holds, and is logged live. Each dead player is unmoved and tombstoned. |
| Players.EmptyRoomIsOver | backend/game/players.js:60-80 | A room without players is over after one movement pass. |
| Players.AddPlayer | backend/game/players.js:9-28 | The room object after addPlayer equals `Players.AfterAddPlayer` of the old room, and it stays valid. AddPlayerFacts and HostOutlivesLeave state what that function does. |
| Players.RemovePlayer | backend/game/players.js:30-33 | The room object after removePlayer equals `Players.AfterRemovePlayer` of the old room. RemovePlayerFacts and HostOutlivesLeave state what that function does. |
| Players.HandlePlayerInput | backend/game/players.js:35-58 | The room object after the input equals `Players.AfterHandlePlayerInput` of the old room. InputIgnored, InputSteers and InputShoots state what that function does. |
| Players.UpdatePlayerPositions | backend/game/players.js:60-80 | The loop with its `allPlayersDead` flag yields `Players.AfterUpdatePlayerPositions`, the fold of `Players.MovePlayerStep` over the key snapshot. MovePlayersMoved, MovePlayersLogged, MovePlayersValid and PlayersAfterMove state what the fold does. |
| Players.MovePlayerAt | backend/game/players.js:63-77 | One loop round on the object equals `Players.MovePlayerStep`, including the flag. |
| Bullets.ShotFrom | backend/game/bullets.js:9-30 | A shot starts at the player's centre offset by S/2 towards the facing. Its velocity is BULLET_SPEED along the facing axis and 0 on the other. It is owned by the shooter and is not a boss bullet. |
| Bullets.RadialFrom | backend/game/bullets.js:37-43 | Each radial bullet starts at the player's centre with the i-th velocity of the spread. It has no owner, because `player.id` is undefined. |
| Bullets.RadialIds | backend/game/bullets.js:34-36 | The sixteen keys of a blast are pairwise distinct, and the i-th is `radial_${now}_${i}`. |
| Bullets.RadialBullets | backend/game/bullets.js:34-43 | A blast builds exactly sixteen bullets, the i-th being `RadialFrom(p, i)`. |
| Bullets.AddBulletStores | backend/game/bullets.js:9-30 | addBullet adds exactly the key of the moment, holding the shooter's shot logged live. Every other bullet is untouched, and validity is kept. |
| Bullets.SameStampShotsCollide | backend/game/bullets.js:9-30 | Two shots in one millisecond leave one bullet, the second shot, and the table grows by at most one. |
| Bullets.RadialBlastStores | backend/game/bullets.js:32-46 | After a blast, each of the sixteen keys holds a bullet at the player's centre with its spread velocity, no owner, and a live change entry. Other bullets and change entries are unchanged. |
| Bullets.RadialBlastAddsSixteen | backend/game/bullets.js:32-46 | On a room without bullets of that stamp, a blast adds exactly sixteen bullets, and it keeps the room valid. |
| Bullets.MoveBulletsKept | backend/game/bullets.js:49-64 | After visiting distinct keys, exactly the bullets that survived remain, each visited one moved once. |
| Bullets.MoveBulletsLogged | backend/game/bullets.js:49-64 | Each visited bullet is logged live, or tombstoned when it left the arena. Other entries are unchanged. |
| Bullets.MoveBulletsValid | backend/game/bullets.js:49-64 | The loop keeps the bullets table well formed. |
| Bullets.BulletsAfterMove | backend/game/bullets.js:48-65 | updateBulletPositions moves every bullet by exactly (dx, dy). It keeps a bullet exactly when ¬(x+BS<0 ∨ x>W ∨ y+BS<0 ∨ y>H) holds of the moved bullet. Each kept bullet is logged live with its new record; each dropped one is tombstoned. |
| Bullets.AddBullet | backend/game/bullets.js:9-30 | The room object after addBullet equals `Bullets.AfterAddBullet` of the old room. AddBulletStores and SameStampShotsCollide state what that function does. |
| Bullets.CreateRadialBlast | backend/game/bullets.js:32-46 | The counted loop yields `Bullets.AfterCreateRadialBlast`. RadialBlastStores and RadialBlastAddsSixteen state what that function does. |
| Bullets.UpdateBulletPositions | backend/game/bullets.js:48-65 | The `for…in` loop yields `Bullets.AfterUpdateBulletPositions`, the fold of `Bullets.MoveBulletStep`. MoveBulletsKept, MoveBulletsLogged, MoveBulletsValid and BulletsAfterMove state what the fold does. |
| Bullets.MoveBulletAt | backend/game/bullets.js:50-63 | One loop round on the object equals `Bullets.MoveBulletStep`. |
| Enemies.WaveIds | backend/game/enemies.js:24-25 | The n keys of a wave are pairwise distinct, and the i-th is `enemy_${now}_${i}`. |
| Enemies.WaveEnemies | backend/game/enemies.js:24-25 | A wave of n builds n records, the i-th from the i-th draws. |
| Enemies.PickIndex | backend/game/enemies.js:55 | `Math.floor(r * n)` is a valid index for a draw r in [0, 1). |
| Enemies.NewEnemyBounds | backend/game/enemies.js:11-19 | addEnemy places the enemy at x = W−S with y in [0, H−S). Its dx lies in [−PLAYER_SPEED/2 − 0.5, −PLAYER_SPEED/2 + 0.5) and its dy in [−PLAYER_SPEED/2, PLAYER_SPEED/2). |
| Enemies.WaveSpawned | backend/game/enemies.js:21-27 | spawnEnemyWave raises waveNumber by 1. It adds exactly the keys `enemy_${now}_0 … _${2w−1}` for the new wave number w, each with its own draws and logged live. Earlier enemies, players and bullets are unchanged. |
| Enemies.WaveCount | backend/game/enemies.js:21-27 | On an empty enemy table a wave adds exactly 2w distinct enemies, and it keeps the room valid. |
| Enemies.MoveEnemiesClosed | backend/game/enemies.js:30-46 | After visiting distinct keys, each visited enemy has bounced once and is logged live. Unvisited enemies are unchanged. |
| Enemies.MoveEnemiesValid | backend/game/enemies.js:30-46 | The loop keeps the enemies table well formed. |
| Enemies.EnemiesAfterMove | backend/game/enemies.js:29-47 | After updateEnemyPositions, every enemy has bounced once and is logged live. When `Fits()` holds, every enemy lies in [0, W−S] × [0, H−S]. |
| Enemies.BeamReachesFarWall | backend/game/enemies.js:61-78 | From an enemy in the left half (x < W/2) the beam spans [x, W) facing right; otherwise it spans [0, x) facing left. It is 20 high, centred on the enemy's middle, and created at `now`. |
| Enemies.BeamTimer | backend/game/enemies.js:49-59 | Within the interval (`now − last ≤ ENEMY_BEAM_INTERVAL`) nothing changes. Past it the timestamp becomes `now` even with no enemies. Exactly one beam, fired from some stored enemy, is added when there are enemies, and none otherwise. |
| Enemies.BossSpawned | backend/game/enemies.js:80-90 | spawnBoss sets health = BOSS_HEALTH, x = W−BOSS_SIZE, y = (H−BOSS_SIZE)/2 and lastShootTime = now+2000, and logs the boss live. No volley is fired before now+4000. |
| Enemies.BossSway | backend/game/enemies.js:92-102 | Without a boss nothing changes. Otherwise only the boss's y changes, it moves by at most 2, it ends in [0, H−BOSS_SIZE], and the boss is logged live. |
| Enemies.VolleyStacked | backend/game/enemies.js:114 | The ten volley bullets lie at strictly increasing heights, all within the boss's height. |
| Enemies.VolleyTimer | backend/game/enemies.js:104-108 | fireBossWave does nothing without a boss or when now − lastShootTime < 2000. Otherwise it sets lastShootTime = now, leaves the boss's change entry alone, and keeps players, enemies and validity. |
| Enemies.VolleyStored | backend/game/enemies.js:109-120 | A volley stores ten owner-less boss bullets, the i-th at y = boss.y + (BOSS_SIZE/10)·i with dx=−5 and dy=0, each logged live. Non-volley bullets are unchanged. |
| Enemies.AddEnemy | backend/game/enemies.js:11-19 | The room object after addEnemy equals `Enemies.AfterAddEnemy`. NewEnemyBounds states the record's ranges. |
| Enemies.SpawnEnemyWave | backend/game/enemies.js:21-27 | The room object after spawnEnemyWave equals `Enemies.AfterSpawnEnemyWave`. WaveSpawned and WaveCount state what that function does. |
| Enemies.AddWave | backend/game/enemies.js:24-26 | The counted loop stores the wave's keys and records in order. |
| Enemies.UpdateEnemyPositions | backend/game/enemies.js:29-47 | The `for…in` loop yields `Enemies.AfterUpdateEnemyPositions`, the fold of `Enemies.MoveEnemyStep`. MoveEnemiesClosed, MoveEnemiesValid and EnemiesAfterMove state what the fold does. |
| Enemies.MoveEnemyAt | backend/game/enemies.js:31-45 | One loop round on the object equals `Enemies.MoveEnemyStep`. |
| Enemies.CheckAndFireEnemyBeam | backend/game/enemies.js:49-59 | The room object after the timed check equals `Enemies.AfterCheckAndFireEnemyBeam`. BeamTimer states what that function does. |
| Enemies.FireEnemyBeam | backend/game/enemies.js:61-78 | The room object after firing equals `Enemies.AfterFireEnemyBeam`. BeamReachesFarWall and BeamTimer state the beam it adds. |
| Enemies.SpawnBoss | backend/game/enemies.js:80-90 | The room object after spawnBoss equals `Enemies.AfterSpawnBoss`. BossSpawned states what that function does. |
| Enemies.UpdateBossPosition | backend/game/enemies.js:92-102 | The room object after the sway equals `Enemies.AfterUpdateBossPosition`. BossSway states what that function does. |
| Enemies.FireBossWave | backend/game/enemies.js:104-121 | The room object after fireBossWave equals `Enemies.AfterFireBossWave`. VolleyTimer, VolleyStored and VolleyStacked state what that function does. |
| Enemies.FireVolley | backend/game/enemies.js:109-120 | The counted loop stores the ten volley keys and bullets in order. |
| PowerUps.Expire | backend/game/powerups.js:47-59 | A shield stays on exactly when it was on and not `now > shieldEndTime`, and likewise for the radial blast. Nothing else about the player changes. The record is unchanged exactly when no buff expired. |
| PowerUps.PowerUpSpawned | backend/game/powerups.js:15-29 | With draws in [0, 1), a new power-up is keyed `powerup_${now}`, is a radial blast exactly when the first draw is below 0.5 (otherwise a shield), and lies in [0, W−PS) × [0, H−PS). |
| PowerUps.PowerUpStored | backend/game/powerups.js:27-28 | createPowerUp stores the record and logs it live. Nothing else in the room changes. |
| PowerUps.PowerUpApplied | backend/game/powerups.js:31-45 | applyPowerUp sets the matching flag, expiring at now+5000 (radial blast) or now+POWERUP_DURATION (shield). Nothing else about the player changes and the player's change entry is not written. The power-up is deleted and tombstoned. |
| PowerUps.SpawnTimer | backend/game/powerups.js:61-67 | When now − last > POWERUP_SPAWN_INTERVAL, the clock moves to `now` and exactly one power-up is created (one more when its id is free). Otherwise nothing changes. |
| PowerUps.ExpireAllStores | backend/game/powerups.js:48-58 | After visiting distinct keys, each visited player has its expired buffs cleared. Other players are unchanged. |
| PowerUps.ExpireAllLogs | backend/game/powerups.js:48-58 | Exactly the visited players with an expired buff are logged live. |
| PowerUps.ExpireAllValid | backend/game/powerups.js:48-58 | The loop keeps the players table well formed and its key order. |
| PowerUps.PowerUpsExpire | backend/game/powerups.js:47-59 | After updatePowerUps, each flag is cleared exactly when it was set and `now` is past its end time. Nothing else about any player changes. Exactly the changed players are logged, and the rest of the room is untouched. |
| PowerUps.ShieldLastsThroughEnd | backend/game/powerups.js:50 | The end check is strict: a shield is still on at its end time and is off at any later time. |
| PowerUps.BuffKeepsPlace | backend/game/powerups.js:35-41 | Granting a buff does not move the player. |
| PowerUps.PicksShrink | backend/game/powerups.js:69-82 | The pickup loop only removes power-ups, only for visited players, and keeps the player→power-up and power-up→player records inverse to each other. |
| PowerUps.PicksPlayers | backend/game/powerups.js:69-82 | A player gains exactly the buff of the power-up it took, and is otherwise unchanged. |
| PowerUps.PicksStore | backend/game/powerups.js:75-77 | Exactly the taken power-ups are deleted, each tombstoned. |
| PowerUps.PicksPaired | backend/game/powerups.js:72-80 | A taker touched what it took. A visited player that took nothing touches none of the power-ups left. |
| PowerUps.PicksValid | backend/game/powerups.js:69-82 | The pickup loop keeps both tables well formed. |
| PowerUps.PickupsPaired | backend/game/powerups.js:69-82 | checkPlayerPowerUpCollisions gives each player at most one pickup and each power-up to at most one player, the two records being inverse. A taker touched its power-up and gains exactly that buff; every other player is unchanged. Exactly the taken power-ups are deleted and tombstoned, and the players' change entries are untouched. |
| PowerUps.PickupsKeepPlayers | backend/game/powerups.js:69-82 | A pickup changes no player's life, score or position. |
| PowerUps.PickupsValid | backend/game/powerups.js:69-82 | No player joins or leaves during a pickup, and the room stays valid. |
| PowerUps.CreatePowerUp | backend/game/powerups.js:15-29 | The room object after createPowerUp equals `PowerUps.AfterCreatePowerUp`. PowerUpSpawned and PowerUpStored state what that function does. |
| PowerUps.ApplyPowerUp | backend/game/powerups.js:31-45 | The room object after applyPowerUp equals `PowerUps.AfterApplyPowerUp`, for a player and a power-up that both exist. PowerUpApplied and BuffKeepsPlace state what that function does. |
| PowerUps.UpdatePowerUps | backend/game/powerups.js:47-59 | The `for…in` loop yields `PowerUps.AfterUpdatePowerUps`, the fold of `PowerUps.ExpireStep`. ExpireAllStores, ExpireAllLogs, ExpireAllValid and PowerUpsExpire state what the fold does. |
| PowerUps.ExpireAt | backend/game/powerups.js:49-57 | One loop round on the object equals `PowerUps.ExpireStep`. |
| PowerUps.CheckAndSpawnPowerUp | backend/game/powerups.js:61-67 | The room object after the timed spawn equals `PowerUps.AfterCheckAndSpawnPowerUp`. SpawnTimer states what that function does. |
| PowerUps.CheckPlayerPowerUpCollisions | backend/game/powerups.js:69-82 | The nested loops yield `PowerUps.AfterCheckPlayerPowerUpCollisions`, the fold of `PowerUps.PickStep`. The Picks* and Pickups* lemmas state what that fold does. |
| PowerUps.PickAt | backend/game/powerups.js:71-80 | One outer round on the object equals `PowerUps.PickStep`. |
| PowerUps.TakeAt | backend/game/powerups.js:75-77 | applyPowerUp followed by the loop's own second delete and tombstone equals applyPowerUp alone. |
| Collisions.CheckCollisions | backend/game/collisions.js:9-19 | The five passes run in order on the object. Its room and game-over flag equal `Collisions.AfterCheckCollisions`, which CollisionsSettle and the *PassFollows lemmas characterise. |
| Collisions.CheckBulletCollisions | backend/game/collisions.js:21-72 | The bullet↔enemy loop followed by the boss loop yields `Collisions.AfterCheckBulletCollisions`. That is `Collisions.AfterStrikePass` (EnemyPassPaired, EnemyPassScores, EnemyPassValid) followed by `Collisions.AfterBossPass` (BossUntouched, BossWounded, BossSlain). |
| Collisions.StrikeAt | backend/game/collisions.js:23-37 | One outer round of the enemy loop on the object equals `Collisions.StrikeStep`. |
| Collisions.BossHit | backend/game/collisions.js:41-71 | The boss loop on the object yields `Collisions.AfterBossPass`, which BossUntouched, BossWounded and BossSlain characterise. |
| Collisions.AwardBonus | backend/game/collisions.js:60-66 | The bonus loop on the object equals `Collisions.Bonus` over the player keys, which BonusClosed characterises. |
| Collisions.CheckBeamCollisions | backend/game/collisions.js:133-156 | The beam loop on the object yields `Collisions.AfterCheckBeamCollisions`, which BeamsScorch and BeamsExpire characterise. |
| Collisions.SlayWhere | backend/game/collisions.js:142-154 | An inner player loop that kills players on a test equals `Collisions.SlayAll`, which SlayAllRecords, SlayAllLog and SlayAllValid characterise. |
| Collisions.CheckBossBulletCollisions | backend/game/collisions.js:74-92 | The nested loops yield `Collisions.AfterCheckBossBulletCollisions`, which BossShotsPaired and BossShotsKill characterise. |
| Collisions.ShotAt | backend/game/collisions.js:76-90 | One outer round on the object equals `Collisions.ShotStep`. |
| Collisions.CheckPlayerBossCollision | backend/game/collisions.js:94-108 | The loop yields `Collisions.AfterCheckPlayerBossCollision`, which BossRams characterises. |
| Collisions.CheckPlayerEnemyCollisions | backend/game/collisions.js:110-131 | The loop with its `gameOver` flag yields `Collisions.AfterCheckPlayerEnemyCollisions` and its result. EnemiesTrample and EnemiesCrush characterise that function. |
| Collisions.BumpAt | backend/game/collisions.js:117-128 | One round for a live player on the object equals `Collisions.BumpStep`. |
| CollisionFacts.SlayAllRecords | backend/game/collisions.js:142-154 | A player loop kills exactly the exposed players the test accepts, each judged as it was before the loop, and leaves every other player alone. |
| CollisionFacts.SlayAllLog | backend/game/collisions.js:142-154 | Each killed player is logged live and every other entry is unchanged. |
| CollisionFacts.SlayAllValid | backend/game/collisions.js:142-154 | The loop keeps the players table valid. |
| CollisionFacts.BonusClosed | backend/game/collisions.js:60-66 | The bonus adds exactly 1000 to every player, dead or alive, changes nothing else, and logs a copy of each raised record. |
| CollisionFacts.EarnedAll | backend/game/collisions.js:31-35 | A new hit raises the hit count of exactly the bullet owner's key by one. |
| CollisionFacts.EnemyPassPaired | backend/game/collisions.js:21-39 | Each bullet takes at most one enemy and each enemy falls to at most one bullet, the two records being inverse. Every pair overlapped at the start of the pass. Exactly the pairs are deleted and tombstoned, and no remaining bullet strikes a remaining enemy. |
| CollisionFacts.EnemyPassValid | backend/game/collisions.js:21-39 | The enemy pass keeps the room valid and the players' keys. |
| CollisionFacts.EnemyPassScores | backend/game/collisions.js:31-35 | Each player gains exactly 100 per hit by a bullet it owns, which needs the owner to still be in `players`. Exactly the players that scored are logged live. |
| CollisionFacts.BossUntouched | backend/game/collisions.js:41-50 | Without a boss, or with no non-boss bullet overlapping it, the boss loop changes nothing. |
| CollisionFacts.BossWounded | backend/game/collisions.js:41-68 | Only the first wounding bullet, a non-boss bullet, is removed and tombstoned, so the boss takes at most one hit per call. The boss survives with exactly 10 less health exactly when it had more than 10, and its entry is then a copy. Players are untouched. |
| CollisionFacts.BossSlain | backend/game/collisions.js:56-67 | At 0 health or below the boss becomes null and is tombstoned. Every entry in `players`, dead or alive, gains exactly 1000 and is logged as a copy. |
| CollisionFacts.BossShotsPaired | backend/game/collisions.js:74-92 | Each boss bullet kills at most one player and each player has at most one killer. A killer shot a live, unshielded victim, and player bullets are skipped. A bullet is removed and tombstoned exactly when it kills, and no remaining boss bullet overlaps a player it could kill. |
| CollisionFacts.BossShotsKill | backend/game/collisions.js:80-85 | Exactly the players shot become dead, with nothing else changed, and are logged live. A dead or shielded player is never newly killed. |
| CollisionFacts.BossRams | backend/game/collisions.js:94-108 | With a boss, exactly the exposed players it rams (sizes swapped) die and are logged live. The shielded and the dead are untouched, and so is the boss. Without a boss nothing changes. |
| CollisionFacts.BeamsScorch | backend/game/collisions.js:142-154 | Exactly the exposed players some live beam scorches die, using the band beam.y−5 … beam.y+5 rather than the beam's height. The shielded and the dead are untouched. |
| CollisionFacts.BeamsExpire | backend/game/collisions.js:137-141 | Exactly the beams with now − createdAt > BEAM_DURATION are deleted and tombstoned. The rest are unchanged. |
| CollisionFacts.EnemiesTrample | backend/game/collisions.js:110-131 | Each live player takes at most one enemy, and exactly that enemy is deleted even when the player is shielded. The two records are inverse. The result is true exactly when every player was dead, an empty map included. |
| CollisionFacts.EnemiesCrush | backend/game/collisions.js:119-123 | A bumping player dies only when unshielded, and is then logged live. Every other player is untouched. |
| CollisionFacts.FollowsTrans | backend/game/collisions.js:9-19 | The per-pass guarantees compose across passes. |
| CollisionFacts.BulletPassFollows | backend/game/collisions.js:21-72 | The bullet pass keeps validity and the player set, revives nobody, lowers no score and moves nobody. |
| CollisionFacts.BeamPassFollows | backend/game/collisions.js:133-156 | The beam pass keeps the same guarantees. |
| CollisionFacts.BossBulletPassFollows | backend/game/collisions.js:74-92 | The boss-bullet pass keeps the same guarantees. |
| CollisionFacts.RamPassFollows | backend/game/collisions.js:94-108 | The boss-ram pass keeps the same guarantees. |
| CollisionFacts.BumpPassFollows | backend/game/collisions.js:110-131 | The player↔enemy pass keeps the same guarantees. |
| CollisionFacts.PickupPassFollows | backend/game/powerups.js:69-82 | The pickup pass keeps the same guarantees. |
| CollisionFacts.BeforeBumpsFollows | backend/game/collisions.js:10-13 | The first four passes together keep the same guarantees. |
| CollisionFacts.CollisionsSettle | backend/game/collisions.js:9-19 | checkCollisions keeps those guarantees. It returns true exactly when checkPlayerEnemyCollisions found no live player; pickup is then skipped and every player is dead. A room whose players were all dead at the start, an empty one included, is over. |
| GameState.ShotAlongFacing | backend/game/gameState.js:31-52 | A shot starts at the player's centre offset by S/2 towards the facing. It flies along the facing axis only, at BULLET_SPEED, and carries the shooter's id. |
| GameState.NewEnemy | backend/game/gameState.js:60-68 | With draws in [0, 1), a new enemy sits at x = 1000−20 with y in [0, 480), dx in [−2, −1) and dy in [−1.5, 1.5). |
| GameState.MovePlayer | backend/game/gameState.js:106-121 | A moved player lies in [0, 980] × [0, 480]. The move is exact where it stays inside, and velocity, facing and score are kept. |
| GameState.BounceEnemy | backend/game/gameState.js:123-142 | A bounced enemy is inside the arena. Each velocity component is negated exactly on the inclusive (y) or strict (x) wall test, and the move is exact otherwise. |
| GameState.Initial | backend/game/gameState.js:8-16 | createGameState's value is a valid state. |
| GameState.AfterCheckAndSpawnNewWave | backend/game/gameState.js:80-84 | A wave spawns only when the enemy map is empty, and then waveNumber rises by 1. Otherwise nothing changes. |
| GameState.AfterHandlePlayerInput | backend/game/gameState.js:86-104 | An unknown player id or an unknown token changes nothing. "stopX" sets dx to 0 and keeps dy and direction; "stopY" sets dy to 0 and keeps dx and direction. A direction token sets the facing and a velocity of PLAYER_SPEED along it. The player set is kept. |
| GameState.ChangesOf | backend/game/gameState.js:202-206 | getChanges reports every tracked id, `null` exactly for the tombstones, and the current waveNumber. |
| GameState.ThrownIsFinal | backend/game/gameState.js:181 | Once the hit pass has thrown, no later bullet is visited. |
| GameState.CreditValid | backend/game/gameState.js:176-183 | A credited hit keeps the state valid. |
| GameState.BulletHitsValid | backend/game/gameState.js:165-188 | The hit pass keeps the state valid. |
| GameState.GameState.constructor | backend/game/gameState.js:8-16 | createGameState has empty players, bullets and enemies, three empty change maps, waveNumber 0, and the game not started. |
| GameState.AddPlayer | backend/game/gameState.js:19-29 | The object after addPlayer equals `GameState.AfterAddPlayer`, and it stays valid. |
| GameState.AddBullet | backend/game/gameState.js:31-52 | The object after addBullet equals `GameState.AfterAddBullet`; ShotAlongFacing states the bullet it stores. |
| GameState.RemovePlayer | backend/game/gameState.js:54-57 | The object after removePlayer equals `GameState.AfterRemovePlayer`. |
| GameState.AddEnemy | backend/game/gameState.js:60-68 | The object after addEnemy equals `GameState.AfterAddEnemy`; NewEnemy states the record's ranges. |
| GameState.SpawnEnemyWave | backend/game/gameState.js:71-77 | `waveNumber++` followed by the counted loop yields `GameState.AfterSpawnEnemyWave`. SpawnEnemyWaveCounts characterises that function. |
| GameState.AddWave | backend/game/gameState.js:74-76 | The counted loop equals `GameState.AddEnemies` over its first n rounds. AddEnemiesClosed and AddEnemiesLogged characterise that function. |
| GameState.CheckAndSpawnNewWave | backend/game/gameState.js:80-84 | The object after the check equals `GameState.AfterCheckAndSpawnNewWave`. CheckAndSpawnNewWaveSpec and WaveKeepsArena characterise that function. |
| GameState.HandlePlayerInput | backend/game/gameState.js:86-104 | The object after the input equals `GameState.AfterHandlePlayerInput`, whose own contract states the steering and shooting cases. |
| GameState.UpdatePlayerPositions | backend/game/gameState.js:106-121 | The `for…in` loop yields `GameState.AfterUpdatePlayerPositions`, the fold of `GameState.MovePlayerStep`. MovePlayersClosed and PlayersInArenaAfterMove characterise that fold. |
| GameState.MovePlayerAt | backend/game/gameState.js:108-120 | One loop round on the object equals `GameState.MovePlayerStep`. |
| GameState.UpdateEnemyPositions | backend/game/gameState.js:123-142 | The `for…in` loop yields `GameState.AfterUpdateEnemyPositions`, the fold of `GameState.MoveEnemyStep`. MoveEnemiesClosed and EnemiesInArenaAfterMove characterise that fold. |
| GameState.MoveEnemyAt | backend/game/gameState.js:124-141 | One loop round on the object equals `GameState.MoveEnemyStep`. |
| GameState.UpdateBulletPositions | backend/game/gameState.js:144-163 | The `for…in` loop yields `GameState.AfterUpdateBulletPositions`, the fold of `GameState.MoveBulletStep`. MoveBulletsClosed and BulletsAfterMove characterise that fold. |
| GameState.MoveBulletAt | backend/game/gameState.js:145-162 | One loop round on the object equals `GameState.MoveBulletStep`. |
| GameState.CheckBulletCollisions | backend/game/gameState.js:165-188 | The nested loops, stopping at a throw, yield `GameState.AfterCheckBulletCollisions`, the fold of `GameState.HitStep`, with its throw flag. BulletHitsTrace and the CheckBulletCollisions* lemmas characterise that fold. |
| GameState.HitAt | backend/game/gameState.js:166-187 | One outer round on the object equals `GameState.HitStep`, including the throw. |
| GameState.KillAt | backend/game/gameState.js:176-179 | The bullet and the enemy are deleted and tombstoned. |
| GameState.AwardAt | backend/game/gameState.js:181-183 | The owner's score rises by 100 and the owner is logged live. |
| GameState.UpdateGameState | backend/game/gameState.js:190-200 | The five steps in order yield `GameState.AfterUpdateGameState`; a throw skips the wave check. TickKeepsArena characterises that function. |
| GameState.GetChanges | backend/game/gameState.js:202-209 | getChanges returns the accumulated changes with the current waveNumber, leaves `changes` as three empty maps, and changes nothing else. |
| GameStateFacts.MovePlayersClosed | backend/game/gameState.js:107-120 | After visiting distinct keys, exactly the visited players have moved once and are logged live. Nothing else changes. |
| GameStateFacts.PlayersInArenaAfterMove | backend/game/gameState.js:106-121 | After updatePlayerPositions every player satisfies 0 ≤ x ≤ W−S and 0 ≤ y ≤ H−S, and is its old record moved once. |
| GameStateFacts.MoveEnemiesClosed | backend/game/gameState.js:124-141 | After visiting distinct keys, exactly the visited enemies have bounced once and are logged live. |
| GameStateFacts.EnemiesInArenaAfterMove | backend/game/gameState.js:123-142 | After updateEnemyPositions every enemy is inside the arena, its old record bounced once. |
| GameStateFacts.MoveBulletsClosed | backend/game/gameState.js:145-162 | After visiting distinct keys, exactly the surviving bullets remain, moved once. Each visited bullet is logged live or tombstoned. |
| GameStateFacts.BulletsAfterMove | backend/game/gameState.js:144-163 | Every bullet moves by exactly (dx, dy), and exactly the moved bullets still inside the arena are kept. Kept bullets are logged live and dropped ones tombstoned. |
| GameStateFacts.WaveIdsCount | backend/game/gameState.js:74-75 | A wave of n has n distinct keys. |
| GameStateFacts.AddEnemiesClosed | backend/game/gameState.js:74-76 | After n rounds, exactly the n wave keys have been added, each holding its own draws. Earlier enemies are unchanged. |
| GameStateFacts.AddEnemiesLogged | backend/game/gameState.js:74-76 | Each wave key is logged live and other entries are unchanged. |
| GameStateFacts.SpawnEnemyWaveCounts | backend/game/gameState.js:71-77 | spawnEnemyWave raises waveNumber by exactly 1 and adds the wave keys for the new number w. From an empty enemy map that is exactly 2w pairwise-distinct enemies. |
| GameStateFacts.CheckAndSpawnNewWaveSpec | backend/game/gameState.js:80-84 | checkAndSpawnNewWave spawns exactly when the enemy map is empty, and then holds exactly 2w enemies. |
| GameStateFacts.CreditPresentOwner | backend/game/gameState.js:181-183 | A hit by a bullet whose owner is present does not throw, and credits the owner with exactly 100. |
| GameStateFacts.CreditAbsentOwner | backend/game/gameState.js:181 | A hit by a bullet whose owner has left throws, and no score changes. |
| GameStateFacts.BulletHitsTrace | backend/game/gameState.js:165-188 | Over distinct keys, the hit pass keeps its four-part trace: scores, removals, pairs and the throw. |
| GameStateFacts.CheckBulletCollisionsPairs | backend/game/gameState.js:165-188 | Each bullet removes at most one enemy and no enemy is taken twice. Each pair overlapped at the start of the pass, and both are gone and tombstoned `null`. |
| GameStateFacts.CheckBulletCollisionsRemovals | backend/game/gameState.js:176-179 | Exactly the hit bullets and enemies are removed, and every other record is unchanged. |
| GameStateFacts.CheckBulletCollisionsScores | backend/game/gameState.js:180-183 | Each player's score rises by exactly 100 per hit by one of its bullets and never decreases; nothing else about players changes. The pass throws exactly when some hit bullet's owner is not in `players`. |
| GameStateFacts.PassesKeepArena | backend/game/gameState.js:190-197 | The four passes before the wave check leave every player and enemy inside the arena. |
| GameStateFacts.WaveKeepsArena | backend/game/gameState.js:80-84 | A spawned wave lands inside the arena for draws in [0, 1). |
| GameStateFacts.TickKeepsArena | backend/game/gameState.js:190-200 | After one updateGameState tick, thrown or not, every player and enemy is inside the arena. |
| SessionManager.Stamp | backend/game/sessionManager.js:18 | `Date.now().toString()` is a non-empty decimal string, one digit exactly below 10. |
| SessionManager.StampInjective | backend/game/sessionManager.js:18 | Different clock readings give different session ids. |
| SessionManager.Opening | backend/game/sessionManager.js:13-15 | The search returns the first session, in key order, holding exactly one player. None means no session holds exactly one. |
| SessionManager.AdmitHolds | backend/game/sessionManager.js:28-29 | Seating a socket keeps the session's shape, with the same players in the game, and adds one player unless the socket was already there. |
| SessionManager.ReleaseHolds | backend/game/sessionManager.js:62-63 | Releasing a socket keeps the shape and removes one player if it was there. |
| SessionManager.ReleaseEmpties | backend/game/sessionManager.js:65 | The session empties exactly when the leaving socket was its only player. |
| SessionManager.JoinValid | backend/game/sessionManager.js:12-40 | Every session keeps 1 or 2 players across a join, mirrored in its game. This holds even without assuming fresh ids. |
| SessionManager.JoinPlaces | backend/game/sessionManager.js:12-29 | A socket joins the first session holding exactly one player, which then holds two. Otherwise it is alone in a new session under the stamp of `now`, with a fresh game holding it. |
| SessionManager.JoinKeeps | backend/game/sessionManager.js:27-29 | The socket is stored in the session it is told and is a player of its game. No other session changes, and nothing is stopped or announced. |
| SessionManager.JoinOverwrites | backend/game/sessionManager.js:17-25 | A session created at the same `Date.now()` as an existing one overwrites it in place, and the old loop is never stopped. |
| SessionManager.JoinStartsLoop | backend/game/sessionManager.js:31-33 | A loop is started only for a session without a stop handle, and a session that has one keeps it. |
| SessionManager.JoinTwice | backend/game/sessionManager.js:12-29 | With no session waiting, two successive joins land in the same session, which holds exactly the two. |
| SessionManager.DisconnectValid | backend/game/sessionManager.js:58-71 | Every session keeps 1 or 2 players across a disconnect. |
| SessionManager.DisconnectUnknown | backend/game/sessionManager.js:58-60 | handleDisconnect on an unknown session id is a no-op. |
| SessionManager.DisconnectLeaves | backend/game/sessionManager.js:62-70 | The socket leaves `session.players` and the game. The session survives exactly when another player remains; otherwise its loop is stopped and it is deleted. |
| SessionManager.DisconnectKeeps | backend/game/sessionManager.js:58-71 | No other session changes, and nothing is started or announced. |
| SessionManager.JoinThenLeave | backend/game/sessionManager.js:12-71 | A socket that opens a fresh session and then leaves it restores the sessions table. The start of its loop stays logged, and the leave calls exactly the handle startGameLoop returned. When startGameLoop returns nothing, as gameLoop.js does, nothing is stopped. |
| SessionManager.StartGameThrows | backend/game/sessionManager.js:49-55 | As written, the handler changes nothing. It throws a TypeError exactly when the session exists and its game is not marked started, because the `startGame` it calls is not exported by gameState.js (:211-218). While no game is marked started, that is exactly when the session exists. |
| SessionManager.JoinStartsNothing | backend/game/sessionManager.js:12-40 | A join marks no game started: the new session's game comes from createGameState, which sets no `isGameStarted`, and addPlayer leaves the flag alone. |
| SessionManager.DisconnectStartsNothing | backend/game/sessionManager.js:58-71 | A disconnect marks no game started. |
| SessionManager.PlayerInputStartsNothing | backend/game/sessionManager.js:46-48 | Player input marks no game started. |
| SessionManager.StartGameStartsNothing | backend/game/sessionManager.js:49-55 | The "startGame" handler as written marks no game started. |
| SessionManager.ClearStartsNothing | backend/game/sessionManager.js:73-80 | clearSessions marks no game started. |
| SessionManager.LoneJoinerCannotStart | backend/game/sessionManager.js:52 | A socket joins the empty registry and sends "startGame". The handler as written throws and announces nothing. The intended handler marks the game started and announces it. |
| SessionManager.IntendedStartActs | backend/game/sessionManager.js:49-55 | The intended handler, whose `startGame` marks the game started, acts exactly when the session exists and is not started. It then sets `isGameStarted`, announces "gameStarted" once, and keeps the registry valid. |
| SessionManager.IntendedStartOnce | backend/game/sessionManager.js:51 | Under the intended handler, a second "startGame" changes nothing. |
| SessionManager.PlayerInputKeeps | backend/game/sessionManager.js:46-48 | The input handler throws exactly when the session is gone. Otherwise only that session's game changes, and its players are kept. |
| SessionManager.ClearStepsTable | backend/game/sessionManager.js:74-79 | The loop deletes exactly the visited keys and leaves the rest. |
| SessionManager.ClearStepsStopped | backend/game/sessionManager.js:75-77 | The loop calls the deleted sessions' stop handles in key order. |
| SessionManager.HandlesCover | backend/game/sessionManager.js:75-77 | The handles called are exactly those of the visited sessions that have one. |
| SessionManager.ClearEmpties | backend/game/sessionManager.js:73-80 | clearSessions leaves the registry empty and calls the stop handle of every session that has one, and no other. |
| SessionManager.Registry.constructor | backend/game/sessionManager.js:10 | The registry starts empty, with empty effect logs. |
| SessionManager.Registry.FindOrCreateSession | backend/game/sessionManager.js:12-40 | The mutable registry after a join, and the id returned, equal `SessionManager.Join`. JoinValid, JoinPlaces, JoinKeeps, JoinOverwrites, JoinStartsLoop and JoinTwice characterise that function. |
| SessionManager.Registry.Seat | backend/game/sessionManager.js:27-33 | Seating the socket and starting the loop equals `SessionManager.Join1`, the rest of the join once its session is chosen. |
| SessionManager.Registry.HandleDisconnect | backend/game/sessionManager.js:58-71 | The registry after the "disconnect" handler equals `SessionManager.Disconnect`, and it stays valid. DisconnectValid, DisconnectUnknown, DisconnectLeaves and DisconnectKeeps characterise that function. |
| SessionManager.Registry.Leave | backend/game/sessionManager.js:62-70 | The release for an existing session equals `SessionManager.Disconnect`. |
| SessionManager.Registry.OnStartGame | backend/game/sessionManager.js:49-55 | As written: the registry is unchanged and the throw flag equals that of `SessionManager.StartGame`. StartGameThrows characterises that function: it throws exactly when the session exists and is not marked started. |
| SessionManager.Registry.OnPlayerInput | backend/game/sessionManager.js:46-48 | The registry and the throw flag equal `SessionManager.PlayerInput`, which PlayerInputKeeps characterises. |
| SessionManager.Registry.ClearSessions | backend/game/sessionManager.js:73-80 | The forEach loop yields `SessionManager.Clear`, the fold of `SessionManager.ClearStep`. ClearEmpties characterises that fold. |
| SessionManager.Registry.DropSession | backend/game/sessionManager.js:75-78 | One loop round equals `SessionManager.ClearStep`. |
| SessionManager.Registry.GetSession | backend/game/sessionManager.js:82-84 | getSession returns the stored session exactly when the id is present, and nothing (`undefined`) otherwise. |

## Left out

- backend/index.js is not part of this model: it is HTTP and socket.io bootstrap, pure I/O.
- backend/game/gameLoop.js is not part of this model. It is a `setInterval` timer and a broadcast.
  - Its `startGameLoop` returns nothing, so `gameLoopStop` stays falsy and every join starts another loop.
  - The model takes what startGameLoop returns as the parameter `loop` (`None`: nothing) and logs each start.
- Socket and namespace effects are not modelled.
  - Left out: `socket.emit("sessionId")`, `socket.join`, `io.of(...)`, the `to(...).emit("gameStarted")` broadcast, and `socket.on` registration.
  - Sockets are opaque tokens, namespaces keep only their name, and the announcement is kept as a log entry.
- A session's game state is kept as a value (`GameState.State`) inside the registry.
  - The sharing of that object with the game loop is not modelled.
  - Neither is a later in-place update of the object by the loop.
  - The in-place methods themselves are modelled on the `GameState.GameState` object.
- Clock and randomness are parameters.
  - `Date.now()` is one `now` per call; the source reads the clock several times within one function (for example in fireBossWave and fireEnemyBeam).
  - `Math.random()` draws are parameters, assumed in [0, 1) only where a property needs that.
- Trigonometry and floating point are not modelled.
  - The velocities `Math.cos/ Math.sin · BULLET_SPEED` of createRadialBlast are an unspecified sequence of sixteen pairs (`Bullets.RADIAL_VELOCITIES`).
  - `Math.sin(Date.now()/1000)` in updateBossPosition is the parameter `sway`.
  - Coordinates are exact `real`s, and IEEE rounding is not modelled.
- `console.log` in the boss-kill loop (collisions.js:61) is left out.
- The values of `./constants` are not part of this model; they are positive symbolic constants.
- The room object the split modules act on is created by code that is not part of this model. `Room.Room`'s constructor builds an empty one for the methods to start from.
- Features described for the game but absent from these files are not modelled: a boss every third wave, revive on a new wave, a power-up cap, host-only start and host migration, an idle-room sweep, and per-room locking.
- Tests: backend/tests/*.test.js are not modelled. The three sessionManager unit tests only informed JoinTwice, DisconnectLeaves and IntendedStartActs.
- GameState.AfterHandlePlayerInput: a token naming an inherited `Object.prototype` member (such as "constructor") is treated like any other unknown token.
  - In the source, `directions[input]` finds the inherited function, and the destructuring assignment then throws.
- Players.AfterHandlePlayerInput: the same holds for players.js:54-55.
- SessionManager.Registry.FindOrCreateSession: does not model `setUpSocketListeners`. The handlers it registers are the separate methods OnPlayerInput, OnStartGame and HandleDisconnect, called with the ids the join returned.
- Key order: JavaScript enumerates keys that are canonical array indices (integers below 2^32 − 1) first, in numeric order, and all other keys in insertion order. Every table here keeps insertion order.
  - This agrees with the source only while no key is such an index.
  - The stamp keys rely on `Date.now()` being a real epoch reading, above 2^32 − 1 since early 1970. They are `GameState.BulletId` (the bare `now`), `Room.Shot(now)` and `SessionManager.Stamp(now)`.
  - Socket ids are assumed not to be all digits.
- GameState.GetChanges: the returned change maps are the very objects the source stops tracking, so later edits of live records would still show through them. The model resolves each live entry to the record current at the call.

## Findings

| source | as written | input that shows it | evidently intended | confidence | as-written member | corrected member |
|---|---|---|---|---|---|---|
| backend/game/sessionManager.js:52 | The "startGame" handler calls `startGame`, which gameState.js does not export (its exports are at :211-218), so the name is `undefined`. createGameState sets no `isGameStarted`, so the guard at :51 passes for every existing session. The call then throws a TypeError: the flag is never set and "gameStarted" is never emitted. | One socket joins the empty registry, and its client sends "startGame". | A `startGame` that marks the game started, after which the handler emits "gameStarted" once. The unit test backend/tests/MainTests.test.js (lines 77-90) expects exactly this. | not executed | SessionManager.LoneJoinerCannotStart | SessionManager.IntendedStartActs |

`SessionManager.StartGame` and `SessionManager.Registry.OnStartGame` model the handler as
written. `SessionManager.IntendedStartGame` is the corrected handler, with
`IntendedStartActs` and `IntendedStartOnce` proved about it. The registry's other
handlers do not depend on which of the two is used: no function of the repository
reads `isGameStarted` except this guard.
