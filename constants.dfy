/** The values the split modules (players.js, bullets.js, enemies.js, collisions.js,
    powerups.js) import from `./constants`. That file is not part of this model, so each
    constant is declared with its type only: a positive length or speed, or a positive
    duration in milliseconds. Properties that need the arena to be larger than an
    entity are stated under `Fits()`. */
module Constants {

  type PosReal = x: real | x > 0.0 witness 1.0
  type PosInt = n: int | n > 0 witness 1

  const GAME_WIDTH: PosReal
  const GAME_HEIGHT: PosReal
  const PLAYER_SIZE: PosReal
  const PLAYER_SPEED: PosReal
  const BULLET_SIZE: PosReal
  const BULLET_SPEED: PosReal
  const BOSS_SIZE: PosReal
  const POWERUP_SIZE: PosReal

  const BOSS_HEALTH: PosInt
  const BEAM_DURATION: PosInt
  const ENEMY_BEAM_INTERVAL: PosInt
  const POWERUP_DURATION: PosInt
  const POWERUP_SPAWN_INTERVAL: PosInt

  /** Every entity fits inside the arena. */
  predicate Fits() {
    && PLAYER_SIZE <= GAME_WIDTH && PLAYER_SIZE <= GAME_HEIGHT
    && BOSS_SIZE <= GAME_WIDTH && BOSS_SIZE <= GAME_HEIGHT
    && POWERUP_SIZE <= GAME_WIDTH && POWERUP_SIZE <= GAME_HEIGHT
  }
}
