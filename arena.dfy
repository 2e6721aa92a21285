/** Vocabulary shared by the monolithic game state (backend/game/gameState.js) and the
    split modules (players.js, bullets.js, enemies.js, collisions.js, powerups.js):
    facing directions, the clamp both write as `Math.max(0, Math.min(limit, v))`, and
    the enemy record and its id, which both copies define identically. */
module Arena {
  import opened Tables

  /** The `direction` strings a player can face; a beam only ever faces Left or Right. */
  datatype Direction = Left | Right | Up | Down

  /** The unit vector of a facing: an independent description of the per-direction
      tables in addBullet and handlePlayerInput. */
  function Facing(d: Direction): (real, real) {
    match d
    case Left => (-1.0, 0.0)
    case Right => (1.0, 0.0)
    case Up => (0.0, -1.0)
    case Down => (0.0, 1.0)
  }

  datatype Point = Point(x: real, y: real)

  function Max(a: real, b: real): real { if a < b then b else a }
  function Min(a: real, b: real): real { if a < b then a else b }

  /** `Math.max(0, Math.min(limit, v))`: pins `v` into `[0, limit]` when the limit is
      not negative, and yields 0 when it is. */
  function Clamp(limit: real, v: real): (r: real)
    ensures 0.0 <= r
    ensures 0.0 <= limit ==> r <= limit
    ensures 0.0 <= v <= limit ==> r == v
    ensures v < 0.0 ==> r == 0.0
    ensures 0.0 <= limit < v ==> r == limit
  {
    Max(0.0, Min(limit, v))
  }

  /** `Math.random() * extent` for a draw in `[0, 1)` lands in `[0, extent)`. */
  lemma ScaleBelow(r: real, extent: real)
    requires 0.0 <= r < 1.0 && 0.0 < extent
    ensures 0.0 <= r * extent < extent
  {
    assert (1.0 - r) * extent > 0.0;
  }

  /** `Math.random() * extent` */
  function Scale(r: real, extent: real): (v: real)
    ensures 0.0 <= r < 1.0 && 0.0 < extent ==> 0.0 <= v < extent
  {
    if 0.0 <= r < 1.0 && 0.0 < extent then ScaleBelow(r, extent); r * extent
    else r * extent
  }

  /** `isColliding(obj1, obj2, size1, size2 = size1)`: the box at `a` padded by
      `size1` against the box at `b` padded by `size2`, open at the edges. collisions.js
      always passes both sizes; powerups.js relies on the default. */
  predicate IsColliding(a: Point, b: Point, size1: real, size2: real := size1) {
    a.x < b.x + size2 && a.x + size1 > b.x && a.y < b.y + size2 && a.y + size1 > b.y
  }

  /** Boxes that only share an edge, or lie apart on either axis, do not collide. */
  lemma TouchingIsNotColliding(a: Point, b: Point, size1: real, size2: real)
    requires a.x + size1 <= b.x || b.x + size2 <= a.x || a.y + size1 <= b.y || b.y + size2 <= a.y
    ensures !IsColliding(a, b, size1, size2)
  {
  }

  /** Exchanging the two boxes exchanges their paddings: the test is about which size
      pads which object, so a call that passes them in the other order tests other
      boxes, shown here by a bullet and an enemy that collide only with the sizes
      swapped. */
  lemma SizeOrderMatters()
    ensures forall a: Point, b: Point, s1: real, s2: real ::
              IsColliding(a, b, s1, s2) == IsColliding(b, a, s2, s1)
    ensures var bullet := Point(-10.0, 0.0); var enemy := Point(0.0, 0.0);
      IsColliding(bullet, enemy, 20.0, 5.0) && !IsColliding(bullet, enemy, 5.0, 20.0)
  {
  }

  /** The `directions` table of handlePlayerInput for a player moving at (dx, dy) and
      facing `facing`: the velocity and facing a token sets, or None for a token the
      table does not hold. */
  function Steer(input: string, speed: real, dx: real, dy: real, facing: Direction): Option<(real, real, Direction)> {
    if input == "left" then Some((-speed, 0.0, Left))
    else if input == "right" then Some((speed, 0.0, Right))
    else if input == "up" then Some((0.0, -speed, Up))
    else if input == "down" then Some((0.0, speed, Down))
    else if input == "stopX" then Some((0.0, dy, facing))
    else if input == "stopY" then Some((dx, 0.0, facing))
    else None
  }

  predicate IsDirectionToken(input: string) {
    input == "left" || input == "right" || input == "up" || input == "down"
  }

  function TokenDirection(input: string): Direction
    requires IsDirectionToken(input)
  {
    if input == "left" then Left else if input == "right" then Right else if input == "up" then Up else Down
  }

  /** The tokens the table holds act as documented: a direction token sets the velocity
      to `speed` along its facing and turns the player, stopX and stopY zero one axis
      and keep the other and the facing, any other token is not in the table. */
  lemma SteerTable(input: string, speed: real, dx: real, dy: real, facing: Direction)
    ensures IsDirectionToken(input) ==>
      Steer(input, speed, dx, dy, facing)
        == Some((speed * Facing(TokenDirection(input)).0, speed * Facing(TokenDirection(input)).1,
                 TokenDirection(input)))
    ensures input == "stopX" ==> Steer(input, speed, dx, dy, facing) == Some((0.0, dy, facing))
    ensures input == "stopY" ==> Steer(input, speed, dx, dy, facing) == Some((dx, 0.0, facing))
    ensures Steer(input, speed, dx, dy, facing).None?
        <==> input !in {"left", "right", "up", "down", "stopX", "stopY"}
  {
  }

  /** `enemy_${Date.now()}_${i}`: the decimal stamp holds no `_`, so distinct
      (stamp, index) pairs give distinct strings. */
  datatype EnemyId = EnemyId(stamp: int, index: nat)

  datatype Enemy = Enemy(x: real, y: real, dx: real, dy: real) {
    function At(): Point { Point(x, y) }
  }

  /** The three `Math.random()` draws addEnemy makes, in call order. */
  datatype EnemyRoll = EnemyRoll(y: real, dx: real, dy: real) {
    predicate InUnit() {
      0.0 <= y < 1.0 && 0.0 <= dx < 1.0 && 0.0 <= dy < 1.0
    }
  }

  /** The record addEnemy stores, at horizontal position `x0`, at a random height in
      `[0, ySpan)` and drifting left at about half the player speed `speed` with a
      random vertical drift. */
  function SpawnEnemy(roll: EnemyRoll, x0: real, ySpan: real, speed: real): (e: Enemy)
    ensures e.x == x0
    ensures roll.InUnit() ==> -speed / 2.0 - 0.5 <= e.dx < -speed / 2.0 + 0.5
  {
    Enemy(x0, roll.y * ySpan, -speed / 2.0 + (roll.dx - 0.5), (roll.dy - 0.5) * speed)
  }

  /** With draws in [0, 1) a new enemy starts within its vertical span and drifts
      vertically by less than half the player speed. */
  lemma SpawnEnemyBounds(roll: EnemyRoll, x0: real, ySpan: real, speed: real)
    requires roll.InUnit() && 0.0 < ySpan && 0.0 < speed
    ensures 0.0 <= SpawnEnemy(roll, x0, ySpan, speed).y < ySpan
    ensures -speed / 2.0 <= SpawnEnemy(roll, x0, ySpan, speed).dy < speed / 2.0
  {
    ScaleBelow(roll.y, ySpan);
    ScaleBelow(roll.dy, speed);
  }

  /** One step of updateEnemyPositions for one enemy: move, reflect dy when the moved
      box touches the top or bottom (inclusive), clamp y, reflect dx when it crosses the
      left or right wall (strict), clamp x. */
  function Bounce(e: Enemy, width: real, height: real, size: real): (r: Enemy)
    ensures size <= width ==> 0.0 <= r.x <= width - size
    ensures size <= height ==> 0.0 <= r.y <= height - size
    ensures (e.y + e.dy <= 0.0 || e.y + e.dy + size >= height) ==> r.dy == -e.dy
    ensures !(e.y + e.dy <= 0.0 || e.y + e.dy + size >= height) ==> r.dy == e.dy && r.y == e.y + e.dy
    ensures (e.x + e.dx < 0.0 || e.x + e.dx + size > width) ==> r.dx == -e.dx
    ensures !(e.x + e.dx < 0.0 || e.x + e.dx + size > width) ==> r.dx == e.dx && r.x == e.x + e.dx
  {
    var x := e.x + e.dx;
    var y := e.y + e.dy;
    var dy := if y <= 0.0 || y + size >= height then -e.dy else e.dy;
    var dx := if x < 0.0 || x + size > width then -e.dx else e.dx;
    Enemy(Clamp(width - size, x), Clamp(height - size, y), dx, dy)
  }
}
