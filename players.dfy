/** backend/game/players.js: joining and leaving, the input handler, and the
    per-tick player movement that also decides whether the game is over. */
module Players {
  import opened Tables
  import opened Arena
  import opened Constants
  import opened Room
  import opened Bullets

  /** The record addPlayer stores: top-left corner, at rest, facing right, alive, no
      score and no buff. */
  function NewPlayer(isHost: bool): Player {
    Player(0.0, 0.0, 0.0, 0.0, Right, false, 0, false, 0, false, 0, isHost)
  }

  /** addPlayer. A second join with the same id replaces the record; only a host join
      moves `host`. */
  function AfterAddPlayer(s: RoomState, id: string, isHost: bool): RoomState {
    s.WithPlayers(s.PlayersBook().Put(id, NewPlayer(isHost))).(host := if isHost then Some(id) else s.host)
  }

  /** removePlayer. `host` is left as it was. */
  function AfterRemovePlayer(s: RoomState, id: string): RoomState {
    s.WithPlayers(s.PlayersBook().Drop(id))
  }

  /** handlePlayerInput: nothing for a missing or dead player; "shoot" fires a radial
      blast while the buff is on and a single shot otherwise; a token of the
      `directions` table sets the velocity and facing; any other token does
      nothing. */
  function AfterHandlePlayerInput(s: RoomState, id: string, input: string, now: int): RoomState {
    if id !in s.players.m || s.players.m[id].isDead then s
    else
      var p := s.players.m[id];
      if input == "shoot" then
        if p.radialBlast then AfterCreateRadialBlast(s, p, now) else AfterAddBullet(s, id, now)
      else
        match Steer(input, PLAYER_SPEED, p.dx, p.dy, p.direction)
        case None => s
        case Some((dx, dy, direction)) =>
          s.WithPlayers(s.PlayersBook().Put(id, p.(dx := dx, dy := dy, direction := direction)))
  }

  /** One step of updatePlayerPositions for a live player: move by (dx, dy) and clamp
      each axis into the arena. */
  function MovePlayer(p: Player): (q: Player)
    ensures Fits() ==> 0.0 <= q.x <= GAME_WIDTH - PLAYER_SIZE && 0.0 <= q.y <= GAME_HEIGHT - PLAYER_SIZE
    ensures 0.0 <= p.x + p.dx <= GAME_WIDTH - PLAYER_SIZE ==> q.x == p.x + p.dx
    ensures 0.0 <= p.y + p.dy <= GAME_HEIGHT - PLAYER_SIZE ==> q.y == p.y + p.dy
    ensures q == p.(x := q.x, y := q.y)
  {
    p.(x := Clamp(GAME_WIDTH - PLAYER_SIZE, p.x + p.dx),
       y := Clamp(GAME_HEIGHT - PLAYER_SIZE, p.y + p.dy))
  }

  /** updatePlayerPositions part way through: the players so far and whether every
      player visited was dead. */
  datatype MoveRun = MoveRun(book: Book<string, Player>, allDead: bool)

  /** One round of updatePlayerPositions' loop: a dead player is tombstoned in the
      tracker but kept in `players`; a live one moves, is logged, and clears
      `allPlayersDead`. */
  function MovePlayerStep(run: MoveRun, id: string): MoveRun {
    var b := run.book;
    if id !in b.t.m then run
    else if b.t.m[id].isDead then MoveRun(b.Tomb(id), run.allDead)
    else MoveRun(b.Put(id, MovePlayer(b.t.m[id])), false)
  }

  function MovePlayers(run: MoveRun, ks: seq<string>): MoveRun {
    if ks == [] then run else MovePlayerStep(MovePlayers(run, ks[..|ks| - 1]), ks[|ks| - 1])
  }

  function AfterUpdatePlayerPositions(s: RoomState): RoomState {
    var run := MovePlayers(MoveRun(s.PlayersBook(), true), s.players.keys);
    s.WithPlayers(run.book).(isGameOver := run.allDead)
  }

  // ---------------------------------------------------------------------------
  // Properties

  /** A join stores a fresh record, logs it live, and makes the player the host
      exactly when the join says so; nothing but the players and the host changes. */
  lemma AddPlayerFacts(s: RoomState, id: string, isHost: bool)
    ensures var r := AfterAddPlayer(s, id, isHost);
      && r.players.m == s.players.m[id := NewPlayer(isHost)]
      && r.changes.players == s.changes.players[id := Live]
      && r.players.m[id].isHost == isHost && !r.players.m[id].isDead && r.players.m[id].score == 0
      && (isHost ==> r.host == Some(id))
      && (!isHost ==> r.host == s.host)
      && r.bullets == s.bullets && r.enemies == s.enemies && r.isGameOver == s.isGameOver
    ensures s.Valid() ==> AfterAddPlayer(s, id, isHost).Valid()
  {
  }

  /** A leave deletes the player and tombstones it; `host` may go on naming a player
      who has left. */
  lemma RemovePlayerFacts(s: RoomState, id: string)
    ensures var r := AfterRemovePlayer(s, id);
      && r.players.m == s.players.m - {id}
      && r.changes.players == s.changes.players[id := Removed]
      && r.host == s.host
      && r.bullets == s.bullets && r.enemies == s.enemies
    ensures s.Valid() ==> AfterRemovePlayer(s, id).Valid()
  {
  }

  /** The host who leaves stays recorded as host. */
  lemma HostOutlivesLeave(s: RoomState, id: string)
    ensures AfterRemovePlayer(AfterAddPlayer(s, id, true), id).host == Some(id)
    ensures id !in AfterRemovePlayer(AfterAddPlayer(s, id, true), id).players.m
  {
  }

  /** Input from a missing or dead player, and any token outside the table, leaves
      the room exactly as it was. */
  lemma InputIgnored(s: RoomState, id: string, input: string, now: int)
    requires id !in s.players.m || s.players.m[id].isDead
      || input !in {"shoot", "left", "right", "up", "down", "stopX", "stopY"}
    ensures AfterHandlePlayerInput(s, id, input, now) == s
  {
    if id in s.players.m && !s.players.m[id].isDead && input != "shoot" {
      var p := s.players.m[id];
      SteerTable(input, PLAYER_SPEED, p.dx, p.dy, p.direction);
    }
  }

  /** A direction token from a live player sets its velocity to PLAYER_SPEED along the
      named facing and turns it; stopX and stopY zero one axis and keep the other and
      the facing. Only that player's record and its change entry change. */
  lemma InputSteers(s: RoomState, id: string, input: string, now: int)
    requires id in s.players.m && !s.players.m[id].isDead
    requires input in {"left", "right", "up", "down", "stopX", "stopY"}
    ensures var r := AfterHandlePlayerInput(s, id, input, now); var p := s.players.m[id];
      && r.bullets == s.bullets && r.changes.bullets == s.changes.bullets
      && r.changes.players == s.changes.players[id := Live]
      && (IsDirectionToken(input) ==>
            r.players.m == s.players.m[id := p.(dx := PLAYER_SPEED * Facing(TokenDirection(input)).0,
                                                dy := PLAYER_SPEED * Facing(TokenDirection(input)).1,
                                                direction := TokenDirection(input))])
      && (input == "stopX" ==> r.players.m == s.players.m[id := p.(dx := 0.0)])
      && (input == "stopY" ==> r.players.m == s.players.m[id := p.(dy := 0.0)])
  {
    var p := s.players.m[id];
    SteerTable(input, PLAYER_SPEED, p.dx, p.dy, p.direction);
  }

  /** "shoot" from a live player fires a radial blast while its buff is on and a
      single owned shot otherwise; the players are not touched. */
  lemma InputShoots(s: RoomState, id: string, now: int)
    requires id in s.players.m && !s.players.m[id].isDead
    ensures var r := AfterHandlePlayerInput(s, id, "shoot", now); var p := s.players.m[id];
      && r.players == s.players && r.changes.players == s.changes.players
      && (p.radialBlast ==> r == AfterCreateRadialBlast(s, p, now))
      && (!p.radialBlast ==> r == AfterAddBullet(s, id, now))
      && (!p.radialBlast ==> Shot(now) in r.bullets.m && r.bullets.m[Shot(now)].playerId == Some(id))
  {
  }

  /** The players updatePlayerPositions has visited among `ks` have each been dealt
      with once: a dead one kept where it was, a live one moved... */
  lemma {:induction false} MovePlayersMoved(b: Book<string, Player>, ks: seq<string>)
    requires Distinct(ks) && forall k :: k in ks ==> k in b.t.m
    ensures var r := MovePlayers(MoveRun(b, true), ks);
      && r.book.t.m.Keys == b.t.m.Keys
      && (forall id :: id in b.t.m ==>
            r.book.t.m[id] == if id in ks && !b.t.m[id].isDead then MovePlayer(b.t.m[id]) else b.t.m[id])
  {
    if ks != [] {
      var pre := ks[..|ks| - 1];
      var last := ks[|ks| - 1];
      SplitLast(ks);
      MovePlayersMoved(b, pre);
      var t := MovePlayers(MoveRun(b, true), pre);
      assert MovePlayers(MoveRun(b, true), ks) == MovePlayerStep(t, last);
      assert last in t.book.t.m && t.book.t.m[last] == b.t.m[last];
    }
  }

  /** ... a dead one tombstoned and a live one logged; the flag says that no visited
      player was alive. */
  lemma {:induction false} MovePlayersLogged(b: Book<string, Player>, ks: seq<string>)
    requires Distinct(ks) && forall k :: k in ks ==> k in b.t.m
    ensures var r := MovePlayers(MoveRun(b, true), ks);
      && (forall id :: id in r.book.log <==> id in b.log || id in ks)
      && (forall id :: id in ks ==> r.book.log[id] == if b.t.m[id].isDead then Removed else Live)
      && (forall id :: id in b.log && id !in ks ==> r.book.log[id] == b.log[id])
      && (r.allDead <==> forall id :: id in ks ==> b.t.m[id].isDead)
  {
    if ks != [] {
      var pre := ks[..|ks| - 1];
      var last := ks[|ks| - 1];
      SplitLast(ks);
      MovePlayersLogged(b, pre);
      MovePlayersMoved(b, pre);
      var t := MovePlayers(MoveRun(b, true), pre);
      assert MovePlayers(MoveRun(b, true), ks) == MovePlayerStep(t, last);
      assert last in t.book.t.m && t.book.t.m[last] == b.t.m[last];
    }
  }

  lemma {:induction false} MovePlayersValid(run: MoveRun, ks: seq<string>)
    requires run.book.Valid()
    ensures MovePlayers(run, ks).book.Valid()
    ensures MovePlayers(run, ks).book.t.keys == run.book.t.keys
  {
    if ks != [] {
      MovePlayersValid(run, ks[..|ks| - 1]);
    }
  }

  /** After updatePlayerPositions the game is over exactly when no player is alive,
      an empty room included; every live player is its old record moved by one
      clamped step and inside the arena, every dead one is where it was and is
      reported as a tombstone. */
  lemma PlayersAfterMove(s: RoomState)
    requires s.Valid()
    ensures var r := AfterUpdatePlayerPositions(s);
      && r.Valid()
      && r.players.keys == s.players.keys && r.players.m.Keys == s.players.m.Keys
      && (r.isGameOver <==> forall id :: id in s.players.m ==> s.players.m[id].isDead)
      && (forall id :: id in s.players.m && !s.players.m[id].isDead ==>
            r.players.m[id] == MovePlayer(s.players.m[id])
            && (Fits() ==>
                  0.0 <= r.players.m[id].x <= GAME_WIDTH - PLAYER_SIZE
                  && 0.0 <= r.players.m[id].y <= GAME_HEIGHT - PLAYER_SIZE)
            && id in r.changes.players && r.changes.players[id] == Live)
      && (forall id :: id in s.players.m && s.players.m[id].isDead ==>
            r.players.m[id] == s.players.m[id] && id in r.changes.players && r.changes.players[id] == Removed)
  {
    MovePlayersMoved(s.PlayersBook(), s.players.keys);
    MovePlayersLogged(s.PlayersBook(), s.players.keys);
    MovePlayersValid(MoveRun(s.PlayersBook(), true), s.players.keys);
  }

  /** An empty room is over after one movement pass. */
  lemma EmptyRoomIsOver(s: RoomState)
    requires s.Valid() && s.players.m == map[]
    ensures AfterUpdatePlayerPositions(s).isGameOver
  {
    PlayersAfterMove(s);
  }

  // ---------------------------------------------------------------------------
  // The functions of players.js on the room object

  method AddPlayer(g: Room, id: string, isHost: bool := false)
    modifies g
    ensures g.Data() == AfterAddPlayer(old(g.Data()), id, isHost)
  {
    g.players := g.players.Put(id, NewPlayer(isHost));
    g.changes := g.changes.(players := g.changes.players[id := Live]);
    if isHost {
      g.host := Some(id);
    }
  }

  method RemovePlayer(g: Room, id: string)
    modifies g
    ensures g.Data() == AfterRemovePlayer(old(g.Data()), id)
  {
    g.players := g.players.Remove(id);
    g.changes := g.changes.(players := g.changes.players[id := Removed]);
  }

  method HandlePlayerInput(g: Room, id: string, input: string, now: int)
    modifies g
    ensures g.Data() == AfterHandlePlayerInput(old(g.Data()), id, input, now)
  {
    if id !in g.players.m || g.players.m[id].isDead {
      return;
    }
    var player := g.players.m[id];
    if input == "shoot" {
      if player.radialBlast {
        CreateRadialBlast(g, player, now);
      } else {
        AddBullet(g, id, now);
      }
    } else {
      var steer := Steer(input, PLAYER_SPEED, player.dx, player.dy, player.direction);
      if steer.Some? {
        var (dx, dy, direction) := steer.value;
        g.players := g.players.Put(id, player.(dx := dx, dy := dy, direction := direction));
        g.changes := g.changes.(players := g.changes.players[id := Live]);
      }
    }
  }

  method UpdatePlayerPositions(g: Room)
    modifies g
    ensures g.Data() == AfterUpdatePlayerPositions(old(g.Data()))
  {
    ghost var s0 := g.Data();
    ghost var run0 := MoveRun(s0.PlayersBook(), true);
    var allPlayersDead := true;
    var ks := g.players.keys;
    var i := 0;
    while i < |ks|
      invariant 0 <= i <= |ks|
      invariant g.Data() == s0.WithPlayers(MovePlayers(run0, ks[..i]).book)
      invariant allPlayersDead == MovePlayers(run0, ks[..i]).allDead
    {
      var dead := MovePlayerAt(g, ks[i]);
      if !dead {
        allPlayersDead := false;
      }
      assert ks[..i + 1][..i] == ks[..i];
      i := i + 1;
    }
    assert ks[..i] == ks;
    g.isGameOver := allPlayersDead;
  }

  /** The body of updatePlayerPositions' loop for one key; returns whether the
      player was skipped as dead (a key no longer present counts as dead, since it
      does not clear the flag). */
  method MovePlayerAt(g: Room, playerId: string) returns (dead: bool)
    modifies g
    ensures var run := MovePlayerStep(MoveRun(old(g.Data()).PlayersBook(), true), playerId);
      g.Data() == old(g.Data()).WithPlayers(run.book) && dead == run.allDead
  {
    if playerId !in g.players.m {
      return true;
    }
    var player := g.players.m[playerId];
    if player.isDead {
      g.changes := g.changes.(players := g.changes.players[playerId := Removed]);
      return true;
    }
    var x := Max(0.0, Min(GAME_WIDTH - PLAYER_SIZE, player.x + player.dx));
    var y := Max(0.0, Min(GAME_HEIGHT - PLAYER_SIZE, player.y + player.dy));
    g.players := g.players.Put(playerId, player.(x := x, y := y));
    g.changes := g.changes.(players := g.changes.players[playerId := Live]);
    dead := false;
  }
}
