/** The session registry of backend/game/sessionManager.js: a module-level object that
    maps session ids to sessions of at most two players. Each session holds the sockets
    of its players, the socket.io namespace of the session, its game state (the value
    `GameState.State` of the object of backend/game/gameState.js, whose in-place
    methods are modelled in gamestate.dfy) and the stop handle of its game loop.

    `Snapshot` is the value of the registry and the functions over it say what each
    exported function and socket handler does; the class `Registry` is the mutable
    registry whose methods are proved to follow them. Sockets, the io server, the loop
    handles and the clock are opaque: the effects the registry has on them (starting a
    loop, calling a stop handle, announcing a started game) are kept as logs.

    The "startGame" handler calls a `startGame` that gameState.js does not export, so
    as written it throws whenever its guard passes; `IntendedStartGame` is the
    handler with the `startGame` its authors evidently meant. */
module SessionManager {
  import opened Tables
  import GameState

  /** A connected client: its socket id and an opaque token for the connection. */
  datatype Socket = Socket(id: string, conn: nat)

  /** The socket.io namespace `io.of("/" + sessionId)`; only its name is kept. */
  datatype Namespace = Namespace(name: string)

  /** What startGameLoop returns; the stop function of the loop, which is opaque. */
  type LoopHandle = nat

  /** `Date.now().toString()`: a session id is the decimal stamp of its creation. */
  type SessionId = string

  function Digit(d: nat): (c: char)
    requires d < 10
    ensures '0' <= c <= '9' && c as int - '0' as int == d
  {
    "0123456789"[d]
  }

  /** The decimal digits of `n`, most significant first, with no leading zero. */
  function Stamp(n: nat): (id: SessionId)
    ensures |id| >= 1 && (|id| == 1 <==> n < 10)
  {
    if n < 10 then [Digit(n)] else Stamp(n / 10) + [Digit(n % 10)]
  }

  /** Different clock readings give different session ids. */
  lemma {:induction false} StampInjective(a: nat, b: nat)
    requires Stamp(a) == Stamp(b)
    ensures a == b
  {
    if a >= 10 && b >= 10 {
      var sa, sb := Stamp(a), Stamp(b);
      assert sa[|sa| - 1] == Digit(a % 10) && sb[|sb| - 1] == Digit(b % 10);
      assert sa[..|sa| - 1] == Stamp(a / 10) && sb[..|sb| - 1] == Stamp(b / 10);
      StampInjective(a / 10, b / 10);
    } else if a < 10 && b < 10 {
      assert Stamp(a)[0] == Digit(a) && Stamp(b)[0] == Digit(b);
    }
  }

  // ---------------------------------------------------------------------------
  // The registry as a value

  /** A session, with the value of its game-state object. */
  datatype SessionState = SessionState(
    players: Table<string, Socket>,
    io: Namespace,
    game: GameState.State,
    gameLoopStop: Option<LoopHandle>)
  {
    /** The shape of a session stored under `id`: each socket under its own id, the
        same players in the game state, and the namespace named after the id. */
    ghost predicate Holds(id: SessionId) {
      && players.Valid() && game.Valid()
      && players.m.Keys == game.players.m.Keys
      && (forall p :: p in players.m ==> players.m[p].id == p)
      && io == Namespace("/" + id)
    }

    /** A stored session also has one or two players. */
    ghost predicate Valid(id: SessionId) {
      Holds(id) && 1 <= |players.keys| <= 2
    }
  }

  /** Every session is stored under its own id and has that shape. */
  ghost predicate Admissible(t: Table<SessionId, SessionState>) {
    t.Valid() && forall id :: id in t.m ==> t.m[id].Valid(id)
  }

  /** The sessions object and the effects the registry has had outside itself:
      the sessions whose loop it started, the stop handles it called and the
      sessions to which it announced "gameStarted", each in order. */
  datatype Snapshot = Snapshot(
    sessions: Table<SessionId, SessionState>,
    started: seq<SessionId>,
    stopped: seq<LoopHandle>,
    announced: seq<SessionId>)
  {
    ghost predicate Valid() {
      Admissible(sessions)
    }
  }

  lemma PutAdmissible(t: Table<SessionId, SessionState>, id: SessionId, s: SessionState)
    requires Admissible(t) && s.Valid(id)
    ensures Admissible(t.Put(id, s))
  {
  }

  lemma RemoveAdmissible(t: Table<SessionId, SessionState>, id: SessionId)
    requires Admissible(t)
    ensures Admissible(t.Remove(id))
  {
  }

  /** The session a new session starts as, before its first player joins. */
  function Opened(id: SessionId): SessionState {
    SessionState(Empty(), Namespace("/" + id), GameState.Initial(), None)
  }

  /** The test of findOrCreateSession's search: exactly one player. */
  function Lonely(s: SessionState): bool {
    |s.players.keys| == 1
  }

  /** The first session, in enumeration order, that holds exactly one player. */
  function Opening(r: Snapshot): (o: Option<SessionId>)
    ensures o.Some? ==> o.value in r.sessions.m && Lonely(r.sessions.m[o.value])
    ensures o.Some? ==> exists j :: (0 <= j < |r.sessions.keys| && r.sessions.keys[j] == o.value
      && forall i :: 0 <= i < j ==> !(r.sessions.keys[i] in r.sessions.m && Lonely(r.sessions.m[r.sessions.keys[i]])))
    ensures o.None? && r.Valid() ==> forall id :: id in r.sessions.m ==> !Lonely(r.sessions.m[id])
  {
    var i := FirstWhere(r.sessions.keys, r.sessions.m, Lonely);
    if i < |r.sessions.keys| then Some(r.sessions.keys[i])
    else
      assert r.Valid() ==> forall id :: id in r.sessions.m ==> !Lonely(r.sessions.m[id]) by {
        if r.Valid() {
          NoneWhere(r.sessions.keys, r.sessions.m, Lonely);
        }
      }
      None
  }

  /** `[h]` when the session has a stop handle, else nothing. */
  function HandleOf(s: SessionState): seq<LoopHandle> {
    if s.gameLoopStop.Some? then [s.gameLoopStop.value] else []
  }

  /** `session.players[socket.id] = socket` followed by addPlayer on its game. */
  function Admit(s: SessionState, socket: Socket): SessionState {
    s.(players := s.players.Put(socket.id, socket),
       game := GameState.AfterAddPlayer(s.game, socket.id))
  }

  /** removePlayer on the session's game followed by `delete session.players[socketId]`. */
  function Release(s: SessionState, socketId: string): SessionState {
    s.(game := GameState.AfterRemovePlayer(s.game, socketId),
       players := s.players.Remove(socketId))
  }

  /** Admitting a socket keeps the shape and adds one player unless it was there. */
  lemma AdmitHolds(s: SessionState, socket: Socket, id: SessionId)
    requires s.Holds(id)
    ensures Admit(s, socket).Holds(id)
    ensures |Admit(s, socket).players.keys| == |s.players.keys| + if socket.id in s.players.m then 0 else 1
  {
    var s1 := Admit(s, socket);
    assert s1.players.m.Keys == s.players.m.Keys + {socket.id};
  }

  /** Releasing a socket keeps the shape and removes one player if it was there. */
  lemma ReleaseHolds(s: SessionState, socketId: string, id: SessionId)
    requires s.Holds(id)
    ensures Release(s, socketId).Holds(id)
    ensures |Release(s, socketId).players.keys| == |s.players.keys| - if socketId in s.players.m then 1 else 0
  {
    var s1 := Release(s, socketId);
    assert s1.players.m.Keys == s.players.m.Keys - {socketId};
    s1.players.Count();
    s.players.Count();
  }

  /** The session empties exactly when the leaving socket was its only player. */
  lemma ReleaseEmpties(s: SessionState, socketId: string)
    requires s.players.Valid()
    ensures |Release(s, socketId).players.keys| == 0 <==> s.players.m.Keys - {socketId} == {}
  {
    var s1 := Release(s, socketId);
    assert s1.players.m.Keys == s.players.m.Keys - {socketId};
    s1.players.NoKeys();
  }

  /** findOrCreateSession(socket, io) at clock reading `now`, when startGameLoop
      would return `loop` (`None`: it returns nothing). The pair is the new registry
      and the session id the socket is told. */
  function Join(r: Snapshot, socket: Socket, now: nat, loop: Option<LoopHandle>): (Snapshot, SessionId) {
    var o := Opening(r);
    var id := if o.Some? then o.value else Stamp(now);
    (Join1(r, id, if o.Some? then r.sessions.m[id] else Opened(id), socket, loop), id)
  }

  /** The rest of findOrCreateSession once it has chosen the session `s` under `id`. */
  function Join1(r: Snapshot, id: SessionId, s: SessionState, socket: Socket, loop: Option<LoopHandle>): Snapshot {
    var s1 := Admit(s, socket);
    if s1.gameLoopStop.None? then
      r.(sessions := r.sessions.Put(id, s1.(gameLoopStop := loop)), started := r.started + [id])
    else
      r.(sessions := r.sessions.Put(id, s1))
  }

  /** handleDisconnect(socketId, sessionId), which the "disconnect" handler calls
      with the ids the join bound. */
  function Disconnect(r: Snapshot, socketId: string, id: SessionId): Snapshot {
    if id !in r.sessions.m then r
    else
      var s1 := Release(r.sessions.m[id], socketId);
      if |s1.players.keys| == 0 then
        r.(sessions := r.sessions.Remove(id), stopped := r.stopped + HandleOf(s1))
      else
        r.(sessions := r.sessions.Put(id, s1))
  }

  /** The "startGame" handler of the session `id`, as written. gameState.js exports no
      `startGame`, so the call that follows the guard throws a TypeError before the
      announcement; the flag says that it threw, and the registry is unchanged. */
  function StartGame(r: Snapshot, id: SessionId): (Snapshot, bool) {
    (r, id in r.sessions.m && !r.sessions.m[id].game.isGameStarted)
  }

  /** The handler as its authors meant it, with a `startGame` that marks the game
      started: the flag says whether it acted. */
  function IntendedStartGame(r: Snapshot, id: SessionId): (Snapshot, bool) {
    if id in r.sessions.m && !r.sessions.m[id].game.isGameStarted then
      var s := r.sessions.m[id];
      (r.(sessions := r.sessions.Put(id, s.(game := s.game.(isGameStarted := true))),
          announced := r.announced + [id]), true)
    else (r, false)
  }

  /** The "playerInput" handler of socket `socketId` in session `id`; the flag says
      that it threw, reading `gameState` of a session that is gone. */
  function PlayerInput(r: Snapshot, socketId: string, id: SessionId, input: string, now: int): (Snapshot, bool) {
    if id !in r.sessions.m then (r, true)
    else
      var s := r.sessions.m[id];
      (r.(sessions := r.sessions.Put(id, s.(game := GameState.AfterHandlePlayerInput(s.game, socketId, input, now)))), false)
  }

  /** One round of clearSessions' loop: call the session's stop handle, then delete it. */
  function ClearStep(r: Snapshot, id: SessionId): Snapshot {
    if id in r.sessions.m then
      r.(sessions := r.sessions.Remove(id), stopped := r.stopped + HandleOf(r.sessions.m[id]))
    else r
  }

  /** The rounds of clearSessions' loop over the keys `ids`, in order. */
  function ClearSteps(r: Snapshot, ids: seq<SessionId>): Snapshot
    decreases |ids|
  {
    if ids == [] then r else ClearStep(ClearSteps(r, ids[..|ids| - 1]), ids[|ids| - 1])
  }

  /** clearSessions(). */
  function Clear(r: Snapshot): Snapshot {
    ClearSteps(r, r.sessions.keys)
  }

  /** The stop handles of the sessions of `m` under the keys `ids`, in order. */
  function Handles(ids: seq<SessionId>, m: map<SessionId, SessionState>): seq<LoopHandle>
    decreases |ids|
  {
    if ids == [] then []
    else
      var id := ids[|ids| - 1];
      Handles(ids[..|ids| - 1], m) + (if id in m then HandleOf(m[id]) else [])
  }

  // ---------------------------------------------------------------------------
  // What the functions promise

  /** Joining keeps every session at one or two players, mirrored in its game. */
  lemma JoinValid(r: Snapshot, socket: Socket, now: nat, loop: Option<LoopHandle>)
    requires r.Valid()
    ensures Join(r, socket, now, loop).0.Valid()
  {
    var o := Opening(r);
    var id := if o.Some? then o.value else Stamp(now);
    var s := if o.Some? then r.sessions.m[id] else Opened(id);
    assert s.Holds(id) && |s.players.keys| <= 1;
    AdmitHolds(s, socket, id);
    var s1 := Admit(s, socket);
    PutAdmissible(r.sessions, id, if s1.gameLoopStop.None? then s1.(gameLoopStop := loop) else s1);
  }

  /** Where a socket lands: in the first session holding one player when there is
      one, which then holds two unless the socket was already in it; else alone in
      a new session under the stamp of `now`. */
  lemma JoinPlaces(r: Snapshot, socket: Socket, now: nat, loop: Option<LoopHandle>)
    requires r.Valid()
    ensures var (r1, id) := Join(r, socket, now, loop);
      && (Opening(r).Some? ==>
            && id == Opening(r).value
            && |r1.sessions.m[id].players.keys| == if socket.id in r.sessions.m[id].players.m then 1 else 2)
      && (Opening(r).None? ==>
            && id == Stamp(now)
            && r1.sessions.m[id].players.m == map[socket.id := socket]
            && r1.sessions.m[id].game == GameState.AfterAddPlayer(GameState.Initial(), socket.id))
  {
    var (r1, id) := Join(r, socket, now, loop);
    var s := if Opening(r).Some? then r.sessions.m[id] else Opened(id);
    AdmitHolds(s, socket, id);
  }

  /** The socket is stored in the session it is told and is a player of its game.
      No other session changes, and nothing is stopped or announced. */
  lemma JoinKeeps(r: Snapshot, socket: Socket, now: nat, loop: Option<LoopHandle>)
    ensures var (r1, id) := Join(r, socket, now, loop);
      && id in r1.sessions.m && socket.id in r1.sessions.m[id].players.m
      && r1.sessions.m[id].players.m[socket.id] == socket
      && socket.id in r1.sessions.m[id].game.players.m
      && r1.sessions.m.Keys == r.sessions.m.Keys + {id}
      && (forall k :: k in r.sessions.m && k != id ==> r1.sessions.m[k] == r.sessions.m[k])
      && r1.stopped == r.stopped && r1.announced == r.announced
  {
  }

  /** A join that finds no session with one player creates the session under the
      stamp of `now`. A session already stored under that stamp is overwritten in
      place, keeping its position; its loop is never stopped. */
  lemma JoinOverwrites(r: Snapshot, socket: Socket, now: nat, loop: Option<LoopHandle>)
    requires r.Valid() && Opening(r).None?
    ensures var (r1, id) := Join(r, socket, now, loop);
      && id == Stamp(now)
      && (id in r.sessions.m ==> r1.sessions.keys == r.sessions.keys)
      && (id !in r.sessions.m ==> r1.sessions.keys == r.sessions.keys + [id])
      && r1.sessions.m[id] == Opened(id).(
           players := Empty().Put(socket.id, socket),
           game := GameState.AfterAddPlayer(GameState.Initial(), socket.id),
           gameLoopStop := loop)
      && r1.started == r.started + [id] && r1.stopped == r.stopped
  {
  }

  /** The loop of a session is started only while it has no stop handle. Joining a
      session that has one keeps it and starts nothing; otherwise the loop is started
      once and its handle is whatever startGameLoop returned. */
  lemma JoinStartsLoop(r: Snapshot, socket: Socket, now: nat, loop: Option<LoopHandle>)
    requires r.Valid()
    ensures var (r1, id) := Join(r, socket, now, loop);
      var running := Opening(r).Some? && r.sessions.m[id].gameLoopStop.Some?;
      && (running ==> r1.started == r.started && r1.sessions.m[id].gameLoopStop == r.sessions.m[id].gameLoopStop)
      && (!running ==> r1.started == r.started + [id] && r1.sessions.m[id].gameLoopStop == loop)
  {
  }

  /** With no session waiting for a second player, two sockets that join one after
      the other land in the same session, which then holds exactly the two. */
  lemma JoinTwice(r: Snapshot, a: Socket, b: Socket, now1: nat, now2: nat, loop1: Option<LoopHandle>, loop2: Option<LoopHandle>)
    requires r.Valid() && Opening(r).None? && a.id != b.id
    ensures var (r1, id1) := Join(r, a, now1, loop1);
      var (r2, id2) := Join(r1, b, now2, loop2);
      && id1 == id2 == Stamp(now1)
      && r2.sessions.m[id2].players.m == map[a.id := a, b.id := b]
  {
    var (r1, id1) := Join(r, a, now1, loop1);
    JoinPlaces(r, a, now1, loop1);
    JoinKeeps(r, a, now1, loop1);
    JoinValid(r, a, now1, loop1);
    assert Lonely(r1.sessions.m[id1]);
    forall k | k in r1.sessions.m && k != id1
      ensures !Lonely(r1.sessions.m[k])
    {
      assert k in r.sessions.m;
    }
    var o := Opening(r1);
    if o.None? {
      assert false;
    }
    assert o.value == id1;
    JoinPlaces(r1, b, now2, loop2);
    var t := r1.sessions.m[id1].players.Put(b.id, b);
    assert t.m == map[a.id := a][b.id := b];
  }

  /** Disconnecting keeps every session at one or two players. */
  lemma DisconnectValid(r: Snapshot, socketId: string, id: SessionId)
    requires r.Valid()
    ensures Disconnect(r, socketId, id).Valid()
  {
    if id in r.sessions.m {
      ReleaseHolds(r.sessions.m[id], socketId, id);
      var s1 := Release(r.sessions.m[id], socketId);
      if |s1.players.keys| == 0 {
        RemoveAdmissible(r.sessions, id);
      } else {
        PutAdmissible(r.sessions, id, s1);
      }
    }
  }

  /** A disconnect from a session that is gone does nothing. */
  lemma DisconnectUnknown(r: Snapshot, socketId: string, id: SessionId)
    requires id !in r.sessions.m
    ensures Disconnect(r, socketId, id) == r
  {
  }

  /** A disconnect takes the socket out of the session and out of its game. The
      session survives exactly when another player is left; when none is, the
      session is deleted and its stop handle is called. */
  lemma DisconnectLeaves(r: Snapshot, socketId: string, id: SessionId)
    requires r.sessions.Valid() && id in r.sessions.m && r.sessions.m[id].players.Valid()
    ensures var r1, s := Disconnect(r, socketId, id), r.sessions.m[id];
      && (id in r1.sessions.m <==> s.players.m.Keys - {socketId} != {})
      && (id in r1.sessions.m ==>
            && r1.sessions.m[id].players.m == s.players.m - {socketId}
            && r1.sessions.m[id].game == GameState.AfterRemovePlayer(s.game, socketId)
            && r1.stopped == r.stopped)
      && (id !in r1.sessions.m ==> r1.stopped == r.stopped + HandleOf(s))
  {
    ReleaseEmpties(r.sessions.m[id], socketId);
  }

  /** No other session changes, and nothing is started or announced. */
  lemma DisconnectKeeps(r: Snapshot, socketId: string, id: SessionId)
    ensures var r1 := Disconnect(r, socketId, id);
      && r1.sessions.m.Keys - {id} == r.sessions.m.Keys - {id}
      && (forall k :: k in r.sessions.m && k != id ==> r1.sessions.m[k] == r.sessions.m[k])
      && r1.started == r.started && r1.announced == r.announced
  {
  }

  /** A socket that opens a fresh session and then leaves it restores the sessions as
      they were. The leave calls exactly the handle startGameLoop returned, so when it
      returned nothing (as gameLoop.js does) the loop is never stopped. */
  lemma JoinThenLeave(r: Snapshot, socket: Socket, now: nat, loop: Option<LoopHandle>)
    requires r.Valid() && Opening(r).None? && Stamp(now) !in r.sessions.m
    ensures var (r1, id) := Join(r, socket, now, loop);
      var r2 := Disconnect(r1, socket.id, id);
      && r2.sessions == r.sessions
      && r2.started == r.started + [id]
      && r2.stopped == r.stopped + (if loop.Some? then [loop.value] else [])
  {
    var (r1, id) := Join(r, socket, now, loop);
    JoinOverwrites(r, socket, now, loop);
    var s := r1.sessions.m[id];
    ReleaseEmpties(s, socket.id);
    PutRemove(r.sessions, id, s);
  }

  /** No session's game is marked started. createGameState leaves the flag unset and
      no other function of the repository sets it. */
  ghost predicate NoneStarted(r: Snapshot) {
    forall id :: id in r.sessions.m ==> !r.sessions.m[id].game.isGameStarted
  }

  /** The "startGame" handler as written changes nothing. It throws exactly when the
      session exists and its game is not marked started, which, while no game is,
      means exactly when the session exists. */
  lemma StartGameThrows(r: Snapshot, id: SessionId)
    ensures var (r1, thrown) := StartGame(r, id);
      && r1 == r
      && (thrown <==> id in r.sessions.m && !r.sessions.m[id].game.isGameStarted)
      && (NoneStarted(r) ==> (thrown <==> id in r.sessions.m))
  {
  }

  /** Joining marks no game started. */
  lemma JoinStartsNothing(r: Snapshot, socket: Socket, now: nat, loop: Option<LoopHandle>)
    requires NoneStarted(r)
    ensures NoneStarted(Join(r, socket, now, loop).0)
  {
  }

  /** Disconnecting marks no game started. */
  lemma DisconnectStartsNothing(r: Snapshot, socketId: string, id: SessionId)
    requires NoneStarted(r)
    ensures NoneStarted(Disconnect(r, socketId, id))
  {
  }

  /** Player input marks no game started. */
  lemma PlayerInputStartsNothing(r: Snapshot, socketId: string, id: SessionId, input: string, now: int)
    requires NoneStarted(r)
    ensures NoneStarted(PlayerInput(r, socketId, id, input, now).0)
  {
  }

  /** The "startGame" handler as written marks no game started either. */
  lemma StartGameStartsNothing(r: Snapshot, id: SessionId)
    requires NoneStarted(r)
    ensures NoneStarted(StartGame(r, id).0)
  {
  }

  /** Nor does clearSessions. */
  lemma ClearStartsNothing(r: Snapshot)
    requires r.Valid() && NoneStarted(r)
    ensures NoneStarted(Clear(r))
  {
    ClearStepsTable(r, r.sessions.keys);
  }

  /** The discrepancy on the smallest input: a socket joins the empty registry and
      its client sends "startGame". The handler as written throws and announces
      nothing; the intended handler starts the game and announces it. */
  lemma LoneJoinerCannotStart(socket: Socket, now: nat, loop: Option<LoopHandle>)
    ensures var (r1, id) := Join(Snapshot(Empty(), [], [], []), socket, now, loop);
      && StartGame(r1, id) == (r1, true)
      && r1.announced == []
      && IntendedStartGame(r1, id).1
      && IntendedStartGame(r1, id).0.announced == [id]
      && IntendedStartGame(r1, id).0.sessions.m[id].game.isGameStarted
  {
    var r0 := Snapshot(Empty(), [], [], []);
    assert Opening(r0).None? by {
      assert FirstWhere(r0.sessions.keys, r0.sessions.m, Lonely) == 0;
    }
  }

  /** The intended handler acts exactly when the session exists and its game has
      not started; it then starts the game and announces it once. */
  lemma IntendedStartActs(r: Snapshot, id: SessionId)
    requires r.Valid()
    ensures var (r1, acted) := IntendedStartGame(r, id);
      && (acted <==> id in r.sessions.m && !r.sessions.m[id].game.isGameStarted)
      && (!acted ==> r1 == r)
      && (acted ==>
            && r1.sessions.m == r.sessions.m[id := r.sessions.m[id].(game := r.sessions.m[id].game.(isGameStarted := true))]
            && r1.sessions.keys == r.sessions.keys
            && r1.announced == r.announced + [id])
      && r1.Valid()
  {
  }

  /** A second intended "startGame" changes nothing. */
  lemma IntendedStartOnce(r: Snapshot, id: SessionId)
    ensures var r1 := IntendedStartGame(r, id).0; IntendedStartGame(r1, id) == (r1, false)
  {
  }

  /** The "playerInput" handler throws exactly when the session is gone; otherwise
      only that session's game changes, and its players stay the same. */
  lemma PlayerInputKeeps(r: Snapshot, socketId: string, id: SessionId, input: string, now: int)
    requires r.Valid()
    ensures var (r1, thrown) := PlayerInput(r, socketId, id, input, now);
      && (thrown <==> id !in r.sessions.m)
      && (thrown ==> r1 == r)
      && r1.Valid()
      && r1.sessions.keys == r.sessions.keys
      && (!thrown ==> r1.sessions.m[id].players == r.sessions.m[id].players)
  {
  }

  /** The rounds of clearSessions over distinct keys delete exactly those keys and
      leave the rest of the registry alone. */
  lemma {:induction false} ClearStepsTable(r: Snapshot, ids: seq<SessionId>)
    requires r.sessions.Valid() && Distinct(ids)
    ensures var r1 := ClearSteps(r, ids);
      && r1.sessions.Valid()
      && (forall k :: k in r1.sessions.m <==> k in r.sessions.m && k !in ids)
      && (forall k :: k in r1.sessions.m ==> r1.sessions.m[k] == r.sessions.m[k])
      && r1.started == r.started && r1.announced == r.announced
  {
    if ids != [] {
      SplitLast(ids);
      ClearStepsTable(r, ids[..|ids| - 1]);
    }
  }

  /** ... and call the stop handles of the deleted sessions in key order. */
  lemma {:induction false} ClearStepsStopped(r: Snapshot, ids: seq<SessionId>)
    requires r.sessions.Valid() && Distinct(ids)
    ensures ClearSteps(r, ids).stopped == r.stopped + Handles(ids, r.sessions.m)
  {
    if ids != [] {
      var pre, id := ids[..|ids| - 1], ids[|ids| - 1];
      SplitLast(ids);
      ClearStepsStopped(r, pre);
      ClearStepsTable(r, pre);
      var r0 := ClearSteps(r, pre);
      assert id in r0.sessions.m <==> id in r.sessions.m;
      assert id in r0.sessions.m ==> r0.sessions.m[id] == r.sessions.m[id];
    }
  }

  /** The handles listed are exactly those of the sessions under the keys. */
  lemma {:induction false} HandlesCover(ids: seq<SessionId>, m: map<SessionId, SessionState>)
    ensures forall k :: k in ids && k in m && m[k].gameLoopStop.Some? ==> m[k].gameLoopStop.value in Handles(ids, m)
    ensures forall h :: h in Handles(ids, m) ==> exists k :: k in ids && k in m && m[k].gameLoopStop == Some(h)
  {
    if ids != [] {
      var pre, id := ids[..|ids| - 1], ids[|ids| - 1];
      HandlesCover(pre, m);
      assert forall k :: k in ids ==> k in pre || k == id;
      assert forall k :: k in pre ==> k in ids;
    }
  }

  /** clearSessions leaves the registry empty and calls the stop handle of every
      session that has one, and no other. */
  lemma ClearEmpties(r: Snapshot)
    requires r.Valid()
    ensures var r1 := Clear(r);
      && r1.sessions == Empty()
      && r1.Valid()
      && |r1.stopped| >= |r.stopped| && r1.stopped[..|r.stopped|] == r.stopped
      && (forall k :: k in r.sessions.m && r.sessions.m[k].gameLoopStop.Some? ==>
            r.sessions.m[k].gameLoopStop.value in r1.stopped[|r.stopped|..])
      && (forall h :: h in r1.stopped[|r.stopped|..] ==>
            exists k :: k in r.sessions.m && r.sessions.m[k].gameLoopStop == Some(h))
      && r1.started == r.started && r1.announced == r.announced
  {
    var r1 := Clear(r);
    ClearStepsTable(r, r.sessions.keys);
    ClearStepsStopped(r, r.sessions.keys);
    HandlesCover(r.sessions.keys, r.sessions.m);
    assert r1.sessions.m.Keys == {};
    r1.sessions.NoKeys();
    assert r1.stopped[|r.stopped|..] == Handles(r.sessions.keys, r.sessions.m);
  }

  // ---------------------------------------------------------------------------
  // The mutable registry

  /** The module-level `sessions` object, with the logs of its effects. */
  class Registry {
    var sessions: Table<SessionId, SessionState>
    var started: seq<SessionId>
    var stopped: seq<LoopHandle>
    var announced: seq<SessionId>

    ghost function Data(): Snapshot
      reads this
    {
      Snapshot(sessions, started, stopped, announced)
    }

    ghost predicate Valid()
      reads this
    {
      Data().Valid()
    }

    /** `const sessions = {}`. */
    constructor ()
      ensures Valid() && Data() == Snapshot(Empty(), [], [], [])
    {
      sessions := Empty();
      started := [];
      stopped := [];
      announced := [];
    }

    /** findOrCreateSession(socket, io) at clock reading `now`, when startGameLoop
        returns `loop`. */
    method FindOrCreateSession(socket: Socket, now: nat, loop: Option<LoopHandle>) returns (sessionId: SessionId)
      requires Valid()
      modifies this
      ensures Valid()
      ensures (Data(), sessionId) == Join(old(Data()), socket, now, loop)
    {
      ghost var r0 := Data();
      var i := FindFirst(sessions.keys, sessions.m, Lonely);
      var s: SessionState;
      if i < |sessions.keys| {
        sessionId := sessions.keys[i];
        s := sessions.m[sessionId];
      } else {
        sessionId := Stamp(now);
        s := Opened(sessionId);
      }
      Seat(sessionId, s, socket, loop);
      JoinValid(r0, socket, now, loop);
    }

    /** The rest of findOrCreateSession once the session `s` is chosen: store the
        socket, add its player to the game and start the loop if it has no stop
        handle. */
    method Seat(id: SessionId, s: SessionState, socket: Socket, loop: Option<LoopHandle>)
      modifies this
      ensures Data() == Join1(old(Data()), id, s, socket, loop)
    {
      var s1 := s.(players := s.players.Put(socket.id, socket));
      s1 := s1.(game := GameState.AfterAddPlayer(s1.game, socket.id));
      if s1.gameLoopStop.None? {
        s1 := s1.(gameLoopStop := loop);
        started := started + [id];
      }
      sessions := sessions.Put(id, s1);
    }

    /** handleDisconnect(socketId, sessionId), the "disconnect" handler. */
    method HandleDisconnect(socketId: string, id: SessionId)
      requires Valid()
      modifies this
      ensures Valid()
      ensures Data() == Disconnect(old(Data()), socketId, id)
    {
      ghost var r0 := Data();
      if id in sessions.m {
        Leave(socketId, id);
      }
      DisconnectValid(r0, socketId, id);
    }

    /** handleDisconnect for a session that exists: release the socket, then delete
        the session and stop its loop if no player is left. */
    method Leave(socketId: string, id: SessionId)
      requires id in sessions.m
      modifies this
      ensures Data() == Disconnect(old(Data()), socketId, id)
    {
      var s := Release(sessions.m[id], socketId);
      if |s.players.keys| == 0 {
        stopped := stopped + HandleOf(s);
        sessions := sessions.Remove(id);
      } else {
        sessions := sessions.Put(id, s);
      }
    }

    /** The "startGame" handler of the session `id`, as written: `thrown` says that
        the guard let the call to the missing `startGame` through; nothing changes. */
    method OnStartGame(id: SessionId) returns (thrown: bool)
      ensures (Data(), thrown) == StartGame(Data(), id)
    {
      thrown := id in sessions.m && !sessions.m[id].game.isGameStarted;
    }

    /** The "playerInput" handler of socket `socketId` in session `id`; `thrown`
        says that the session was gone. */
    method OnPlayerInput(socketId: string, id: SessionId, input: string, now: int) returns (thrown: bool)
      requires Valid()
      modifies this
      ensures Valid()
      ensures (Data(), thrown) == PlayerInput(old(Data()), socketId, id, input, now)
    {
      ghost var r0 := Data();
      if id !in sessions.m {
        return true;
      }
      var s := sessions.m[id];
      sessions := sessions.Put(id, s.(game := GameState.AfterHandlePlayerInput(s.game, socketId, input, now)));
      thrown := false;
      PlayerInputKeeps(r0, socketId, id, input, now);
    }

    /** clearSessions(): stop every loop and delete every session. */
    method ClearSessions()
      requires Valid()
      modifies this
      ensures Valid()
      ensures Data() == Clear(old(Data()))
    {
      ghost var r0 := Data();
      var ids := sessions.keys;
      var i := 0;
      while i < |ids|
        invariant 0 <= i <= |ids|
        invariant Data() == ClearSteps(r0, ids[..i])
      {
        DropSession(ids[i]);
        assert ids[..i + 1][..i] == ids[..i];
        i := i + 1;
      }
      assert ids[..i] == ids;
      ClearEmpties(r0);
    }

    /** One round of clearSessions' loop. */
    method DropSession(id: SessionId)
      modifies this
      ensures Data() == ClearStep(old(Data()), id)
    {
      if id in sessions.m {
        var s := sessions.m[id];
        if s.gameLoopStop.Some? {
          stopped := stopped + [s.gameLoopStop.value];
        }
        sessions := sessions.Remove(id);
      }
    }

    /** getSession(sessionId): the stored session, or `undefined`. */
    method GetSession(id: SessionId) returns (s: Option<SessionState>)
      ensures s.Some? <==> id in sessions.m
      ensures s.Some? ==> s.value == sessions.m[id]
    {
      s := if id in sessions.m then Some(sessions.m[id]) else None;
    }
  }
}
