/**
  The registry and its five socket handlers as functions: each takes the `games`
  Map before an event and gives the Map after it together with the messages
  the handler emitted, in order. These are the specification the imperative
  `Server.Registry` is proved against.
 */
module Handlers {
  import opened Wrappers
  import opened OrderedMap
  import opened Chess
  import opened Protocol
  import opened Rooms

  /** The process-wide `games` Map from room id to room. */
  type Games = OMap<RoomId, Room>

  /** The outcome of handling one event. */
  datatype Step = Step(games: Games, sent: seq<Outgoing>)

  /** `new Map()`. */
  const NoGames: Games := OMap([], map[])

  /** The registry between events: a proper Map whose every room is well formed. */
  ghost predicate RegistryValid(g: Games) {
    g.Valid() && forall id :: id in g.entries ==> WellFormed(g.entries[id])
  }

  /** Every room other than `id` is present in `g'` exactly when in `g`, with the same contents. */
  ghost predicate OthersUnchanged(g: Games, g': Games, id: RoomId) {
    forall k :: k != id ==>
      (k in g'.entries <==> k in g.entries) && (k in g.entries ==> g'.entries[k] == g.entries[k])
  }

  /** Every message goes to the calling socket or to room `id`. */
  ghost predicate Addressed(sent: seq<Outgoing>, caller: SocketId, id: RoomId) {
    forall m :: m in sent ==> (m.ToCaller? ==> m.socket == caller) && (m.ToRoom? ==> m.room == id)
  }

  /** `createRoom`, with `roomId` standing for the value `uuidv4()` returned. */
  function CreateRoom(g: Games, engine: Engine, caller: SocketId, roomId: RoomId): (r: Step)
    requires RegistryValid(g)
    ensures RegistryValid(r.games)
    ensures roomId in r.games.entries
    ensures r.games.entries[roomId].game == engine.initial
    ensures r.games.entries[roomId].players == [caller]
    ensures ColourOf(r.games.entries[roomId], caller) == Some(White)
    ensures roomId !in g.entries ==> r.games.order == g.order + [roomId]
    ensures roomId in g.entries ==> r.games.order == g.order
    ensures OthersUnchanged(g, r.games, roomId)
    ensures r.sent == [ToCaller(caller, RoomCreated(roomId, White))]
  {
    var room := Room(engine.initial, [caller], map[caller := White]);
    Step(g.Set(roomId, room), [ToCaller(caller, RoomCreated(roomId, White))])
  }

  /** `joinRoom`: an unknown or full room is reported to the caller alone; otherwise the caller takes the black seat. */
  function JoinRoom(g: Games, engine: Engine, caller: SocketId, roomId: RoomId): (r: Step)
    requires RegistryValid(g)
    ensures RegistryValid(r.games)
    ensures roomId !in g.entries ==> r == Step(g, [ToCaller(caller, Error(RoomMissing))])
    ensures roomId in g.entries && |g.entries[roomId].players| >= 2 ==>
      r == Step(g, [ToCaller(caller, Error(RoomFull))])
    ensures roomId in g.entries && |g.entries[roomId].players| < 2 ==>
      var room := g.entries[roomId];
      && r.games.order == g.order
      && OthersUnchanged(g, r.games, roomId)
      && roomId in r.games.entries
      && r.games.entries[roomId].game == room.game
      && r.games.entries[roomId].players == room.players + [caller]
      && |r.games.entries[roomId].players| == 2
      && ColourOf(r.games.entries[roomId], caller) == Some(Black)
      && r.sent == [ToCaller(caller, RoomJoined(roomId, Black)), ToRoom(roomId, GameStart(engine.fen(room.game)))]
  {
    match g.Get(roomId)
    case None => Step(g, [ToCaller(caller, Error(RoomMissing))])
    case Some(room) =>
      if |room.players| >= 2 then
        Step(g, [ToCaller(caller, Error(RoomFull))])
      else
        var joined := room.(players := room.players + [caller], colors := room.colors[caller := Black]);
        Step(g.Set(roomId, joined),
             [ToCaller(caller, RoomJoined(roomId, Black)), ToRoom(roomId, GameStart(engine.fen(room.game)))])
  }

  /**
    The room and turn checks of `move`: the room exists and the caller's colour
    is the side to move. The ensures give the two checks as the handler writes
    them, one per side, each rejecting a caller whose colour is not that side.
   */
  function MayMove(g: Games, engine: Engine, caller: SocketId, roomId: RoomId): (ok: bool)
    ensures ok <==>
      && roomId in g.entries
      && !(engine.turn(g.entries[roomId].game) == White && ColourOf(g.entries[roomId], caller) != Some(White))
      && !(engine.turn(g.entries[roomId].game) == Black && ColourOf(g.entries[roomId], caller) != Some(Black))
    ensures roomId in g.entries && ColourOf(g.entries[roomId], caller).None? ==> !ok
  {
    roomId in g.entries &&
      var side := engine.turn(g.entries[roomId].game);
      assert side == White || side == Black;
      ColourOf(g.entries[roomId], caller) == Some(side)
  }

  /** Only a seated socket holding the side to move passes the turn check. */
  lemma MayMoveIffSeatedOnTurn(g: Games, engine: Engine, caller: SocketId, roomId: RoomId)
    requires RegistryValid(g)
    ensures MayMove(g, engine, caller, roomId) <==>
      roomId in g.entries && caller in g.entries[roomId].players &&
      g.entries[roomId].colors[caller] == engine.turn(g.entries[roomId].game)
  {
    if roomId in g.entries {
      ColouredIffSeated(g.entries[roomId], caller);
    }
  }

  /**
    `move`: dropped silently unless the caller holds the side to move; an illegal
    move is reported to the caller alone; a legal one is broadcast and, if it ends
    the game, followed by `gameOver` and the room's removal.
   */
  function Move(g: Games, engine: Engine, caller: SocketId, roomId: RoomId, mv: MoveRequest): (r: Step)
    requires RegistryValid(g)
    ensures RegistryValid(r.games)
    ensures Addressed(r.sent, caller, roomId)
    ensures !MayMove(g, engine, caller, roomId) ==> r == Step(g, [])
    ensures MayMove(g, engine, caller, roomId) ==>
      var room := g.entries[roomId];
      match engine.tryMove(room.game, mv)
      case None => r == Step(g, [ToCaller(caller, InvalidMove)])
      case Some(next) =>
        && |r.sent| >= 1
        && r.sent[0] == ToRoom(roomId, BoardUpdate(engine.fen(next), LastMove(mv.from, mv.to)))
        && (engine.isGameOver(next) ==>
              && r.games == g.Delete(roomId)
              && r.sent == [r.sent[0], ToRoom(roomId, GameOver(GameOverData(engine, next)))])
        && (!engine.isGameOver(next) ==>
              && r.games.order == g.order
              && r.games.entries == g.entries[roomId := room.(game := next)]
              && |r.sent| == 1)
  {
    if !MayMove(g, engine, caller, roomId) then
      Step(g, [])
    else
      var room := g.entries[roomId];
      match engine.tryMove(room.game, mv)
      case None => Step(g, [ToCaller(caller, InvalidMove)])
      case Some(next) =>
        var update := ToRoom(roomId, BoardUpdate(engine.fen(next), LastMove(mv.from, mv.to)));
        if engine.isGameOver(next) then
          Step(g.Delete(roomId), [update, ToRoom(roomId, GameOver(GameOverData(engine, next)))])
        else
          Step(g.Set(roomId, room.(game := next)), [update])
  }

  /** `resign`: a no-op unless the caller is seated; otherwise the other colour wins and the room is removed. */
  function Resign(g: Games, caller: SocketId, roomId: RoomId): (r: Step)
    requires RegistryValid(g)
    ensures RegistryValid(r.games)
    ensures !(roomId in g.entries && caller in g.entries[roomId].players) ==> r == Step(g, [])
    ensures roomId in g.entries && caller in g.entries[roomId].players ==>
      && ColourOf(g.entries[roomId], caller).Some?
      && r.games == g.Delete(roomId)
      && r.sent == [ToRoom(roomId, GameOver(Some(Win(Opposite(ColourOf(g.entries[roomId], caller).value), Resignation))))]
  {
    match g.Get(roomId)
    case None => Step(g, [])
    case Some(room) =>
      if caller !in room.players then
        Step(g, [])
      else
        ColouredIffSeated(room, caller);
        var winner := if ColourOf(room, caller) == Some(White) then Black else White;
        Step(g.Delete(roomId), [ToRoom(roomId, GameOver(Some(Win(winner, Resignation))))])
  }

  /** The room at position `i` of the iteration order seats `caller`. */
  ghost predicate Seated(g: Games, i: int, caller: SocketId) {
    0 <= i < |g.order| && g.order[i] in g.entries && caller in g.entries[g.order[i]].players
  }

  /** Position `i` is the first, in iteration order, whose room seats `caller`. */
  ghost predicate FirstSeat(g: Games, i: int, caller: SocketId) {
    Seated(g, i, caller) && forall j :: 0 <= j < i ==> !Seated(g, j, caller)
  }

  /** The `for...of` scan of `disconnect`, from position `from` on: the first room seating `caller`. */
  function FirstRoomOf(g: Games, caller: SocketId, from: nat): (r: Option<nat>)
    requires g.Valid() && from <= |g.order|
    decreases |g.order| - from
    ensures r.Some? ==>
      from <= r.value && Seated(g, r.value, caller) &&
      forall j :: from <= j < r.value ==> !Seated(g, j, caller)
    ensures r.None? ==> forall j :: from <= j < |g.order| ==> !Seated(g, j, caller)
  {
    if from == |g.order| then None
    else if caller in g.entries[g.order[from]].players then Some(from)
    else FirstRoomOf(g, caller, from + 1)
  }

  /** A scan that finds no seat at any position has looked at every room. */
  lemma NoSeatInAnyRoom(g: Games, caller: SocketId)
    requires g.Valid()
    requires forall j :: 0 <= j < |g.order| ==> !Seated(g, j, caller)
    ensures forall id :: id in g.entries ==> caller !in g.entries[id].players
  {
    forall id | id in g.entries
      ensures caller !in g.entries[id].players
    {
      var j :| 0 <= j < |g.order| && g.order[j] == id;
      assert !Seated(g, j, caller);
    }
  }

  /**
    `disconnect`: the first room in insertion order that seats the caller is told
    and removed; every other room stays, in its order; with no such room nothing happens.
   */
  function Disconnect(g: Games, caller: SocketId): (r: Step)
    requires RegistryValid(g)
    ensures RegistryValid(r.games)
    ensures r.sent == [] <==> forall id :: id in g.entries ==> caller !in g.entries[id].players
    ensures r.sent == [] ==> r.games == g
    ensures forall i :: FirstSeat(g, i, caller) ==>
      && r.games.entries == g.entries - {g.order[i]}
      && r.games.order == g.order[..i] + g.order[i + 1..]
      && r.sent == [ToRoom(g.order[i], OpponentDisconnected)]
  {
    match FirstRoomOf(g, caller, 0)
    case None => NoSeatInAnyRoom(g, caller); Step(g, [])
    case Some(i) => Step(g.Delete(g.order[i]), [ToRoom(g.order[i], OpponentDisconnected)])
  }

  /** A socket event with its caller and payload. */
  datatype Event =
    | CreateEvent(caller: SocketId, roomId: RoomId)
    | JoinEvent(caller: SocketId, roomId: RoomId)
    | MoveEvent(caller: SocketId, roomId: RoomId, move: MoveRequest)
    | ResignEvent(caller: SocketId, roomId: RoomId)
    | DisconnectEvent(caller: SocketId)

  /** The handler the event loop runs for `e`. */
  function Handle(g: Games, engine: Engine, e: Event): (r: Step)
    requires RegistryValid(g)
    ensures RegistryValid(r.games)
  {
    match e
    case CreateEvent(caller, roomId) => CreateRoom(g, engine, caller, roomId)
    case JoinEvent(caller, roomId) => JoinRoom(g, engine, caller, roomId)
    case MoveEvent(caller, roomId, mv) => Move(g, engine, caller, roomId, mv)
    case ResignEvent(caller, roomId) => Resign(g, caller, roomId)
    case DisconnectEvent(caller) => Disconnect(g, caller)
  }

  /** Handlers run to completion one after another: a sequence of events, and everything they emit. */
  function Run(g: Games, engine: Engine, events: seq<Event>): (r: Step)
    requires RegistryValid(g)
    ensures RegistryValid(r.games)
    decreases |events|
  {
    if events == [] then Step(g, [])
    else
      var first := Handle(g, engine, events[0]);
      var rest := Run(first.games, engine, events[1..]);
      Step(rest.games, first.sent + rest.sent)
  }
}
