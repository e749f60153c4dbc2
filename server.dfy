/**
  The server process: the `games` Map it changes in place and the messages its
  handlers emit, one method per socket event. Each method does what its handler
  does, step by step, and is proved to agree with the function of the same name
  in `Handlers`.
 */
module Server {
  import opened Wrappers
  import opened OrderedMap
  import opened Chess
  import opened Protocol
  import opened Rooms
  import opened Handlers

  class Registry {
    /** The chess engine every room's game runs on. */
    const engine: Engine
    /** The `games` Map. */
    var games: Games
    /** Every message emitted so far, in emission order. */
    var outbox: seq<Outgoing>

    ghost predicate Valid()
      reads this
    {
      RegistryValid(games)
    }

    /** Process start: `const games = new Map()`. */
    constructor (engine: Engine)
      ensures Valid()
      ensures this.engine == engine && games == NoGames && outbox == []
    {
      this.engine := engine;
      games := NoGames;
      outbox := [];
    }

    /** `createRoom`; `roomId` is the fresh value of `uuidv4()`. */
    method CreateRoom(caller: SocketId, roomId: RoomId)
      requires Valid() && roomId !in games.entries
      modifies this
      ensures Valid()
      ensures games == Handlers.CreateRoom(old(games), engine, caller, roomId).games
      ensures outbox == old(outbox) + Handlers.CreateRoom(old(games), engine, caller, roomId).sent
      ensures games.entries.Keys == old(games.entries.Keys) + {roomId}
    {
      var game := engine.initial;
      games := games.Set(roomId, Room(game, [caller], map[caller := White]));
      outbox := outbox + [ToCaller(caller, RoomCreated(roomId, White))];
    }

    /** `joinRoom`. */
    method JoinRoom(caller: SocketId, roomId: RoomId)
      requires Valid()
      modifies this
      ensures Valid()
      ensures games == Handlers.JoinRoom(old(games), engine, caller, roomId).games
      ensures outbox == old(outbox) + Handlers.JoinRoom(old(games), engine, caller, roomId).sent
    {
      var found := games.Get(roomId);
      if found.None? {
        outbox := outbox + [ToCaller(caller, Error(RoomMissing))];
        return;
      }
      var room := found.value;
      if |room.players| >= 2 {
        outbox := outbox + [ToCaller(caller, Error(RoomFull))];
        return;
      }
      room := room.(players := room.players + [caller]);
      room := room.(colors := room.colors[caller := Black]);
      games := games.Set(roomId, room);
      outbox := outbox + [ToCaller(caller, RoomJoined(roomId, Black))];
      outbox := outbox + [ToRoom(roomId, GameStart(engine.fen(room.game)))];
    }

    /** `move`, with the two turn checks as the handler writes them. */
    method Move(caller: SocketId, roomId: RoomId, mv: MoveRequest)
      requires Valid()
      modifies this
      ensures Valid()
      ensures games == Handlers.Move(old(games), engine, caller, roomId, mv).games
      ensures outbox == old(outbox) + Handlers.Move(old(games), engine, caller, roomId, mv).sent
    {
      var found := games.Get(roomId);
      if found.None? {
        return;
      }
      var room := found.value;
      var game := room.game;
      if engine.turn(game) == White && ColourOf(room, caller) != Some(White) {
        return;
      }
      if engine.turn(game) == Black && ColourOf(room, caller) != Some(Black) {
        return;
      }
      assert MayMove(games, engine, caller, roomId);
      var result := engine.tryMove(game, mv);
      if result.Some? {
        game := result.value;
        room := room.(game := game);
        games := games.Set(roomId, room);
        var lastMove := LastMove(mv.from, mv.to);
        outbox := outbox + [ToRoom(roomId, BoardUpdate(engine.fen(game), lastMove))];
        if engine.isGameOver(game) {
          var resultData: Option<ResultData> := None;
          if engine.isCheckmate(game) {
            var winner := if engine.turn(game) == White then Black else White;
            resultData := Some(Win(winner, Checkmate));
          } else if engine.isDraw(game) {
            resultData := Some(Draw(if engine.isStalemate(game) then Stalemate else InsufficientMaterial));
          }
          assert resultData == GameOverData(engine, game);
          outbox := outbox + [ToRoom(roomId, GameOver(resultData))];
          SetThenDelete(old(games), roomId, room);
          games := games.Delete(roomId);
        }
      } else {
        outbox := outbox + [ToCaller(caller, InvalidMove)];
      }
    }

    /** `resign`. */
    method Resign(caller: SocketId, roomId: RoomId)
      requires Valid()
      modifies this
      ensures Valid()
      ensures games == Handlers.Resign(old(games), caller, roomId).games
      ensures outbox == old(outbox) + Handlers.Resign(old(games), caller, roomId).sent
    {
      var found := games.Get(roomId);
      if found.None? || caller !in found.value.players {
        return;
      }
      var room := found.value;
      var winner := if ColourOf(room, caller) == Some(White) then Black else White;
      outbox := outbox + [ToRoom(roomId, GameOver(Some(Win(winner, Resignation))))];
      games := games.Delete(roomId);
    }

    /** `disconnect`: scan the rooms in insertion order and close the first that seats the caller. */
    method Disconnect(caller: SocketId)
      requires Valid()
      modifies this
      ensures Valid()
      ensures games == Handlers.Disconnect(old(games), caller).games
      ensures outbox == old(outbox) + Handlers.Disconnect(old(games), caller).sent
    {
      var i := 0;
      while i < |games.order|
        invariant 0 <= i <= |games.order|
        invariant games == old(games) && outbox == old(outbox)
        invariant forall j :: 0 <= j < i ==> !Seated(games, j, caller)
      {
        var roomId := games.order[i];
        var room := games.entries[roomId];
        if caller in room.players {
          assert FirstSeat(games, i, caller);
          outbox := outbox + [ToRoom(roomId, OpponentDisconnected)];
          games := games.Delete(roomId);
          break;
        }
        i := i + 1;
      }
    }
  }
}
