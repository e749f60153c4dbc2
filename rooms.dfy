/** One entry of the registry: `{ game, players, colors }`. */
module Rooms {
  import opened Wrappers
  import opened Chess
  import opened Protocol

  /** A room: the engine's position, the sockets in join order, and each socket's colour. */
  datatype Room = Room(game: GameState, players: seq<SocketId>, colors: map<SocketId, Colour>)

  /**
    The colour table that `createRoom` and then `joinRoom` build for a seating:
    the creator gets white, the second arrival black. A socket that joins its own
    room overwrites its entry with black.
   */
  function SeatColours(players: seq<SocketId>): map<SocketId, Colour>
    requires 1 <= |players| <= 2
  {
    if |players| == 1 then map[players[0] := White]
    else map[players[0] := White][players[1] := Black]
  }

  /** What every room in the registry satisfies between two events. */
  ghost predicate WellFormed(r: Room) {
    1 <= |r.players| <= 2 && r.colors == SeatColours(r.players)
  }

  /** `room.colors[socket.id]`, which is `undefined` for a socket without a colour. */
  function ColourOf(r: Room, s: SocketId): Option<Colour> {
    if s in r.colors then Some(r.colors[s]) else None
  }

  /** Exactly the seated sockets have a colour. */
  lemma ColouredIffSeated(r: Room, s: SocketId)
    requires WellFormed(r)
    ensures ColourOf(r, s).Some? <==> s in r.players
  {
    if |r.players| == 2 {
      assert r.players == [r.players[0], r.players[1]];
    } else {
      assert r.players == [r.players[0]];
    }
  }

  /**
    Once two different sockets are seated, the colour table is a bijection onto
    both colours and the creator holds white.
   */
  lemma TwoSeatsColouredOnce(r: Room)
    requires WellFormed(r) && |r.players| == 2 && r.players[0] != r.players[1]
    ensures r.colors.Keys == {r.players[0], r.players[1]}
    ensures r.colors[r.players[0]] == White && r.colors[r.players[1]] == Black
  {
  }

  /**
    The `gameOver` payload for a finished position: on checkmate the side not to
    move wins; otherwise a draw is a stalemate or else reported as insufficient
    material; a game over that is neither gives no payload.
   */
  function GameOverData(engine: Engine, game: GameState): (r: Option<ResultData>)
    ensures r.None? <==> !engine.isCheckmate(game) && !engine.isDraw(game)
    ensures r.Some? && r.value.Win? ==>
      r.value.winner != engine.turn(game) && r.value.reason == Checkmate && engine.isCheckmate(game)
    ensures r.Some? && r.value.Draw? ==>
      !engine.isCheckmate(game) && engine.isDraw(game) &&
      (r.value.reason == Stalemate <==> engine.isStalemate(game)) &&
      (r.value.reason == Stalemate || r.value.reason == InsufficientMaterial)
  {
    if engine.isCheckmate(game) then
      Some(Win(if engine.turn(game) == White then Black else White, Checkmate))
    else if engine.isDraw(game) then
      Some(Draw(if engine.isStalemate(game) then Stalemate else InsufficientMaterial))
    else
      None
  }
}
