/** The events' payloads and the messages the server emits. */
module Protocol {
  import opened Wrappers
  import opened Chess

  /** A socket's `socket.id`. */
  type SocketId = string

  /** A room key, as generated by `uuidv4()` or as sent by a client. */
  type RoomId = string

  /** The `reason` field of a `gameOver` payload. */
  datatype Reason = Checkmate | Resignation | Stalemate | InsufficientMaterial

  /** A `gameOver` payload: `{ winner, reason }` or `{ result: 'draw', reason }`. */
  datatype ResultData = Win(winner: Colour, reason: Reason) | Draw(reason: Reason)

  /** The `lastMove` of a `boardUpdate`. */
  datatype LastMove = LastMove(from: string, to: string)

  /** An event name with its payload. `GameOver(None)` is a `gameOver` whose payload is `undefined`. */
  datatype Message =
    | RoomCreated(roomId: RoomId, color: Colour)
    | RoomJoined(roomId: RoomId, color: Colour)
    | Error(text: string)
    | GameStart(fen: string)
    | BoardUpdate(fen: string, lastMove: LastMove)
    | InvalidMove
    | GameOver(result: Option<ResultData>)
    | OpponentDisconnected

  /** `socket.emit` (to the calling socket only) or `io.to(roomId).emit` (to a room). */
  datatype Outgoing = ToCaller(socket: SocketId, msg: Message) | ToRoom(room: RoomId, msg: Message)

  const RoomMissing: string := "Room does not exist"
  const RoomFull: string := "Room is full"
}
