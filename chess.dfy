/**
  The chess rules engine as the relay sees it: an oracle over positions it
  never looks inside. Any engine value may be plugged in; nothing proved about
  the relay depends on chess rules.
 */
module Chess {
  import opened Wrappers

  /** A position held by the engine (a `Chess` instance). */
  type GameState(==)

  /** A side: the engine's `turn()` answers 'w' or 'b', rooms store 'white' or 'black'. */
  datatype Colour = White | Black

  /** The other side. */
  function Opposite(c: Colour): (r: Colour)
    ensures r != c
  {
    if c == White then Black else White
  }

  /** The move object a client sends; the relay reads only `from` and `to`. */
  datatype MoveRequest = MoveRequest(from: string, to: string, promotion: Option<string>)

  /**
    The engine's interface. `tryMove` is `game.move(move)`: the next position when
    the move is legal, nothing when it is not.
   */
  datatype Engine = Engine(
    initial: GameState,
    turn: GameState -> Colour,
    tryMove: (GameState, MoveRequest) -> Option<GameState>,
    fen: GameState -> string,
    isGameOver: GameState -> bool,
    isCheckmate: GameState -> bool,
    isDraw: GameState -> bool,
    isStalemate: GameState -> bool)
}
