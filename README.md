# Chess relay server: room registry and socket handlers

This project models the core of a small Node.js chess backend. The server keeps one
process-wide `games` Map from room id to `{ game, players, colors }`. Five socket.io
events change it:

- `createRoom` opens a room. The caller is seated as white.
- `joinRoom` seats a second socket as black and starts the game.
- `move` checks that the caller holds the side to move, asks the chess engine to play
  the move, broadcasts the new position, and closes the room when the game is over.
- `resign` gives the win to the other colour and closes the room.
- `disconnect` closes the first room, in Map insertion order, that seats the departing
  socket.

Handlers run one at a time on Node's event loop, so each event is one atomic step.

Layout, one module per file:

- `wrappers.dfy` (`Wrappers`): `Option`, used for JavaScript's `undefined`.
- `ordered_map.dfy` (`OrderedMap`): a JavaScript `Map`. Keys keep insertion order.
  `set` of a new key appends it. `set` of a present key keeps its position. `delete`
  drops the key and leaves the others in order.
- `chess.dfy` (`Chess`): the chess engine as an oracle. `GameState` is an opaque type.
  `Engine` is a record of total functions: `initial`, `turn`, `tryMove`, `fen`,
  `isGameOver`, `isCheckmate`, `isDraw` and `isStalemate`. Every proof holds for every
  engine.
- `protocol.dfy` (`Protocol`): the emitted events and their payloads. An outbox entry is
  `ToCaller` (`socket.emit`) or `ToRoom` (`io.to(roomId).emit`).
- `rooms.dfy` (`Rooms`): a room, its colour table, and the `gameOver` payload of a
  finished game.
- `handlers.dfy` (`Handlers`): each handler as a function. It maps the Map before an event
  to the Map after it and the list of messages emitted, in order. `Run` applies a sequence
  of events.
- `server.dfy` (`Server`): class `Registry`. Its fields are the `games` Map and an
  append-only outbox. It has one method per handler, written step by step like the
  handler: the two turn checks of `move`, and the `for...of` scan with `break` in
  `disconnect`. Each method is proved to produce exactly the Map and messages of its
  `Handlers` function.
- `properties.dfy` (`Properties`): properties of several events in a row.

The registry invariant is `Handlers.RegistryValid`. The Map's order lists every key
exactly once. Every room seats one or two sockets. The room's colour table is the one that
creating and joining build: the creator is white, and the second socket to arrive is black.

Behaviour kept as the code has it, though a reader might expect one seat per socket, no
moves before the second player joins, and a reason on every `gameOver`:

- A socket may join a room it is already seated in. It is then seated twice and
  recoloured black (`Properties.CreatorJoiningOwnRoomTurnsBlack`).
- The white creator may move before anyone joins. The turn check only compares colours
  (`Properties.LoneCreatorMayMove`).
- Every draw that is not a stalemate is reported as `'insufficient material'`. A game
  that is over but is neither checkmate nor a draw gets a `gameOver` with an undefined
  payload (`Rooms.GameOverData`).
- `disconnect` closes only the first room that seats the socket. socket.io fires
  `disconnect` once per connection, and a reconnecting client gets a new `socket.id`.
  So when a socket is seated in two rooms, the later room is not closed. It stays in
  `games`, still seating the departed socket, until its other player resigns or
  disconnects; that player is never told the opponent left
  (`Properties.CreatorJoiningSecondRoomSeatedTwice`, `Properties.DisconnectLeavesLaterRoom`,
  `Properties.LeftRoomClosedByOtherPlayer`). A later room the departed socket holds alone
  stays until someone joins it and leaves. Running the handler a second time would close
  that room (`Properties.DisconnectTwiceClosesBoth`), but the program never does so. For a
  socket seated in at most one room, a second run changes nothing
  (`Properties.DisconnectAgainIsNoop`).
- Nothing stops one socket from being seated in several rooms.
- Join failures are reported as an `error` event carrying the text
  `'Room does not exist'` or `'Room is full'`.

## Model

| member | source | states |
|---|---|---|
| `OrderedMap.OMap.Get` | server.js:38 | `games.get` gives a value exactly when the key is present, and that value is the one stored under the key |
| `OrderedMap.OMap.Set` | server.js:31 | `games.set` keeps every key listed once in the order; a new key goes last, a present key keeps its position and only its value changes |
| `OrderedMap.OMap.Delete` | server.js:96 | `games.delete` removes the key and cuts exactly its position out of the iteration order; deleting an absent key changes nothing |
| `Chess.Opposite` | server.js:86 | the winner named on resignation is never the resigning colour |
| `Rooms.ColouredIffSeated` | server.js:47-48 | in a well-formed room a socket has a colour exactly when it is seated |
| `Rooms.TwoSeatsColouredOnce` | server.js:43-48 | with two different sockets seated, the colour table maps exactly those two, the creator to white and the joiner to black |
| `Rooms.GameOverData` | server.js:67-73 | the payload is undefined exactly when the game is neither checkmate nor a draw; a checkmate win goes to the side not to move; a draw is `stalemate` exactly when the engine says stalemate, otherwise `insufficient material` |
| `Handlers.CreateRoom` | server.js:28-34 | the new room holds the engine's initial position and seats only the caller, as white; a fresh id is appended to the order, while a reused id overwrites its room and keeps the order as it was; every other room is unchanged; only the caller gets `roomCreated{roomId, white}`; the registry invariant is kept |
| `Handlers.JoinRoom` | server.js:37-52 | an unknown id or a room already holding two sockets gives only an `error` to the caller and leaves the registry unchanged; otherwise the caller is appended and coloured black, so the room now seats exactly two; other rooms and the order are unchanged; the caller gets `roomJoined{roomId, black}`, then the room gets `gameStart{fen}` |
| `Handlers.MayMove` | server.js:56-61 | the check passes exactly when the room exists and neither turn check rejects: not (side to move is white and the caller's colour is not white), and not (side to move is black and the caller's colour is not black); a caller with no colour (`undefined`) never passes |
| `Handlers.MayMoveIffSeatedOnTurn` | server.js:60-61 | a `move` passes the turn check exactly when the room exists, the caller is seated in it, and the caller's colour is the side to move |
| `Handlers.Move` | server.js:55-80 | a move that fails the turn check changes nothing and emits nothing; an illegal move only sends `invalidMove` to the caller; a legal move first broadcasts `boardUpdate{fen, lastMove{from, to}}`; if the game is then over, `gameOver` is broadcast next and the room is deleted, otherwise the room keeps its place with the new position; every message goes to the caller or to that room |
| `Handlers.Resign` | server.js:83-89 | a missing room or an unseated caller gives a no-op; otherwise the room gets `gameOver{winner: the colour opposite the caller's, resignation}` and only that room is deleted |
| `Handlers.FirstRoomOf` | server.js:93-97 | the scan from a position finds the first room in insertion order that seats the caller, or reports that none from there on does |
| `Handlers.Disconnect` | server.js:92-100 | nothing is emitted exactly when no room seats the caller, and then nothing changes; otherwise the first room in insertion order that seats the caller gets `opponentDisconnected` and is removed, and every other room stays in its order |
| `Handlers.Handle` | server.js:28-100 | every handler keeps the registry invariant |
| `Handlers.Run` | server.js:24-100 | any sequence of events, handled one after another, keeps the registry invariant |
| `Server.Registry.constructor` | server.js:17 | the process starts with an empty `games` Map and nothing emitted |
| `Server.Registry.CreateRoom` | server.js:28-34 | under a fresh id, the handler step by step yields the Map and messages of `Handlers.CreateRoom` and adds exactly one key |
| `Server.Registry.JoinRoom` | server.js:37-52 | mutating the room's `players` and `colors` and writing it back yields the Map and messages of `Handlers.JoinRoom` |
| `Server.Registry.Move` | server.js:55-80 | the two literal turn checks, the in-place game update and the payload built branch by branch yield the Map and messages of `Handlers.Move` |
| `Server.Registry.Resign` | server.js:83-89 | the handler yields the Map and messages of `Handlers.Resign` |
| `Server.Registry.Disconnect` | server.js:92-100 | the insertion-order loop with `break` yields the Map and messages of `Handlers.Disconnect` |
| `Properties.RunConcat` | server.js:24-100 | running two batches of events one after the other equals running them as one batch, with the messages concatenated |
| `Properties.SeatsNeverExceedTwo` | server.js:43-48 | from process start, after any events, every room seats one or two sockets, coloured as created and joined |
| `Properties.AbsentRoomIgnored` | server.js:37-89 | for a room not in the registry (never created, or closed), `joinRoom` reports that it does not exist, and `move` and `resign` do nothing |
| `Properties.ResignClosesRoom` | server.js:83-89 | after a resignation the room is gone and every other room is unchanged |
| `Properties.ThirdJoinRefused` | server.js:43-46 | after a create and a join, a third socket gets only `'Room is full'` and the registry is unchanged |
| `Properties.NonMemberMoveDropped` | server.js:56-61 | a `move` from a socket not seated in the room is dropped without reply |
| `Properties.OutOfTurnMoveDropped` | server.js:60-61 | a `move` from a seated socket whose colour is not the side to move is dropped without reply |
| `Properties.DisconnectAgainIsNoop` | server.js:92-100 | for a socket seated in at most one room, a second `disconnect` emits nothing and changes nothing |
| `Properties.DisconnectLeavesLaterRoom` | server.js:93-98 | when both rooms of a two-room registry seat the socket, its one `disconnect` leaves the later room in the registry, still seating the socket, and sends that room no `opponentDisconnected` |
| `Properties.DisconnectTwiceClosesBoth` | server.js:93-98 | when both rooms of a two-room registry seat the socket, one run of the handler closes the older room and a second run closes the other; the program itself never runs it twice for one connection |
| `Properties.OnlyRoomClosedBySeated` | server.js:83-98 | a socket seated in the only room closes it by `disconnect`, which sends exactly one `opponentDisconnected` to that room, or by `resign` |
| `Properties.LeftRoomClosedByOtherPlayer` | server.js:28-98 | after a creates one room, b creates another, a joins b's room and a disconnects, b's room is the only one left, and b's `disconnect` or `resign` closes it |
| `Properties.CreatorJoiningSecondRoomSeatedTwice` | server.js:28-48 | a socket that creates one room and joins another is seated in both, and the rooms are in creation order |
| `Properties.CreatorJoiningOwnRoomTurnsBlack` | server.js:43-48 | a creator who joins its own room is seated twice and coloured black only, so its moves on white's turn are dropped |
| `Properties.LoneCreatorMayMove` | server.js:60-65 | with nobody joined, the white creator's legal move is played and broadcast |
| `Properties.LoneCreatorResignationWinsForBlack` | server.js:85-87 | a lone creator who resigns makes black the winner, and the room is closed |
| `Properties.OpeningScenario` | server.js:28-65 | create then join gives white to the creator and black to the joiner, and `gameStart` carries the initial position; the joiner moving on white's turn is ignored; the creator's legal opening move is broadcast as one `boardUpdate` |

## Left out

- The Express app, the HTTP server, the root liveness route, port selection and CORS
  (server.js:1-3, 7-16, 19-22, 103). These are process plumbing.
- Message delivery and room membership in socket.io (`socket.join`, and which sockets a
  room broadcast actually reaches). Emitting is modelled as appending to the outbox, with
  the target recorded: the caller or the room id.
- The chess rules. Legality, FEN text, and checkmate, draw and stalemate detection are the
  engine's. `Engine` is any record of functions, so nothing depends on chess.
- An engine that reports an illegal move by throwing instead of returning a falsy result.
  With such an engine, the exception leaves the `move` handler at server.js:62 before
  anything is emitted or changed, so the `invalidMove` reply at server.js:78 is never sent.
  The model follows the handler's `if (result)` test instead.
- Delivery constraints of socket.io on event sequences. `Handlers.Run` accepts any
  sequence, including ones socket.io never delivers: a second `disconnect` for one
  socket, or any event from a socket after its `disconnect`.
- `uuidv4()` randomness. The new id is a parameter. `Server.Registry.CreateRoom` requires
  that the id is not already a key. `Handlers.CreateRoom` is total and, as `Map.set`
  would, overwrites an existing room under a reused id.
- Malformed payloads. A missing `move` object makes the handler throw, and a move given as
  a string has no `from` or `to`. `MoveRequest` always carries `from` and `to`.
- `console.log` (server.js:25, 103).
- Concurrency. Handlers run to completion on one event loop, so one method call per event
  is faithful.
- Room objects are modelled as values that a handler writes back with `set`, not as heap
  objects. The source never aliases a room outside the Map, so this changes nothing
  observable.
