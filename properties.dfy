/** Properties of conversations with the server: several events in a row, stated over the handler functions. */
module Properties {
  import opened Wrappers
  import opened OrderedMap
  import opened Chess
  import opened Protocol
  import opened Rooms
  import opened Handlers

  /** Running two batches of events one after the other is running them as one batch. */
  lemma {:induction false} RunConcat(g: Games, engine: Engine, first: seq<Event>, second: seq<Event>)
    requires RegistryValid(g)
    ensures var mid := Run(g, engine, first);
      Run(g, engine, first + second) == Step(Run(mid.games, engine, second).games, mid.sent + Run(mid.games, engine, second).sent)
    decreases |first|
  {
    if first == [] {
      assert first + second == second;
    } else {
      var all := first + second;
      assert all[0] == first[0];
      assert all[1..] == first[1..] + second;
      var step := Handle(g, engine, first[0]);
      var tail := Run(step.games, engine, first[1..]);
      RunConcat(step.games, engine, first[1..], second);
      var last := Run(tail.games, engine, second);
      calc {
        Run(g, engine, all);
        Step(Run(step.games, engine, all[1..]).games, step.sent + Run(step.games, engine, all[1..]).sent);
        Step(last.games, step.sent + (tail.sent + last.sent));
        { assert step.sent + (tail.sent + last.sent) == (step.sent + tail.sent) + last.sent; }
        Step(last.games, (step.sent + tail.sent) + last.sent);
      }
    }
  }

  /** From a fresh process, whatever the events, every room seats one or two sockets, coloured as created and joined. */
  lemma SeatsNeverExceedTwo(engine: Engine, events: seq<Event>, id: RoomId)
    ensures var g := Run(NoGames, engine, events).games;
      id in g.entries ==>
        1 <= |g.entries[id].players| <= 2 && g.entries[id].colors == SeatColours(g.entries[id].players)
  {
  }

  /** A room that is not in the registry, because it was never created or has been closed, behaves as if it never existed. */
  lemma AbsentRoomIgnored(g: Games, engine: Engine, caller: SocketId, roomId: RoomId, mv: MoveRequest)
    requires RegistryValid(g) && roomId !in g.entries
    ensures JoinRoom(g, engine, caller, roomId) == Step(g, [ToCaller(caller, Error(RoomMissing))])
    ensures Move(g, engine, caller, roomId, mv) == Step(g, [])
    ensures Resign(g, caller, roomId) == Step(g, [])
  {
  }

  /** A resignation closes that room, and only that room. */
  lemma ResignClosesRoom(g: Games, caller: SocketId, roomId: RoomId)
    requires RegistryValid(g) && roomId in g.entries && caller in g.entries[roomId].players
    ensures var after := Resign(g, caller, roomId).games;
      roomId !in after.entries && OthersUnchanged(g, after, roomId)
  {
  }

  /** A third socket is turned away from a room two sockets have taken, and nothing changes. */
  lemma ThirdJoinRefused(g: Games, engine: Engine, a: SocketId, b: SocketId, c: SocketId, roomId: RoomId)
    requires RegistryValid(g) && roomId !in g.entries
    ensures var g1 := CreateRoom(g, engine, a, roomId).games;
      var g2 := JoinRoom(g1, engine, b, roomId).games;
      JoinRoom(g2, engine, c, roomId) == Step(g2, [ToCaller(c, Error(RoomFull))])
  {
  }

  /** A move by a socket that is not seated in the room is dropped without a reply. */
  lemma NonMemberMoveDropped(g: Games, engine: Engine, caller: SocketId, roomId: RoomId, mv: MoveRequest)
    requires RegistryValid(g)
    requires roomId in g.entries ==> caller !in g.entries[roomId].players
    ensures Move(g, engine, caller, roomId, mv) == Step(g, [])
  {
    MayMoveIffSeatedOnTurn(g, engine, caller, roomId);
  }

  /** A move by a seated socket whose colour is not the side to move is dropped without a reply. */
  lemma OutOfTurnMoveDropped(g: Games, engine: Engine, caller: SocketId, roomId: RoomId, mv: MoveRequest)
    requires RegistryValid(g) && roomId in g.entries && caller in g.entries[roomId].players
    requires ColourOf(g.entries[roomId], caller) != Some(engine.turn(g.entries[roomId].game))
    ensures Move(g, engine, caller, roomId, mv) == Step(g, [])
  {
  }

  /** When the caller is seated in at most one room, a second `disconnect` does nothing. */
  lemma DisconnectAgainIsNoop(g: Games, caller: SocketId)
    requires RegistryValid(g)
    requires forall a, b ::
      (a in g.entries && b in g.entries && caller in g.entries[a].players && caller in g.entries[b].players) ==> a == b
    ensures var once := Disconnect(g, caller).games;
      Disconnect(once, caller) == Step(once, [])
  {
    var first := FirstRoomOf(g, caller, 0);
    if first.Some? {
      var i := first.value;
      assert FirstSeat(g, i, caller);
      var once := Disconnect(g, caller).games;
      assert once.entries == g.entries - {g.order[i]};
      forall id | id in once.entries
        ensures caller !in once.entries[id].players
      {
        assert id != g.order[i];
      }
    } else {
      NoSeatInAnyRoom(g, caller);
    }
  }

  /**
    In a registry of two rooms that both seat `caller`, one run of the
    `disconnect` handler closes the older room and a second run closes the other.
    socket.io never runs the handler twice for one connection; this states only
    how the handler itself behaves.
   */
  lemma DisconnectTwiceClosesBoth(g: Games, caller: SocketId)
    requires RegistryValid(g) && |g.order| == 2
    requires caller in g.entries[g.order[0]].players && caller in g.entries[g.order[1]].players
    ensures var d1 := Disconnect(g, caller);
      var d2 := Disconnect(d1.games, caller);
      && d1.sent == [ToRoom(g.order[0], OpponentDisconnected)]
      && d2.sent == [ToRoom(g.order[1], OpponentDisconnected)]
      && d2.games.entries == map[]
  {
    assert FirstSeat(g, 0, caller);
    var d1 := Disconnect(g, caller);
    assert d1.games.order == [g.order[1]];
    assert FirstSeat(d1.games, 0, caller);
    assert d1.games.entries.Keys == {g.order[1]};
    var d2 := Disconnect(d1.games, caller);
    assert d2.games.entries.Keys == {};
  }

  /**
    `disconnect` fires once per connection, so for a socket seated in two rooms
    the later room stays in the registry, still seating the departed socket,
    until its other player resigns or disconnects; that player is never told
    the opponent left.
   */
  lemma DisconnectLeavesLaterRoom(g: Games, caller: SocketId)
    requires RegistryValid(g) && |g.order| == 2
    requires caller in g.entries[g.order[0]].players && caller in g.entries[g.order[1]].players
    ensures var d1 := Disconnect(g, caller);
      && g.order[1] in d1.games.entries
      && caller in d1.games.entries[g.order[1]].players
      && ToRoom(g.order[1], OpponentDisconnected) !in d1.sent
  {
    assert FirstSeat(g, 0, caller);
  }

  /**
    A socket that created one room and joined another is seated in both, and
    the two rooms stay in creation order.
   */
  lemma CreatorJoiningSecondRoomSeatedTwice(engine: Engine, a: SocketId, b: SocketId, r1: RoomId, r2: RoomId)
    requires r1 != r2
    ensures var g1 := CreateRoom(NoGames, engine, a, r1).games;
      var g2 := CreateRoom(g1, engine, b, r2).games;
      var g3 := JoinRoom(g2, engine, a, r2).games;
      && g3.order == [r1, r2]
      && a in g3.entries[r1].players && a in g3.entries[r2].players
  {
    var g1 := CreateRoom(NoGames, engine, a, r1).games;
    var g2 := CreateRoom(g1, engine, b, r2).games;
    assert g2.entries[r1] == g1.entries[r1];
  }

  /** A seated player of the only room closes it by disconnecting or by resigning. */
  lemma OnlyRoomClosedBySeated(g: Games, b: SocketId)
    requires RegistryValid(g) && |g.order| == 1
    requires b in g.entries[g.order[0]].players
    ensures var d := Disconnect(g, b);
      && d.games.entries == map[] && d.games.order == []
      && d.sent == [ToRoom(g.order[0], OpponentDisconnected)]
    ensures Resign(g, b, g.order[0]).games.entries == map[]
  {
    assert FirstSeat(g, 0, b);
    assert g.entries.Keys == {g.order[0]};
  }

  /**
    The room left behind by `disconnect` is not stuck: its other player still
    closes it, by disconnecting (with an `opponentDisconnected` nobody else
    hears) or by resigning.
   */
  lemma LeftRoomClosedByOtherPlayer(engine: Engine, a: SocketId, b: SocketId, r1: RoomId, r2: RoomId)
    requires r1 != r2 && a != b
    ensures var g1 := CreateRoom(NoGames, engine, a, r1).games;
      var g2 := CreateRoom(g1, engine, b, r2).games;
      var g3 := JoinRoom(g2, engine, a, r2).games;
      var g4 := Disconnect(g3, a).games;
      && g4.order == [r2]
      && Disconnect(g4, b).games.entries == map[]
      && Disconnect(g4, b).sent == [ToRoom(r2, OpponentDisconnected)]
      && Resign(g4, b, r2).games.entries == map[]
  {
    var g1 := CreateRoom(NoGames, engine, a, r1).games;
    var g2 := CreateRoom(g1, engine, b, r2).games;
    var g3 := JoinRoom(g2, engine, a, r2).games;
    CreatorJoiningSecondRoomSeatedTwice(engine, a, b, r1, r2);
    assert b in g3.entries[r2].players;
    DisconnectLeavesLaterRoom(g3, a);
    var g4 := Disconnect(g3, a).games;
    assert FirstSeat(g3, 0, a);
    assert g4.order == [r2];
    OnlyRoomClosedBySeated(g4, b);
  }

  /** A creator who joins its own room is seated twice and recoloured black, so it can no longer move white. */
  lemma CreatorJoiningOwnRoomTurnsBlack(g: Games, engine: Engine, a: SocketId, roomId: RoomId, mv: MoveRequest)
    requires RegistryValid(g) && roomId !in g.entries
    requires engine.turn(engine.initial) == White
    ensures var g1 := CreateRoom(g, engine, a, roomId).games;
      var joined := JoinRoom(g1, engine, a, roomId).games;
      && joined.entries[roomId].players == [a, a]
      && joined.entries[roomId].colors == map[a := Black]
      && Move(joined, engine, a, roomId, mv) == Step(joined, [])
  {
  }

  /** Nobody has to join before the white creator may move. */
  lemma LoneCreatorMayMove(g: Games, engine: Engine, a: SocketId, roomId: RoomId, mv: MoveRequest)
    requires RegistryValid(g) && roomId !in g.entries
    requires engine.turn(engine.initial) == White && engine.tryMove(engine.initial, mv).Some?
    ensures var g1 := CreateRoom(g, engine, a, roomId).games;
      var r := Move(g1, engine, a, roomId, mv);
      var next := engine.tryMove(engine.initial, mv).value;
      |r.sent| >= 1 && r.sent[0] == ToRoom(roomId, BoardUpdate(engine.fen(next), LastMove(mv.from, mv.to)))
  {
  }

  /** A creator alone in its room who resigns hands the win to black. */
  lemma LoneCreatorResignationWinsForBlack(g: Games, engine: Engine, a: SocketId, roomId: RoomId)
    requires RegistryValid(g) && roomId !in g.entries
    ensures var g1 := CreateRoom(g, engine, a, roomId).games;
      var r := Resign(g1, a, roomId);
      r.sent == [ToRoom(roomId, GameOver(Some(Win(Black, Resignation))))] && roomId !in r.games.entries
  {
  }

  /**
    Two sockets open a game: the creator is white and the joiner black, the room
    hears the initial position; the joiner moving first is ignored; the creator's
    legal opening move reaches the room as one board update.
   */
  lemma OpeningScenario(engine: Engine, a: SocketId, b: SocketId, roomId: RoomId, mvA: MoveRequest, mvB: MoveRequest)
    requires a != b
    requires engine.turn(engine.initial) == White
    requires engine.tryMove(engine.initial, mvA).Some?
    requires !engine.isGameOver(engine.tryMove(engine.initial, mvA).value)
    ensures var s1 := CreateRoom(NoGames, engine, a, roomId);
      var s2 := JoinRoom(s1.games, engine, b, roomId);
      var s3 := Move(s2.games, engine, b, roomId, mvB);
      var s4 := Move(s3.games, engine, a, roomId, mvA);
      var next := engine.tryMove(engine.initial, mvA).value;
      && s1.sent == [ToCaller(a, RoomCreated(roomId, White))]
      && s2.sent == [ToCaller(b, RoomJoined(roomId, Black)), ToRoom(roomId, GameStart(engine.fen(engine.initial)))]
      && s3 == Step(s2.games, [])
      && s4.sent == [ToRoom(roomId, BoardUpdate(engine.fen(next), LastMove(mvA.from, mvA.to)))]
      && s4.games.entries[roomId].game == next
  {
  }
}
