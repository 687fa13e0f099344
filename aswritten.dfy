/** The join-room handler exactly as written, where the 400 and 404 replies are sent
    without leaving the handler. Sending a second reply throws, and that exception is
    caught before any write. So a request with a missing field for an absent room
    changes nothing, but two other bad requests go on to append a name. Fields absent
    from a Redis hash are represented by their empty values and Waiting, which is how
    every reader of the hash treats them. */
module AsWritten {
  import opened Rooms

  function JoinAsWritten(rooms: Store, roomId: string, playerName: string): (out: Store)
    ensures out.Keys == rooms.Keys + (if roomId == "" || playerName == "" then {} else {roomId})
    ensures JoinRoom(rooms, roomId, playerName).0.Success? ==> out == JoinRoom(rooms, roomId, playerName).1
  {
    var missing := roomId == "" || playerName == "";
    var isExist := roomId in rooms;
    if missing && !isExist then rooms
    else
      var room := if isExist then rooms[roomId] else Room("", [], "", "", Waiting);
      if playerName in room.players then rooms
      else
        var players := room.players + [playerName];
        var drawer := if |players| == 1 then playerName else room.currentDrawer;
        rooms[roomId := room.(players := players, currentDrawer := drawer)]
  }

  /** A join for a room that does not exist replies 404 and then creates the room anyway.
      Only the players and currentDrawer fields are written: the joiner is the only player
      and the drawer, and the roomId, word and gameStatus fields are absent (read as "",
      "" and Waiting). The store is then not valid because the new record's roomId field
      does not name its key. */
  lemma JoinAsWrittenCreatesMissingRoom(rooms: Store, roomId: string, playerName: string)
    requires roomId != "" && playerName != "" && roomId !in rooms
    ensures JoinRoom(rooms, roomId, playerName).0 == Failure(RoomNotFound)
    ensures roomId in JoinAsWritten(rooms, roomId, playerName)
    ensures JoinAsWritten(rooms, roomId, playerName)[roomId]
      == Room("", [playerName], playerName, "", Waiting)
    ensures !Valid(JoinAsWritten(rooms, roomId, playerName))
  {
  }

  /** A join without a player name for an existing room replies 400 and then appends the
      empty name, which breaks the rule that every player has a name. */
  lemma JoinAsWrittenAppendsEmptyName(rooms: Store, roomId: string)
    requires roomId in rooms && "" !in rooms[roomId].players
    ensures JoinRoom(rooms, roomId, "") == (Failure(MissingField), rooms)
    ensures JoinAsWritten(rooms, roomId, "")[roomId].players == rooms[roomId].players + [""]
    ensures !Valid(JoinAsWritten(rooms, roomId, ""))
  {
    var after := JoinAsWritten(rooms, roomId, "")[roomId];
    assert after.players[|after.players| - 1] == "";
  }

  /** Both discrepancies on concrete input: an empty store, and a store holding one
      waiting room with Alice. */
  lemma JoinAsWrittenCounterexamples()
    ensures var rooms: Store := map[];
      "room_abc123" in JoinAsWritten(rooms, "room_abc123", "Alice") && Valid(rooms)
    ensures var alice := Room("room_abc123", ["Alice"], "Alice", "", Waiting);
      var rooms := map["room_abc123" := alice];
      && Valid(rooms)
      && JoinAsWritten(rooms, "room_abc123", "")["room_abc123"].players == ["Alice", ""]
  {
  }
}
