/** The room records kept in the Redis hash store and the three control operations
    (create-room, join-room, start-game) as pure transitions of that store.
    Every handler is treated as one atomic read-modify-write; the store is a map
    from room id to its record. */
module Rooms {

  datatype Status = Waiting | InProgress

  /** One Redis hash: fields roomId, players, currentDrawer, word, gameStatus.
      The players list is kept as a sequence, not as its JSON text. */
  datatype Room = Room(roomId: string, players: seq<string>, currentDrawer: string, word: string, status: Status)

  datatype Error = MissingField | RoomNotFound | InsufficientPlayers

  datatype Result<T> = Success(value: T) | Failure(error: Error)

  /** The two success replies of join-room: "Player already in room" (no roster)
      and "Joined room" with the roster after the append. */
  datatype JoinReply = AlreadyInRoom | Joined(players: seq<string>)

  /** The success reply of start-game. */
  datatype GameStart = GameStart(word: string, currentDrawer: string)

  type Store = map<string, Room>

  const ROOM_PREFIX: string := "room_"
  const TOKEN_LENGTH: nat := 6
  const MIN_PLAYERS: nat := 2
  const WORD_LIST: seq<string> := ["apple", "banana", "guitar", "elephant", "rocket"]

  /** A character of a lower-case hexadecimal UUID. */
  predicate IsTokenChar(c: char) {
    '0' <= c <= '9' || 'a' <= c <= 'f'
  }

  /** The first six characters of a random UUID: the id is drawn by the caller. */
  type Token = t: string | |t| == TOKEN_LENGTH && forall i | 0 <= i < |t| :: IsTokenChar(t[i])
    witness "000000"

  /** The index the random draw picks from WORD_LIST. */
  type WordIndex = i: int | 0 <= i < |WORD_LIST|

  predicate IsRoomId(id: string) {
    |id| == |ROOM_PREFIX| + TOKEN_LENGTH && id[..|ROOM_PREFIX|] == ROOM_PREFIX
  }

  predicate NoDuplicates(s: seq<string>) {
    forall i, j | 0 <= i < j < |s| :: s[i] != s[j]
  }

  /** What every record reachable through the three operations satisfies. */
  predicate Wellformed(id: string, r: Room) {
    && IsRoomId(id)
    && r.roomId == id
    && NoDuplicates(r.players)
    && (forall i | 0 <= i < |r.players| :: r.players[i] != "")
    && r.currentDrawer == (if r.players == [] then "" else r.players[0])
    && (r.status == InProgress <==> r.word != "")
    && (r.word != "" ==> r.word in WORD_LIST)
    && (r.status == InProgress ==> |r.players| >= MIN_PLAYERS)
  }

  predicate Valid(rooms: Store) {
    forall id | id in rooms :: Wellformed(id, rooms[id])
  }

  /** create-room: writes a fresh waiting record under "room_" + token.
      No collision check is made: an existing record under that id is overwritten. */
  function CreateRoom(rooms: Store, token: Token): (out: (string, Store))
    ensures IsRoomId(out.0) && out.0[|ROOM_PREFIX|..] == token
    ensures out.1.Keys == rooms.Keys + {out.0}
    ensures out.1[out.0].roomId == out.0 && out.1[out.0].players == []
    ensures out.1[out.0].currentDrawer == "" && out.1[out.0].word == ""
    ensures out.1[out.0].status == Waiting
    ensures forall id | id in rooms && id != out.0 :: out.1[id] == rooms[id]
  {
    var id := ROOM_PREFIX + token;
    (id, rooms[id := Room(id, [], "", "", Waiting)])
  }

  /** join-room, with the 400 and 404 rejections taken as early exits. */
  function JoinRoom(rooms: Store, roomId: string, playerName: string): (out: (Result<JoinReply>, Store))
    ensures out.0 == Failure(MissingField) <==> roomId == "" || playerName == ""
    ensures out.0 == Failure(RoomNotFound) <==> roomId != "" && playerName != "" && roomId !in rooms
    ensures out.0.Success? <==> roomId != "" && playerName != "" && roomId in rooms
    ensures out.0.Failure? ==> out.1 == rooms
    ensures out.1.Keys == rooms.Keys
    ensures forall id | id in rooms && id != roomId :: out.1[id] == rooms[id]
    ensures out.0 == Success(AlreadyInRoom) <==>
      out.0.Success? && playerName in rooms[roomId].players
    ensures out.0 == Success(AlreadyInRoom) ==> out.1 == rooms
    ensures out.0.Success? && out.0.value.Joined? ==>
      var before, after := rooms[roomId], out.1[roomId];
      && playerName !in before.players
      && after.players == before.players + [playerName]
      && out.0.value.players == after.players
      && (|after.players| == 1 ==> after.currentDrawer == playerName)
      && (|after.players| != 1 ==> after.currentDrawer == before.currentDrawer)
      && after.word == before.word && after.status == before.status
      && after.roomId == before.roomId
  {
    if roomId == "" || playerName == "" then (Failure(MissingField), rooms)
    else if roomId !in rooms then (Failure(RoomNotFound), rooms)
    else
      var room := rooms[roomId];
      if playerName in room.players then (Success(AlreadyInRoom), rooms)
      else
        var players := room.players + [playerName];
        var drawer := if |players| == 1 then playerName else room.currentDrawer;
        (Success(Joined(players)), rooms[roomId := room.(players := players, currentDrawer := drawer)])
  }

  /** start-game: needs the room and at least two players; draws WORD_LIST[pick],
      makes the first player the drawer and marks the game in progress. */
  function StartGame(rooms: Store, roomId: string, pick: WordIndex): (out: (Result<GameStart>, Store))
    ensures out.0 == Failure(MissingField) <==> roomId == ""
    ensures out.0 == Failure(RoomNotFound) <==> roomId != "" && roomId !in rooms
    ensures out.0 == Failure(InsufficientPlayers) <==>
      roomId != "" && roomId in rooms && |rooms[roomId].players| < MIN_PLAYERS
    ensures out.0.Failure? ==> out.1 == rooms
    ensures out.1.Keys == rooms.Keys
    ensures forall id | id in rooms && id != roomId :: out.1[id] == rooms[id]
    ensures out.0.Success? ==>
      var before, after := rooms[roomId], out.1[roomId];
      && after.word in WORD_LIST && after.word == WORD_LIST[pick]
      && after.players == before.players && |after.players| >= MIN_PLAYERS
      && after.currentDrawer == after.players[0]
      && after.status == InProgress && after.roomId == before.roomId
      && out.0.value == GameStart(after.word, after.currentDrawer)
  {
    if roomId == "" then (Failure(MissingField), rooms)
    else if roomId !in rooms then (Failure(RoomNotFound), rooms)
    else
      var room := rooms[roomId];
      if |room.players| < MIN_PLAYERS then (Failure(InsufficientPlayers), rooms)
      else
        var word := WORD_LIST[pick];
        var drawer := room.players[0];
        (Success(GameStart(word, drawer)),
         rooms[roomId := room.(word := word, currentDrawer := drawer, status := InProgress)])
  }

  lemma CreatePreservesValid(rooms: Store, token: Token)
    requires Valid(rooms)
    ensures Valid(CreateRoom(rooms, token).1)
  {
  }

  lemma JoinPreservesValid(rooms: Store, roomId: string, playerName: string)
    requires Valid(rooms)
    ensures Valid(JoinRoom(rooms, roomId, playerName).1)
  {
  }

  lemma StartPreservesValid(rooms: Store, roomId: string, pick: WordIndex)
    requires Valid(rooms)
    ensures Valid(StartGame(rooms, roomId, pick).1)
  {
  }

  /** Joining twice with the same name is the same as joining once; the second call
      succeeds and changes nothing. */
  lemma JoinIdempotent(rooms: Store, roomId: string, playerName: string)
    requires roomId in rooms && roomId != "" && playerName != ""
    ensures var once := JoinRoom(rooms, roomId, playerName).1;
      JoinRoom(once, roomId, playerName) == (Success(AlreadyInRoom), once)
  {
  }

  /** In a valid store the drawer of a started game is the first player to have joined,
      and a later join never changes the drawer, the word or the status. */
  lemma JoinKeepsRound(rooms: Store, roomId: string, playerName: string)
    requires Valid(rooms) && roomId in rooms && rooms[roomId].status == InProgress
    ensures var after := JoinRoom(rooms, roomId, playerName).1[roomId];
      && after.currentDrawer == rooms[roomId].currentDrawer == after.players[0]
      && after.word == rooms[roomId].word
      && after.status == InProgress
  {
  }

  /** The record of a create collides with an existing room: its roster and round are lost. */
  lemma CreateCollisionOverwrites(rooms: Store, token: Token)
    requires ROOM_PREFIX + token in rooms && rooms[ROOM_PREFIX + token].players != []
    ensures var out := CreateRoom(rooms, token);
      out.0 == ROOM_PREFIX + token && out.1[out.0].players == [] && out.1[out.0] != rooms[out.0]
  {
  }
}
