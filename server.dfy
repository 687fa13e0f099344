/** The Redis-backed handlers as they run: each reads the room hash, works on a local copy of
    the roster and writes the fields back one hSet at a time. Each method is one atomic step
    of the transitions in module Rooms. */
module Server {
  import opened Rooms
  import Guessing

  class RoomStore {
    /** The Redis keyspace: one hash per room id. */
    var rooms: Store

    ghost predicate Valid()
      reads this
    {
      Rooms.Valid(rooms)
    }

    constructor ()
      ensures rooms == map[] && Valid()
    {
      rooms := map[];
    }

    /** POST /api/create-room; token stands for randomUUID().slice(0, 6). */
    method CreateRoom(token: Token) returns (roomId: string)
      modifies this
      ensures (roomId, rooms) == Rooms.CreateRoom(old(rooms), token)
      ensures old(Valid()) ==> Valid()
    {
      roomId := ROOM_PREFIX + token;
      var gameData := Room(roomId, [], "", "", Waiting);
      rooms := rooms[roomId := gameData];
      if Rooms.Valid(old(rooms)) {
        Rooms.CreatePreservesValid(old(rooms), token);
      }
    }

    /** POST /api/join-room. */
    method JoinRoom(roomId: string, playerName: string) returns (r: Result<JoinReply>)
      modifies this
      ensures (r, rooms) == Rooms.JoinRoom(old(rooms), roomId, playerName)
      ensures old(Valid()) ==> Valid()
    {
      if roomId == "" || playerName == "" {
        r := Failure(MissingField);
      } else if roomId !in rooms {
        r := Failure(RoomNotFound);
      } else {
        var room := rooms[roomId];
        var players := room.players;
        if playerName in players {
          r := Success(AlreadyInRoom);
        } else {
          players := players + [playerName];
          rooms := rooms[roomId := rooms[roomId].(players := players)];
          if |players| == 1 {
            rooms := rooms[roomId := rooms[roomId].(currentDrawer := playerName)];
            assert rooms == old(rooms)[roomId := room.(players := players, currentDrawer := playerName)];
          }
          r := Success(Joined(players));
        }
      }
      assert (r, rooms) == Rooms.JoinRoom(old(rooms), roomId, playerName);
      if Rooms.Valid(old(rooms)) {
        Rooms.JoinPreservesValid(old(rooms), roomId, playerName);
      }
    }

    /** POST /api/start-game; pick stands for Math.floor(Math.random() * 5). */
    method StartGame(roomId: string, pick: WordIndex) returns (r: Result<GameStart>)
      modifies this
      ensures (r, rooms) == Rooms.StartGame(old(rooms), roomId, pick)
      ensures old(Valid()) ==> Valid()
    {
      if Rooms.Valid(rooms) {
        Rooms.StartPreservesValid(rooms, roomId, pick);
      }
      if roomId == "" {
        return Failure(MissingField);
      }
      if roomId !in rooms {
        return Failure(RoomNotFound);
      }
      var players := rooms[roomId].players;
      if |players| < MIN_PLAYERS {
        return Failure(InsufficientPlayers);
      }
      var word := WORD_LIST[pick];
      var currentDrawer := players[0];
      rooms := rooms[roomId := rooms[roomId].(word := word, currentDrawer := currentDrawer, status := InProgress)];
      r := Success(GameStart(word, currentDrawer));
    }

    /** The store read behind a "guess" event. It modifies nothing. */
    method Guess(roomId: string, guess: string) returns (correct: bool)
      ensures correct <==> roomId in rooms && rooms[roomId].status == InProgress
                           && Guessing.SameIgnoringCase(guess, rooms[roomId].word)
    {
      if roomId !in rooms {
        return false;
      }
      var roomData := rooms[roomId];
      if roomData.status != InProgress {
        return false;
      }
      Guessing.MatchesIffSameIgnoringCase(guess, roomData.word);
      correct := Guessing.Lower(guess) == Guessing.Lower(roomData.word);
    }
  }
}
