/** Whole games played through the control operations and the relayed events. */
module Scenarios {
  import opened Rooms
  import Guessing
  import opened Relay

  /** Create a room, Alice and Bob join over HTTP and over their sockets, the game starts,
      Bob guesses wrong and then right. Only the right guess is broadcast, to both sockets,
      carrying Bob's name. */
  lemma AliceAndBob(token: Token, pick: WordIndex, alice: ConnId, bob: ConnId, wrong: string)
    requires alice != bob
    requires !Guessing.SameIgnoringCase(wrong, WORD_LIST[pick])
    ensures var (id, s0) := CreateRoom(map[], token);
      var (j1, s1) := JoinRoom(s0, id, "Alice");
      var (j2, s2) := JoinRoom(s1, id, "Bob");
      var (started, s3) := StartGame(s2, id, pick);
      var m := OnJoinRoom<string>(OnJoinRoom<string>(map[], alice, id, "Alice").0, bob, id, "Bob").0;
      && j1 == Success(Joined(["Alice"]))
      && j2 == Success(Joined(["Alice", "Bob"]))
      && started == Success(GameStart(WORD_LIST[pick], "Alice"))
      && OnGuess<string>(s3, m, id, "Bob", wrong) == {}
      && OnGuess<string>(s3, m, id, "Bob", WORD_LIST[pick])
         == {Delivery(alice, CorrectGuess("Bob")), Delivery(bob, CorrectGuess("Bob"))}
  {
    var (id, s0) := CreateRoom(map[], token);
    var (j1, s1) := JoinRoom(s0, id, "Alice");
    var (j2, s2) := JoinRoom(s1, id, "Bob");
    var (started, s3) := StartGame(s2, id, pick);
    var m := OnJoinRoom<string>(OnJoinRoom<string>(map[], alice, id, "Alice").0, bob, id, "Bob").0;
    assert s0[id].players == [] && [] + ["Alice"] == ["Alice"];
    assert j1 == Success(Joined(["Alice"]));
    assert s1[id].players == ["Alice"] && ["Alice"] + ["Bob"] == ["Alice", "Bob"];
    assert j2 == Success(Joined(["Alice", "Bob"]));
    assert started == Success(GameStart(WORD_LIST[pick], "Alice"));
    assert s3[id].word == WORD_LIST[pick] && s3[id].status == InProgress;
    assert !Guessing.EvaluateGuess(s3, id, wrong);
    assert OnGuess<string>(s3, m, id, "Bob", wrong) == {};
    assert Members(m, id) == {alice, bob};
    Guessing.MatchesIffSameIgnoringCase(WORD_LIST[pick], WORD_LIST[pick]);
    assert Guessing.EvaluateGuess(s3, id, WORD_LIST[pick]);
    var right := OnGuess<string>(s3, m, id, "Bob", WORD_LIST[pick]);
    assert Delivery(alice, CorrectGuess("Bob")) in right;
    assert Delivery(bob, CorrectGuess("Bob")) in right;
  }

  /** A stroke from A in a room with B and C reaches B and C once each, unchanged, and not A. */
  lemma DrawFanOut<D(!new)>(a: ConnId, b: ConnId, c: ConnId, roomId: string, data: D)
    requires a != b && a != c && b != c
    ensures var m := SocketJoin(SocketJoin(SocketJoin(map[], a, roomId), b, roomId), c, roomId);
      OnDraw(m, a, roomId, data) == {Delivery(b, Draw(data)), Delivery(c, Draw(data))}
  {
    var m := SocketJoin(SocketJoin(SocketJoin(map[], a, roomId), b, roomId), c, roomId);
    assert Members(m, roomId) == {a, b, c};
    var out := OnDraw(m, a, roomId, data);
    assert Delivery(b, Draw(data)) in out;
    assert Delivery(c, Draw(data)) in out;
  }
}
