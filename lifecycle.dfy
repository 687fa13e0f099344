/** Runs of control operations against the store, one handler at a time, and what holds
    of every store such a run can reach. */
module Lifecycle {
  import opened Rooms

  datatype Op =
    | Create(token: Token)
    | Join(roomId: string, playerName: string)
    | Start(roomId: string, pick: WordIndex)

  function Apply(rooms: Store, op: Op): Store {
    match op
    case Create(token) => CreateRoom(rooms, token).1
    case Join(roomId, playerName) => JoinRoom(rooms, roomId, playerName).1
    case Start(roomId, pick) => StartGame(rooms, roomId, pick).1
  }

  function Run(rooms: Store, ops: seq<Op>): Store
    decreases |ops|
  {
    if ops == [] then rooms else Run(Apply(rooms, ops[0]), ops[1..])
  }

  /** A create whose random id lands on roomId: the only operation that can reset a room. */
  predicate Recreates(op: Op, roomId: string) {
    op.Create? && ROOM_PREFIX + op.token == roomId
  }

  /** Every store reachable from the empty store satisfies Valid: player names are unique
      and non-empty, the drawer is the first player, the word is set exactly while the game is
      in progress and is one of the five words, and a game in progress has two players. */
  lemma {:induction false} RunPreservesValid(rooms: Store, ops: seq<Op>)
    requires Valid(rooms)
    ensures Valid(Run(rooms, ops))
    decreases |ops|
  {
    if ops != [] {
      match ops[0] {
        case Create(token) => CreatePreservesValid(rooms, token);
        case Join(roomId, playerName) => JoinPreservesValid(rooms, roomId, playerName);
        case Start(roomId, pick) => StartPreservesValid(rooms, roomId, pick);
      }
      RunPreservesValid(Apply(rooms, ops[0]), ops[1..]);
    }
  }

  lemma ReachableIsValid(ops: seq<Op>)
    ensures Valid(Run(map[], ops))
  {
    RunPreservesValid(map[], ops);
  }

  /** Rooms are never deleted. Unless a later create lands on the same id, a room's roster
      only grows at its end and a started game stays started. */
  lemma {:induction false} RunKeepsRoster(rooms: Store, ops: seq<Op>, roomId: string)
    requires roomId in rooms
    requires forall i | 0 <= i < |ops| :: !Recreates(ops[i], roomId)
    ensures rooms.Keys <= Run(rooms, ops).Keys
    ensures rooms[roomId].players <= Run(rooms, ops)[roomId].players
    ensures rooms[roomId].status == InProgress ==> Run(rooms, ops)[roomId].status == InProgress
    decreases |ops|
  {
    if ops != [] {
      var next := Apply(rooms, ops[0]);
      assert !Recreates(ops[0], roomId);
      assert rooms[roomId].players <= next[roomId].players;
      RunKeepsRoster(next, ops[1..], roomId);
    }
  }

  /** The names of `names` that are not in `seen`, first occurrences only, in order. */
  function NewNames(seen: seq<string>, names: seq<string>): seq<string>
    decreases |names|
  {
    if names == [] then []
    else if names[0] in seen then NewNames(seen, names[1..])
    else [names[0]] + NewNames(seen + [names[0]], names[1..])
  }

  function JoinAll(rooms: Store, roomId: string, names: seq<string>): Store
    decreases |names|
  {
    if names == [] then rooms else JoinAll(JoinRoom(rooms, roomId, names[0]).1, roomId, names[1..])
  }

  /** Insertion order is join order: after a series of joins the roster is the old roster
      followed by each new name once, in the order of its first join. */
  lemma {:induction false} JoinAllAppendsNewNames(rooms: Store, roomId: string, names: seq<string>)
    requires roomId in rooms && roomId != ""
    requires forall i | 0 <= i < |names| :: names[i] != ""
    ensures roomId in JoinAll(rooms, roomId, names)
    ensures JoinAll(rooms, roomId, names)[roomId].players ==
      rooms[roomId].players + NewNames(rooms[roomId].players, names)
    decreases |names|
  {
    if names != [] {
      var next := JoinRoom(rooms, roomId, names[0]).1;
      var before := rooms[roomId].players;
      JoinAllAppendsNewNames(next, roomId, names[1..]);
      if names[0] !in before {
        assert next[roomId].players == before + [names[0]];
        assert before + [names[0]] + NewNames(before + [names[0]], names[1..])
            == before + ([names[0]] + NewNames(before + [names[0]], names[1..]));
      }
    }
  }

  /** In a freshly created room, the first name to join is the drawer whatever joins after. */
  lemma FirstJoinerDraws(token: Token, names: seq<string>)
    requires names != [] && forall i | 0 <= i < |names| :: names[i] != ""
    ensures var (id, rooms) := CreateRoom(map[], token);
      && id in JoinAll(rooms, id, names)
      && var room := JoinAll(rooms, id, names)[id];
      room.players != [] && room.players[0] == names[0] && room.currentDrawer == names[0]
  {
    var (id, rooms) := CreateRoom(map[], token);
    JoinAllAppendsNewNames(rooms, id, names);
    var ops := seq(|names|, i requires 0 <= i < |names| => Join(id, names[i]));
    JoinAllIsRun(rooms, id, names);
    ReachableIsValid([Create(token)] + ops);
    assert Run(map[], [Create(token)] + ops) == Run(rooms, ops);
  }

  lemma {:induction false} JoinAllIsRun(rooms: Store, roomId: string, names: seq<string>)
    ensures JoinAll(rooms, roomId, names) ==
      Run(rooms, seq(|names|, i requires 0 <= i < |names| => Join(roomId, names[i])))
    decreases |names|
  {
    var ops := seq(|names|, i requires 0 <= i < |names| => Join(roomId, names[i]));
    if names != [] {
      JoinAllIsRun(JoinRoom(rooms, roomId, names[0]).1, roomId, names[1..]);
      assert ops[1..] == seq(|names[1..]|, i requires 0 <= i < |names[1..]| => Join(roomId, names[1..][i]));
    }
  }
}
