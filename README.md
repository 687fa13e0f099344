# Sketchy room core in Dafny

Sketchy is a multiplayer drawing-and-guessing game server. Its core is a room state
machine over a Redis keyspace: one hash per room holding `roomId`, `players`,
`currentDrawer`, `word` and `gameStatus`. Three HTTP handlers act on it: create-room,
join-room and start-game. Three socket.io events are relayed to the sockets of a room:
`joinRoom` becomes `playerJoined`, `draw` is forwarded, and a correct `guess` becomes
`correctGuess`.

The model has these modules:

- `Rooms` (rooms.dfy) holds the room record, the error reasons and the three control
  operations as pure transitions of a `map<string, Room>` store. It also holds the
  invariant `Valid` that every reachable store satisfies:
  - player names are unique and non-empty;
  - the drawer is the first player;
  - the word is set exactly while the game is in progress, and is one of the five words;
  - a game in progress has at least two players.
- `Server` (server.dfy) holds the class `RoomStore`, whose field `rooms` is the keyspace.
  Its methods work the way the handlers do: read the hash, extend a local copy of the
  roster, and write fields back one `hSet` at a time. Each method is proved equal to the
  matching `Rooms` transition and to preserve `Valid`. `Guess` only reads the store.
- `Guessing` (guessing.dfy) holds the case-insensitive comparison behind `guess`. It is
  proved equal to a character-by-character reading, and it is gated on the status
  `in-progress`.
- `Relay` (relay.dfy) holds socket.io's room registry as a value and the recipient set
  of each relayed event. `socket.to(room)` reaches everyone in the room except the
  sender; `io.to(room)` reaches everyone, the sender included.
- `Lifecycle` (lifecycle.dfy) holds runs of operations, with the invariant, roster and
  status properties proved over every run.
- `AsWritten` (aswritten.dfy) holds the join handler exactly as written (see Findings).
- `Scenarios` (scenarios.dfy) holds two whole games played through the operations and
  the relay.

Each handler is one atomic step. Randomness is a parameter:
- `Token` is the six lower-case hex characters taken from `randomUUID()`.
- `WordIndex` is the index that `Math.floor(Math.random() * 5)` picks.

Where this model and the written design of the system differ, the model follows the code:
- An idempotent join replies "Player already in room" without the roster. Only a fresh
  join returns the players.
- Join checks for a missing field before it checks that the room exists. Start-game also
  rejects an empty room id, with MissingField.
- `socket.join` adds the socket to a room and leaves its other rooms alone. It does not
  move the socket from one room to another.
- The `!roomData` test in the guess handler never fires, because `hGetAll` on a missing
  key yields an empty hash. What stops a guess for a missing room is the status test.
  `EvaluateGuess` treats a missing room that way.
- The join handler does not return after its 400 and 404 replies. The corrected model
  treats both rejections as early exits that change nothing. The as-written behaviour is
  modelled separately under Findings.
- A create whose id collides with an existing room overwrites that room. No collision
  check is made (`CreateCollisionOverwrites`). So `RunKeepsRoster` assumes that no later
  create lands on the same id.

## Model

| member | source | states |
|---|---|---|
| Rooms.CreateRoom | server.js:75-91 | the id is "room_" followed by the 6-character token; the store gains exactly that key, holding a record with no players, no drawer, no word and status waiting; every other room is untouched |
| Rooms.JoinRoom | server.js:93-119 | MissingField exactly when roomId or playerName is empty, RoomNotFound exactly when both are given and the room is absent, success exactly when both are given and the room exists; a rejection leaves the store unchanged; no room is ever created; a name already present gives AlreadyInRoom and changes nothing; otherwise the name is appended at the end and the new roster is returned; the drawer becomes the name exactly when it is the only player, and otherwise the drawer, word, status and id are unchanged, even in a game in progress |
| Rooms.StartGame | server.js:121-164 | MissingField for an empty id, RoomNotFound for an absent room, InsufficientPlayers for fewer than 2 players; every failure leaves the store unchanged; on success the word is WORD_LIST[pick], one of the five words, the drawer is players[0], the status is in-progress, the roster is unchanged, and the reply is the stored (word, drawer) pair |
| Rooms.CreatePreservesValid | server.js:77-86 | create keeps every room well-formed |
| Rooms.JoinPreservesValid | server.js:106-114 | join keeps names unique and non-empty, and keeps the first player as drawer |
| Rooms.StartPreservesValid | server.js:141-157 | start keeps the store valid: the word is set exactly when in progress and comes from the list, and a game in progress has two or more players |
| Rooms.JoinIdempotent | server.js:106-108 | joining twice with the same name equals joining once, and the second join answers AlreadyInRoom with the store unchanged |
| Rooms.JoinKeepsRound | server.js:109-114 | a join during a game in progress changes neither the drawer (still players[0]) nor the word nor the status |
| Rooms.CreateCollisionOverwrites | server.js:77-86 | a create whose id is already taken replaces that room with an empty one: no collision check |
| Guessing.Lower | server.js:46 | lower-casing keeps the length and folds every character separately, using ASCII case folding |
| Guessing.MatchesIffSameIgnoringCase | server.js:46 | the comparison of lower-cased strings holds iff the lengths are equal and every pair of characters agrees up to letter case |
| Guessing.LowerIdempotent | server.js:46 | lower-casing twice equals lower-casing once |
| Guessing.EvaluateGuess | server.js:42-48 | a guess is correct iff the room exists, its status is in-progress, and the guess equals the word up to letter case; a missing or waiting room never yields a correct guess |
| Guessing.WordListIsLowercase | server.js:146 | none of the five words has an upper-case letter |
| Guessing.CorrectGuessIsTheWord | server.js:42-48 | in a valid store a correct guess, lower-cased, is exactly the stored word, which is one of the five |
| Guessing.LengthMismatchNeverMatches | server.js:46 | a guess whose length differs from the word's is never correct |
| Guessing.GuitarExamples | server.js:46 | "guitar", "GUITAR" and "GuiTar" match "Guitar"; "guitars" does not |
| Relay.SocketJoin | server.js:29 | joining a room adds the socket to that room and leaves every other room unchanged |
| Relay.OnJoinRoom | server.js:28-34 | the new registry is the old one with the sender added to the room and every other room unchanged; playerJoined with its name goes to exactly the other room members, never to the sender |
| Relay.OnDraw | server.js:37-39 | the draw payload goes unchanged to exactly the room members other than the sender |
| Relay.OnGuess | server.js:42-48 | nothing is sent unless the guess is correct; when it is, correctGuess with the guesser's name, and never the word, goes to exactly the room members |
| Relay.DrawReachesEachOtherMemberOnce | server.js:38 | each other member receives exactly one draw message and the sender receives none |
| Relay.GuesserHearsOwnCorrectGuess | server.js:33-47 | a correct guesser who is in the room receives its own correctGuess, while a drawer never receives its own stroke |
| Lifecycle.RunPreservesValid | server.js:75-164 | any sequence of create, join and start operations keeps a valid store valid |
| Lifecycle.ReachableIsValid | server.js:75-164 | every store reachable from the empty keyspace is valid |
| Lifecycle.RunKeepsRoster | server.js:93-164 | rooms are never deleted; unless a create lands on the same id, a room's old roster is a prefix of its later roster and a started game stays started |
| Lifecycle.JoinAllAppendsNewNames | server.js:106-110 | after a series of joins the roster is the old roster followed by each new name once, in the order of its first join |
| Lifecycle.FirstJoinerDraws | server.js:112-114 | in a freshly created room the first name to join is players[0] and the drawer, however many join after |
| Server.RoomStore.CreateRoom | server.js:75-91 | the returned id and the new keyspace are those of Rooms.CreateRoom; validity is kept |
| Server.RoomStore.JoinRoom | server.js:93-119 | the reply and the keyspace after the separate players and currentDrawer writes are those of Rooms.JoinRoom; validity is kept |
| Server.RoomStore.StartGame | server.js:121-164 | the reply and the keyspace after the single multi-field write are those of Rooms.StartGame; validity is kept |
| Server.RoomStore.Guess | server.js:42-46 | reads the store and changes nothing; the result is true iff the room is in progress and the guess equals the word up to letter case |
| AsWritten.JoinAsWritten | server.js:93-119 | the handler as written: the keyspace gains roomId exactly when both fields are given; it agrees with Rooms.JoinRoom whenever that succeeds |
| AsWritten.JoinAsWrittenCreatesMissingRoom | server.js:99-114 | a join for an absent room is rejected by the corrected join, but as written it creates a record holding only players = [joiner] and currentDrawer = joiner, with no roomId, word or gameStatus field; the missing roomId field makes the store invalid |
| AsWritten.JoinAsWrittenAppendsEmptyName | server.js:96-114 | a join without a name for an existing room is rejected by the corrected join, but as written it appends the empty name, which is not a valid store |
| AsWritten.JoinAsWrittenCounterexamples | server.js:96-114 | both discrepancies hold for concrete valid stores: an empty keyspace, and one waiting room with Alice |
| Scenarios.AliceAndBob | server.js:28-164 | create, join Alice, join Bob, start: the rosters are ["Alice"] then ["Alice", "Bob"] and the game starts with the chosen word and Alice drawing; a wrong guess by Bob sends nothing; a right guess sends correctGuess {Bob} to both sockets |
| Scenarios.DrawFanOut | server.js:37-39 | a stroke from A in a room of A, B and C reaches exactly B and C with the payload unchanged |

## Findings

| source | as written | input that shows it | evidently intended | confidence | as-written member | corrected member |
|---|---|---|---|---|---|---|
| server.js:99-114 | the 404 reply for a missing room does not return; the handler reads an empty hash, appends the joiner and writes `players` and `currentDrawer`, creating the room | join-room with roomId "room_abc123" and playerName "Alice" on an empty keyspace | reject with RoomNotFound and create nothing | high (not executed) | AsWritten.JoinAsWrittenCreatesMissingRoom | Rooms.JoinRoom |
| server.js:96-114 | the 400 reply for a missing playerName does not return; for an existing room the empty name is appended to the roster | join-room with roomId "room_abc123" and playerName "" when that room holds ["Alice"] | reject with MissingField and leave the roster alone | high (not executed) | AsWritten.JoinAsWrittenAppendsEmptyName | Rooms.JoinRoom |

In both cases the later `res.json` is a second reply to one request. It throws after the
writes have happened, so the store change stands. A request with a missing field for an
absent room is different: the second reply, the 404, throws before any write, so the store
is unchanged. `AsWritten.JoinAsWritten` models that case too.

## Left out

- Express routing, HTTP status codes, response bodies, CORS, dotenv and `server.listen`. The model keeps only the success value or the failure reason.
- The Redis client connection and its error hook. The 500 "Server Error" path taken when a store call fails (StoreUnavailable) is also left out: store I/O is not modelled.
- JSON serialisation of `players`. The roster is a `seq<string>`.
- Interleaving between the `await`s of concurrent handlers. This includes the lost-update race between two joins to one room. Each handler is modelled as atomic.
- `Math.random` and `randomUUID`. They are replaced by the parameters `pick: WordIndex` and `token: Token`, so the uniformity of the draw is not modelled.
- Guessing.Lower: folds only ASCII letters; `toLowerCase` also folds other Unicode letters.
- The disconnect handler and every `console.log`. The handler only logs; socket.io's own clean-up of rooms on disconnect is outside server.js.
- Non-string request fields, such as an absent `playerName`, which arrives as `undefined`. The model reads a missing field as the empty string, the only other falsy string.
- The raw-WebSocket test file speaks a protocol that server.js does not implement. The socket test script has no assertions. Neither is modelled.
