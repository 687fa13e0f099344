/** The socket.io event handlers: which connections each relayed event reaches.
    socket.io's own room registry (which sockets have joined which room) is kept as a
    value; `socket.to(room)` reaches the room's sockets except the sender and
    `io.to(room)` reaches all of them. */
module Relay {
  import opened Rooms
  import Guessing

  /** A socket id. */
  type ConnId = string

  /** socket.io's registry: room name to the sockets that have joined it. */
  type Membership = map<string, set<ConnId>>

  /** The events the server emits; a draw payload is opaque and forwarded as it came. */
  datatype Event<D> = PlayerJoined(playerName: string) | Draw(data: D) | CorrectGuess(playerName: string)

  datatype Delivery<D> = Delivery(to: ConnId, event: Event<D>)

  function Members(m: Membership, roomId: string): set<ConnId> {
    if roomId in m then m[roomId] else {}
  }

  /** socket.join(roomId): adds the socket to the room and leaves its other rooms alone. */
  function SocketJoin(m: Membership, conn: ConnId, roomId: string): (m': Membership)
    ensures Members(m', roomId) == Members(m, roomId) + {conn}
    ensures forall r | r != roomId :: Members(m', r) == Members(m, r)
  {
    m[roomId := Members(m, roomId) + {conn}]
  }

  /** socket.to(roomId).emit(e): every socket of the room except the sender, once each. */
  function ToOthers<D(==,!new)>(m: Membership, sender: ConnId, roomId: string, e: Event<D>): set<Delivery<D>> {
    set c | c in Members(m, roomId) && c != sender :: Delivery(c, e)
  }

  /** io.to(roomId).emit(e): every socket of the room, the sender included, once each. */
  function ToRoom<D(==,!new)>(m: Membership, roomId: string, e: Event<D>): set<Delivery<D>> {
    set c | c in Members(m, roomId) :: Delivery(c, e)
  }

  /** "joinRoom" event: join the socket.io room, then tell the others who arrived.
      The Redis record is not touched. */
  function OnJoinRoom<D(==,!new)>(m: Membership, sender: ConnId, roomId: string, playerName: string)
    : (out: (Membership, set<Delivery<D>>))
    ensures out.0 == SocketJoin(m, sender, roomId)
    ensures sender in Members(out.0, roomId)
    ensures forall d: Delivery<D> :: d in out.1 <==>
      d.to in Members(m, roomId) && d.to != sender && d.event == PlayerJoined(playerName)
  {
    var m' := SocketJoin(m, sender, roomId);
    (m', ToOthers(m', sender, roomId, PlayerJoined(playerName)))
  }

  /** "draw" event: the payload goes unchanged to every other socket of the room. */
  function OnDraw<D(==,!new)>(m: Membership, sender: ConnId, roomId: string, data: D): (out: set<Delivery<D>>)
    ensures forall d: Delivery<D> :: d in out <==>
      d.to in Members(m, roomId) && d.to != sender && d.event == Draw(data)
  {
    ToOthers(m, sender, roomId, Draw(data))
  }

  /** "guess" event: on a correct guess, correctGuess with the guesser's name goes to the
      whole room, the sender included; otherwise nothing is sent. The store is only read,
      and no delivery carries the secret word. */
  function OnGuess<D(==,!new)>(rooms: Store, m: Membership, roomId: string, playerName: string, guess: string)
    : (out: set<Delivery<D>>)
    ensures out != {} ==> Guessing.EvaluateGuess(rooms, roomId, guess)
    ensures forall d: Delivery<D> :: d in out <==>
      Guessing.EvaluateGuess(rooms, roomId, guess) && d.to in Members(m, roomId) && d.event == CorrectGuess(playerName)
  {
    if Guessing.EvaluateGuess(rooms, roomId, guess) then ToRoom(m, roomId, CorrectGuess(playerName)) else {}
  }

  /** Every recipient of a draw gets exactly one message, and the sender gets none. */
  lemma DrawReachesEachOtherMemberOnce<D(!new)>(m: Membership, sender: ConnId, roomId: string, data: D)
    ensures forall d1, d2 | d1 in OnDraw(m, sender, roomId, data) && d2 in OnDraw(m, sender, roomId, data) ::
      d1.to == d2.to ==> d1 == d2
    ensures forall c | c in Members(m, roomId) && c != sender :: Delivery(c, Draw(data)) in OnDraw(m, sender, roomId, data)
    ensures forall e: Event<D> :: Delivery(sender, e) !in OnDraw(m, sender, roomId, data)
  {
  }

  /** The asymmetry between the two kinds of broadcast: a correct guesser who is in the room
      hears its own correctGuess, a drawer never hears its own strokes. */
  lemma GuesserHearsOwnCorrectGuess<D(!new)>(rooms: Store, m: Membership, sender: ConnId, roomId: string,
                                       playerName: string, guess: string, data: D)
    requires sender in Members(m, roomId) && Guessing.EvaluateGuess(rooms, roomId, guess)
    ensures Delivery(sender, CorrectGuess(playerName)) in OnGuess<D>(rooms, m, roomId, playerName, guess)
    ensures Delivery(sender, Draw(data)) !in OnDraw(m, sender, roomId, data)
  {
  }
}
