/** The realtime bus of `services/socketService.js`: a module-wide handle that
    is absent until initialisation, concern rooms named `concern-<id>` that any
    connection may join or leave, room-wide emits, typing signals that go to
    the other members of a room, and user-scoped notification rooms. Only room
    membership and who receives what are modelled, not the transport. */
module Realtime {
  import opened Domain
  import opened ConcernModel
  import opened ChatModel

  /** The payloads the backend emits: `new-message`, the two shapes of
      `status-update` (a status change, whose status is `None` when the request
      named none, and an assignment), `user-typing`, `user-stop-typing` and
      `notification`. */
  datatype Event =
    | NewMessage(message: ChatMessage)
    | StatusChanged(status: Option<Status>, updatedBy: string, comment: string, timestamp: nat)
    | AssignedTo(mentorName: string, timestamp: nat)
    | UserTyping(userName: string)
    | UserStopTyping
    | Notification(payload: string)

  /** One `io.to(room).emit(...)` request. */
  datatype Emit = Emit(room: string, event: Event)

  /** One event arriving at one socket. */
  datatype Delivery = Delivery(socket: SocketId, event: Event)

  /** The server handle: whether it has been created, and room memberships. */
  datatype Bus = Bus(initialized: bool, rooms: map<string, set<SocketId>>)

  /** The state before `initializeSocket` has run. */
  const Uninitialized: Bus := Bus(false, map[])

  const ConcernRoomPrefix: string := "concern-"
  const UserRoomPrefix: string := "user-"

  function ConcernRoom(id: ConcernId): string {
    ConcernRoomPrefix + id
  }

  function UserRoom(id: UserId): string {
    UserRoomPrefix + id
  }

  predicate IsConcernRoom(room: string) {
    |room| >= |ConcernRoomPrefix| && room[..|ConcernRoomPrefix|] == ConcernRoomPrefix
  }

  /** Concern rooms of different concerns are different rooms, and no user
      room is ever a concern room. */
  lemma RoomNamesDistinct(a: ConcernId, b: ConcernId, u: UserId)
    ensures ConcernRoom(a) == ConcernRoom(b) <==> a == b
    ensures IsConcernRoom(ConcernRoom(a))
    ensures !IsConcernRoom(UserRoom(u))
    ensures ConcernRoom(a) != UserRoom(u)
  {
    assert ConcernRoom(a)[|ConcernRoomPrefix|..] == a;
    assert ConcernRoom(b)[|ConcernRoomPrefix|..] == b;
    assert ConcernRoom(a)[..|ConcernRoomPrefix|] == ConcernRoomPrefix;
    assert ConcernRoom(a)[0] == 'c';
    assert UserRoom(u)[0] == 'u';
  }

  function Members(b: Bus, room: string): set<SocketId> {
    if room in b.rooms then b.rooms[room] else {}
  }

  /** `initializeSocket`: a fresh server with no rooms. */
  function Initialize(b: Bus): (r: Bus)
    ensures r.initialized
    ensures forall room :: Members(r, room) == {}
  {
    Bus(true, map[])
  }

  /** `join-concern`: the socket enters the concern's room. Nothing is checked
      about who the socket belongs to, and no other room changes. */
  function Join(b: Bus, sock: SocketId, concernId: ConcernId): (r: Bus)
    ensures r.initialized == b.initialized
    ensures Members(r, ConcernRoom(concernId)) == Members(b, ConcernRoom(concernId)) + {sock}
    ensures forall room :: room != ConcernRoom(concernId) ==> Members(r, room) == Members(b, room)
  {
    var room := ConcernRoom(concernId);
    b.(rooms := b.rooms[room := Members(b, room) + {sock}])
  }

  /** `leave-concern`: the socket leaves the concern's room; no other room changes. */
  function Leave(b: Bus, sock: SocketId, concernId: ConcernId): (r: Bus)
    ensures r.initialized == b.initialized
    ensures Members(r, ConcernRoom(concernId)) == Members(b, ConcernRoom(concernId)) - {sock}
    ensures forall room :: room != ConcernRoom(concernId) ==> Members(r, room) == Members(b, room)
  {
    var room := ConcernRoom(concernId);
    if room in b.rooms then b.(rooms := b.rooms[room := b.rooms[room] - {sock}]) else b
  }

  /** A disconnecting socket is dropped from every room it was in. */
  function Disconnect(b: Bus, sock: SocketId): (r: Bus)
    ensures r.initialized == b.initialized
    ensures forall room :: Members(r, room) == Members(b, room) - {sock}
  {
    b.(rooms := map room | room in b.rooms :: b.rooms[room] - {sock})
  }

  /** `io.to(room).emit(...)` behind the `if (io)` guard: before initialisation
      nothing is delivered; afterwards exactly the current members of the room
      receive the event, once each. */
  function Deliver(b: Bus, e: Emit): (r: set<Delivery>)
    ensures forall d :: d in r ==> d.event == e.event
    ensures forall s :: Delivery(s, e.event) in r <==> b.initialized && s in Members(b, e.room)
  {
    if b.initialized then (set s | s in Members(b, e.room) :: Delivery(s, e.event)) else {}
  }

  /** Everything a sequence of emits delivers. */
  function Publish(b: Bus, emits: seq<Emit>): (r: set<Delivery>)
    ensures forall d :: d in r <==> exists i :: 0 <= i < |emits| && d in Deliver(b, emits[i])
  {
    if emits == [] then {}
    else
      var rest := Publish(b, emits[1..]);
      assert forall i :: 1 <= i < |emits| ==> emits[i] == emits[1..][i - 1];
      Deliver(b, emits[0]) + rest
  }

  function EmitNewMessage(concernId: ConcernId, m: ChatMessage): Emit {
    Emit(ConcernRoom(concernId), NewMessage(m))
  }

  function EmitStatusUpdate(concernId: ConcernId, update: Event): Emit {
    Emit(ConcernRoom(concernId), update)
  }

  function EmitNotification(userId: UserId, payload: string): Emit {
    Emit(UserRoom(userId), Notification(payload))
  }

  /** The signal a `typing` (or, with `stop`, a `stop-typing`) request relays. */
  function TypingEvent(userName: string, stop: bool): Event {
    if stop then UserStopTyping else UserTyping(userName)
  }

  /** `typing` / `stop-typing`: `socket.to(room)` reaches every member of the
      concern's room except the sending socket itself, and nobody outside it. */
  function Typing(b: Bus, sock: SocketId, concernId: ConcernId, userName: string, stop: bool): (r: set<Delivery>)
    ensures forall d :: d in r ==> d.socket != sock
    ensures forall d :: d in r ==> d.socket in Members(b, ConcernRoom(concernId))
    ensures forall d :: d in r ==> d.event == TypingEvent(userName, stop)
    ensures forall s :: s != sock && s in Members(b, ConcernRoom(concernId)) ==>
      Delivery(s, TypingEvent(userName, stop)) in r
  {
    set s | s in Members(b, ConcernRoom(concernId)) && s != sock :: Delivery(s, TypingEvent(userName, stop))
  }

  /** A typing signal arrives where a room-wide emit of the same signal would,
      minus the sender: on a live bus it is that emit's delivery set without
      the sending socket. */
  lemma TypingIsRoomEmitButSender(b: Bus, sock: SocketId, concernId: ConcernId, userName: string, stop: bool)
    requires b.initialized
    ensures Typing(b, sock, concernId, userName, stop)
            == Deliver(b, Emit(ConcernRoom(concernId), TypingEvent(userName, stop)))
               - {Delivery(sock, TypingEvent(userName, stop))}
  {
    var ev := TypingEvent(userName, stop);
    var t := Typing(b, sock, concernId, userName, stop);
    var d := Deliver(b, Emit(ConcernRoom(concernId), ev)) - {Delivery(sock, ev)};
    forall x | x in t
      ensures x in d
    {
      assert x == Delivery(x.socket, ev);
    }
    forall x | x in d
      ensures x in t
    {
      assert x == Delivery(x.socket, ev);
    }
  }

  /** `getIO`: the handle, or the "Socket.io not initialized" error. */
  function GetIO(b: Bus): (r: Option<Bus>)
    ensures r.Some? <==> b.initialized
  {
    if b.initialized then Some(b) else None
  }

  /** Before initialisation every emit is a silent no-op while `getIO` fails. */
  lemma BeforeInitialisation(emits: seq<Emit>)
    ensures Publish(Uninitialized, emits) == {}
    ensures GetIO(Uninitialized).None?
  {
  }

  /** Room membership is not gated: right after a socket joins a concern's room
      an emit to that room reaches it, and right after it leaves it does not. */
  lemma {:induction false} JoinThenEmit(b: Bus, sock: SocketId, concernId: ConcernId, ev: Event)
    requires b.initialized
    ensures Delivery(sock, ev) in Deliver(Join(b, sock, concernId), Emit(ConcernRoom(concernId), ev))
    ensures Delivery(sock, ev) !in Deliver(Leave(b, sock, concernId), Emit(ConcernRoom(concernId), ev))
  {
  }

  /** Every room of the bus is a concern room. */
  predicate OnlyConcernRooms(b: Bus) {
    forall room :: room in b.rooms ==> IsConcernRoom(room)
  }

  /** The handlers above only ever create concern rooms, so no socket is ever in
      a user room and a notification reaches nobody. */
  lemma NotificationsReachNobody(b: Bus, sock: SocketId, concernId: ConcernId, userId: UserId, payload: string)
    requires OnlyConcernRooms(b)
    ensures OnlyConcernRooms(Initialize(b))
    ensures OnlyConcernRooms(Join(b, sock, concernId))
    ensures OnlyConcernRooms(Leave(b, sock, concernId))
    ensures OnlyConcernRooms(Disconnect(b, sock))
    ensures Deliver(b, EmitNotification(userId, payload)) == {}
  {
    RoomNamesDistinct(concernId, concernId, userId);
    assert UserRoom(userId) !in b.rooms;
  }
}
