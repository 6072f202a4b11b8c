/** The realtime chat server (server/src/routes/chat.js): socket handlers
    `room:join` and `msg:send`, and the HTTP routes that create rooms, list
    them and read a room's history. The message and room tables are in-memory
    sequences kept in insertion order; `createdAt` is a clock that goes up by one
    at every insert, and the clock value also serves as the new row's id. */
module ChatServer {
  import opened Common

  type SocketId = nat
  type RoomId = nat
  type UserId = nat

  datatype Message = Message(id: nat, roomId: RoomId, senderId: UserId, content: string, createdAt: nat)

  /** The sender's display fields `{ id, username }`. */
  datatype Sender = Sender(id: UserId, username: string)

  /** A message together with its sender, the shape of a `msg:new` event and of
      a history entry. */
  datatype ChatEntry = ChatEntry(msg: Message, sender: Sender)

  /** The `msg:send` payload `{ roomId, content, tokenUser }`; a `null`
      `roomId` or `tokenUser` is `None`. */
  datatype SendRequest = SendRequest(roomId: Option<RoomId>, content: string, tokenUser: Option<Claims>)

  /** One `io.to(roomId).emit('msg:new', ...)`: the sockets it reached and what it carried. */
  datatype Delivery = Delivery(recipients: set<SocketId>, entry: ChatEntry)

  datatype Room = Room(id: RoomId, name: Option<string>, isPrivate: bool, createdAt: nat)

  /** A row of the room-membership table. */
  datatype RoomMember = RoomMember(roomId: RoomId, userId: UserId)

  function MessageTime(m: Message): int { m.createdAt }
  function RoomTime(r: Room): int { r.createdAt }

  /** The sockets subscribed to a room; a room nobody joined has none. */
  function Subscribers(members: map<RoomId, set<SocketId>>, roomId: RoomId): set<SocketId> {
    if roomId in members then members[roomId] else {}
  }

  /** `socket.join(roomId)`: the socket is added to that room and no other room changes. */
  function Joined(members: map<RoomId, set<SocketId>>, socket: SocketId, roomId: RoomId): (m: map<RoomId, set<SocketId>>)
    ensures Subscribers(m, roomId) == Subscribers(members, roomId) + {socket}
    ensures forall r :: r != roomId ==> Subscribers(m, r) == Subscribers(members, r)
  {
    members[roomId := Subscribers(members, roomId) + {socket}]
  }

  /** Joining twice is the same as joining once. */
  lemma JoinIdempotent(members: map<RoomId, set<SocketId>>, socket: SocketId, roomId: RoomId)
    ensures Joined(Joined(members, socket, roomId), socket, roomId) == Joined(members, socket, roomId)
  {
    var once := Joined(members, socket, roomId);
    assert Subscribers(once, roomId) + {socket} == Subscribers(once, roomId);
  }

  /** The room table has a row with this id. */
  predicate HasRoom(rooms: seq<Room>, roomId: RoomId) {
    exists r :: r in rooms && r.id == roomId
  }

  /** A send is persisted exactly when it names a user and a stored room. The
      handler itself checks only `tokenUser`; the message's required relation
      to its room makes the insert fail for a `null` or unknown room id, and
      the unhandled failure ends the handler before the broadcast. */
  predicate Accepts(req: SendRequest, rooms: seq<Room>) {
    req.tokenUser.Some? && req.roomId.Some? && HasRoom(rooms, req.roomId.value)
  }

  /** `findMany({ where: { roomId } })` over the message table. */
  function RoomHistory(messages: seq<Message>, roomId: RoomId): (history: seq<Message>)
    ensures IsSubseq(history, messages)
    ensures forall m :: m in history <==> m in messages && m.roomId == roomId
  {
    Filter(messages, (m: Message) => m.roomId == roomId)
  }

  /** A history holds exactly the room's messages, oldest first. */
  lemma {:induction false} HistoryExactAndOrdered(messages: seq<Message>, roomId: RoomId)
    requires Ascending(messages, MessageTime)
    ensures forall m :: m in RoomHistory(messages, roomId) <==> m in messages && m.roomId == roomId
    ensures Ascending(RoomHistory(messages, roomId), MessageTime)
  {
    SubseqAscending(RoomHistory(messages, roomId), messages, MessageTime);
  }

  /** The chat server's shared state: subscriptions, the room, membership and
      message tables, and the log of broadcasts it has made. */
  class Server {
    var members: map<RoomId, set<SocketId>>
    var messages: seq<Message>
    var rooms: seq<Room>
    var roomMembers: seq<RoomMember>
    var deliveries: seq<Delivery>
    var clock: nat

    /** Rows are stored in creation order with their clock value as id, and the
        i-th broadcast carries the i-th stored message: nothing is broadcast
        that was not stored first, and every stored message once. */
    ghost predicate Valid()
      reads this
    {
      && Ascending(messages, MessageTime)
      && Ascending(rooms, RoomTime)
      && (forall i :: 0 <= i < |messages| ==> messages[i].createdAt < clock && messages[i].id == messages[i].createdAt)
      && (forall i :: 0 <= i < |rooms| ==> rooms[i].createdAt < clock && rooms[i].id == rooms[i].createdAt)
      && |deliveries| == |messages|
      && (forall i :: 0 <= i < |deliveries| ==> deliveries[i].entry.msg == messages[i])
    }

    constructor ()
      ensures Valid()
      ensures members == map[] && messages == [] && rooms == [] && roomMembers == []
      ensures deliveries == []
    {
      members, messages, rooms, roomMembers, deliveries, clock := map[], [], [], [], [], 0;
    }

    /** `room:join`. */
    method Join(socket: SocketId, roomId: RoomId)
      requires Valid()
      modifies this`members
      ensures Valid()
      ensures members == Joined(old(members), socket, roomId)
    {
      members := Joined(members, socket, roomId);
    }

    /** `msg:send`: without a user, or without a stored room of the given id,
        nothing is stored or broadcast; otherwise
        one message with the given content, room and `senderId = tokenUser.id`
        is stored (an empty content included), and then broadcast to every
        socket in the room at that moment, with the sender's fields copied
        from `tokenUser`. */
    method Send(req: SendRequest)
      requires Valid()
      modifies this`messages, this`deliveries, this`clock
      ensures Valid()
      ensures !Accepts(req, rooms) ==> messages == old(messages) && deliveries == old(deliveries) && clock == old(clock)
      ensures Accepts(req, rooms) ==>
        var user := req.tokenUser.value;
        var msg := Message(old(clock), req.roomId.value, user.id, req.content, old(clock));
        && messages == old(messages) + [msg]
        && deliveries == old(deliveries) + [Delivery(Subscribers(members, req.roomId.value), ChatEntry(msg, Sender(user.id, user.username)))]
        && clock == old(clock) + 1
    {
      if req.tokenUser.None? {
        return;
      }
      if req.roomId.None? || !HasRoom(rooms, req.roomId.value) {
        return;
      }
      var user := req.tokenUser.value;
      var msg := Message(clock, req.roomId.value, user.id, req.content, clock);
      messages := messages + [msg];
      clock := clock + 1;
      var stored := messages[|messages| - 1];
      deliveries := deliveries + [Delivery(Subscribers(members, stored.roomId), ChatEntry(stored, Sender(user.id, user.username)))];
    }

    /** `POST /rooms` (behind the required-token middleware): `isPrivate` is
        coerced with `!!`, and exactly one membership row, for the creator, is written. */
    method CreateRoom(user: Claims, name: Option<string>, isPrivate: Js) returns (status: nat, room: Room)
      requires Valid()
      modifies this`rooms, this`roomMembers, this`clock
      ensures Valid()
      ensures status == 201
      ensures room == Room(old(clock), name, Truthy(isPrivate), old(clock))
      ensures rooms == old(rooms) + [room]
      ensures roomMembers == old(roomMembers) + [RoomMember(room.id, user.id)]
      ensures clock == old(clock) + 1
    {
      room := Room(clock, name, Truthy(isPrivate), clock);
      rooms := rooms + [room];
      roomMembers := roomMembers + [RoomMember(room.id, user.id)];
      clock := clock + 1;
      status := 201;
    }

    /** `GET /rooms`: every room, newest first. */
    method ListRooms() returns (list: seq<Room>)
      requires Valid()
      ensures Descending(list, RoomTime)
      ensures forall r :: r in list <==> r in rooms
    {
      list := Reverse(rooms);
      ReverseDescending(rooms, RoomTime);
    }

    /** `GET /rooms/:roomId/messages`: exactly the room's messages, oldest
        first, each with its sender's `{ id, username }` looked up by `usernameOf`. */
    method MessagesOf(roomId: RoomId, usernameOf: UserId -> string) returns (history: seq<ChatEntry>)
      requires Valid()
      ensures |history| == |RoomHistory(messages, roomId)|
      ensures forall i :: 0 <= i < |history| ==> history[i].msg.roomId == roomId && history[i].msg in messages
      ensures forall m :: m in messages && m.roomId == roomId ==> exists i :: 0 <= i < |history| && history[i].msg == m
      ensures forall i, j :: 0 <= i < j < |history| ==> history[i].msg.createdAt < history[j].msg.createdAt
      ensures forall i :: 0 <= i < |history| ==> history[i].sender == Sender(history[i].msg.senderId, usernameOf(history[i].msg.senderId))
    {
      var found := RoomHistory(messages, roomId);
      HistoryExactAndOrdered(messages, roomId);
      history := seq(|found|, i requires 0 <= i < |found| =>
        ChatEntry(found[i], Sender(found[i].senderId, usernameOf(found[i].senderId))));
      forall m | m in messages && m.roomId == roomId
        ensures exists i :: 0 <= i < |history| && history[i].msg == m
      {
        var i :| 0 <= i < |found| && found[i] == m;
        assert history[i].msg == m;
      }
    }
  }
}
