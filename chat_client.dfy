/** The chat page (client/src/pages/Chat.jsx): the room list, the active room,
    the message list and the input box, and the socket events the page emits.
    `join` awaits the history fetch, so it is two steps here: `BeginJoin` runs
    before the await and `HistoryLoaded` after it. The token payload decoding
    (`atob` and `JSON.parse`) is an oracle that yields nothing where it would throw. */
module ChatClient {
  import opened Common
  import JsStrings
  import TokenStore
  import opened ChatServer

  /** What the page sends over its socket. */
  datatype Emit = JoinRoom(roomId: RoomId) | SendMessage(req: SendRequest)

  /** The `tokenUser` of a send: the payload segment after the first '.' of the
      stored token, decoded, or `null` when there is no token, no such segment, or
      decoding fails. */
  function TokenUser(token: Option<string>, decodePayload: string -> Option<Claims>): (u: Option<Claims>)
    ensures token.None? ==> u.None?
    ensures token.Some? && |JsStrings.Split(token.value, '.')| < 2 ==> u.None?
    ensures token.Some? && |JsStrings.Split(token.value, '.')| >= 2 ==>
      u == decodePayload(JsStrings.Split(token.value, '.')[1])
  {
    if token.None? then None
    else
      var parts := JsStrings.Split(token.value, '.');
      if |parts| < 2 then None else decodePayload(parts[1])
  }

  /** The room button's label: `r.name || 'Unnamed Room'`. */
  function RoomLabel(name: Option<string>): (shown: string)
    ensures Present(name) ==> shown == name.value
    ensures !Present(name) ==> shown == "Unnamed Room"
    ensures shown != ""
  {
    if Present(name) then name.value else "Unnamed Room"
  }

  /** The author shown before a message: `m.sender?.username || 'user'`. */
  function SenderLabel(entry: ChatEntry): (shown: string)
    ensures entry.sender.username != "" ==> shown == entry.sender.username
    ensures entry.sender.username == "" ==> shown == "user"
    ensures shown != ""
  {
    if entry.sender.username != "" then entry.sender.username else "user"
  }

  class ChatPage {
    const socket: SocketId
    var rooms: seq<Room>
    var roomId: Option<RoomId>
    var messages: seq<ChatEntry>
    var input: string
    var emitted: seq<Emit>

    constructor (socket: SocketId)
      ensures this.socket == socket
      ensures rooms == [] && roomId == None && messages == [] && input == "" && emitted == []
    {
      this.socket := socket;
      rooms, roomId, messages, input, emitted := [], None, [], "", [];
    }

    /** The mount effect's room-list fetch resolving. */
    method RoomsLoaded(data: seq<Room>)
      modifies this`rooms
      ensures rooms == data
    {
      rooms := data;
    }

    /** `join(id)` up to the history fetch: the room becomes active at once. */
    method BeginJoin(id: RoomId)
      modifies this`roomId
      ensures roomId == Some(id)
    {
      roomId := Some(id);
    }

    /** `join(id)` after the history fetch: the message list is replaced by the
        history, and only then is `room:join` emitted. */
    method HistoryLoaded(id: RoomId, history: seq<ChatEntry>)
      modifies this`messages, this`emitted
      ensures messages == history
      ensures emitted == old(emitted) + [JoinRoom(id)]
    {
      messages := history;
      emitted := emitted + [JoinRoom(id)];
    }

    /** `onNew`: each `msg:new` goes at the end, whatever room it is for. */
    method OnNew(entry: ChatEntry)
      modifies this`messages
      ensures messages == old(messages) + [entry]
    {
      messages := messages + [entry];
    }

    /** The input box's `onChange`. */
    method Type(text: string)
      modifies this`input
      ensures input == text
    {
      input := text;
    }

    /** `send`: emits the active room, the input and the decoded token user,
        then clears the input. The message list is not touched; the sender sees
        its own message only when the broadcast comes back. */
    method Send(storage: TokenStore.LocalStorage, decodePayload: string -> Option<Claims>)
      modifies this`emitted, this`input
      ensures emitted == old(emitted) + [SendMessage(SendRequest(roomId, old(input), TokenUser(storage.GetToken(), decodePayload)))]
      ensures input == ""
      ensures messages == old(messages)
    {
      var tokenUser := TokenUser(storage.GetToken(), decodePayload);
      emitted := emitted + [SendMessage(SendRequest(roomId, input, tokenUser))];
      input := "";
    }
  }
}

/** Runs of the chat page against the chat server, with the transport reduced
    to handing each event to its receiver at once. */
module ChatScenarios {
  import opened Common
  import JsStrings
  import TokenStore
  import opened ChatServer
  import opened ChatClient

  /** A socket that joins after a broadcast does not receive it, and joining
      twice does not make a socket receive a broadcast twice. */
  method LateJoiner(a: SocketId, b: SocketId, user: Claims, text: string)
    returns (reachedA: bool, reachedB: bool, broadcasts: nat)
    requires a != b
    ensures reachedA && !reachedB && broadcasts == 1
  {
    var server, room := WithRoom(user);
    server.Join(a, room.id);
    server.Join(a, room.id);
    server.Send(SendRequest(Some(room.id), text, Some(user)));
    server.Join(b, room.id);
    assert server.deliveries[0].recipients == {a};
    reachedA := a in server.deliveries[0].recipients;
    reachedB := b in server.deliveries[0].recipients;
    broadcasts := |server.deliveries|;
  }

  /** A send to a room id with no stored room stores and broadcasts nothing,
      even from a user and to a room some socket has joined. */
  method UnknownRoom(a: SocketId, roomId: RoomId, user: Claims, text: string)
    returns (stored: nat, broadcasts: nat)
    ensures stored == 0 && broadcasts == 0
  {
    var server := new Server();
    server.Join(a, roomId);
    server.Send(SendRequest(Some(roomId), text, Some(user)));
    stored, broadcasts := |server.messages|, |server.deliveries|;
  }

  /** An idle server with one room, created by `owner`, and two pages open in it. */
  method TwoPages(a: SocketId, b: SocketId, owner: Claims) returns (server: Server, pageA: ChatPage, pageB: ChatPage, room: Room)
    requires a != b
    ensures fresh(server) && fresh(pageA) && fresh(pageB) && pageA != pageB
    ensures server.Valid() && server.messages == [] && server.deliveries == []
    ensures HasRoom(server.rooms, room.id)
    ensures Subscribers(server.members, room.id) == {a, b}
    ensures pageA.socket == a && pageB.socket == b
    ensures pageA.roomId == Some(room.id) && pageA.messages == [] && pageA.input == ""
    ensures pageB.messages == []
  {
    server, room := WithRoom(owner);
    pageA := new ChatPage(a);
    pageB := new ChatPage(b);
    Open(server, pageA, room.id);
    Open(server, pageB, room.id);
  }

  /** A new server whose only row is one room created by `owner`. */
  method WithRoom(owner: Claims) returns (server: Server, room: Room)
    ensures fresh(server)
    ensures server.Valid() && server.messages == [] && server.deliveries == [] && server.members == map[]
    ensures HasRoom(server.rooms, room.id)
  {
    server := new Server();
    var _, created := server.CreateRoom(owner, Some("general"), Undefined);
    room := created;
    assert room in server.rooms;
  }

  /** Two pages in one room; the first sends "hello". Each page's list gains
      the same single entry, the sender's through the echo, carrying the
      sender's identity; the sender's input is cleared. */
  method Echo(a: SocketId, b: SocketId, token: string, user: Claims, decodePayload: string -> Option<Claims>)
    returns (room: Room, listA: seq<ChatEntry>, listB: seq<ChatEntry>, inputA: string)
    requires a != b
    requires |JsStrings.Split(token, '.')| >= 2 && decodePayload(JsStrings.Split(token, '.')[1]) == Some(user)
    ensures |listA| == 1 && listA == listB
    ensures listA[0].msg.content == "hello" && listA[0].msg.roomId == room.id
    ensures listA[0].msg.senderId == user.id && listA[0].sender == Sender(user.id, user.username)
    ensures inputA == ""
  {
    var server, pageA, pageB, r := TwoPages(a, b, user);
    room := r;
    var storage := new TokenStore.LocalStorage(map[TokenStore.TokenKey := token]);
    assert TokenUser(storage.GetToken(), decodePayload) == Some(user);
    pageA.Type("hello");
    pageA.Send(storage, decodePayload);
    var sent := pageA.emitted[|pageA.emitted| - 1];
    assert sent.req == SendRequest(Some(room.id), "hello", Some(user));
    server.Send(sent.req);
    var d := server.deliveries[|server.deliveries| - 1];
    assert d.recipients == {a, b};
    pageA.OnNew(d.entry);
    pageB.OnNew(d.entry);
    listA, listB, inputA := pageA.messages, pageB.messages, pageA.input;
  }

  /** A send to a stored room whose token cannot be decoded carries a `null`
      user, and the server stores and broadcasts nothing for it. */
  method UndecodableToken(a: SocketId, owner: Claims, token: Option<string>, decodePayload: string -> Option<Claims>)
    returns (stored: nat, broadcasts: nat)
    requires TokenUser(token, decodePayload).None?
    ensures stored == 0 && broadcasts == 0
  {
    var server, room := WithRoom(owner);
    var page := new ChatPage(a);
    var storage := new TokenStore.LocalStorage(if token.Some? then map[TokenStore.TokenKey := token.value] else map[]);
    Open(server, page, room.id);
    page.Type("hi");
    page.Send(storage, decodePayload);
    server.Send(page.emitted[|page.emitted| - 1].req);
    stored, broadcasts := |server.messages|, |server.deliveries|;
  }

  /** A page opening a room of an idle server: it takes the (empty) history
      and its `room:join` reaches the server. */
  method Open(server: Server, page: ChatPage, roomId: RoomId)
    requires server.Valid() && server.messages == []
    modifies server, page
    ensures server.Valid() && server.messages == [] && server.deliveries == []
    ensures server.rooms == old(server.rooms)
    ensures server.members == Joined(old(server.members), page.socket, roomId)
    ensures page.roomId == Some(roomId) && page.messages == [] && page.input == old(page.input)
    ensures page.emitted == old(page.emitted) + [JoinRoom(roomId)]
  {
    page.BeginJoin(roomId);
    var history := server.MessagesOf(roomId, (u: UserId) => "");
    page.HistoryLoaded(roomId, history);
    server.Join(page.socket, roomId);
  }
}
