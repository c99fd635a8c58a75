/**
 * The event-channel server of backend/src/lib/socket.js: the process-wide
 * presence registry `onlineUsers` (a JavaScript Map, so insertion-ordered),
 * the rooms each connected socket has joined, and the per-event handlers.
 * Every `emit` becomes an `Emission` appended to `log`, carrying the exact set
 * of sockets that receive it at that moment.
 */
module SocketServer {
  import opened Wrappers

  type UserId = string
  type SocketId = string
  type Room = string

  /** One entry `userId -> socket.id` of the `onlineUsers` Map. */
  datatype Binding = Binding(user: UserId, socket: SocketId)

  /** The `newMessage` payload as far as routing looks at it; `rest` stands for all other fields. */
  datatype WireMessage = WireMessage(
    senderId: Option<UserId>,
    receiverId: Option<UserId>,
    chatUsers: Option<Option<seq<UserId>>>,  // `message.chat` and, inside it, the ids of `chat.users`
    rest: string)

  datatype Event =
    | UserOnline(user: UserId)
    | OnlineUsers(users: seq<UserId>)
    | MessageReceived(message: WireMessage)
    | Typing(chatId: Room, user: UserId)
    | StopTyping(chatId: Room, user: UserId)
    | UserOffline(user: UserId)
    | MessageRead(messageId: string, user: UserId)

  /** One `emit`: the sockets it reaches and what they receive. */
  datatype Emission = Emission(recipients: set<SocketId>, event: Event)

  // ---------------------------------------------------------------------------
  // The registry as an insertion-ordered association list

  /** Map keys are unique. */
  ghost predicate DistinctUsers(reg: seq<Binding>)
  {
    forall i, j :: 0 <= i < j < |reg| ==> reg[i].user != reg[j].user
  }

  /** `Array.from(onlineUsers.keys())`, in insertion order. */
  function Keys(reg: seq<Binding>): (ks: seq<UserId>)
    ensures |ks| == |reg|
    ensures forall k :: 0 <= k < |reg| ==> ks[k] == reg[k].user
  {
    if reg == [] then [] else [reg[0].user] + Keys(reg[1..])
  }

  /** Position of the entry for `u`, if any. */
  function IndexOfUser(reg: seq<Binding>, u: UserId): (r: Option<nat>)
    ensures r.Some? ==> r.value < |reg| && reg[r.value].user == u
    ensures r.Some? ==> forall k :: 0 <= k < r.value ==> reg[k].user != u
    ensures r.None? ==> forall k :: 0 <= k < |reg| ==> reg[k].user != u
  {
    if reg == [] then None
    else if reg[0].user == u then Some(0)
    else match IndexOfUser(reg[1..], u)
      case None => None
      case Some(i) => Some(i + 1)
  }

  /** `onlineUsers.get(u)`. */
  function Lookup(reg: seq<Binding>, u: UserId): (r: Option<SocketId>)
    ensures r.None? <==> forall k :: 0 <= k < |reg| ==> reg[k].user != u
    ensures r.Some? ==> Binding(u, r.value) in reg
  {
    match IndexOfUser(reg, u)
    case None => None
    case Some(i) => Some(reg[i].socket)
  }

  /** `onlineUsers.set(u, s)`: an existing key keeps its place and gets the new value; a new key goes last. */
  function Bind(reg: seq<Binding>, u: UserId, s: SocketId): (r: seq<Binding>)
    ensures Binding(u, s) in r
    ensures forall b :: b in r ==> b == Binding(u, s) || b in reg
    ensures forall k :: 0 <= k < |reg| && reg[k].user != u ==> k < |r| && r[k] == reg[k]
    ensures |r| == if Lookup(reg, u).None? then |reg| + 1 else |reg|
  {
    match IndexOfUser(reg, u)
    case Some(i) =>
      var r := reg[i := Binding(u, s)];
      assert forall k :: 0 <= k < |r| ==> r[k] == Binding(u, s) || r[k] == reg[k];
      r
    case None => reg + [Binding(u, s)]
  }

  /** Position of the first entry, in iteration order, whose socket is `s`. */
  function IndexOfSocket(reg: seq<Binding>, s: SocketId): (r: Option<nat>)
    ensures r.Some? ==> r.value < |reg| && reg[r.value].socket == s
    ensures r.Some? ==> forall k :: 0 <= k < r.value ==> reg[k].socket != s
    ensures r.None? ==> forall k :: 0 <= k < |reg| ==> reg[k].socket != s
  {
    if reg == [] then None
    else if reg[0].socket == s then Some(0)
    else match IndexOfSocket(reg[1..], s)
      case None => None
      case Some(i) => Some(i + 1)
  }

  /** The registry after the `disconnect` loop: the first entry bound to `s` is deleted, nothing else. */
  function Unbind(reg: seq<Binding>, s: SocketId): (r: seq<Binding>)
    ensures forall b :: b in r ==> b in reg
    ensures (forall k :: 0 <= k < |reg| ==> reg[k].socket != s) ==> r == reg
    ensures (exists k :: 0 <= k < |reg| && reg[k].socket == s) ==> |r| == |reg| - 1
  {
    match IndexOfSocket(reg, s)
    case Some(i) => reg[..i] + reg[i + 1..]
    case None => reg
  }

  /** Under unique keys, `get(u)` answers `s` exactly when the entry `(u, s)` is present. */
  lemma LookupFindsEntry(reg: seq<Binding>, u: UserId, s: SocketId)
    requires DistinctUsers(reg)
    ensures Lookup(reg, u) == Some(s) <==> Binding(u, s) in reg
  {
    if Binding(u, s) in reg {
      var k :| 0 <= k < |reg| && reg[k] == Binding(u, s);
      var i := IndexOfUser(reg, u).value;
      assert i == k by {
        if i < k { assert reg[i].user == reg[k].user; }
      }
    }
  }

  lemma BindKeepsUsersDistinct(reg: seq<Binding>, u: UserId, s: SocketId)
    requires DistinctUsers(reg)
    ensures DistinctUsers(Bind(reg, u, s))
    ensures forall b :: b in Bind(reg, u, s) ==> b == Binding(u, s) || (b in reg && b.user != u)
  {
    var r := Bind(reg, u, s);
    match IndexOfUser(reg, u) {
      case None =>
      case Some(i) =>
        assert forall k :: 0 <= k < |reg| && k != i ==> reg[k].user != u;
    }
  }

  lemma BindLookupSame(reg: seq<Binding>, u: UserId, s: SocketId)
    ensures Lookup(Bind(reg, u, s), u) == Some(s)
  {
    var r := Bind(reg, u, s);
    match IndexOfUser(reg, u) {
      case None =>
        assert r[|reg|].user == u;
        assert IndexOfUser(r, u) == Some(|reg|);
      case Some(i) =>
        assert r[i].user == u;
        assert IndexOfUser(r, u) == Some(i);
    }
  }

  lemma BindLookupOther(reg: seq<Binding>, u: UserId, s: SocketId, v: UserId)
    requires v != u
    ensures Lookup(Bind(reg, u, s), v) == Lookup(reg, v)
  {
    var r := Bind(reg, u, s);
    match IndexOfUser(reg, v) {
      case None =>
        assert forall k :: 0 <= k < |r| ==> r[k].user != v;
      case Some(i) =>
        assert r[i] == reg[i];
        assert IndexOfUser(r, v) == Some(i);
    }
  }

  lemma BindKeys(reg: seq<Binding>, u: UserId, s: SocketId)
    ensures Keys(Bind(reg, u, s)) == if Lookup(reg, u).Some? then Keys(reg) else Keys(reg) + [u]
  {
    var r := Bind(reg, u, s);
    assert |Keys(r)| == |r|;
  }

  /**
   * `setup`: after binding `u` to `s`, `u` maps to `s` (any earlier socket is
   * silently replaced), every other user keeps its binding, keys stay unique,
   * and the key list grows by `u` exactly when `u` was new.
   */
  lemma BindReplaces(reg: seq<Binding>, u: UserId, s: SocketId)
    requires DistinctUsers(reg)
    ensures DistinctUsers(Bind(reg, u, s))
    ensures Lookup(Bind(reg, u, s), u) == Some(s)
    ensures forall v :: v != u ==> Lookup(Bind(reg, u, s), v) == Lookup(reg, v)
    ensures Keys(Bind(reg, u, s)) == if Lookup(reg, u).Some? then Keys(reg) else Keys(reg) + [u]
  {
    BindKeepsUsersDistinct(reg, u, s);
    BindLookupSame(reg, u, s);
    forall v | v != u ensures Lookup(Bind(reg, u, s), v) == Lookup(reg, v) {
      BindLookupOther(reg, u, s, v);
    }
    BindKeys(reg, u, s);
  }

  lemma UnbindShape(reg: seq<Binding>, s: SocketId, i: nat)
    requires IndexOfSocket(reg, s) == Some(i)
    ensures Unbind(reg, s) == reg[..i] + reg[i + 1..]
    ensures forall k :: 0 <= k < |reg| - 1 ==> Unbind(reg, s)[k] == if k < i then reg[k] else reg[k + 1]
  {
  }

  /**
   * `disconnect` removes at most one entry, the first bound to the socket, and
   * every user it does not remove keeps exactly its binding.
   */
  lemma UnbindRemovesFirstOnly(reg: seq<Binding>, s: SocketId)
    requires DistinctUsers(reg)
    ensures DistinctUsers(Unbind(reg, s))
    ensures IndexOfSocket(reg, s).None? ==> Unbind(reg, s) == reg
    ensures IndexOfSocket(reg, s).Some? ==>
              |Unbind(reg, s)| == |reg| - 1
              && Lookup(reg, reg[IndexOfSocket(reg, s).value].user) == Some(s)
              && Lookup(Unbind(reg, s), reg[IndexOfSocket(reg, s).value].user).None?
    ensures forall v :: Lookup(Unbind(reg, s), v).Some? ==> Lookup(Unbind(reg, s), v) == Lookup(reg, v)
  {
    var r := Unbind(reg, s);
    match IndexOfSocket(reg, s) {
      case None =>
      case Some(i) =>
        UnbindShape(reg, s, i);
        var u := reg[i].user;
        LookupFindsEntry(reg, u, s);
        assert forall k :: 0 <= k < |r| ==> r[k].user != u;
        UnbindKeepsUsersDistinct(reg, s);
        forall v | Lookup(r, v).Some? ensures Lookup(r, v) == Lookup(reg, v) {
          UnbindLookupKept(reg, s, v);
        }
    }
  }

  lemma UnbindKeepsUsersDistinct(reg: seq<Binding>, s: SocketId)
    requires DistinctUsers(reg)
    ensures DistinctUsers(Unbind(reg, s))
    ensures forall b :: b in Unbind(reg, s) ==> b in reg
  {
    match IndexOfSocket(reg, s) {
      case None =>
      case Some(i) => UnbindShape(reg, s, i);
    }
  }

  lemma UnbindLookupKept(reg: seq<Binding>, s: SocketId, v: UserId)
    requires DistinctUsers(reg)
    requires Lookup(Unbind(reg, s), v).Some?
    ensures Lookup(Unbind(reg, s), v) == Lookup(reg, v)
  {
    var r := Unbind(reg, s);
    UnbindKeepsUsersDistinct(reg, s);
    var t := Lookup(r, v).value;
    LookupFindsEntry(r, v, t);
    LookupFindsEntry(reg, v, t);
  }

  /**
   * A stale socket never evicts a newer binding: if `u` is now bound to `s2`,
   * disconnecting any other socket leaves `u -> s2` in place.
   */
  lemma StaleDisconnectKeepsNewer(reg: seq<Binding>, u: UserId, s1: SocketId, s2: SocketId)
    requires DistinctUsers(reg)
    requires Lookup(reg, u) == Some(s2) && s1 != s2
    ensures Lookup(Unbind(reg, s1), u) == Some(s2)
  {
    var r := Unbind(reg, s1);
    LookupFindsEntry(reg, u, s2);
    match IndexOfSocket(reg, s1)
    case None =>
    case Some(i) =>
      var k :| 0 <= k < |reg| && reg[k] == Binding(u, s2);
      assert k != i;
      assert r[if k < i then k else k - 1] == Binding(u, s2);
      UnbindRemovesFirstOnly(reg, s1);
      LookupFindsEntry(r, u, s2);
  }

  /**
   * The re-registration scenario: `u` set up from `s1`, then again from `s2`;
   * when `s1` later disconnects the registry finds no entry bound to it (so no
   * `userOffline` is emitted) and `u` stays bound to `s2`.
   */
  lemma ReRegisteredUserSurvivesOldDisconnect(reg: seq<Binding>, u: UserId, s1: SocketId, s2: SocketId)
    requires DistinctUsers(reg)
    requires s1 != s2
    requires forall k :: 0 <= k < |reg| ==> reg[k].socket != s1
    ensures IndexOfSocket(Bind(Bind(reg, u, s1), u, s2), s1).None?
    ensures Unbind(Bind(Bind(reg, u, s1), u, s2), s1) == Bind(Bind(reg, u, s1), u, s2)
    ensures Lookup(Unbind(Bind(Bind(reg, u, s1), u, s2), s1), u) == Some(s2)
  {
    BindKeepsUsersDistinct(reg, u, s1);
    var r1 := Bind(reg, u, s1);
    BindKeepsUsersDistinct(r1, u, s2);
    var r2 := Bind(r1, u, s2);
    assert forall b :: b in r2 ==> b.socket != s1;
    BindLookupSame(r1, u, s2);
  }

  /**
   * One socket that sets up two users who were not online yet keeps the second
   * binding after it disconnects: the loop deletes the first entry it meets,
   * which is the older key.
   */
  lemma DoubleSetupLeavesSecondBinding(reg: seq<Binding>, u1: UserId, u2: UserId, s: SocketId)
    requires u1 != u2
    requires Lookup(reg, u1).None? && Lookup(reg, u2).None?
    requires forall k :: 0 <= k < |reg| ==> reg[k].socket != s
    ensures Unbind(Bind(Bind(reg, u1, s), u2, s), s) == reg + [Binding(u2, s)]
  {
    var r1 := reg + [Binding(u1, s)];
    assert Bind(reg, u1, s) == r1;
    assert forall k :: 0 <= k < |r1| ==> r1[k].user != u2;
    var r2 := r1 + [Binding(u2, s)];
    assert r2[|reg|] == Binding(u1, s);
    assert IndexOfSocket(r2, s) == Some(|reg|);
    assert r2[..|reg|] == reg && r2[|reg| + 1..] == [Binding(u2, s)];
  }

  /**
   * When the second user already had an older entry, the same double setup
   * loses the second user instead: the entry deleted is the first in map
   * order, not the first set up.
   */
  lemma DoubleSetupOverOlderEntryKeepsFirst(u1: UserId, u2: UserId, s0: SocketId, s1: SocketId, s: SocketId)
    requires u1 != u2
    ensures Unbind(Bind(Bind([Binding(u2, s0), Binding(u1, s1)], u1, s), u2, s), s) == [Binding(u1, s)]
  {
    var reg := [Binding(u2, s0), Binding(u1, s1)];
    assert IndexOfUser(reg, u1) == Some(1);
    assert Bind(reg, u1, s) == [Binding(u2, s0), Binding(u1, s)];
    assert Bind([Binding(u2, s0), Binding(u1, s)], u2, s) == [Binding(u2, s), Binding(u1, s)];
    assert IndexOfSocket([Binding(u2, s), Binding(u1, s)], s) == Some(0);
  }

  // ---------------------------------------------------------------------------
  // Rooms

  /** Sockets currently in `room`. */
  function RoomMembers(rooms: map<SocketId, set<Room>>, room: Room): (r: set<SocketId>)
    ensures r <= rooms.Keys
  {
    set s | s in rooms && room in rooms[s]
  }

  /** The users of `chat.users` that a message is fanned out to: everyone but the sender. */
  function FanOutTargets(users: seq<UserId>, sender: Option<UserId>): (t: seq<UserId>)
    ensures forall v :: v in t <==> v in users && Some(v) != sender
    ensures |t| <= |users|
  {
    if users == [] then []
    else (if Some(users[0]) == sender then [] else [users[0]]) + FanOutTargets(users[1..], sender)
  }

  /** One `socket.in(user._id).emit('messageReceived', m)` per target, in list order. */
  function FanOut(rooms: map<SocketId, set<Room>>, from: SocketId, targets: seq<UserId>, m: WireMessage): (es: seq<Emission>)
    ensures |es| == |targets|
    ensures forall k :: 0 <= k < |targets| ==>
              es[k] == Emission(RoomMembers(rooms, targets[k]) - {from}, MessageReceived(m))
  {
    if targets == [] then []
    else [Emission(RoomMembers(rooms, targets[0]) - {from}, MessageReceived(m))]
         + FanOut(rooms, from, targets[1..], m)
  }

  /** What `newMessage` emits, as a function of the rooms and the sending socket. */
  function NewMessageEmissions(rooms: map<SocketId, set<Room>>, from: SocketId, m: WireMessage): seq<Emission>
  {
    if m.chatUsers.None? || m.chatUsers.value.None? then
      if Truthy(m.receiverId) then [Emission(RoomMembers(rooms, m.receiverId.value) - {from}, MessageReceived(m))]
      else []
    else FanOut(rooms, from, FanOutTargets(m.chatUsers.value.value, m.senderId), m)
  }

  /**
   * Routing of `newMessage`: without `chat.users` it reaches only the
   * receiver's room (and is dropped without a receiver); with `chat.users`
   * every listed user other than the sender gets one emission to their room,
   * and the sender's user gets none. The sending socket never receives it.
   */
  lemma NewMessageRouting(rooms: map<SocketId, set<Room>>, from: SocketId, m: WireMessage)
    ensures forall e :: e in NewMessageEmissions(rooms, from, m) ==> from !in e.recipients && e.event == MessageReceived(m)
    ensures (m.chatUsers.None? || m.chatUsers.value.None?) && !Truthy(m.receiverId) ==> NewMessageEmissions(rooms, from, m) == []
    ensures (m.chatUsers.None? || m.chatUsers.value.None?) && Truthy(m.receiverId) ==>
              NewMessageEmissions(rooms, from, m) == [Emission(RoomMembers(rooms, m.receiverId.value) - {from}, MessageReceived(m))]
    ensures m.chatUsers.Some? && m.chatUsers.value.Some? ==>
              forall v :: v in m.chatUsers.value.value && Some(v) != m.senderId ==>
                Emission(RoomMembers(rooms, v) - {from}, MessageReceived(m)) in NewMessageEmissions(rooms, from, m)
    ensures m.chatUsers.Some? && m.chatUsers.value.Some? ==>
              |NewMessageEmissions(rooms, from, m)| <= |m.chatUsers.value.value|
  {
    if m.chatUsers.Some? && m.chatUsers.value.Some? {
      var t := FanOutTargets(m.chatUsers.value.value, m.senderId);
      var es := FanOut(rooms, from, t, m);
      forall v | v in m.chatUsers.value.value && Some(v) != m.senderId
        ensures Emission(RoomMembers(rooms, v) - {from}, MessageReceived(m)) in es
      {
        var k :| 0 <= k < |t| && t[k] == v;
        assert es[k] == Emission(RoomMembers(rooms, v) - {from}, MessageReceived(m));
      }
    }
  }

  // ---------------------------------------------------------------------------
  // The server

  class EventServer {
    /** `onlineUsers`: user id -> socket id, in insertion order. */
    var online: seq<Binding>
    /** Connected sockets and the rooms each has joined. */
    var rooms: map<SocketId, set<Room>>
    /** Every emission so far, oldest first. */
    var log: seq<Emission>

    ghost predicate Valid()
      reads this
    {
      DistinctUsers(online)
    }

    constructor ()
      ensures Valid()
      ensures online == [] && rooms == map[] && log == []
    {
      online, rooms, log := [], map[], [];
    }

    /** `io.on('connection')`: a new socket, in no room yet. */
    method Connect(s: SocketId)
      requires Valid()
      requires s !in rooms
      modifies this
      ensures Valid()
      ensures rooms == old(rooms)[s := {}]
      ensures online == old(online) && log == old(log)
    {
      rooms := rooms[s := {}];
    }

    /**
     * `setup(userId)`: join the personal room, bind the user to this socket
     * (last writer wins), announce `userOnline` to every other socket, then send
     * the full key list to the personal room (this socket included).
     */
    method Setup(s: SocketId, u: UserId)
      requires Valid()
      requires s in rooms
      modifies this
      ensures Valid()
      ensures rooms == old(rooms)[s := old(rooms)[s] + {u}]
      ensures online == Bind(old(online), u, s)
      ensures Lookup(online, u) == Some(s)
      ensures forall v :: v != u ==> Lookup(online, v) == Lookup(old(online), v)
      ensures log == old(log) + [Emission(old(rooms).Keys - {s}, UserOnline(u)),
                                 Emission(RoomMembers(rooms, u), OnlineUsers(Keys(online)))]
    {
      BindReplaces(online, u, s);
      rooms := rooms[s := rooms[s] + {u}];
      assert rooms.Keys == old(rooms).Keys;
      online := Bind(online, u, s);
      log := log + [Emission(rooms.Keys - {s}, UserOnline(u))];
      log := log + [Emission(RoomMembers(rooms, u), OnlineUsers(Keys(online)))];
    }

    /** `joinChat(chatId)`: room membership is a set, so a second join changes nothing. */
    method JoinChat(s: SocketId, chatId: Room)
      requires Valid()
      requires s in rooms
      modifies this
      ensures Valid()
      ensures rooms == old(rooms)[s := old(rooms)[s] + {chatId}]
      ensures chatId in old(rooms)[s] ==> rooms == old(rooms)
      ensures online == old(online) && log == old(log)
    {
      if chatId in rooms[s] {
        assert rooms[s] + {chatId} == rooms[s];
      }
      rooms := rooms[s := rooms[s] + {chatId}];
    }

    /** `newMessage`: relay to the receiver's room, or fan out over `chat.users`. */
    method NewMessage(s: SocketId, m: WireMessage)
      requires Valid()
      requires s in rooms
      modifies this
      ensures Valid()
      ensures rooms == old(rooms) && online == old(online)
      ensures log == old(log) + NewMessageEmissions(rooms, s, m)
    {
      if m.chatUsers.None? || m.chatUsers.value.None? {
        if Truthy(m.receiverId) {
          log := log + [Emission(RoomMembers(rooms, m.receiverId.value) - {s}, MessageReceived(m))];
        }
        return;
      }
      var users := m.chatUsers.value.value;
      var sent: seq<Emission> := [];
      var i := 0;
      while i < |users|
        invariant 0 <= i <= |users|
        invariant sent == FanOut(rooms, s, FanOutTargets(users[..i], m.senderId), m)
        invariant unchanged(this)
      {
        FanOutStep(rooms, s, users, i, m);
        if Some(users[i]) != m.senderId {
          sent := sent + [Emission(RoomMembers(rooms, users[i]) - {s}, MessageReceived(m))];
        }
        i := i + 1;
      }
      assert users[..|users|] == users;
      log := log + sent;
    }

    /** `typing`: relayed to the chat room only, never back to the sender. */
    method Typing(s: SocketId, chatId: Room, userId: UserId)
      requires Valid()
      requires s in rooms
      modifies this
      ensures Valid()
      ensures rooms == old(rooms) && online == old(online)
      ensures log == old(log) + [Emission(RoomMembers(rooms, chatId) - {s}, Event.Typing(chatId, userId))]
    {
      log := log + [Emission(RoomMembers(rooms, chatId) - {s}, Event.Typing(chatId, userId))];
    }

    /** `stopTyping`: relayed to the chat room only, never back to the sender. */
    method StopTyping(s: SocketId, chatId: Room, userId: UserId)
      requires Valid()
      requires s in rooms
      modifies this
      ensures Valid()
      ensures rooms == old(rooms) && online == old(online)
      ensures log == old(log) + [Emission(RoomMembers(rooms, chatId) - {s}, Event.StopTyping(chatId, userId))]
    {
      log := log + [Emission(RoomMembers(rooms, chatId) - {s}, Event.StopTyping(chatId, userId))];
    }

    /** `messageRead`: relayed to the chat room without the sender; the payload drops `chatId`. */
    method MessageRead(s: SocketId, messageId: string, chatId: Room, userId: UserId)
      requires Valid()
      requires s in rooms
      modifies this
      ensures Valid()
      ensures rooms == old(rooms) && online == old(online)
      ensures log == old(log) + [Emission(RoomMembers(rooms, chatId) - {s}, Event.MessageRead(messageId, userId))]
    {
      log := log + [Emission(RoomMembers(rooms, chatId) - {s}, Event.MessageRead(messageId, userId))];
    }

    /**
     * `disconnect`: the socket has left every room; the first registry entry
     * bound to it, if any, is deleted and announced to all remaining sockets
     * with `userOffline` and the new key list. Nothing is emitted otherwise.
     */
    method Disconnect(s: SocketId)
      requires Valid()
      requires s in rooms
      modifies this
      ensures Valid()
      ensures rooms == old(rooms) - {s}
      ensures online == Unbind(old(online), s)
      ensures IndexOfSocket(old(online), s).None? ==> log == old(log)
      ensures IndexOfSocket(old(online), s).Some? ==>
                log == old(log) + [Emission(rooms.Keys, UserOffline(old(online)[IndexOfSocket(old(online), s).value].user)),
                                   Emission(rooms.Keys, OnlineUsers(Keys(online)))]
    {
      UnbindRemovesFirstOnly(online, s);
      rooms := rooms - {s};
      var i := 0;
      while i < |online|
        invariant 0 <= i <= |online|
        invariant online == old(online) && log == old(log)
        invariant forall k :: 0 <= k < i ==> online[k].socket != s
      {
        if online[i].socket == s {
          var u := online[i].user;
          assert IndexOfSocket(online, s) == Some(i);
          online := online[..i] + online[i + 1..];
          log := log + [Emission(rooms.Keys, UserOffline(u)), Emission(rooms.Keys, OnlineUsers(Keys(online)))];
          break;
        }
        i := i + 1;
      }
    }
  }

  lemma FanOutTargetsAppend(users: seq<UserId>, v: UserId, sender: Option<UserId>)
    ensures FanOutTargets(users + [v], sender)
            == FanOutTargets(users, sender) + (if Some(v) == sender then [] else [v])
  {
    if users != [] {
      assert (users + [v])[1..] == users[1..] + [v];
      FanOutTargetsAppend(users[1..], v, sender);
    }
  }

  /** One iteration of the `chat.users.forEach` loop. */
  lemma FanOutStep(rooms: map<SocketId, set<Room>>, from: SocketId, users: seq<UserId>, i: nat, m: WireMessage)
    requires i < |users|
    ensures FanOut(rooms, from, FanOutTargets(users[..i + 1], m.senderId), m)
            == FanOut(rooms, from, FanOutTargets(users[..i], m.senderId), m)
               + (if Some(users[i]) == m.senderId then []
                  else [Emission(RoomMembers(rooms, users[i]) - {from}, MessageReceived(m))])
  {
    assert users[..i + 1] == users[..i] + [users[i]];
    FanOutTargetsAppend(users[..i], users[i], m.senderId);
    FanOutAppend(rooms, from, FanOutTargets(users[..i], m.senderId), if Some(users[i]) == m.senderId then [] else [users[i]], m);
  }

  lemma FanOutAppend(rooms: map<SocketId, set<Room>>, from: SocketId, t: seq<UserId>, t': seq<UserId>, m: WireMessage)
    ensures FanOut(rooms, from, t + t', m) == FanOut(rooms, from, t, m) + FanOut(rooms, from, t', m)
  {
  }
}
