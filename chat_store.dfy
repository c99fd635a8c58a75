/**
 * The client sync store of frontend/src/store/useChatStore.js: a single state
 * container mutated by inbound socket events, by HTTP responses and by user
 * actions. Each handler runs to completion; a handler that awaits a request is
 * split into the part before the `await` and the part after the response.
 * Socket emits are appended to `outbox`; the authenticated user, the clock and
 * the HTTP responses are parameters.
 */
module ChatStore {
  import opened Wrappers
  import Text

  type UserId = string
  type ChatId = string

  /** A message as the client holds it; `""` stands for a missing text, image or timestamp. */
  datatype Message = Message(id: string, senderId: UserId, receiverId: UserId, text: string, image: string, createdAt: string)

  /** A roster entry: the user plus the advisory preview fields and the presence flag. */
  datatype RosterEntry = RosterEntry(id: UserId, profile: string, lastMessage: string, lastMessageTime: string, isOnline: bool)

  /** A roster entry as `GET /messages/users` returns it (`null` previews are `None`). */
  datatype WireUser = WireUser(id: UserId, profile: string, lastMessage: Option<string>, lastMessageTime: Option<string>)

  /** What the chat view passes to `sendMessage`. */
  datatype MessageData = MessageData(text: Option<string>, image: Option<string>)

  /** The POST body: each key is present or absent. */
  datatype SendPayload = SendPayload(text: Option<string>, image: Option<string>)

  /** What the store emits on its socket. */
  datatype ClientEmit =
    | SetupEmit(userId: UserId)
    | JoinChatEmit(chatId: ChatId)
    | NewMessageEmit(message: Message)
    | TypingEmit(chatId: ChatId, userId: UserId)
    | StopTypingEmit(chatId: ChatId, userId: UserId)
    | SocketDisconnect

  const NoUserError := "No user selected"
  const EmptyMessageError := "Cannot send empty message"

  /** The state `sendMessage` captured before its `await`, or the reason it stopped early. */
  datatype SendStart =
    | Rejected(error: string)
    | Posting(snapshot: seq<Message>, peer: UserId, hadSocket: bool, auth: Option<UserId>, payload: SendPayload)

  // ---------------------------------------------------------------------------
  // Messages: dedup by `_id`

  predicate HasId(ms: seq<Message>, id: string)
  {
    exists k :: 0 <= k < |ms| && ms[k].id == id
  }

  predicate UniqueIds(ms: seq<Message>)
  {
    forall i, j :: 0 <= i < j < |ms| ==> ms[i].id != ms[j].id
  }

  /** `messages.some(msg => msg._id === m._id) ? messages : [...messages, m]`. */
  function AppendIfNew(ms: seq<Message>, m: Message): (r: seq<Message>)
    ensures ms <= r && |r| <= |ms| + 1
    ensures HasId(r, m.id)
  {
    if HasId(ms, m.id) then ms
    else
      assert (ms + [m])[|ms|] == m;
      ms + [m]
  }

  /**
   * Appending by id never disturbs earlier messages, adds at most one message
   * (at the end, and only when its id is new), leaves the id present, and
   * never introduces a duplicate id; a second delivery of the same id is a no-op.
   */
  lemma AppendIfNewDedups(ms: seq<Message>, m: Message)
    ensures AppendIfNew(ms, m)[..|ms|] == ms
    ensures |AppendIfNew(ms, m)| == if HasId(ms, m.id) then |ms| else |ms| + 1
    ensures !HasId(ms, m.id) ==> AppendIfNew(ms, m)[|ms|] == m
    ensures HasId(AppendIfNew(ms, m), m.id)
    ensures UniqueIds(ms) ==> UniqueIds(AppendIfNew(ms, m))
    ensures forall m': Message :: m'.id == m.id ==> AppendIfNew(AppendIfNew(ms, m), m') == AppendIfNew(ms, m)
  {
    var r := AppendIfNew(ms, m);
    if !HasId(ms, m.id) {
      assert r[|ms|].id == m.id;
    }
  }

  /**
   * What the success path of `sendMessage` writes: the message list captured
   * before the `await`, extended with the created message when its id was not
   * in that snapshot; when it was, the current list stays as it is.
   */
  function ConfirmSend(snapshot: seq<Message>, current: seq<Message>, created: Message): seq<Message>
  {
    if HasId(snapshot, created.id) then current else snapshot + [created]
  }

  /**
   * The dual-path arrival: the channel echo of a message lands while the POST
   * is in flight, then the response arrives. The list ends with exactly one
   * message carrying that id, the response's copy, at the end.
   */
  lemma EchoThenResponseKeepsOneCopy(snapshot: seq<Message>, echo: Message, created: Message)
    requires UniqueIds(snapshot) && !HasId(snapshot, created.id)
    requires echo.id == created.id
    ensures ConfirmSend(snapshot, AppendIfNew(snapshot, echo), created) == snapshot + [created]
    ensures UniqueIds(ConfirmSend(snapshot, AppendIfNew(snapshot, echo), created))
  {
    AppendIfNewDedups(snapshot, created);
  }

  /**
   * Because the success path writes the pre-`await` snapshot, a message that
   * arrived on the channel while the POST was in flight is dropped from the list.
   */
  lemma ConfirmSendDropsConcurrentArrival(snapshot: seq<Message>, arrived: Message, created: Message)
    requires !HasId(snapshot, created.id) && !HasId(snapshot, arrived.id)
    requires arrived.id != created.id
    ensures HasId(AppendIfNew(snapshot, arrived), arrived.id)
    ensures !HasId(ConfirmSend(snapshot, AppendIfNew(snapshot, arrived), created), arrived.id)
  {
    AppendIfNewDedups(snapshot, arrived);
  }

  // ---------------------------------------------------------------------------
  // Roster

  /** The preview shown for a message without text. */
  const ImagePreview := "Sent an image"

  /** The sidebar preview of a message: its text, or `'Sent an image'`. */
  function Preview(m: Message): string
  {
    if m.text != "" then m.text else ImagePreview
  }

  /** `updateUserLastMessage(userId, m)` at clock `now`, as a map over the roster. */
  function MarkLastMessage(users: seq<RosterEntry>, userId: UserId, m: Message, now: string): (r: seq<RosterEntry>)
    ensures |r| == |users|
    ensures forall k :: 0 <= k < |r| ==> r[k].id == users[k].id && r[k].isOnline == users[k].isOnline
  {
    seq(|users|, k requires 0 <= k < |users| =>
      if users[k].id == userId
      then users[k].(lastMessage := Preview(m), lastMessageTime := if m.createdAt != "" then m.createdAt else now)
      else users[k])
  }

  /**
   * Only the entries whose id is `userId` change, and only in their preview
   * fields; the roster keeps its length, order and every other entry.
   */
  lemma MarkLastMessageTouchesOnlyMatches(users: seq<RosterEntry>, userId: UserId, m: Message, now: string)
    ensures |MarkLastMessage(users, userId, m, now)| == |users|
    ensures forall k :: 0 <= k < |users| && users[k].id != userId ==> MarkLastMessage(users, userId, m, now)[k] == users[k]
    ensures forall k :: 0 <= k < |users| && users[k].id == userId ==>
              var e := MarkLastMessage(users, userId, m, now)[k];
              && e.id == users[k].id && e.profile == users[k].profile && e.isOnline == users[k].isOnline
              && e.lastMessage != "" && (m.text != "" ==> e.lastMessage == m.text)
              && (m.text == "" ==> e.lastMessage == ImagePreview)
              && e.lastMessageTime == (if m.createdAt != "" then m.createdAt else now)
  {
  }

  /** The roster after `user._id === id ? {...user, isOnline: flag} : user`. */
  function SetOnlineFlag(users: seq<RosterEntry>, id: UserId, flag: bool): (r: seq<RosterEntry>)
    ensures |r| == |users|
    ensures forall k :: 0 <= k < |users| ==> r[k] == if users[k].id == id then users[k].(isOnline := flag) else users[k]
  {
    seq(|users|, k requires 0 <= k < |users| => if users[k].id == id then users[k].(isOnline := flag) else users[k])
  }

  /** `getUsers`' normalisation: missing previews become `''`. */
  function NormalizeUser(w: WireUser): (e: RosterEntry)
    ensures e.id == w.id && e.profile == w.profile && !e.isOnline
    ensures e.lastMessage == (if Truthy(w.lastMessage) then w.lastMessage.value else "")
    ensures e.lastMessageTime == (if Truthy(w.lastMessageTime) then w.lastMessageTime.value else "")
  {
    RosterEntry(w.id, w.profile,
                if Truthy(w.lastMessage) then w.lastMessage.value else "",
                if Truthy(w.lastMessageTime) then w.lastMessageTime.value else "",
                false)
  }

  /** The whole roster, normalised entry by entry: same users, same order, all offline. */
  function NormalizeUsers(ws: seq<WireUser>): (r: seq<RosterEntry>)
    ensures |r| == |ws|
    ensures forall k :: 0 <= k < |r| ==> r[k].id == ws[k].id && r[k].profile == ws[k].profile && !r[k].isOnline
  {
    seq(|ws|, k requires 0 <= k < |ws| => NormalizeUser(ws[k]))
  }

  // ---------------------------------------------------------------------------
  // Online list

  predicate NoDup(xs: seq<UserId>)
  {
    forall i, j :: 0 <= i < j < |xs| ==> xs[i] != xs[j]
  }

  /** `userOnline`: append the id unless it is already listed. */
  function AddOnline(xs: seq<UserId>, u: UserId): (r: seq<UserId>)
    ensures xs <= r && u in r
  {
    if u in xs then xs else xs + [u]
  }

  /** `userOffline`: `filter(id => id !== u)`. */
  function RemoveOnline(xs: seq<UserId>, u: UserId): (r: seq<UserId>)
    ensures |r| <= |xs|
  {
    if xs == [] then []
    else (if xs[0] == u then [] else [xs[0]]) + RemoveOnline(xs[1..], u)
  }

  /** `userOnline` lists the id exactly once more at most, keeps every other id, and keeps the list duplicate-free. */
  lemma AddOnlineIsSetInsert(xs: seq<UserId>, u: UserId)
    ensures forall v :: v in AddOnline(xs, u) <==> v in xs || v == u
    ensures xs <= AddOnline(xs, u)
    ensures NoDup(xs) ==> NoDup(AddOnline(xs, u))
  {
  }

  /** `userOffline` removes every occurrence of the id and keeps every other id. */
  lemma {:induction false} RemoveOnlineIsSetDelete(xs: seq<UserId>, u: UserId)
    ensures forall v :: v in RemoveOnline(xs, u) <==> v in xs && v != u
    ensures NoDup(xs) ==> NoDup(RemoveOnline(xs, u))
    ensures u !in xs ==> RemoveOnline(xs, u) == xs
  {
    if xs != [] {
      RemoveOnlineIsSetDelete(xs[1..], u);
      assert xs == [xs[0]] + xs[1..];
      if NoDup(xs) {
        assert NoDup(xs[1..]);
        assert xs[0] !in xs[1..];
      }
    }
  }

  /** The filter works piece by piece, so the ids it keeps stay in their relative order. */
  lemma {:induction false} RemoveOnlineConcat(xs: seq<UserId>, ys: seq<UserId>, u: UserId)
    ensures RemoveOnline(xs + ys, u) == RemoveOnline(xs, u) + RemoveOnline(ys, u)
  {
    if xs == [] {
      assert xs + ys == ys;
    } else {
      assert (xs + ys)[1..] == xs[1..] + ys;
      RemoveOnlineConcat(xs[1..], ys, u);
    }
  }

  /** Going online then offline leaves a list that did not hold the id unchanged. */
  lemma OnlineThenOffline(xs: seq<UserId>, u: UserId)
    requires u !in xs
    ensures RemoveOnline(AddOnline(xs, u), u) == xs
  {
    RemoveOnlineAppend(xs, u);
    RemoveOnlineIsSetDelete(xs, u);
  }

  lemma {:induction false} RemoveOnlineAppend(xs: seq<UserId>, u: UserId)
    ensures RemoveOnline(xs + [u], u) == RemoveOnline(xs, u)
  {
    if xs == [] {
      assert RemoveOnline([u], u) == [] + RemoveOnline([], u);
    } else {
      assert (xs + [u])[1..] == xs[1..] + [u];
      RemoveOnlineAppend(xs[1..], u);
    }
  }

  // ---------------------------------------------------------------------------
  // Typing map

  /** Every key maps to a non-empty, duplicate-free list. */
  predicate TypingWellFormed(tu: map<ChatId, seq<UserId>>)
  {
    forall c :: c in tu ==> tu[c] != [] && NoDup(tu[c])
  }

  /** The `typing` handler's update. */
  function AddTyping(tu: map<ChatId, seq<UserId>>, c: ChatId, u: UserId): (r: map<ChatId, seq<UserId>>)
    ensures r.Keys == tu.Keys + {c}
    ensures u in r[c]
  {
    var current := if c in tu then tu[c] else [];
    tu[c := if u in current then current else current + [u]]
  }

  /** The `stopTyping` handler's update. */
  function RemoveTyping(tu: map<ChatId, seq<UserId>>, c: ChatId, u: UserId): (r: map<ChatId, seq<UserId>>)
    ensures r.Keys <= tu.Keys && r.Keys >= tu.Keys - {c}
    ensures forall d :: d in r ==> r[d] != [] || (d in tu && tu[d] == [])
  {
    if c !in tu then tu
    else
      var rest := RemoveOnline(tu[c], u);
      if rest == [] then tu - {c} else tu[c := rest]
  }

  predicate IsTyping(tu: map<ChatId, seq<UserId>>, c: ChatId, u: UserId)
  {
    c in tu && u in tu[c]
  }

  /** `typing` marks the user as typing in that chat, touches no other chat, and keeps the map well formed. */
  lemma AddTypingMarks(tu: map<ChatId, seq<UserId>>, c: ChatId, u: UserId)
    requires TypingWellFormed(tu)
    ensures TypingWellFormed(AddTyping(tu, c, u))
    ensures IsTyping(AddTyping(tu, c, u), c, u)
    ensures forall v :: v != u ==> (IsTyping(AddTyping(tu, c, u), c, v) <==> IsTyping(tu, c, v))
    ensures forall d :: d != c ==> (d in AddTyping(tu, c, u) <==> d in tu)
    ensures forall d :: d != c && d in tu ==> AddTyping(tu, c, u)[d] == tu[d]
  {
  }

  /** `stopTyping` clears the user in that chat, deletes an emptied key, touches no other chat, and keeps the map well formed. */
  lemma RemoveTypingClears(tu: map<ChatId, seq<UserId>>, c: ChatId, u: UserId)
    requires TypingWellFormed(tu)
    ensures TypingWellFormed(RemoveTyping(tu, c, u))
    ensures !IsTyping(RemoveTyping(tu, c, u), c, u)
    ensures forall v :: v != u ==> (IsTyping(RemoveTyping(tu, c, u), c, v) <==> IsTyping(tu, c, v))
    ensures forall d :: d != c ==> (d in RemoveTyping(tu, c, u) <==> d in tu)
    ensures forall d :: d != c && d in tu ==> RemoveTyping(tu, c, u)[d] == tu[d]
  {
    if c in tu {
      RemoveOnlineIsSetDelete(tu[c], u);
    }
  }

  /** A `typing` followed by the matching `stopTyping` restores the map when the user was not typing there. */
  lemma TypingThenStopRestores(tu: map<ChatId, seq<UserId>>, c: ChatId, u: UserId)
    requires TypingWellFormed(tu)
    requires !IsTyping(tu, c, u)
    ensures RemoveTyping(AddTyping(tu, c, u), c, u) == tu
  {
    if c in tu {
      var cur := tu[c];
      assert u !in cur;
      var added := tu[c := cur + [u]];
      assert AddTyping(tu, c, u) == added;
      RemoveOnlineAppend(cur, u);
      RemoveOnlineIsSetDelete(cur, u);
      assert RemoveOnline(added[c], u) == cur != [];
      assert RemoveTyping(added, c, u) == added[c := cur];
      assert added[c := cur] == tu;
    } else {
      var added := tu[c := [u]];
      assert [] + [u] == [u];
      assert AddTyping(tu, c, u) == added;
      assert RemoveOnline([u], u) == [];
      assert RemoveTyping(added, c, u) == added - {c};
      assert added - {c} == tu;
    }
  }

  // ---------------------------------------------------------------------------
  // Sending

  /** The POST body: `text` only when it is non-empty after trimming (and then trimmed), `image` only when present. */
  function BuildPayload(data: MessageData): (p: SendPayload)
    ensures p.text.Some? <==> Truthy(data.text) && !Text.AllSpace(data.text.value)
    ensures p.text.Some? ==> p.text.value == Text.Trim(data.text.value) && p.text.value != ""
    ensures p.text.Some? ==> !Text.IsJsSpace(p.text.value[0]) && !Text.IsJsSpace(p.text.value[|p.text.value| - 1])
    ensures p.image == (if Truthy(data.image) then data.image else None)
  {
    var raw := if data.text.Some? then data.text.value else "";
    Text.TrimEmptyIff(raw);
    var text := if Truthy(data.text) && Text.Trim(raw) != "" then Some(Text.Trim(raw)) else None;
    SendPayload(text, if Truthy(data.image) then data.image else None)
  }

  // ---------------------------------------------------------------------------
  // The store

  class Store {
    var messages: seq<Message>
    var users: seq<RosterEntry>
    var selectedUser: Option<UserId>
    var isUsersLoading: bool
    var isMessagesLoading: bool
    /** The socket handle, if one was created and not disconnected. */
    var socket: Option<nat>
    var onlineUsers: seq<UserId>
    var typingUsers: map<ChatId, seq<UserId>>
    /** Everything emitted on the socket, oldest first. */
    var outbox: seq<ClientEmit>

    ghost predicate Valid()
      reads this
    {
      TypingWellFormed(typingUsers)
    }

    constructor ()
      ensures Valid()
      ensures messages == [] && users == [] && selectedUser == None && socket == None
      ensures !isUsersLoading && !isMessagesLoading
      ensures onlineUsers == [] && typingUsers == map[] && outbox == []
    {
      messages, users, selectedUser := [], [], None;
      isUsersLoading, isMessagesLoading := false, false;
      socket, onlineUsers, typingUsers, outbox := None, [], map[], [];
    }

    /** `updateUserLastMessage(userId, m)`. */
    method UpdateUserLastMessage(userId: UserId, m: Message, now: string)
      modifies this`users
      ensures users == MarkLastMessage(old(users), userId, m, now)
    {
      users := MarkLastMessage(users, userId, m, now);
    }

    /** `initSocket(authUser)`: nothing without a user or with a connected socket; otherwise a new socket. */
    method InitSocket(auth: Option<UserId>, connected: bool, handle: nat)
      modifies this`socket
      ensures socket == if auth.None? || (old(socket).Some? && connected) then old(socket) else Some(handle)
    {
      if auth.None? { return; }
      if socket.Some? && connected { return; }
      socket := Some(handle);
    }

    /** `initialize(authUser)`: set up the socket, then start loading the roster. */
    method Initialize(auth: Option<UserId>, connected: bool, handle: nat)
      modifies this`socket, this`isUsersLoading
      ensures socket == if auth.None? || (old(socket).Some? && connected) then old(socket) else Some(handle)
      ensures isUsersLoading
    {
      InitSocket(auth, connected, handle);
      GetUsersBegin();
    }

    /** The socket's `connect` handler: announce the user with `setup`. */
    method OnConnect(me: UserId)
      modifies this`outbox
      ensures outbox == old(outbox) + [SetupEmit(me)]
    {
      outbox := outbox + [SetupEmit(me)];
    }

    /**
     * `messageReceived`: appended, by id, when a user is selected and the
     * message comes from that user or is addressed to me (whichever user is
     * selected); the sender's roster preview is updated in every case.
     */
    method OnMessageReceived(m: Message, me: UserId, now: string)
      modifies this`messages, this`users
      ensures messages == if selectedUser.Some? && (m.senderId == selectedUser.value || m.receiverId == me)
                          then AppendIfNew(old(messages), m) else old(messages)
      ensures users == MarkLastMessage(old(users), m.senderId, m, now)
    {
      if selectedUser.Some? && (m.senderId == selectedUser.value || m.receiverId == me) {
        if !HasId(messages, m.id) {
          messages := messages + [m];
        }
      }
      UpdateUserLastMessage(m.senderId, m, now);
    }

    /** `userOnline`: listed once, and flagged online in the roster. */
    method OnUserOnline(u: UserId)
      modifies this`onlineUsers, this`users
      ensures onlineUsers == AddOnline(old(onlineUsers), u)
      ensures users == SetOnlineFlag(old(users), u, true)
    {
      if u !in onlineUsers {
        onlineUsers := onlineUsers + [u];
      }
      users := SetOnlineFlag(users, u, true);
    }

    /** `userOffline`: every occurrence removed, and flagged offline in the roster. */
    method OnUserOffline(u: UserId)
      modifies this`onlineUsers, this`users
      ensures onlineUsers == RemoveOnline(old(onlineUsers), u)
      ensures users == SetOnlineFlag(old(users), u, false)
    {
      onlineUsers := RemoveOnline(onlineUsers, u);
      users := SetOnlineFlag(users, u, false);
    }

    /** `onlineUsers`: the server's key list replaces the local one as it is. */
    method OnOnlineUsers(list: seq<UserId>)
      modifies this`onlineUsers
      ensures onlineUsers == list
    {
      onlineUsers := list;
    }

    /** `typing`: add the user to the chat's list unless present. */
    method OnTyping(c: ChatId, u: UserId)
      requires Valid()
      modifies this`typingUsers
      ensures Valid()
      ensures typingUsers == AddTyping(old(typingUsers), c, u)
    {
      AddTypingMarks(typingUsers, c, u);
      var list := if c in typingUsers then typingUsers[c] else [];
      if u !in list {
        list := list + [u];
      }
      typingUsers := typingUsers[c := list];
    }

    /** `stopTyping`: drop the user from the chat's list and the key once the list is empty. */
    method OnStopTyping(c: ChatId, u: UserId)
      requires Valid()
      modifies this`typingUsers
      ensures Valid()
      ensures typingUsers == RemoveTyping(old(typingUsers), c, u)
    {
      RemoveTypingClears(typingUsers, c, u);
      if c in typingUsers {
        var rest := RemoveOnline(typingUsers[c], u);
        if rest == [] {
          typingUsers := typingUsers - {c};
        } else {
          typingUsers := typingUsers[c := rest];
        }
      }
    }

    /** `disconnectSocket`: only with a socket, which is closed and cleared with the presence and typing state. */
    method DisconnectSocket()
      requires Valid()
      modifies this`socket, this`onlineUsers, this`typingUsers, this`outbox
      ensures Valid()
      ensures old(socket).None? ==> socket == None && onlineUsers == old(onlineUsers)
                                    && typingUsers == old(typingUsers) && outbox == old(outbox)
      ensures old(socket).Some? ==> socket == None && onlineUsers == [] && typingUsers == map[]
                                    && outbox == old(outbox) + [SocketDisconnect]
    {
      if socket.Some? {
        outbox := outbox + [SocketDisconnect];
        socket, onlineUsers, typingUsers := None, [], map[];
      }
    }

    /** `joinChat(other)`: with a socket and a user, join the room named by the conversation key. */
    method JoinChat(other: UserId, auth: Option<UserId>)
      modifies this`outbox
      ensures outbox == if socket.Some? && auth.Some?
                        then old(outbox) + [JoinChatEmit(Text.ChatKey(auth.value, other))]
                        else old(outbox)
    {
      if socket.Some? && auth.Some? {
        outbox := outbox + [JoinChatEmit(Text.ChatKey(auth.value, other))];
      }
    }

    /** `getUsers`, before the request. */
    method GetUsersBegin()
      modifies this`isUsersLoading
      ensures isUsersLoading
    {
      isUsersLoading := true;
    }

    /** `getUsers`, once the response is in: the normalised roster on success, the old one on failure. */
    method GetUsersResolve(response: Result<seq<WireUser>>)
      modifies this`users, this`isUsersLoading
      ensures users == if response.Ok? then NormalizeUsers(response.value) else old(users)
      ensures !isUsersLoading
    {
      if response.Ok? {
        users := NormalizeUsers(response.value);
      }
      isUsersLoading := false;
    }

    /** `getMessages(userId)`, before the request: nothing for a missing id. */
    method GetMessagesBegin(userId: UserId) returns (requested: bool)
      modifies this`isMessagesLoading
      ensures requested == (userId != "")
      ensures isMessagesLoading == if requested then true else old(isMessagesLoading)
    {
      if userId == "" {
        return false;
      }
      isMessagesLoading := true;
      return true;
    }

    /**
     * `getMessages(userId)`, once the response is in: the list is replaced
     * wholesale, whichever user is selected by now, and the room is joined;
     * on failure the list is emptied. Loading ends either way.
     */
    method GetMessagesResolve(userId: UserId, response: Result<seq<Message>>, auth: Option<UserId>)
      modifies this`messages, this`isMessagesLoading, this`outbox
      ensures messages == if response.Ok? then response.value else []
      ensures outbox == if response.Ok? && socket.Some? && auth.Some?
                        then old(outbox) + [JoinChatEmit(Text.ChatKey(auth.value, userId))]
                        else old(outbox)
      ensures !isMessagesLoading
    {
      if response.Ok? {
        messages := response.value;
        JoinChat(userId, auth);
      } else {
        messages := [];
      }
      isMessagesLoading := false;
    }

    /**
     * `sendMessage(data)`, before the request: no selected user or neither
     * text nor image stops it with an error and no request; otherwise the
     * payload is built and the current list, peer, socket and user are captured.
     */
    method SendMessageBegin(data: MessageData, auth: Option<UserId>) returns (start: SendStart)
      ensures selectedUser.None? ==> start == Rejected(NoUserError)
      ensures selectedUser.Some? && !Truthy(data.text) && !Truthy(data.image) ==> start == Rejected(EmptyMessageError)
      ensures selectedUser.Some? && (Truthy(data.text) || Truthy(data.image)) ==>
                start == Posting(messages, selectedUser.value, socket.Some?, auth, BuildPayload(data))
    {
      if selectedUser.None? {
        return Rejected(NoUserError);
      }
      if !Truthy(data.text) && !Truthy(data.image) {
        return Rejected(EmptyMessageError);
      }
      start := Posting(messages, selectedUser.value, socket.Some?, auth, BuildPayload(data));
    }

    /**
     * `sendMessage(data)`, once the POST has answered: on success the snapshot
     * plus the created message (when its id is new to the snapshot) becomes the
     * list, the peer's preview is updated and, with a socket and a user,
     * `newMessage` is emitted as from me to the peer. A failure changes nothing.
     */
    method SendMessageResolve(start: SendStart, response: Result<Message>, now: string) returns (ok: bool)
      requires start.Posting?
      modifies this`messages, this`users, this`outbox
      ensures ok == response.Ok?
      ensures response.Err? ==> messages == old(messages) && users == old(users) && outbox == old(outbox)
      ensures response.Ok? ==>
                && messages == ConfirmSend(start.snapshot, old(messages), response.value)
                && users == MarkLastMessage(old(users), start.peer, response.value, now)
                && outbox == if start.hadSocket && start.auth.Some?
                             then old(outbox) + [NewMessageEmit(response.value.(senderId := start.auth.value, receiverId := start.peer))]
                             else old(outbox)
    {
      if response.Err? {
        return false;
      }
      var created := response.value;
      if !HasId(start.snapshot, created.id) {
        messages := start.snapshot + [created];
      }
      UpdateUserLastMessage(start.peer, created, now);
      if start.hadSocket && start.auth.Some? {
        outbox := outbox + [NewMessageEmit(created.(senderId := start.auth.value, receiverId := start.peer))];
      }
      return true;
    }

    /** `startTyping`: with a socket, a selected user and a user, emit `typing` for our conversation. */
    method StartTyping(auth: Option<UserId>)
      modifies this`outbox
      ensures outbox == if socket.Some? && selectedUser.Some? && auth.Some?
                        then old(outbox) + [TypingEmit(Text.ChatKey(auth.value, selectedUser.value), auth.value)]
                        else old(outbox)
    {
      if socket.Some? && selectedUser.Some? && auth.Some? {
        outbox := outbox + [TypingEmit(Text.ChatKey(auth.value, selectedUser.value), auth.value)];
      }
    }

    /** `stopTyping`: with a socket, a selected user and a user, emit `stopTyping` for our conversation. */
    method StopTyping(auth: Option<UserId>)
      modifies this`outbox
      ensures outbox == if socket.Some? && selectedUser.Some? && auth.Some?
                        then old(outbox) + [StopTypingEmit(Text.ChatKey(auth.value, selectedUser.value), auth.value)]
                        else old(outbox)
    {
      if socket.Some? && selectedUser.Some? && auth.Some? {
        outbox := outbox + [StopTypingEmit(Text.ChatKey(auth.value, selectedUser.value), auth.value)];
      }
    }

    /**
     * `setSelectedUser(user)`: stop typing towards the previous peer, select
     * the new one (or none), and start fetching its history.
     */
    method SetSelectedUser(user: Option<UserId>, auth: Option<UserId>)
      modifies this`outbox, this`selectedUser, this`isMessagesLoading
      ensures outbox == if socket.Some? && old(selectedUser).Some? && auth.Some?
                        then old(outbox) + [StopTypingEmit(Text.ChatKey(auth.value, old(selectedUser).value), auth.value)]
                        else old(outbox)
      ensures selectedUser == user
      ensures isMessagesLoading == if user.Some? && user.value != "" then true else old(isMessagesLoading)
    {
      StopTyping(auth);
      selectedUser := user;
      if user.Some? && user.value != "" {
        var _ := GetMessagesBegin(user.value);
      }
    }

    /** `clearChatData`: messages, roster, selection, presence and typing reset; socket and loading flags kept. */
    method ClearChatData()
      modifies this`messages, this`users, this`selectedUser, this`onlineUsers, this`typingUsers
      ensures Valid()
      ensures messages == [] && users == [] && selectedUser == None && onlineUsers == [] && typingUsers == map[]
    {
      messages, users, selectedUser, onlineUsers, typingUsers := [], [], None, [], map[];
    }
  }
}
