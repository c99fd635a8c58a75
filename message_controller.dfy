/**
 * The HTTP handlers of backend/src/contollers/message.controller.js. The user
 * and message collections are given as sequences (store order), the image
 * host's upload and the document save as abstract outcomes.
 */
module MessageController {
  import opened Wrappers
  import opened Sorting

  type UserId = string

  /** A user document without its password; `profile` stands for the other fields. */
  datatype User = User(id: UserId, profile: string)

  /** A stored message; an empty `text` or `image` stands for `null`. `createdAt` is in milliseconds. */
  datatype StoredMessage = StoredMessage(
    id: string, senderId: UserId, receiverId: UserId, text: string, image: string, createdAt: nat)

  /** `{...user, lastMessage, lastMessageTime}`. */
  datatype SidebarEntry = SidebarEntry(user: User, lastMessage: Option<string>, lastMessageTime: Option<nat>)

  datatype Reply<T> = Reply(status: nat, body: Result<T>)

  /** The preview shown for a message without text. */
  const ImagePreview := "Sent an image"
  const LoadUsersError := "Failed to load users"
  const InvalidIdsError := "Invalid user IDs"
  const FetchError := "Internal server error fetching messages"

  /** `{ senderId: a, receiverId: b }` or `{ senderId: b, receiverId: a }`. */
  predicate Between(m: StoredMessage, a: UserId, b: UserId)
  {
    (m.senderId == a && m.receiverId == b) || (m.senderId == b && m.receiverId == a)
  }

  /** The messages of the conversation between `a` and `b`, in store order. */
  function Conversation(store: seq<StoredMessage>, a: UserId, b: UserId): (r: seq<StoredMessage>)
    ensures forall m :: m in r <==> m in store && Between(m, a, b)
    ensures |r| <= |store|
  {
    if store == [] then []
    else (if Between(store[0], a, b) then [store[0]] else []) + Conversation(store[1..], a, b)
  }

  /** `findOne(...).sort({ createdAt: -1 })`: a message with the greatest `createdAt` (the first such one). */
  function Latest(ms: seq<StoredMessage>): (r: Option<StoredMessage>)
    ensures r.None? <==> ms == []
    ensures r.Some? ==> r.value in ms && forall m :: m in ms ==> m.createdAt <= r.value.createdAt
  {
    if ms == [] then None
    else match Latest(ms[1..])
      case None => Some(ms[0])
      case Some(m) => if m.createdAt > ms[0].createdAt then Some(m) else Some(ms[0])
  }

  /** The projection of lines 26-27: a preview text and a timestamp, or `null` for both. */
  function Project(u: User, last: Option<StoredMessage>): (e: SidebarEntry)
    ensures e.user == u
    ensures e.lastMessage.Some? <==> last.Some?
    ensures e.lastMessage.Some? ==> e.lastMessage.value != ""
    ensures e.lastMessageTime == if last.Some? then Some(last.value.createdAt) else None
  {
    match last
    case None => SidebarEntry(u, None, None)
    case Some(m) => SidebarEntry(u, Some(if m.text != "" then m.text else ImagePreview), Some(m.createdAt))
  }

  /** The comparator passed to `usersWithLastMessage.sort`. */
  function Compare(a: SidebarEntry, b: SidebarEntry): int
  {
    if a.lastMessageTime.None? && b.lastMessageTime.None? then 0
    else if a.lastMessageTime.None? then 1
    else if b.lastMessageTime.None? then -1
    else b.lastMessageTime.value - a.lastMessageTime.value
  }

  /** The rank the comparator sorts by, descending: the timestamp, or below every timestamp when there is none. */
  function RankKey(e: SidebarEntry): (k: int)
    ensures k >= -1
    ensures k == -1 <==> e.lastMessageTime.None?
  {
    if e.lastMessageTime.Some? then e.lastMessageTime.value else -1
  }

  /**
   * The comparator places timed entries before untimed ones, newer before older,
   * and calls two untimed entries (or two equal times) equal: its sign is the
   * sign of `RankKey(b) - RankKey(a)`.
   */
  lemma CompareIsByRank(a: SidebarEntry, b: SidebarEntry)
    ensures Compare(a, b) < 0 <==> RankKey(a) > RankKey(b)
    ensures Compare(a, b) == 0 <==> RankKey(a) == RankKey(b)
    ensures Compare(a, b) > 0 <==> RankKey(a) < RankKey(b)
    ensures a.lastMessageTime.Some? && b.lastMessageTime.None? ==> Compare(a, b) < 0
    ensures a.lastMessageTime.None? && b.lastMessageTime.None? ==> Compare(a, b) == 0
  {
  }

  /** `User.find({_id: {$ne: loggedInUserId}})`: every user but `me`, in roster order. */
  function OtherUsers(users: seq<User>, me: UserId): (r: seq<User>)
    ensures |r| <= |users|
    ensures forall u :: u in r <==> u in users && u.id != me
  {
    if users == [] then []
    else (if users[0].id != me then [users[0]] else []) + OtherUsers(users[1..], me)
  }

  /** The sidebar for `me`: every other user, in roster order, with the preview of their conversation. */
  function Projection(users: seq<User>, store: seq<StoredMessage>, me: UserId): (r: seq<SidebarEntry>)
    ensures |r| == |OtherUsers(users, me)| <= |users|
    ensures forall e :: e in r ==> e.user in users && e.user.id != me
    ensures forall e :: e in r ==> e == Project(e.user, Latest(Conversation(store, me, e.user.id)))
    ensures forall u :: u in users && u.id != me ==> Project(u, Latest(Conversation(store, me, u.id))) in r
  {
    if users == [] then []
    else
      (if users[0].id != me then [Project(users[0], Latest(Conversation(store, me, users[0].id)))] else [])
      + Projection(users[1..], store, me)
  }

  /** The `k`-th sidebar entry before sorting is the `k`-th other user's: `Promise.all` keeps the order of `map`. */
  lemma {:induction false} ProjectionInRosterOrder(users: seq<User>, store: seq<StoredMessage>, me: UserId)
    ensures forall k :: 0 <= k < |Projection(users, store, me)| ==>
              Projection(users, store, me)[k]
              == Project(OtherUsers(users, me)[k], Latest(Conversation(store, me, OtherUsers(users, me)[k].id)))
  {
    if users != [] {
      ProjectionInRosterOrder(users[1..], store, me);
    }
  }

  /** `usersWithLastMessage.sort(comparator)`, in place; stable, so the result is `SortDesc` by rank. */
  method SortByRecency(a: array<SidebarEntry>)
    modifies a
    ensures a[..] == SortDesc(old(a[..]), RankKey)
  {
    ghost var s0 := a[..];
    var i := 0;
    assert SortDesc(s0[..0], RankKey) + s0[0..] == s0;
    while i < a.Length
      invariant 0 <= i <= a.Length
      invariant a[..] == SortDesc(s0[..i], RankKey) + s0[i..]
    {
      ghost var done := SortDesc(s0[..i], RankKey);
      SortDescLength(s0[..i], RankKey);
      SplitAround(a[..], done, s0[i..]);
      InsertAt(a, i);
      assert s0[..i + 1] == s0[..i] + [s0[i]];
      assert s0[..i + 1][..i] == s0[..i];
      i := i + 1;
    }
    assert s0[..a.Length] == s0;
  }

  /** The pieces of `pre + rest` around position `|pre|`. */
  lemma SplitAround<T>(x: seq<T>, pre: seq<T>, rest: seq<T>)
    requires x == pre + rest && rest != []
    ensures x[..|pre|] == pre && x[|pre|] == rest[0] && x[|pre| + 1..] == rest[1..]
  {
  }

  /** One pass of insertion: `a[i]` moves left past the entries of strictly lower rank. */
  method InsertAt(a: array<SidebarEntry>, i: nat)
    requires i < a.Length
    modifies a
    ensures a[..] == Insert(old(a[..i]), old(a[i]), RankKey) + old(a[i + 1..])
  {
    ghost var sorted, tail := a[..i], a[i + 1..];
    var x := a[i];
    var j := i;
    assert sorted[..j] == sorted && sorted[j..] == [];
    assert a[..] == sorted[..j] + [x] + sorted[j..] + tail;
    while j > 0 && Compare(a[j - 1], x) > 0
      invariant 0 <= j <= i
      invariant a[..] == sorted[..j] + [x] + sorted[j..] + tail
      invariant Insert(sorted, x, RankKey) == Insert(sorted[..j], x, RankKey) + sorted[j..]
    {
      assert a[j - 1] == a[..][j - 1] == sorted[j - 1];
      CompareIsByRank(a[j - 1], x);
      InsertStep(sorted, j, x);
      SwapStep(sorted, x, tail, j);
      Swap(a, j);
      j := j - 1;
    }
    if j > 0 {
      assert a[j - 1] == a[..][j - 1] == sorted[j - 1];
      CompareIsByRank(a[j - 1], x);
    }
    InsertStop(sorted, j, x);
  }

  /** Exchange `a[j - 1]` and `a[j]`. */
  method Swap(a: array<SidebarEntry>, j: nat)
    requires 0 < j < a.Length
    modifies a
    ensures a[..] == old(a[..])[j - 1 := old(a[j])][j := old(a[j - 1])]
  {
    a[j - 1], a[j] := a[j], a[j - 1];
  }

  lemma SwapStep(sorted: seq<SidebarEntry>, x: SidebarEntry, tail: seq<SidebarEntry>, j: nat)
    requires 0 < j <= |sorted|
    ensures (sorted[..j] + [x] + sorted[j..] + tail)[j - 1 := x][j := sorted[j - 1]]
            == sorted[..j - 1] + [x] + sorted[j - 1..] + tail
  {
    var l := (sorted[..j] + [x] + sorted[j..] + tail)[j - 1 := x][j := sorted[j - 1]];
    var r := sorted[..j - 1] + [x] + sorted[j - 1..] + tail;
    assert |l| == |r|;
    forall k | 0 <= k < |l| ensures l[k] == r[k] {
      if k < j - 1 {
      } else if k == j - 1 || k == j {
      } else if k <= |sorted| {
        assert l[k] == sorted[k - 1];
      } else {
        assert l[k] == tail[k - 1 - |sorted|];
      }
    }
  }

  lemma InsertStep(sorted: seq<SidebarEntry>, j: nat, x: SidebarEntry)
    requires 0 < j <= |sorted|
    requires RankKey(x) > RankKey(sorted[j - 1])
    ensures Insert(sorted[..j], x, RankKey) + sorted[j..] == Insert(sorted[..j - 1], x, RankKey) + sorted[j - 1..]
  {
    assert sorted[..j][..j - 1] == sorted[..j - 1];
    assert sorted[j - 1..] == [sorted[j - 1]] + sorted[j..];
  }

  lemma InsertStop(sorted: seq<SidebarEntry>, j: nat, x: SidebarEntry)
    requires j <= |sorted|
    requires j == 0 || RankKey(x) <= RankKey(sorted[j - 1])
    ensures Insert(sorted[..j], x, RankKey) == sorted[..j] + [x]
  {
  }

  /**
   * `getUsersForSideBar`: a failed query answers 500; otherwise 200 with every
   * user except `me`, each with its preview, newest conversation first,
   * users without messages last and in roster order.
   */
  method GetUsersForSidebar(users: Result<seq<User>>, store: seq<StoredMessage>, me: UserId)
    returns (reply: Reply<seq<SidebarEntry>>)
    ensures users.Err? ==> reply == Reply(500, Err(LoadUsersError))
    ensures users.Ok? ==> reply.status == 200 && reply.body.Ok?
    ensures users.Ok? ==> reply.body.value == SortDesc(Projection(users.value, store, me), RankKey)
    ensures users.Ok? ==> forall e :: e in reply.body.value ==> e.user.id != me
    ensures users.Ok? ==> multiset(reply.body.value) == multiset(Projection(users.value, store, me))
    ensures users.Ok? ==> forall u :: u in users.value && u.id != me ==>
              Project(u, Latest(Conversation(store, me, u.id))) in reply.body.value
    ensures users.Ok? ==> forall i, j :: 0 <= i < j < |reply.body.value| ==> Compare(reply.body.value[i], reply.body.value[j]) <= 0
  {
    if users.Err? {
      return Reply(500, Err(LoadUsersError));
    }
    var entries := Projection(users.value, store, me);
    var a := new SidebarEntry[|entries|](k requires 0 <= k < |entries| => entries[k]);
    assert a[..] == entries;
    SortByRecency(a);
    var r := a[..];
    assert r == SortDesc(entries, RankKey);
    SortedSidebar(users.value, store, me);
    return Reply(200, Ok(r));
  }

  /**
   * The sorted projection: the same entries, so every user but `me` and
   * nobody else, in the order the comparator asks for.
   */
  lemma SortedSidebar(users: seq<User>, store: seq<StoredMessage>, me: UserId)
    ensures var r := SortDesc(Projection(users, store, me), RankKey);
            && multiset(r) == multiset(Projection(users, store, me))
            && (forall e :: e in r ==> e.user.id != me)
            && (forall u :: u in users && u.id != me ==> Project(u, Latest(Conversation(store, me, u.id))) in r)
            && (forall i, j :: 0 <= i < j < |r| ==> Compare(r[i], r[j]) <= 0)
  {
    var entries := Projection(users, store, me);
    var r := SortDesc(entries, RankKey);
    SortDescPermutes(entries, RankKey);
    SortDescSorted(entries, RankKey);
    forall e | e in r ensures e.user.id != me {
      assert e in multiset(r);
    }
    forall u | u in users && u.id != me ensures Project(u, Latest(Conversation(store, me, u.id))) in r {
      assert Project(u, Latest(Conversation(store, me, u.id))) in multiset(entries);
    }
    forall i, j | 0 <= i < j < |r| ensures Compare(r[i], r[j]) <= 0 {
      CompareIsByRank(r[i], r[j]);
    }
  }

  /** The running example: no activity, activity at 5, activity at 10 rank as 10, 5, none. */
  lemma SidebarExample(a: User, b: User, c: User)
    ensures SortDesc([SidebarEntry(a, None, None), SidebarEntry(b, Some("x"), Some(5)), SidebarEntry(c, Some("y"), Some(10))], RankKey)
         == [SidebarEntry(c, Some("y"), Some(10)), SidebarEntry(b, Some("x"), Some(5)), SidebarEntry(a, None, None)]
  {
    var ea, eb, ec := SidebarEntry(a, None, None), SidebarEntry(b, Some("x"), Some(5)), SidebarEntry(c, Some("y"), Some(10));
    assert [ea, eb, ec] == [ea, eb] + [ec];
    assert [ea, eb] == [ea] + [eb];
    SortDescSnoc([ea, eb], ec);
    SortDescSnoc([ea], eb);
    SortDescSnoc([], ea);
    InsertPastLast([], eb, ea);
    InsertPastLast([], ec, eb);
    InsertPastLast([eb], ec, ea);
  }

  lemma SortDescSnoc(s: seq<SidebarEntry>, x: SidebarEntry)
    ensures SortDesc(s + [x], RankKey) == Insert(SortDesc(s, RankKey), x, RankKey)
  {
    assert (s + [x])[..|s|] == s;
  }

  /** `x` of higher rank than the last entry `y` moves in front of it. */
  lemma InsertPastLast(s: seq<SidebarEntry>, x: SidebarEntry, y: SidebarEntry)
    requires RankKey(x) > RankKey(y)
    ensures Insert(s + [y], x, RankKey) == Insert(s, x, RankKey) + [y]
  {
    assert (s + [y])[..|s|] == s;
  }

  /** Ascending `createdAt` is descending `-createdAt`. */
  function Older(m: StoredMessage): int
  {
    -(m.createdAt as int)
  }

  /**
   * `getMessages`: 400 when either id is missing, 500 when the query fails,
   * otherwise 200 with exactly the messages between the two users, oldest
   * first (store order among equal timestamps).
   */
  function GetMessages(store: Result<seq<StoredMessage>>, me: UserId, peer: UserId): (reply: Reply<seq<StoredMessage>>)
    ensures me == "" || peer == "" ==> reply == Reply(400, Err(InvalidIdsError))
    ensures me != "" && peer != "" && store.Err? ==> reply == Reply(500, Err(FetchError))
    ensures me != "" && peer != "" && store.Ok? ==>
              && reply.status == 200 && reply.body.Ok?
              && (forall m :: m in reply.body.value <==> m in store.value && Between(m, me, peer))
              && multiset(reply.body.value) == multiset(Conversation(store.value, me, peer))
              && (forall i, j :: 0 <= i < j < |reply.body.value| ==> reply.body.value[i].createdAt <= reply.body.value[j].createdAt)
  {
    if me == "" || peer == "" then Reply(400, Err(InvalidIdsError))
    else if store.Err? then Reply(500, Err(FetchError))
    else
      var conv := Conversation(store.value, me, peer);
      SortDescPermutes(conv, Older);
      SortDescSorted(conv, Older);
      var r := SortDesc(conv, Older);
      assert forall m :: m in r <==> m in multiset(conv);
      Reply(200, Ok(r))
  }

  /** The image host's answer to `cloudinary.uploader.upload`. */
  datatype UploadOutcome = Uploaded(secureUrl: string) | UploadFailed

  /** The outcome of `newMessage.save()`. */
  datatype SaveOutcome = SaveOk | SaveValidationError(message: string) | SaveFailed

  /** The document `sendMessages` builds. */
  datatype NewMessageDoc = NewMessageDoc(senderId: UserId, receiverId: UserId, text: Option<string>, image: Option<string>)

  /** Whether the handler reaches `save()` and the stored document, if it does. */
  datatype SendReply = SendReply(status: nat, saveAttempted: Option<NewMessageDoc>, body: Result<NewMessageDoc>)

  const UploadError := "Failed to upload image. Please try again."
  const EmptyContentError := "Message content cannot be empty (must have text or image)."
  const SendError := "Internal server error sending message"

  /** The answer once `save()` has been attempted on `doc`: 201, or the error mapping of the `catch` block. */
  function SaveReply(doc: NewMessageDoc, save: SaveOutcome): SendReply
  {
    match save
    case SaveOk => SendReply(201, Some(doc), Ok(doc))
    case SaveValidationError(msg) => SendReply(400, Some(doc), Err(msg))
    case SaveFailed => SendReply(500, Some(doc), Err(SendError))
  }

  /**
   * `sendMessages`: an upload failure answers 500 before anything else is
   * checked; a message with neither text nor image URL answers 400; otherwise
   * the document `{sender, receiver, text || null, imageUrl}` is saved and
   * answered with 201, a validation error on save with 400, any other error with 500.
   * `upload` is consulted only when an image was sent.
   */
  method SendMessages(senderId: UserId, receiverId: UserId, text: Option<string>, image: Option<string>,
                      upload: UploadOutcome, save: SaveOutcome)
    returns (reply: SendReply)
    ensures Truthy(image) && upload.UploadFailed? ==>
              reply == SendReply(500, None, Err(UploadError))
    ensures !(Truthy(image) && upload.UploadFailed?) && !Truthy(text) && !(Truthy(image) && upload.secureUrl != "") ==>
              reply == SendReply(400, None, Err(EmptyContentError))
    ensures !(Truthy(image) && upload.UploadFailed?) && (Truthy(text) || (Truthy(image) && upload.secureUrl != "")) ==>
              && reply.saveAttempted.Some?
              && (save.SaveOk? ==> reply.status == 201 && reply.body == Ok(reply.saveAttempted.value))
              && (save.SaveValidationError? ==> reply.status == 400 && reply.body == Err(save.message))
              && (save.SaveFailed? ==> reply.status == 500)
    ensures reply.saveAttempted.None? ==> reply.status == 500 || reply.status == 400
    ensures reply.saveAttempted.Some? ==>
              && reply == SaveReply(reply.saveAttempted.value, save)
              && reply.saveAttempted.value == NewMessageDoc(senderId, receiverId,
                                                            if Truthy(text) then text else None,
                                                            if Truthy(image) then Some(upload.secureUrl) else None)
              && (Truthy(text) || upload.secureUrl != "")
  {
    var imageUrl: Option<string> := None;
    if Truthy(image) {
      if upload.UploadFailed? {
        return SendReply(500, None, Err(UploadError));
      }
      imageUrl := Some(upload.secureUrl);
    }
    if !Truthy(text) && !Truthy(imageUrl) {
      return SendReply(400, None, Err(EmptyContentError));
    }
    var doc := NewMessageDoc(senderId, receiverId, if Truthy(text) then text else None, imageUrl);
    reply := SaveReply(doc, save);
  }
}
