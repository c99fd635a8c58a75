# Chat application core, modelled in Dafny

This project models the real-time core of a full-stack chat application:

- **Event-channel server** (`backend/src/lib/socket.js`). It keeps the presence registry, which maps a user to its socket in insertion order. It tracks the rooms each socket has joined. It relays messages, typing notices and read receipts.
- **HTTP message handlers** (`backend/src/contollers/message.controller.js`). These build the sidebar projection and its recency sort, fetch a conversation, and run the send ladder.
- **Client sync store** (`frontend/src/store/useChatStore.js`). It holds the messages, the roster, the presence list and the typing map. Inbound socket events, HTTP responses and user actions all change it.
- **Chat view** (`frontend/src/components/chatContainer.jsx`). It covers the typing debounce, the send guard, the image-picker checks, the 12-hour clock and the typing indicator.
- **Sign-up form** (`frontend/src/pages/SignUpPage.jsx`).
- **Profile-picture upload** (`frontend/src/pages/ProfilePage.jsx`).

Code that updates state in place is a `class` with `modifies` clauses. Each method's `ensures` ties the new state to pure functions of the old state. Those functions carry the lemmas: dedup by id, set-like presence updates, well-formedness of the typing map, the last-writer-wins registry, the stable sort and the time-format round trip.

Each handler runs to completion. A handler that awaits is split into a `…Begin` step for the part before the `await` and a `…Resolve` step for the part after the response arrives. Every socket `emit` is appended to a log or outbox. On the server, each logged entry carries the exact set of sockets it reaches at that moment.

Files:

- `wrappers.dfy`: `Option`/`Result`.
- `text.dfy`: JavaScript `trim`, strings as UTF-16 code units (their `length` and `<`), and the conversation key.
- `sorting.dfy`: a stable descending sort used as the specification of `Array.prototype.sort`.
- `socket_server.dfy`, `message_controller.dfy`, `chat_store.dfy`, `chat_container.dfy`, `signup_page.dfy`, `profile_page.dfy`: one per source file.

## Model

| member | source | states |
|---|---|---|
| Text.Trim | frontend/src/store/useChatStore.js:191 | the trimmed text is no longer than the input and neither starts nor ends with a whitespace or line-terminator character |
| Text.TrimIsTrimmedSlice | frontend/src/store/useChatStore.js:191 | the trimmed text is the slice of the input that starts after the leading whitespace, with only whitespace before and after it |
| Text.TrimUnique | frontend/src/store/useChatStore.js:191 | any slice with only whitespace outside it and no whitespace at either end is the trimmed text, so these properties determine `trim` |
| Text.TrimEmptyIff | frontend/src/components/chatContainer.jsx:124-125 | the trimmed text is empty exactly when the input is all whitespace |
| Text.TrimIdempotent | frontend/src/store/useChatStore.js:191 | trimming twice is the same as trimming once, so the store's second trim of the view's already-trimmed text changes nothing |
| Text.CodeUnits | frontend/src/store/useChatStore.js:133 | a character below U+10000 is one UTF-16 unit; any other is a surrogate pair, and exactly a pair starts with a high surrogate |
| Text.CodeUnitsInjective | frontend/src/store/useChatStore.js:133 | distinct characters have distinct UTF-16 encodings |
| Text.Utf16 | frontend/src/pages/SignUpPage.jsx:43 | the string as JavaScript sees it, a sequence of 16-bit code units; at least one per character, and its length is `length` |
| Text.Utf16Injective | frontend/src/store/useChatStore.js:133 | distinct strings have distinct code-unit sequences |
| Text.UnitsTrichotomy | frontend/src/store/useChatStore.js:133 | lexicographic order of code-unit sequences is a strict total order |
| Text.LexTrichotomy | frontend/src/store/useChatStore.js:133 | string `<`, which compares UTF-16 code units, is a strict total order: for distinct strings exactly one is less |
| Text.LexLessByCodeUnits | frontend/src/store/useChatStore.js:133 | strings compare by code unit, not by code point: U+10000 sorts before U+E000 and not after it |
| Text.SortPair | frontend/src/store/useChatStore.js:133 | `[a, b].sort()` is a permutation of `{a, b}` and its elements are in ascending order |
| Text.ChatKeySymmetric | frontend/src/store/useChatStore.js:133 | the conversation key is the same whichever participant computes it |
| Text.ChatKeyDeterminesPair | frontend/src/store/useChatStore.js:226 | for ids without `_`, equal keys come from the same unordered pair of users |
| Sorting.SortDescSorted | backend/src/contollers/message.controller.js:33-38 | the stable sort's result is in descending key order |
| Sorting.SortDescPermutes | backend/src/contollers/message.controller.js:33-38 | the stable sort's result is a permutation of its input |
| Sorting.SortDescStable | backend/src/contollers/message.controller.js:33-38 | entries with equal keys keep their relative input order |
| SocketServer.Keys | backend/src/lib/socket.js:26 | `Array.from(onlineUsers.keys())` lists the registry's users in insertion order |
| SocketServer.Lookup | backend/src/lib/socket.js:22 | `onlineUsers.get(u)`: missing exactly when no entry has key `u`; when present, the entry `(u, s)` is in the registry |
| SocketServer.Bind | backend/src/lib/socket.js:22 | `onlineUsers.set(u, s)`: `(u, s)` is present, every other entry is an old one, entries of other users keep their positions, and the map grows by one exactly when `u` was new |
| SocketServer.IndexOfSocket | backend/src/lib/socket.js:62-63 | the disconnect loop's hit is the first entry, in iteration order, bound to the socket, or there is none |
| SocketServer.Unbind | backend/src/lib/socket.js:62-67 | the registry after the `disconnect` loop: only old entries remain; with no entry for the socket it is unchanged, otherwise exactly one entry is gone |
| SocketServer.LookupFindsEntry | backend/src/lib/socket.js:22 | with unique keys, `get(u)` is `s` exactly when the entry `(u, s)` is present |
| SocketServer.BindKeepsUsersDistinct | backend/src/lib/socket.js:22 | `set(u, s)` keeps keys unique and adds no entry besides `(u, s)` |
| SocketServer.BindLookupSame | backend/src/lib/socket.js:22 | after `set(u, s)`, `u` maps to `s` (last writer wins) |
| SocketServer.BindLookupOther | backend/src/lib/socket.js:22 | `set(u, s)` leaves every other user's binding unchanged |
| SocketServer.BindKeys | backend/src/lib/socket.js:22-26 | the key list grows by `u` at the end exactly when `u` was new; otherwise it is unchanged |
| SocketServer.BindReplaces | backend/src/lib/socket.js:20-27 | `setup`'s registry update: unique keys, `u` bound to the new socket, the others untouched, keys in order |
| SocketServer.UnbindShape | backend/src/lib/socket.js:62-67 | `disconnect` deletes exactly the entry at the found position and keeps the order of the rest |
| SocketServer.UnbindRemovesFirstOnly | backend/src/lib/socket.js:62-69 | at most one entry is removed, the first bound to the socket; without one, the registry is unchanged; every surviving user keeps its binding |
| SocketServer.UnbindKeepsUsersDistinct | backend/src/lib/socket.js:62-69 | the registry after a disconnect has unique keys and only entries it had before |
| SocketServer.UnbindLookupKept | backend/src/lib/socket.js:62-69 | a user still present after a disconnect has the same socket as before |
| SocketServer.StaleDisconnectKeepsNewer | backend/src/lib/socket.js:59-69 | disconnecting any socket other than `u`'s current one leaves `u`'s binding in place |
| SocketServer.ReRegisteredUserSurvivesOldDisconnect | backend/src/lib/socket.js:20-69 | a user set up from `s1` and then from `s2` stays bound to `s2` when `s1` disconnects, and no `userOffline` is emitted |
| SocketServer.DoubleSetupLeavesSecondBinding | backend/src/lib/socket.js:20-69 | when neither user nor the socket was registered before, a socket that sets up two users loses only the first binding on disconnect, and the second user stays registered |
| SocketServer.DoubleSetupOverOlderEntryKeepsFirst | backend/src/lib/socket.js:20-69 | when the second user already had an older entry, the same sequence keeps the first user instead: disconnect deletes the first entry in map order, not the first set up |
| SocketServer.RoomMembers | backend/src/lib/socket.js:21-30 | the sockets that joined a room, all of them connected |
| SocketServer.FanOutTargets | backend/src/lib/socket.js:44-45 | the fan-out visits exactly the listed users other than the sender |
| SocketServer.FanOut | backend/src/lib/socket.js:44-48 | each target gets one `messageReceived` to its room without the sending socket, in list order |
| SocketServer.NewMessageEmissions | backend/src/lib/socket.js:34-49 | what `newMessage` emits: to the receiver's room without `chat.users`, nothing without a receiver, otherwise one emission per listed user but the sender (its properties are those of `NewMessageRouting`) |
| SocketServer.NewMessageRouting | backend/src/lib/socket.js:34-49 | with no `chat.users`, only the receiver's room is reached (nothing without a receiver); otherwise every other listed user is reached; the sending socket is never reached |
| SocketServer.EventServer.constructor | backend/src/lib/socket.js:15 | the registry, rooms and log start empty |
| SocketServer.EventServer.Connect | backend/src/lib/socket.js:17 | a new socket is in no room; registry and log unchanged |
| SocketServer.EventServer.Setup | backend/src/lib/socket.js:20-27 | joins the personal room, binds the user (last writer wins), sends `userOnline` to every other socket, then sends the key list to the personal room including the sender |
| SocketServer.EventServer.JoinChat | backend/src/lib/socket.js:29-32 | the socket joins the room; a second join changes nothing |
| SocketServer.EventServer.NewMessage | backend/src/lib/socket.js:34-49 | the log grows by exactly the routed emissions; registry and rooms unchanged |
| SocketServer.EventServer.Typing | backend/src/lib/socket.js:51-53 | `typing` is relayed to the chat room minus the sender |
| SocketServer.EventServer.StopTyping | backend/src/lib/socket.js:55-57 | `stopTyping` is relayed to the chat room minus the sender |
| SocketServer.EventServer.MessageRead | backend/src/lib/socket.js:72-74 | `messageRead` is relayed to the chat room minus the sender, without the chat id |
| SocketServer.EventServer.Disconnect | backend/src/lib/socket.js:59-70 | the socket leaves all rooms; the first entry bound to it is deleted and `userOffline` plus the new key list go to all remaining sockets; with no such entry nothing is emitted |
| MessageController.Conversation | backend/src/contollers/message.controller.js:57-62 | a message is kept exactly when it is from `a` to `b` or from `b` to `a` |
| MessageController.Latest | backend/src/contollers/message.controller.js:15-22 | `None` only for no messages; otherwise a member with the greatest `createdAt` |
| MessageController.Project | backend/src/contollers/message.controller.js:24-28 | the entry keeps the user; it has a preview and a time exactly when there is a last message, the time is that message's `createdAt`, and the preview is never empty (`Sent an image` for an image-only message) |
| MessageController.Compare | backend/src/contollers/message.controller.js:33-38 | the comparator as written: 0 for two untimed entries, untimed after timed, otherwise newer first (its sign is stated by `CompareIsByRank`) |
| MessageController.RankKey | backend/src/contollers/message.controller.js:34-37 | the key the comparator sorts by, descending: the timestamp, and -1, below every timestamp, exactly for an entry without one |
| MessageController.CompareIsByRank | backend/src/contollers/message.controller.js:33-38 | the comparator's sign is the order of recency ranks: timed before untimed, newer before older, two untimed entries equal |
| MessageController.OtherUsers | backend/src/contollers/message.controller.js:10 | the query's result: exactly the users whose id is not `me` |
| MessageController.Projection | backend/src/contollers/message.controller.js:10-30 | one entry per other user and no more: every user except `me` is present with the preview and time of the latest message of their conversation, and every entry is such a user's |
| MessageController.ProjectionInRosterOrder | backend/src/contollers/message.controller.js:13-30 | the k-th entry is the projection of the k-th other user: `Promise.all` over `map` keeps the query's order |
| MessageController.SortByRecency | backend/src/contollers/message.controller.js:33-38 | the in-place sort leaves the array equal to the stable descending sort by rank of its old contents |
| MessageController.InsertAt | backend/src/contollers/message.controller.js:33-38 | one insertion pass: the entry at `i` moves left past the entries of strictly lower rank, giving the stable insertion into the sorted prefix |
| MessageController.Swap | backend/src/contollers/message.controller.js:33-38 | exchanges two neighbouring entries and changes nothing else |
| MessageController.GetUsersForSidebar | backend/src/contollers/message.controller.js:5-46 | a failed query gives 500 "Failed to load users"; otherwise 200 with a permutation of the projection, so every user except `me` appears with their preview, without `me`, in comparator order, stable among ties |
| MessageController.SortedSidebar | backend/src/contollers/message.controller.js:13-40 | the sorted projection holds the same entries, so every user except `me` is present with their preview and `me` is absent, and neighbours are in comparator order |
| MessageController.SidebarExample | backend/src/contollers/message.controller.js:33-38 | entries with no message, a message at 5 and a message at 10 are ordered 10, 5, none |
| MessageController.GetMessages | backend/src/contollers/message.controller.js:48-70 | a missing id gives 400 "Invalid user IDs"; a failed query gives 500; otherwise 200 with exactly the conversation's messages, oldest first |
| MessageController.SendMessages | backend/src/contollers/message.controller.js:72-116 | an upload failure gives 500 before anything else; no text and no image URL gives 400; in every other case the document `{sender, receiver, text or null, url}` is saved, giving 201 with the document, 400 with the validation message, or 500 |
| ChatStore.AppendIfNewDedups | frontend/src/store/useChatStore.js:60-63 | appending by id keeps the old list as a prefix, adds the message at the end only when its id is new, keeps ids unique, and a second delivery of the same id is a no-op |
| ChatStore.AppendIfNew | frontend/src/store/useChatStore.js:60-63 | the old list is a prefix of the new one, which is at most one longer and holds the message's id |
| ChatStore.ConfirmSend | frontend/src/store/useChatStore.js:197-200 | the success path's write: the pre-`await` snapshot plus the created message, or the current list when the snapshot already had its id (properties in the two lemmas below) |
| ChatStore.EchoThenResponseKeepsOneCopy | frontend/src/store/useChatStore.js:195-200 | when the channel echo of a sent message arrives before the POST response, the list ends with exactly one copy of it |
| ChatStore.ConfirmSendDropsConcurrentArrival | frontend/src/store/useChatStore.js:177-200 | a message received while the POST is in flight is gone once the response is applied |
| ChatStore.MarkLastMessageTouchesOnlyMatches | frontend/src/store/useChatStore.js:23-36 | only roster entries with the given id change, and only in preview (text or "Sent an image") and time (`createdAt` or now); length and order are kept |
| ChatStore.MarkLastMessage | frontend/src/store/useChatStore.js:25-34 | the roster keeps its length, and every entry its id and online flag |
| ChatStore.SetOnlineFlag | frontend/src/store/useChatStore.js:75-77 | only entries with the given id get the new online flag |
| ChatStore.NormalizeUser | frontend/src/store/useChatStore.js:143-147 | a missing preview or time becomes `''`; id and profile are kept |
| ChatStore.NormalizeUsers | frontend/src/store/useChatStore.js:143-147 | the roster has one entry per user of the response, in order, with id and profile kept and nobody online yet |
| ChatStore.RemoveOnline | frontend/src/store/useChatStore.js:83 | filtering never lengthens the list |
| ChatStore.AddOnline | frontend/src/store/useChatStore.js:72-74 | the old list is a prefix of the new one, which holds the id |
| ChatStore.RemoveOnlineConcat | frontend/src/store/useChatStore.js:83 | the filter works piece by piece on a concatenation, so the kept ids stay in their relative order |
| ChatStore.AddOnlineIsSetInsert | frontend/src/store/useChatStore.js:72-74 | `userOnline` adds the id, keeps every other id and the order, and keeps the list duplicate-free |
| ChatStore.RemoveOnlineIsSetDelete | frontend/src/store/useChatStore.js:83 | `userOffline` removes every occurrence of the id, keeps every other id, keeps the list duplicate-free, and is a no-op for an absent id |
| ChatStore.OnlineThenOffline | frontend/src/store/useChatStore.js:70-88 | online followed by offline restores a list that lacked the id |
| ChatStore.AddTyping | frontend/src/store/useChatStore.js:94-104 | the map gains at most the chat's key, and the user is listed under it |
| ChatStore.RemoveTyping | frontend/src/store/useChatStore.js:106-116 | the map loses at most the chat's key, and never leaves a key with an empty list that was not empty before |
| ChatStore.AddTypingMarks | frontend/src/store/useChatStore.js:94-104 | `typing` marks the user in that chat, changes no other user or chat, and keeps every list non-empty and duplicate-free |
| ChatStore.RemoveTypingClears | frontend/src/store/useChatStore.js:106-116 | `stopTyping` unmarks the user in that chat, deletes an emptied key, changes nothing else, and keeps the map well formed |
| ChatStore.TypingThenStopRestores | frontend/src/store/useChatStore.js:94-116 | `typing` followed by `stopTyping` restores the map when the user was not typing there |
| ChatStore.BuildPayload | frontend/src/store/useChatStore.js:190-193 | `text` is sent exactly when it is non-empty after trimming, and then trimmed; `image` exactly when present |
| ChatStore.Store.constructor | frontend/src/store/useChatStore.js:13-20 | the initial state: empty lists and map, no selection, no socket, not loading |
| ChatStore.Store.UpdateUserLastMessage | frontend/src/store/useChatStore.js:23-36 | the roster becomes the last-message update of the old roster |
| ChatStore.Store.InitSocket | frontend/src/store/useChatStore.js:38-44 | no user, or a connected socket, changes nothing; otherwise a new socket replaces the old one |
| ChatStore.Store.Initialize | frontend/src/store/useChatStore.js:262-268 | sets up the socket as `initSocket` does, then starts loading the roster |
| ChatStore.Store.OnConnect | frontend/src/store/useChatStore.js:46-49 | on connect, `setup` is emitted with the user's id |
| ChatStore.Store.OnMessageReceived | frontend/src/store/useChatStore.js:51-68 | appended by id only when a user is selected and the message is from that user or addressed to me; the sender's preview is updated in every case |
| ChatStore.Store.OnUserOnline | frontend/src/store/useChatStore.js:70-79 | the id is listed once and flagged online in the roster |
| ChatStore.Store.OnUserOffline | frontend/src/store/useChatStore.js:81-88 | every occurrence of the id is removed and it is flagged offline in the roster |
| ChatStore.Store.OnOnlineUsers | frontend/src/store/useChatStore.js:90-92 | the server's list replaces the local one as it is |
| ChatStore.Store.OnTyping | frontend/src/store/useChatStore.js:94-104 | the typing map becomes the `typing` update and stays well formed |
| ChatStore.Store.OnStopTyping | frontend/src/store/useChatStore.js:106-116 | the typing map becomes the `stopTyping` update and stays well formed |
| ChatStore.Store.DisconnectSocket | frontend/src/store/useChatStore.js:121-127 | only with a socket: it is closed, and socket, presence and typing are cleared; otherwise nothing changes |
| ChatStore.Store.JoinChat | frontend/src/store/useChatStore.js:129-136 | with a socket and a user, `joinChat` is emitted with the conversation key; otherwise nothing |
| ChatStore.Store.GetUsersBegin | frontend/src/store/useChatStore.js:139 | the roster is loading |
| ChatStore.Store.GetUsersResolve | frontend/src/store/useChatStore.js:140-154 | on success the roster is the normalised response; on failure it is kept; loading ends either way |
| ChatStore.Store.GetMessagesBegin | frontend/src/store/useChatStore.js:157-160 | a missing id requests nothing and changes nothing; otherwise messages are loading |
| ChatStore.Store.GetMessagesResolve | frontend/src/store/useChatStore.js:161-173 | on success the list is replaced wholesale, whoever is selected now, and the room is joined; on failure the list is emptied; loading ends either way |
| ChatStore.Store.SendMessageBegin | frontend/src/store/useChatStore.js:176-193 | no selection gives "No user selected"; neither text nor image gives "Cannot send empty message"; otherwise the payload, peer, socket and current list are captured |
| ChatStore.Store.SendMessageResolve | frontend/src/store/useChatStore.js:195-218 | on success the captured list plus the new message (when its id is new to it) becomes the list, the peer's preview is updated, and `newMessage` is emitted from me to the peer when socket and user were present; a failure changes nothing |
| ChatStore.Store.StartTyping | frontend/src/store/useChatStore.js:221-229 | with socket, selection and user, `typing` is emitted for the conversation key; otherwise nothing |
| ChatStore.Store.StopTyping | frontend/src/store/useChatStore.js:231-239 | with socket, selection and user, `stopTyping` is emitted for the conversation key; otherwise nothing |
| ChatStore.Store.SetSelectedUser | frontend/src/store/useChatStore.js:241-250 | stops typing toward the previous peer, selects the new one, and starts the history fetch when it has an id |
| ChatStore.Store.ClearChatData | frontend/src/store/useChatStore.js:252-260 | messages, roster, selection, presence and typing are reset; socket and loading flags are kept |
| ChatContainer.Composer.constructor | frontend/src/components/chatContainer.jsx:22-30 | empty input, no image, not sending or typing, no timer |
| ChatContainer.Composer.HandleInputChange | frontend/src/components/chatContainer.jsx:59-75 | the text follows the input; `startTyping` only on the idle-to-typing edge; exactly one 2000 ms timer is pending afterwards |
| ChatContainer.Composer.FireTimer | frontend/src/components/chatContainer.jsx:71-74 | the idle timer firing ends typing and signals `stopTyping` once; no timer is left pending |
| ChatContainer.Composer.SendBegin | frontend/src/components/chatContainer.jsx:121-138 | empty trimmed text and no image do nothing; otherwise sending starts, typing ends with one `stopTyping` if it was on, the idle timer stays pending, and the store gets the trimmed text (or none) and the image |
| ChatContainer.Composer.SendFinish | frontend/src/components/chatContainer.jsx:134-154 | sending ends whatever the outcome; text and image are cleared unless the call threw |
| ChatContainer.Composer.PreviewLoaded | frontend/src/components/chatContainer.jsx:109-113 | the read data URL becomes the preview |
| ChatContainer.Composer.RemoveImage | frontend/src/components/chatContainer.jsx:116-119 | the preview is cleared |
| ChatContainer.Composer.Unmount | frontend/src/components/chatContainer.jsx:44-51 | the pending timer is cleared and `stopTyping` is signalled unconditionally |
| ChatContainer.TypeThenSendSignals | frontend/src/components/chatContainer.jsx:59-132 | a keystroke then a send before the idle delay yields start, stop, and then a second stop when the uncancelled timer fires |
| ChatContainer.ImageCheck | frontend/src/components/chatContainer.jsx:95-107 | a file is accepted exactly when its type starts with `image/` and it is at most 5 MiB; the type check is reported first |
| ChatContainer.ImageCheckBoundary | frontend/src/components/chatContainer.jsx:104-107 | exactly 5 MiB is accepted and one byte more is refused |
| ChatContainer.Hours12 | frontend/src/components/chatContainer.jsx:85 | the shown hour is in 1..12 |
| ChatContainer.ShowHour | frontend/src/components/chatContainer.jsx:85-87 | the 12-hour hour in decimal: one digit below 10, two from 10 to 12 |
| ChatContainer.Pad2 | frontend/src/components/chatContainer.jsx:82 | `padStart(2, "0")` on the minutes: exactly two decimal digits |
| ChatContainer.FormatMessageTime | frontend/src/components/chatContainer.jsx:77-88 | `""` exactly for a missing timestamp; otherwise 7 or 8 characters ending in `PM` exactly when the hour is 12 or later |
| ChatContainer.FormatParseRoundTrip | frontend/src/components/chatContainer.jsx:77-88 | the formatted time parses back to the same hour and minute (12-hour hour, two-digit minutes, AM/PM) |
| ChatContainer.FormatInjective | frontend/src/components/chatContainer.jsx:77-88 | different times never format to the same text |
| ChatContainer.UserTyping | frontend/src/components/chatContainer.jsx:55-57 | the indicator: both users known and the selected user listed under the conversation key (its behaviour is stated by `PeerTypingShowsIndicator`) |
| ChatContainer.PeerTypingShowsIndicator | frontend/src/components/chatContainer.jsx:55-57 | the peer's `typing` (keyed from the peer's side) turns the indicator on; its `stopTyping` turns it off |
| SignUpPage.HandleChange | frontend/src/pages/SignUpPage.jsx:18-20 | the named field takes the value and the others are unchanged |
| SignUpPage.Validate | frontend/src/pages/SignUpPage.jsx:31-47 | passes exactly when all required fields are filled, the passwords match and the password has at least 6 units; otherwise reports the first failure in the order required, match, length |
| SignUpPage.ValidateExamples | frontend/src/pages/SignUpPage.jsx:31-47 | an empty confirmation hits the mismatch check; length 6 passes and length 5 fails |
| SignUpPage.SignUpForm.constructor | frontend/src/pages/SignUpPage.jsx:9-16 | empty form, not loading, password hidden |
| SignUpPage.SignUpForm.Change | frontend/src/pages/SignUpPage.jsx:18-20 | the form becomes the one-field update |
| SignUpPage.SignUpForm.TogglePasswordVisibility | frontend/src/pages/SignUpPage.jsx:22-24 | visibility flips |
| SignUpPage.SignUpForm.SubmitBegin | frontend/src/pages/SignUpPage.jsx:26-50 | a validation failure is reported, turns loading off and calls nothing; otherwise `signup` gets the form and loading stays on |
| SignUpPage.SignUpForm.SubmitResolve | frontend/src/pages/SignUpPage.jsx:49-60 | only a successful result leaves loading on; a throw reports its message or "Failed to create account" |
| ProfilePage.RoundDiv | frontend/src/pages/ProfilePage.jsx:42 | `Math.round(a / b)`: within half a unit of the quotient, with halves rounded up |
| ProfilePage.ScaledSide | frontend/src/pages/ProfilePage.jsx:40-49 | the scaled short side is at most 800 and within rounding of the exact ratio |
| ProfilePage.ScaleDimensions | frontend/src/pages/ProfilePage.jsx:37-50 | both sides end at most 800; small images are kept; a wide image over 800 becomes 800 wide, any other image over 800 high becomes 800 high; the aspect ratio is kept up to rounding |
| ProfilePage.MatchesImagePattern | frontend/src/pages/ProfilePage.jsx:80 | `match('image.*')`: `image` occurs somewhere in the type |
| ProfilePage.ImagePatternAnywhere | frontend/src/pages/ProfilePage.jsx:80 | the pattern is unanchored: `image` anywhere matches, and a type shorter than five characters never does |
| ProfilePage.ChoosePath | frontend/src/pages/ProfilePage.jsx:76-104 | no file does nothing; a type without `image` is refused; otherwise more than 1 MiB compresses and at most 1 MiB is sent as read |
| ProfilePage.ChoosePathExamples | frontend/src/pages/ProfilePage.jsx:80-86 | exactly 1 MiB is sent as read and one byte more is compressed; `text/plain` is refused and `x/notimage` passes |
| ProfilePage.ProfileUploader.constructor | frontend/src/pages/ProfilePage.jsx:8-10 | no preview, no error, no uploads |
| ProfilePage.ProfileUploader.UploadBegin | frontend/src/pages/ProfilePage.jsx:74-84 | with a file, the error is cleared, and a refused type sets the type error; no file changes nothing |
| ProfilePage.ProfileUploader.CompressResolve | frontend/src/pages/ProfilePage.jsx:86-103 | a decode failure sets the processing error; otherwise the canvas is at most 800 by 800, the encoded picture is shown and uploaded, and an upload failure sets the processing error |
| ProfilePage.ProfileUploader.DirectResolve | frontend/src/pages/ProfilePage.jsx:104-128 | a read failure sets the read error; otherwise the data URL is shown and uploaded, and an upload failure sets the upload error |

## Where the code and the design differ

The model follows the code in each case below.

- **History fetch.** The design says a history response is discarded when the user has since switched peers. `getMessages` has no such guard. `ChatStore.Store.GetMessagesResolve` replaces the list whoever is selected.
- **Send while receiving.** The design says the two arrival paths of a sent message are deduplicated by id. `sendMessage` checks and writes the list it captured before the `await`. The result does hold one copy of the sent message (`EchoThenResponseKeepsOneCopy`), but any other message received during the POST is dropped (`ConfirmSendDropsConcurrentArrival`).
- **Idle timer on send.** The design says the typing idle timer is cleared on every send, so `stopTyping` is never duplicated. `handleSendMessage` does not clear the timer, so a send while typing is followed by a second `stopTyping` (`TypeThenSendSignals`).
- **Clearing the input.** The composer clears its input unless `sendMessage` throws. `sendMessage` catches every error and returns a result instead, so the input is cleared after a failed send as well.
- **Profile image type.** The profile page's type check `match('image.*')` is a regular expression. It accepts any type that contains `image` anywhere, not only `image/…`.

## Left out

- Transport: socket.io, the HTTP server, CORS and authentication middleware. Emits are log entries; the authenticated user is a parameter.
- socket.io's automatic room named after each socket's own id: a new socket starts in no room. Nothing in the code addresses a socket-id room, and user ids and chat keys never equal a socket id, so no emission changes.
- MongoDB: queries are filters over sequences. A failure of `User.find` (sidebar) or `Message.find` (history) is a `Result` error. The per-user `Message.findOne` inside `Promise.all` is modelled as always succeeding; in the code its rejection reaches the same 500 "Failed to load users".
- The image host, `updateProfile` and `signup` are outcomes passed in.
- Toasts, console output, scrolling, rendering, avatars, and the persisted `selectedUser` (browser storage).
- Async interleaving: each handler step is atomic. React's stale closure of `isTyping` is not modelled, so two keystrokes before a re-render would both signal `startTyping`.
- The `typing` handler pushes into the array it shallow-copied, which the previous state shares. The model works on values, so it does not capture this aliasing.
- `initSocket` drops a replaced socket without disconnecting it. The model keeps only the newest handle. The socket handlers use the user captured when `initSocket` ran; the model passes it as `me`.
- `refreshMessages` and `handleBackToContacts` in the chat view only call store operations that are modelled (`getMessages`, `stopTyping`, `setSelectedUser`). The same holds for the effect that refetches history when the selection changes.
- Message timestamps are integers in the server model. On the client they are opaque strings, used only for truthiness and as the sidebar time.
- ChatContainer.FormatMessageTime: takes the local hours and minutes rather than a timestamp, because time zones and `Date` parsing are left out. An invalid date, which the code shows as `12:NaN AM` (`NaN % 12` is falsy, so the hour becomes 12), is not modelled.
- ProfilePage.ProfileUploader.CompressResolve: the JPEG encoding at quality 0.7 and the canvas drawing are floating point and browser APIs. Only the integer canvas size is modelled; the encoded data URL is an input.
- SocketServer.EventServer.NewMessage: `chat.users` entries are modelled by their `_id` alone.
