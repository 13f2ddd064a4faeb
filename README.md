# Chat-Application: a verified model of the friend graph, the messages and the presence map

This project models the server core of a one-to-one chat application and the client
rules that depend on it:

- **Friend requests** (`server/controllers/friend.controller.js`). A user sends a request
  to another user. The receiver gets a pending entry in `friendRequests`, and the sender a
  pending mirror entry in `sentRequests`. The receiver then accepts or rejects it.
  Accepting makes both users friends. The module also covers listing the pending requests
  and searching for users to befriend.
- **Messages** (`server/controllers/message.controller.js`). These handlers cover:
  - the sidebar: a user's friends with their unseen-message counts;
  - loading a conversation, which marks the other side's messages as seen;
  - the no-op `markMessageAsSeen`;
  - sending a message, which is only allowed to a friend.
- **Presence** (`server/server.js`). The `userSocketMap` stores one socket per user id.
  The connection and disconnect handlers update it, and after each change the id list is
  broadcast to everyone.
- **Client rules**:
  - the clock rendering of `client/src/lib/utils.js`;
  - the unseen badge, the local clear and the name filter of the sidebar;
  - which pushed and loaded messages the open conversation shows, its send guard and its
    seen/sent label;
  - the friends page's search annotation and its local list removals;
  - the session's socket guard and its pending-request counter.

## Structure

Shared modules:

- `Seqs` holds a generic order-preserving `Filter` and `findIndex` (`FindFirst`/`FindIndex`).
- `Text` holds ASCII lower-casing, substring search, the `trim()` test and decimal rendering.
- `Store` holds the schema, the wire events, the `{success, ...}` results and the invariant
  `Consistent` of the user collection. It also holds the class `Database`, with both
  collections and an id generator.

How each source file is modelled:

- **`FriendState`** gives the pure transition of each friend handler. `FriendController`
  runs the same steps imperatively, with a `findIndex` loop, on a `Database` and a
  `Realtime` server. Each handler is proved to compute the transition and to keep
  `Database.Valid()`. `Consistent` requires these properties:
  - records are keyed by id;
  - no user has a request from themselves;
  - request ids are fresh and unique;
  - friendship is symmetric and irreflexive;
  - at most one pending pair per ordered pair of users, mirrored one for one.
- **`MessageController`** works the same way over the message collection. Its invariant
  is that message ids increase in storage order, so a conversation comes back oldest
  first.
- **`Realtime`** is a class with `userSocketMap` and its key order, in which a new key goes
  last.
  Every emit is appended to an `outbox`.
- **Client files.** Each client file is one module (`TimeFormat`, `SidebarView`, `ChatView`,
  `FriendsView`, `AuthSession`). Each React component's state cells are a class, and each
  handler is a method that takes the HTTP answer as a `Reply` value (thrown, or answered
  with `success` and `data`). The lemmas in these modules connect the client's view to the
  server model. Some examples:
  - a pushed or sent message keeps the client list equal to the server's conversation;
  - after a `getOnlineUsers` broadcast, the online dot matches the presence map;
  - the request counter equals the server's pending count after a fetch and a send.

### Behaviour of the code worth noting

- **Disconnect.** The disconnect handler deletes the map entry of its user id whatever
  socket the entry now holds. If a user connects twice and the first socket then
  disconnects, the user shows as offline (`Realtime.StaleDisconnect`).
- **Accept.** Accepting appends each id to the other's `friends` without checking whether
  it is already there.
- **Mirror entry.** It is found by target and status (`to == userId`, pending), not by
  request id.
- **No reverse check.** A send does not check for a pending request in the other
  direction. Two users can therefore have crossed pending requests, one in each direction.
- **Empty messages.** The server does not reject an empty message. Only the client's
  `trim()` guard stops one.
- **`markMessageAsSeen`.** It passes `{seen: true}` as a projection to `findById`, so it
  changes nothing. `getMessages` is what marks messages as seen.
- **`success: "true"`.** `getMessages` and `markMessageAsSeen` answer with the string
  `"true"`. It is truthy, so the client treats it as success.
- **GET `/api/friends`.** The friends page requests this path, but `friend.routes.js`
  defines no route for it. The page's `friends` list therefore stays empty, and `isFriend`
  is always false: `FriendsView.SearchFlagsNoFriend` shows that search results never flag
  a friend anyway.
- **Request counter.** The session's pending-request counter only counts up on the
  `friendRequest` event. Accepting or rejecting a request does not lower it.

## Model

| member | source | states |
|---|---|---|
| Store.Records | server/controllers/message.controller.js:10 | A populate over a list of ids returns at most one record per id, and exactly the records of ids that exist. |
| Store.Database.constructor | server/server.js:51-52 | The database starts from any collection that satisfies the invariants, and it holds exactly that collection. |
| Store.MessagesOrderedAppend | server/controllers/message.controller.js:109-114 | Appending a message with a newly issued id keeps message ids increasing and below the generator. |
| Store.ConsistentLater | server/controllers/message.controller.js:109-114 | Issuing an id for a message keeps the user collection consistent. |
| Store.MessagesOrderedLater | server/controllers/friend.controller.js:45-59 | Issuing an id for a request entry keeps the message collection ordered. |
| Store.FromOthersAppend | server/controllers/friend.controller.js:9-16 | A new request entry from a user other than the owner keeps the rule that no request comes from its owner. |
| Store.BalancedAfterSend | server/controllers/friend.controller.js:45-59 | A send adds one pending entry on each side of exactly one pair, so pending entries stay mirrored one for one. |
| Store.BalancedAfterAnswer | server/controllers/friend.controller.js:106-126 | Resolving the receiver's entry and the sender's mirror entry together keeps pending entries mirrored. |
| Store.SymmetryAfterBefriend | server/controllers/friend.controller.js:112-123 | Appending each user to the other's friends keeps friendship symmetric and irreflexive. |
| Seqs.FindFirst | server/controllers/friend.controller.js:94-97 | The index is -1 exactly when no element matches; otherwise the element there matches and none before it does. |
| Seqs.FindIndex | server/controllers/friend.controller.js:94-97 | The linear-scan `findIndex` loop returns the first matching index, or -1. |
| Seqs.Take | server/controllers/friend.controller.js:260 | `limit(10)`: a prefix of length min(n, size). |
| Seqs.Filter | server/controllers/friend.controller.js:213 | `Array.filter`: the elements kept are exactly those satisfying the predicate, and the result is no longer than the input. |
| Seqs.FilterRemovesOne | client/src/pages/FriendsPage.jsx:88-90 | Filtering out an element that occurs once removes exactly that element and keeps the order of the rest. |
| Text.Lower | client/src/components/Sidebar.jsx:59 | `toLowerCase` on ASCII: the length is kept, and only A-Z change. |
| Text.ContainsTransitive | client/src/components/Sidebar.jsx:59 | `includes` is transitive. |
| Text.LowerKeepsContains | client/src/components/Sidebar.jsx:59 | A substring stays a substring after both strings are lower-cased. |
| Text.Decimal | client/src/lib/utils.js:12-15 | `String(n)`: digits without a leading zero that read back as n, with one digit exactly below 10. |
| Text.PadStart | client/src/lib/utils.js:12 | `padStart`: the string is right-aligned in the width and filled on the left with the pad character. |
| Realtime.KeysAfterSet | server/server.js:38 | The keys after an assignment are the old keys plus the new one, without duplicates; an existing key keeps its place. |
| Realtime.KeysAfterDelete | server/server.js:46 | The keys after a delete are the old keys minus the deleted one, without duplicates. |
| Realtime.Deliver | server/controllers/friend.controller.js:61-69 | An emit reaches the user's socket exactly when the map holds a non-empty socket id for the user. |
| Realtime.Notify | server/controllers/message.controller.js:117-120 | A handler's optional notice is delivered through the presence map, or produces nothing. |
| Realtime.Realtime.constructor | server/server.js:21 | Nobody is online, and nothing has been emitted. |
| Realtime.Realtime.Connection | server/server.js:33-43 | A handshake id that is `Truthy` (present and non-empty) maps to the new socket, replacing an earlier one. The key list follows, and the full id list is broadcast. |
| Realtime.Realtime.Disconnect | server/server.js:44-48 | The connection's user id is removed whatever socket it holds now, and the new id list is broadcast. |
| Realtime.Realtime.Send | server/controllers/friend.controller.js:61-69 | The outbox grows by exactly the delivery of the notice. |
| Realtime.StaleDisconnect | server/server.js:37-47 | Connecting twice and then disconnecting the first socket leaves the user offline. |
| Realtime.Reconnect | server/server.js:37-39 | Connecting twice leaves one entry, with the later socket. |
| FriendState.PendingIndex | server/controllers/friend.controller.js:94-97 | The first pending entry with that id, or -1 exactly when there is none. |
| FriendState.MirrorIndex | server/controllers/friend.controller.js:116-119 | The first pending entry sent to the owner, or -1 exactly when there is none. |
| FriendState.SendRequest | server/controllers/friend.controller.js:5-85 | Each failure is given by its guard's condition, in guard order, and leaves nothing changed. A success changes exactly the two records, issues one id and notifies the receiver. |
| FriendState.Answer | server/controllers/friend.controller.js:88-203 | Fails with "not found" exactly when the owner has no pending entry with that id; a failure changes nothing. A success keeps the set of users and the id generator. It notifies the sender exactly when the request is accepted. |
| FriendState.GetFriendRequests | server/controllers/friend.controller.js:206-227 | Fails exactly when the caller is missing; otherwise returns exactly the caller's pending entries. |
| FriendState.PendingRequests | server/controllers/friend.controller.js:213 | Keeps exactly the pending entries. |
| FriendState.PendingRequestsOrder | server/controllers/friend.controller.js:213 | The pending filter distributes over concatenation, so the entries keep their order. |
| FriendState.PendingTargets | server/controllers/friend.controller.js:243-246 | Lists exactly the targets of pending sent requests. |
| FriendState.SearchUsers | server/controllers/friend.controller.js:230-273 | Fails with "query required" exactly on a missing or empty query; a success returns at most ten users. |
| FriendState.SearchExcludes | server/controllers/friend.controller.js:248-260 | Results never include the caller, a friend or a pending target, and every result matches the query. Fewer than ten results means every `Eligible` user (not the caller, a friend or a pending target, and matching the query) was returned. |
| FriendState.SendPreservesConsistent | server/controllers/friend.controller.js:5-85 | A send keeps the user collection consistent. |
| FriendState.SendOkConsistent | server/controllers/friend.controller.js:45-59 | The two pushes of a successful send keep every conjunct of the invariant. |
| FriendState.AnswerPreservesConsistent | server/controllers/friend.controller.js:88-203 | An accept or a reject keeps the user collection consistent. |
| FriendState.AnswerOkConsistent | server/controllers/friend.controller.js:106-126 | The status change, the mirror update and the friend pushes keep every conjunct of the invariant. |
| FriendState.AnswerOutcome | server/controllers/friend.controller.js:94-126 | The exact new records of owner and sender after a successful answer. |
| FriendState.AnswerFindsMirror | server/controllers/friend.controller.js:116-121 | Under the invariant, the sender always holds the pending mirror entry. |
| FriendState.SendTwiceFails | server/controllers/friend.controller.js:34-43 | Repeating a successful send fails with "already sent". |
| FriendState.AnswerTwiceFails | server/controllers/friend.controller.js:94-103 | Under the invariant, answering a request a second time fails with "not found". |
| FriendState.DecidedLeavesNone | server/controllers/friend.controller.js:94-103 | Once the only entry with its id is decided, no pending entry with that id is left. |
| FriendState.AcceptMakesFriends | server/controllers/friend.controller.js:112-123 | After an accept, the two users list each other as friends. |
| FriendState.SendSucceeds | server/controllers/friend.controller.js:9-43 | A send succeeds when all four guards pass. |
| FriendState.AnswerSucceeds | server/controllers/friend.controller.js:94-115 | An answer succeeds when the pending entry exists and its sender exists. |
| FriendState.NewRequestFound | server/controllers/friend.controller.js:46-50 | The appended request is the one its fresh id finds. |
| FriendState.RejectClears | server/controllers/friend.controller.js:170-178 | Rejecting the only pending request from a sender leaves none from that sender. |
| FriendState.ResendAfterReject | server/controllers/friend.controller.js:34-43 | After a send and its rejection, the same send succeeds again. |
| FriendController.RunSend | server/controllers/friend.controller.js:9-56 | The imperative guards and pushes compute `SendRequest`. |
| FriendController.RunAnswer | server/controllers/friend.controller.js:94-124 | The imperative `findIndex` loops and updates compute `Answer`. |
| FriendController.SendFriendRequest | server/controllers/friend.controller.js:5-85 | The new store, the response and the outbox are those of `SendRequest`, and the store stays valid. |
| FriendController.AcceptFriendRequest | server/controllers/friend.controller.js:88-152 | The new store, the response and the outbox are those of an accepting `Answer`, and the store stays valid. |
| FriendController.RejectFriendRequest | server/controllers/friend.controller.js:155-203 | The new store and the response are those of a rejecting `Answer`, nothing is emitted, and the store stays valid. |
| MessageController.Conversation | server/controllers/message.controller.js:47-52 | Keeps exactly the messages between the two users (`Between`: sent by either one to the other). |
| MessageController.MarkSeen | server/controllers/message.controller.js:53-56 | Same length. Exactly the messages from one user to the other become seen; nothing else changes. |
| MessageController.MarkSeenClears | server/controllers/message.controller.js:53-56 | After marking, nothing from that sender to that receiver is unseen. |
| MessageController.MarkSeenOthers | server/controllers/message.controller.js:53-56 | Marking leaves the unseen count of every other sender/receiver pair unchanged. |
| MessageController.MarkSeenIdempotent | server/controllers/message.controller.js:53-56 | Marking twice is the same as marking once. |
| MessageController.ConversationSymmetric | server/controllers/message.controller.js:47-52 | Both participants get the same conversation. |
| MessageController.ConversationAppend | server/controllers/message.controller.js:109-114 | A stored message joins the end of exactly the conversations it belongs to. |
| MessageController.UnseenAppend | server/controllers/message.controller.js:17-24 | A stored message adds one to exactly the `UnseenCount` (messages from one user to the other not yet seen) it belongs to. |
| MessageController.ConversationChronological | server/controllers/message.controller.js:47-52 | In a store with increasing ids, a conversation comes back in increasing id order. |
| MessageController.IncreaseTail | server/controllers/message.controller.js:47-52 | The rest of an increasing sequence increases, and lies above its head. |
| MessageController.IncreaseCons | server/controllers/message.controller.js:47-52 | A head below every element keeps an increasing subsequence increasing. |
| MessageController.GetUsersForSidebar | server/controllers/message.controller.js:7-40 | Fails only for a missing caller. Otherwise it returns the caller's existing friends in list order. The map holds exactly the friends with unseen messages, each with its count. |
| MessageController.SidebarIds | server/controllers/message.controller.js:10-15 | The sidebar lists an id exactly when it is a friend id of an existing user. |
| MessageController.GetMessages | server/controllers/message.controller.js:43-68 | Returns the conversation as it was before the call, and marks the other side's messages to the caller as seen. |
| MessageController.MarkMessageAsSeen | server/controllers/message.controller.js:71-85 | Answers success. Its frame shows that nothing changes. |
| MessageController.PostMessage | server/controllers/message.controller.js:88-133 | "Not friends" exactly when the receiver is not a friend; internal failure exactly when the sender is missing or a requested upload failed. A success stores one unseen message with a fresh id and the given fields, and notifies the receiver. |
| MessageController.PostEffects | server/controllers/message.controller.js:109-120 | The sent message joins only its own conversation, and it adds one to only the receiver's unseen count from the sender. |
| MessageController.PostKeepsInvariant | server/controllers/message.controller.js:109-114 | A post keeps both store invariants. |
| MessageController.RunPost | server/controllers/message.controller.js:95-114 | The imperative gate, upload and create compute `PostMessage`. |
| MessageController.SendMessage | server/controllers/message.controller.js:88-133 | The store, the response and the outbox are those of `PostMessage`, and the store stays valid. |
| TimeFormat.Clock12 | client/src/lib/utils.js:11-14 | The 12-hour clock hour is between 1 and 12, and differs from the hour by 0 or 12. |
| TimeFormat.TwoDigits | client/src/lib/utils.js:12 | Two digits that read back as the minute. |
| TimeFormat.FormatMessageTime | client/src/lib/utils.js:1-15 | The empty string exactly for a missing or invalid date; otherwise 4 or 5 characters. |
| TimeFormat.FormatRoundTrip | client/src/lib/utils.js:11-15 | A rendering parses back as the 12-hour clock hour and the minute. |
| TimeFormat.FormatReadsBack | client/src/lib/utils.js:11-15 | Equal renderings mean equal minutes and equal hours modulo 12. |
| TimeFormat.FormatIgnoresHalfDay | client/src/lib/utils.js:13-14 | Hours twelve apart render alike. |
| TimeFormat.FormatDistinguishes | client/src/lib/utils.js:11-15 | Two times render alike if and only if the hours agree modulo 12 and the minutes agree. |
| TimeFormat.MidnightAndNoon | client/src/lib/utils.js:13-14 | Midnight reads back as hour 12, and renders like noon. |
| SidebarView.DisplayCount | client/src/components/Sidebar.jsx:112-113 | Empty exactly for zero, "5+" above five, otherwise the single digit of the count. |
| SidebarView.BadgeDistinguishes | client/src/components/Sidebar.jsx:113 | Two counts show the same badge exactly when they are equal or both above five. |
| SidebarView.ClearUnseen | client/src/components/Sidebar.jsx:50-55 | Keeps the keys. The selected friend's count reads 0, and every other count is unchanged. With nothing selected or a zero count, nothing changes. |
| SidebarView.ClearUnseenIdempotent | client/src/components/Sidebar.jsx:50-55 | Selecting the same friend again changes nothing. |
| SidebarView.ClearUnseenBadges | client/src/components/Sidebar.jsx:50-55 | The selected friend loses its badge, and every other friend keeps its badge. |
| SidebarView.FilterFriends | client/src/components/Sidebar.jsx:58-60 | Exactly the friends whose lower-cased name contains the lower-cased query. |
| SidebarView.EmptyQueryKeepsAll | client/src/components/Sidebar.jsx:58-60 | An empty query shows every friend, in order. |
| SidebarView.LongerQueryNarrows | client/src/components/Sidebar.jsx:58-60 | A query containing another shows a subset of what the shorter one shows. |
| SidebarView.SidebarState.constructor | client/src/components/Sidebar.jsx:9-13 | The initial state: no friends, an empty map, an empty query, loading, no error. |
| SidebarView.SidebarState.Visible | client/src/components/Sidebar.jsx:58-60 | The rendered friends are exactly those matching the current query. |
| SidebarView.SidebarState.Badge | client/src/components/Sidebar.jsx:112-113 | A friend shows a badge exactly when its count is positive (`RawCount`: an absent key reads as 0). |
| SidebarView.SidebarState.GetFriends | client/src/components/Sidebar.jsx:16-35 | On success, the list and the map come from the answer. A failure answer sets only the error. A throw sets the error and empties both. Loading always ends. |
| SidebarView.SidebarState.SelectFriend | client/src/components/Sidebar.jsx:50-55 | The map becomes `ClearUnseen` of itself. |
| SidebarView.SidebarState.SetSearchQuery | client/src/components/Sidebar.jsx:11 | The query is replaced. |
| SidebarView.OpenConversation | client/src/components/Sidebar.jsx:50-60 | Opening a conversation removes its badge and leaves the other badges and the visible list as they were. |
| ChatView.Pushed | client/src/components/ChatContainer.jsx:28-31 | A pushed message is appended exactly when it belongs to the selected conversation (`BelongsTo`: a friend is selected and is its sender or receiver). |
| ChatView.LoadedMessages | client/src/components/ChatContainer.jsx:43-47 | Keeps exactly the messages with a valid date. |
| ChatView.LoadedShowTimes | client/src/components/ChatContainer.jsx:43-47 | Every kept message renders a non-empty time. |
| ChatView.LoadedKeepsStamped | client/src/components/ChatContainer.jsx:43-47 | When the server has stamped every message, none is dropped. |
| ChatView.LoadedAppend | client/src/components/ChatContainer.jsx:43-47 | The date filter commutes with appending one stamped message. |
| ChatView.LoadedStep | client/src/components/ChatContainer.jsx:43-47 | One more element of the input adds that element to the filter's result, or nothing. |
| ChatView.PushKeepsConversation | client/src/components/ChatContainer.jsx:26-36 | When the server stores and pushes a message, the client list stays equal to the loaded conversation of the new store. |
| ChatView.SendKeepsConversation | client/src/components/ChatContainer.jsx:64-66 | After a successful send, the list stays equal to the loaded conversation of the new store. |
| ChatView.StatusLabel | client/src/components/ChatContainer.jsx:99-111 | "Seen" shows exactly on one's own seen messages, "Sent" exactly on one's own unseen messages, and nothing shows on the other user's messages. |
| ChatView.SeenAfterReceiverOpens | client/src/components/ChatContainer.jsx:111 | Once the receiver has opened the conversation, every message the sender sent in it is labelled as seen. |
| ChatView.OnlineAfterBroadcast | client/src/components/ChatContainer.jsx:12 | After the server's connection or disconnect handler runs, the dot computed from its broadcast (`IsOnline`: the selected id is in the list) shows exactly for users the server holds a socket for. |
| ChatView.ChatState.constructor | client/src/components/ChatContainer.jsx:8-9 | No messages, and empty input. |
| ChatView.ChatState.OnNewMessage | client/src/components/ChatContainer.jsx:26-36 | The list becomes `Pushed` of itself. |
| ChatView.ChatState.OnMessagesReply | client/src/components/ChatContainer.jsx:38-54 | A success shows exactly the messages with valid dates, in order (by a loop). A failure answer changes nothing. A throw empties the list. |
| ChatView.ChatState.SendMessage | client/src/components/ChatContainer.jsx:56-71 | Blank input sends nothing. Otherwise the text is posted as it is, and a successful answer is appended and clears the input. |
| ChatView.ChatState.SetMessageText | client/src/components/ChatContainer.jsx:9 | The input is replaced. |
| FriendsView.Annotate | client/src/pages/FriendsPage.jsx:41-44 | Same users in the same order, each flagged exactly when its id is in the friends list. |
| FriendsView.SearchFlagsNoFriend | client/src/pages/FriendsPage.jsx:41-44 | While the local list holds only real friends, no search result is flagged as a friend. |
| FriendsView.WithoutUser | client/src/pages/FriendsPage.jsx:61 | Keeps exactly the results of other users. |
| FriendsView.WithoutUserRemovesOne | client/src/pages/FriendsPage.jsx:61 | A user listed once is removed, and nothing else moves. |
| FriendsView.WithoutUserAbsent | client/src/pages/FriendsPage.jsx:61 | A user that is not listed leaves the results unchanged. |
| FriendsView.WithoutRequest | client/src/pages/FriendsPage.jsx:88-90 | Keeps exactly the other requests. |
| FriendsView.WithoutRequestRemovesOne | client/src/pages/FriendsPage.jsx:105-107 | A request listed once is removed, nothing else moves, and the count drops by one. |
| FriendsView.RequestBadge | client/src/pages/FriendsPage.jsx:153-157 | Shown exactly when there are requests, with their number. |
| FriendsView.FriendsPageState.constructor | client/src/pages/FriendsPage.jsx:8-12 | Everything is empty, and nothing is loading. |
| FriendsView.SearchUrl | client/src/pages/FriendsPage.jsx:36-38 | The request URL holds the fixed path, then the query text unencoded, then `&includeFriends=true`. |
| FriendsView.FriendsPageState.SearchUsers | client/src/pages/FriendsPage.jsx:28-52 | A blank query empties the results, sends nothing and leaves `loading` alone. Otherwise the request goes to `SearchUrl` of the query text, a success gives the annotated results, and loading ends. |
| FriendsView.FriendsPageState.OnSendReply | client/src/pages/FriendsPage.jsx:55-68 | A success drops that user from the results; anything else changes nothing. |
| FriendsView.FriendsPageState.OnAnswerReply | client/src/pages/FriendsPage.jsx:83-114 | A success of an accept or a reject drops that request; anything else changes nothing. |
| FriendsView.FriendsPageState.OnRequestsReply | client/src/pages/FriendsPage.jsx:71-80 | A success replaces the request list. |
| FriendsView.FriendsPageState.OnFriendsReply | client/src/pages/FriendsPage.jsx:16-25 | A success replaces the friends list. |
| FriendsView.FriendsPageState.SetSearchQuery | client/src/pages/FriendsPage.jsx:8 | The query is replaced. |
| AuthSession.SendAddsOnePending | client/context/AuthContext.jsx:112-115 | A successful send raises the receiver's pending count by exactly one, which the listener's `+ 1` mirrors. |
| AuthSession.Session.constructor | client/context/AuthContext.jsx:12-16 | The stored token; nobody signed in, nobody online, no socket, a count of zero, no socket created yet. |
| AuthSession.Session.OnFriendRequest | client/context/AuthContext.jsx:112-115 | The count goes up by one. |
| AuthSession.Session.OnRequestCountReply | client/context/AuthContext.jsx:34-44 | A success sets the count to the length of the list, or 0 without one. A throw sets 0. A failure answer changes nothing. |
| AuthSession.Session.OnGetOnlineUsers | client/context/AuthContext.jsx:107-109 | The online list becomes the broadcast. |
| AuthSession.Session.Logout | client/context/AuthContext.jsx:69-81 | No token, no user, nobody online, a count of zero and no socket. |
| AuthSession.Session.ConnectSocket | client/context/AuthContext.jsx:97-105 | A socket is created exactly when there is user data and the current socket is not connected. The new socket is current but not yet connected, and one more socket exists. Otherwise nothing changes. |
| AuthSession.Session.OnConnect | client/context/AuthContext.jsx:99-104 | The handshake of the current socket completes, and that socket becomes connected. |
| AuthSession.ConnectTwice | client/context/AuthContext.jsx:98 | When the first handshake completes between two sign-ins, the second keeps the first socket and creates none. |
| AuthSession.ConnectBeforeHandshake | client/context/AuthContext.jsx:98-105 | Without the handshake in between, the second sign-in creates a second socket, which replaces the first as current; two sockets exist. |
| AuthSession.LogoutThenConnect | client/context/AuthContext.jsx:69-105 | After a logout, the next sign-in creates a socket for the new user, with a count of zero. |
| AuthSession.CountFollowsServer | client/context/AuthContext.jsx:34-44 | After a fetch and then a send with its event, the count equals the server's pending count. |

## Left out

- I/O and the outside services:
  - MongoDB and mongoose are the `Database` class. Query casting, `populate` field
    selection and cast errors are not modelled.
  - The Cloudinary upload becomes the parameter `uploaded` of `SendMessage`; None means
    the upload threw.
  - The clock becomes the `hour`/`minute` parameters.
  - The socket transport becomes the `outbox` of `Realtime`.
- Authentication (JWT, bcrypt, `protectRoute`, sign-up, login, `checkAuth`, profile
  updates) is left out. The routes are not part of this model. A caller missing from the
  store takes the `catch` path and fails with `Internal`.
- Concurrency:
  - The handlers run one at a time.
  - The awaits inside `getUsersForSidebar`'s `Promise.all` are read as one sequential
    loop.
  - The two `save` calls of a handler are applied together: the model has no state in
    which only one of them has happened.
- `FriendState.Matches`: the `$regex` with option `i` is approximated by a substring test
  after ASCII lower-casing. Regex metacharacters in a query are treated as plain text.
- `Text.Blank` treats only ASCII whitespace as space for `trim()`. `Text.Lower` folds only
  A-Z.
- `Realtime.Realtime.Disconnect`: a connection without a user id deletes nothing in the
  model. In the source it deletes the key `"undefined"`, which is set only by a client
  whose handshake query carries the string `undefined`.
- `Realtime.KeysAfterSet`: a new key goes last. That is the order of `Object.keys` only
  for keys that are not array indices. JavaScript lists numeric keys such as `"7"`
  first, in ascending order. The ids the application creates (24-digit hexadecimal
  ObjectIds) are never array indices, and the client reads the list only with
  `includes`.
- Request entries carry an id, the sender and the status. `createdAt` and the `_id` of
  `sentRequests` entries are not modelled, and the `from` field is not populated.
- Socket events carry a profile or a message as data. The toasts they trigger on the
  client are not modelled.
- Date parsing: a `createdAt` value is a `Stamp` (missing, unparseable, or an hour and
  minute of local time). Time zones and dates other than the clock reading are not
  modelled.
- Rendering, toasts, scrolling, the debounce timer and `activeTab` of the client are not
  modelled. The search's `includeFriends=true` query parameter is ignored by the server,
  and so by the model.
- `AuthSession.Session.ConnectSocket`: the guard reads the current socket as the model
  holds it. In the source, `connectSocket` is a closure over the `socket` of the render it
  was created in. `setSocket` does not change that value, so two calls within one render
  both see the old socket, even after the first handshake has completed.
- `FriendsView.FriendsPageState.SearchUsers`: the model gives the request URL, with the
  query text put into it unencoded. It does not model what the server's query parser
  reads back from that URL. For a query holding `&`, `#`, `+` or `%`, this differs from
  the typed text: `a&b` arrives as `a`, and `a+b` arrives as `a b`.
- The cleanup of ChatContainer's `newMessage` listener
  (`client/src/components/ChatContainer.jsx:34`) calls `socket.off("newMessage")` without
  a handler. This removes every `newMessage` listener on the socket, including the one
  the sidebar registered. The sidebar mounts next to the chat on the home page, so after
  the first change of selected user it no longer refreshes on new messages. Listener
  registration is not modelled.
- The sidebar's `newMessage` listener re-runs `getFriends`, which is
  `SidebarView.SidebarState.GetFriends` again. It has no row of its own.
- The `friendRequestAccepted` listener of the session only shows a toast, so it is not
  modelled.
