/** The persistent state of the chat server (the user and message collections), the
    realtime events it emits, the uniform `{success, ...}` result of its handlers, and the
    invariant the friend-request handlers keep on the user collection. */
module Store {
  import opened Seqs

  type UserId = string
  type SocketId = string
  type Hour = h: int | 0 <= h < 24
  type Minute = m: int | 0 <= m < 60

  datatype Option<T> = None | Some(value: T)

  /** A `createdAt` value as `new Date(...)` sees it: falsy, unparseable, or a local clock time. */
  datatype Stamp = Missing | Unparseable | At(hour: Hour, minute: Minute)

  datatype Status = Pending | Accepted | Rejected

  /** An entry of `user.friendRequests`: a request received from `from`. */
  datatype FriendRequest = FriendRequest(id: nat, from: UserId, status: Status)

  /** An entry of `user.sentRequests`: a request sent to `to`. */
  datatype SentRequest = SentRequest(to: UserId, status: Status)

  datatype User = User(
    id: UserId,
    fullName: string,
    email: string,
    profilePic: string,
    bio: string,
    friends: seq<UserId>,
    friendRequests: seq<FriendRequest>,
    sentRequests: seq<SentRequest>)

  datatype Message = Message(
    id: nat,
    senderId: UserId,
    receiverId: UserId,
    text: Option<string>,
    image: Option<string>,
    seen: bool,
    createdAt: Stamp)

  /** The `{_id, fullName, profilePic}` payload of the friend-request notifications. */
  datatype Profile = Profile(id: UserId, fullName: string, profilePic: string)

  function ProfileOf(u: User): Profile {
    Profile(u.id, u.fullName, u.profilePic)
  }

  /** The four socket events of the realtime channel. */
  datatype ServerEvent =
    | GetOnlineUsers(userIds: seq<UserId>)
    | FriendRequestReceived(from: Profile)
    | FriendRequestAccepted(from: Profile)
    | NewMessage(message: Message)

  /** One `emit`: `io.emit(...)` to every socket, or `io.to(socket).emit(...)`. */
  datatype Emission = ToAll(event: ServerEvent) | ToSocket(socket: SocketId, event: ServerEvent)

  /** An event a handler wants delivered to a user if that user is online. */
  datatype Notice = Notice(to: UserId, event: ServerEvent)

  /** The failure messages of the handlers; `Internal` is the `catch (error)` path. */
  datatype Failure =
    | SelfRequest
    | UserNotFound
    | AlreadyFriends
    | AlreadySent
    | RequestNotFound
    | QueryRequired
    | NotFriends
    | Internal

  /** The `{success: true, ...}` / `{success: false, message}` response of a handler. */
  datatype Result<T> = Ok(value: T) | Fail(error: Failure)

  /** What an `axios` call gives a client handler: it threw, or it answered `data`. */
  datatype Reply<T> = Threw | Answered(success: bool, data: T)

  // ---------------------------------------------------------------------------------
  // The relationship store and its invariant

  /** The number of pending requests from `a` in a `friendRequests` list. */
  function PendingFrom(s: seq<FriendRequest>, a: UserId): nat {
    if s == [] then 0
    else PendingFrom(s[..|s| - 1], a) + (if s[|s| - 1].from == a && s[|s| - 1].status == Pending then 1 else 0)
  }

  /** The number of pending requests to `b` in a `sentRequests` list. */
  function PendingTo(s: seq<SentRequest>, b: UserId): nat {
    if s == [] then 0
    else PendingTo(s[..|s| - 1], b) + (if s[|s| - 1].to == b && s[|s| - 1].status == Pending then 1 else 0)
  }

  ghost predicate KeyedById(users: map<UserId, User>) {
    forall u :: u in users ==> users[u].id == u
  }

  /** No entry of `s`, the `friendRequests` of `u`, comes from `u`. */
  ghost predicate FromOthers(s: seq<FriendRequest>, u: UserId) {
    forall i :: 0 <= i < |s| ==> s[i].from != u
  }

  ghost predicate NoSelfRequests(users: map<UserId, User>) {
    forall u :: u in users ==> FromOthers(users[u].friendRequests, u)
  }

  /** Every id in `s` was issued before `nextId`, and no id occurs twice. */
  ghost predicate IdsFresh(s: seq<FriendRequest>, nextId: nat) {
    (forall i :: 0 <= i < |s| ==> s[i].id < nextId) &&
    (forall i, j :: 0 <= i < j < |s| ==> s[i].id != s[j].id)
  }

  ghost predicate FreshIds(users: map<UserId, User>, nextId: nat) {
    forall u :: u in users ==> IdsFresh(users[u].friendRequests, nextId)
  }

  /** Friendship is symmetric and nobody is their own friend. */
  ghost predicate FriendsSymmetric(users: map<UserId, User>) {
    (forall a, b :: a in users && b in users ==> (a in users[b].friends <==> b in users[a].friends)) &&
    (forall u :: u in users ==> u !in users[u].friends)
  }

  /** Pending requests come in mirrored pairs: b's pending requests from a are matched
      one for one by a's pending requests to b, and there is at most one of them. */
  ghost predicate MirrorsBalanced(users: map<UserId, User>) {
    forall a, b :: a in users && b in users ==>
      PendingFrom(users[b].friendRequests, a) == PendingTo(users[a].sentRequests, b) <= 1
  }

  /** The invariant of the user collection that the friend-request handlers keep. */
  ghost predicate Consistent(users: map<UserId, User>, nextId: nat) {
    KeyedById(users) && NoSelfRequests(users) && FreshIds(users, nextId) &&
    FriendsSymmetric(users) && MirrorsBalanced(users)
  }

  /** Messages are stored in the order they were created, so their ids increase, and
      every id was issued before `nextId`. */
  ghost predicate MessagesOrdered(messages: seq<Message>, nextId: nat) {
    (forall i :: 0 <= i < |messages| ==> messages[i].id < nextId) && IdsIncrease(messages)
  }

  ghost predicate IdsIncrease(messages: seq<Message>) {
    forall i, j :: 0 <= i < j < |messages| ==> messages[i].id < messages[j].id
  }

  lemma MessagesOrderedLater(messages: seq<Message>, nextId: nat, nextId': nat)
    requires MessagesOrdered(messages, nextId) && nextId <= nextId'
    ensures MessagesOrdered(messages, nextId')
  {
  }

  /** A message with a newly issued id may be appended. */
  lemma MessagesOrderedAppend(messages: seq<Message>, nextId: nat, m: Message)
    requires MessagesOrdered(messages, nextId) && m.id == nextId
    ensures MessagesOrdered(messages + [m], nextId + 1)
  {
    assert forall i :: 0 <= i < |messages| ==> (messages + [m])[i] == messages[i];
  }

  /** Issuing an id (for a message) keeps the user collection consistent. */
  lemma ConsistentLater(users: map<UserId, User>, nextId: nat, nextId': nat)
    requires Consistent(users, nextId) && nextId <= nextId'
    ensures Consistent(users, nextId')
  {
    forall u | u in users ensures IdsFresh(users[u].friendRequests, nextId') {
      assert IdsFresh(users[u].friendRequests, nextId);
    }
  }

  /** `order` lists the user collection in its natural (insertion) order. */
  ghost predicate Lists(order: seq<UserId>, users: map<UserId, User>) {
    NoDup(order) && forall u :: u in order <==> u in users
  }

  /** The records of those of `ids` that exist, in the order of `ids`: what a query or a
      `populate` over a list of ids gives back, dropping ids that match no document. */
  function Records(users: map<UserId, User>, ids: seq<UserId>): (r: seq<User>)
    ensures |r| <= |ids|
    ensures forall x :: x in r <==> exists v :: v in ids && v in users && users[v] == x
  {
    if ids == [] then []
    else
      var rest := Records(users, ids[1..]);
      assert forall v :: v in ids <==> v == ids[0] || v in ids[1..];
      (if ids[0] in users then [users[ids[0]]] else []) + rest
  }

  /** The two MongoDB collections. `nextId` stands for the ObjectId generator: every id it
      hands out (for a request entry or a message) is larger than all earlier ones. */
  class Database {
    var users: map<UserId, User>
    var messages: seq<Message>
    var nextId: nat
    const order: seq<UserId>

    ghost predicate Valid()
      reads this
    {
      Consistent(users, nextId) && Lists(order, users) && MessagesOrdered(messages, nextId)
    }

    /** Accounts are created by the sign-up handler, which is not part of this model;
        the store starts from any collection that satisfies the invariant. */
    constructor (users: map<UserId, User>, order: seq<UserId>, messages: seq<Message>, nextId: nat)
      requires Consistent(users, nextId) && Lists(order, users) && MessagesOrdered(messages, nextId)
      ensures Valid()
      ensures this.users == users && this.order == order && this.messages == messages && this.nextId == nextId
    {
      this.users := users;
      this.order := order;
      this.messages := messages;
      this.nextId := nextId;
    }
  }

  // ---------------------------------------------------------------------------------
  // Counting lemmas

  lemma PendingFromAppend(s: seq<FriendRequest>, x: FriendRequest, a: UserId)
    ensures PendingFrom(s + [x], a) == PendingFrom(s, a) + (if x.from == a && x.status == Pending then 1 else 0)
  {
    assert (s + [x])[..|s|] == s;
  }

  lemma PendingToAppend(s: seq<SentRequest>, x: SentRequest, b: UserId)
    ensures PendingTo(s + [x], b) == PendingTo(s, b) + (if x.to == b && x.status == Pending then 1 else 0)
  {
    assert (s + [x])[..|s|] == s;
  }

  /** Replacing entry k changes the count by the entries' own contributions. */
  lemma {:induction false} PendingFromUpdate(s: seq<FriendRequest>, k: nat, x: FriendRequest, a: UserId)
    requires k < |s|
    ensures PendingFrom(s[k := x], a) + (if s[k].from == a && s[k].status == Pending then 1 else 0)
         == PendingFrom(s, a) + (if x.from == a && x.status == Pending then 1 else 0)
  {
    var n := |s| - 1;
    if k < n {
      assert s[k := x][..n] == s[..n][k := x];
      PendingFromUpdate(s[..n], k, x, a);
    } else {
      assert s[k := x][..n] == s[..n];
    }
  }

  lemma {:induction false} PendingToUpdate(s: seq<SentRequest>, k: nat, x: SentRequest, b: UserId)
    requires k < |s|
    ensures PendingTo(s[k := x], b) + (if s[k].to == b && s[k].status == Pending then 1 else 0)
         == PendingTo(s, b) + (if x.to == b && x.status == Pending then 1 else 0)
  {
    var n := |s| - 1;
    if k < n {
      assert s[k := x][..n] == s[..n][k := x];
      PendingToUpdate(s[..n], k, x, b);
    } else {
      assert s[k := x][..n] == s[..n];
    }
  }

  /** A positive count means some entry is a pending request to `b`. */
  lemma {:induction false} PendingToWitness(s: seq<SentRequest>, b: UserId)
    requires PendingTo(s, b) > 0
    ensures exists i :: 0 <= i < |s| && s[i].to == b && s[i].status == Pending
  {
    var n := |s| - 1;
    if !(s[n].to == b && s[n].status == Pending) {
      PendingToWitness(s[..n], b);
      var i :| 0 <= i < n && s[..n][i].to == b && s[..n][i].status == Pending;
      assert s[i] == s[..n][i];
    }
  }

  /** An entry that is a pending request from `a` makes the count positive. */
  lemma {:induction false} PendingFromPositive(s: seq<FriendRequest>, k: nat, a: UserId)
    requires k < |s| && s[k].from == a && s[k].status == Pending
    ensures PendingFrom(s, a) > 0
  {
    var n := |s| - 1;
    if k < n {
      assert s[..n][k] == s[k];
      PendingFromPositive(s[..n], k, a);
    }
  }

  // ---------------------------------------------------------------------------------
  // The invariant under an update of two records `x` and `y`

  /** `users'` has the same keys as `users` and the same records except those of x and y. */
  ghost predicate AgreeExcept(users: map<UserId, User>, users': map<UserId, User>, x: UserId, y: UserId) {
    users'.Keys == users.Keys && forall u :: u in users && u != x && u != y ==> users'[u] == users[u]
  }

  lemma KeyedKept(users: map<UserId, User>, users': map<UserId, User>, x: UserId, y: UserId)
    requires KeyedById(users) && AgreeExcept(users, users', x, y)
    requires x in users ==> users'[x].id == users[x].id
    requires y in users ==> users'[y].id == users[y].id
    ensures KeyedById(users')
  {
  }

  lemma NoSelfKept(users: map<UserId, User>, users': map<UserId, User>, x: UserId, y: UserId)
    requires NoSelfRequests(users) && AgreeExcept(users, users', x, y)
    requires x in users ==> FromOthers(users'[x].friendRequests, x)
    requires y in users ==> FromOthers(users'[y].friendRequests, y)
    ensures NoSelfRequests(users')
  {
  }

  lemma FreshKept(users: map<UserId, User>, users': map<UserId, User>, nextId: nat, nextId': nat, x: UserId, y: UserId)
    requires FreshIds(users, nextId) && AgreeExcept(users, users', x, y) && nextId <= nextId'
    requires x in users ==> IdsFresh(users'[x].friendRequests, nextId')
    requires y in users ==> IdsFresh(users'[y].friendRequests, nextId')
    ensures FreshIds(users', nextId')
  {
  }

  /** Appending a request from somebody else keeps a list free of self-requests. */
  lemma FromOthersAppend(s: seq<FriendRequest>, u: UserId, x: FriendRequest)
    requires FromOthers(s, u) && x.from != u
    ensures FromOthers(s + [x], u)
  {
    assert forall i :: 0 <= i < |s| ==> (s + [x])[i] == s[i];
  }

  /** Appending a request with a newly issued id keeps a list's ids fresh and unique. */
  lemma IdsFreshAppend(s: seq<FriendRequest>, nextId: nat, from: UserId)
    requires IdsFresh(s, nextId)
    ensures IdsFresh(s + [FriendRequest(nextId, from, Pending)], nextId + 1)
  {
    assert forall i :: 0 <= i < |s| ==> (s + [FriendRequest(nextId, from, Pending)])[i] == s[i];
  }

  /** A status change keeps a list's ids and senders. */
  lemma StatusChangeKeeps(s: seq<FriendRequest>, k: nat, st: Status, nextId: nat, u: UserId)
    requires k < |s|
    ensures IdsFresh(s, nextId) ==> IdsFresh(s[k := s[k].(status := st)], nextId)
    ensures FromOthers(s, u) ==> FromOthers(s[k := s[k].(status := st)], u)
  {
    assert forall i :: 0 <= i < |s| ==> s[k := s[k].(status := st)][i].id == s[i].id && s[k := s[k].(status := st)][i].from == s[i].from;
  }

  lemma SymmetryKept(users: map<UserId, User>, users': map<UserId, User>, x: UserId, y: UserId)
    requires FriendsSymmetric(users) && AgreeExcept(users, users', x, y)
    requires x in users ==> users'[x].friends == users[x].friends
    requires y in users ==> users'[y].friends == users[y].friends
    ensures FriendsSymmetric(users')
  {
    assert forall u :: u in users' ==> users'[u].friends == users[u].friends;
  }

  /** Befriending x and y by appending each to the other's list keeps friendship symmetric. */
  lemma SymmetryAfterBefriend(users: map<UserId, User>, users': map<UserId, User>, x: UserId, y: UserId)
    requires FriendsSymmetric(users) && AgreeExcept(users, users', x, y)
    requires x in users && y in users && x != y
    requires users'[x].friends == users[x].friends + [y]
    requires users'[y].friends == users[y].friends + [x]
    ensures FriendsSymmetric(users')
  {
    forall a, b | a in users' && b in users'
      ensures a in users'[b].friends <==> b in users'[a].friends
    {
      if b != x && b != y {
        assert users'[b].friends == users[b].friends;
      }
      if a != x && a != y {
        assert users'[a].friends == users[a].friends;
      }
    }
    forall u | u in users' ensures u !in users'[u].friends {
      if u != x && u != y {
        assert users'[u].friends == users[u].friends;
      }
    }
  }

  /** The counts of one pair (a, b) after a new pending pair from s to t. */
  lemma SendCounts(users: map<UserId, User>, users': map<UserId, User>, s: UserId, t: UserId, id: nat, a: UserId, b: UserId)
    requires AgreeExcept(users, users', s, t)
    requires s in users && t in users && a in users && b in users
    requires users'[t].friendRequests == users[t].friendRequests + [FriendRequest(id, s, Pending)]
    requires users'[t].sentRequests == users[t].sentRequests
    requires users'[s].sentRequests == users[s].sentRequests + [SentRequest(t, Pending)]
    requires users'[s].friendRequests == users[s].friendRequests
    ensures PendingFrom(users'[b].friendRequests, a) == PendingFrom(users[b].friendRequests, a) + (if a == s && b == t then 1 else 0)
    ensures PendingTo(users'[a].sentRequests, b) == PendingTo(users[a].sentRequests, b) + (if a == s && b == t then 1 else 0)
  {
    if b == t {
      PendingFromAppend(users[t].friendRequests, FriendRequest(id, s, Pending), a);
    }
    if a == s {
      PendingToAppend(users[s].sentRequests, SentRequest(t, Pending), b);
    }
  }

  /** A new pending pair from s to t, where t had none from s, keeps the mirrors balanced. */
  lemma BalancedAfterSend(users: map<UserId, User>, users': map<UserId, User>, s: UserId, t: UserId, id: nat)
    requires MirrorsBalanced(users) && AgreeExcept(users, users', s, t)
    requires s in users && t in users
    requires PendingFrom(users[t].friendRequests, s) == 0
    requires users'[t].friendRequests == users[t].friendRequests + [FriendRequest(id, s, Pending)]
    requires users'[t].sentRequests == users[t].sentRequests
    requires users'[s].sentRequests == users[s].sentRequests + [SentRequest(t, Pending)]
    requires users'[s].friendRequests == users[s].friendRequests
    ensures MirrorsBalanced(users')
  {
    forall a, b | a in users' && b in users'
      ensures PendingFrom(users'[b].friendRequests, a) == PendingTo(users'[a].sentRequests, b) <= 1
    {
      SendCounts(users, users', s, t, id, a, b);
    }
  }

  /** Deciding t's pending request k from a0 together with a0's pending entry j to t
      keeps the mirrors balanced. */
  lemma BalancedAfterAnswer(users: map<UserId, User>, users': map<UserId, User>, a0: UserId, t: UserId, k: nat, j: nat, st: Status)
    requires MirrorsBalanced(users) && AgreeExcept(users, users', a0, t)
    requires a0 in users && t in users && a0 != t && st != Pending
    requires k < |users[t].friendRequests| && users[t].friendRequests[k].from == a0
    requires users[t].friendRequests[k].status == Pending
    requires j < |users[a0].sentRequests| && users[a0].sentRequests[j].to == t
    requires users[a0].sentRequests[j].status == Pending
    requires users'[t].friendRequests == users[t].friendRequests[k := users[t].friendRequests[k].(status := st)]
    requires users'[t].sentRequests == users[t].sentRequests
    requires users'[a0].sentRequests == users[a0].sentRequests[j := users[a0].sentRequests[j].(status := st)]
    requires users'[a0].friendRequests == users[a0].friendRequests
    ensures MirrorsBalanced(users')
  {
    forall a, b | a in users' && b in users'
      ensures PendingFrom(users'[b].friendRequests, a) == PendingTo(users'[a].sentRequests, b) <= 1
    {
      if b == t {
        PendingFromUpdate(users[t].friendRequests, k, users[t].friendRequests[k].(status := st), a);
      } else {
        assert users'[b].friendRequests == users[b].friendRequests;
      }
      if a == a0 {
        PendingToUpdate(users[a0].sentRequests, j, users[a0].sentRequests[j].(status := st), b);
      } else {
        assert users'[a].sentRequests == users[a].sentRequests;
      }
    }
  }
}
