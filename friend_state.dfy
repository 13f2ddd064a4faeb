/** The friend-request state machine of server/controllers/friend.controller.js as pure
    transitions of the user collection, and what they preserve. Each handler runs
    atomically: its `save()` calls are applied together. */
module FriendState {
  import opened Seqs
  import opened Text
  import opened Store

  /** What a handler leaves behind: its response, the new user collection, the id
      generator and the notification it asks to deliver. */
  datatype Step = Step(result: Result<()>, users: map<UserId, User>, nextId: nat, notice: Option<Notice>)

  /** `receiver.friendRequests.find(req => req.from == a && req.status == "pending")`. */
  function PendingFromIndex(s: seq<FriendRequest>, a: UserId): int {
    FindFirst(s, (r: FriendRequest) => r.from == a && r.status == Pending)
  }

  /** `user.friendRequests.findIndex(req => req._id == id && req.status == "pending")`. */
  function PendingIndex(s: seq<FriendRequest>, id: nat): (k: int)
    ensures -1 <= k < |s|
    ensures k >= 0 ==> s[k].id == id && s[k].status == Pending
    ensures k >= 0 ==> forall i :: 0 <= i < k ==> !(s[i].id == id && s[i].status == Pending)
    ensures k == -1 <==> forall i :: 0 <= i < |s| ==> !(s[i].id == id && s[i].status == Pending)
  {
    FindFirst(s, (r: FriendRequest) => r.id == id && r.status == Pending)
  }

  /** `sender.sentRequests.findIndex(req => req.to == owner && req.status == "pending")`:
      the mirror is chosen by target, not by request id. */
  function MirrorIndex(s: seq<SentRequest>, owner: UserId): (j: int)
    ensures -1 <= j < |s|
    ensures j >= 0 ==> s[j].to == owner && s[j].status == Pending
    ensures j >= 0 ==> forall i :: 0 <= i < j ==> !(s[i].to == owner && s[i].status == Pending)
    ensures j == -1 <==> forall i :: 0 <= i < |s| ==> !(s[i].to == owner && s[i].status == Pending)
  {
    FindFirst(s, (r: SentRequest) => r.to == owner && r.status == Pending)
  }

  /** `sendFriendRequest`: four guards in order, then a mirrored pending pair. */
  function SendRequest(users: map<UserId, User>, nextId: nat, senderId: UserId, userId: UserId): (st: Step)
    ensures st.result == Fail(SelfRequest) <==> senderId == userId
    ensures st.result == Fail(UserNotFound) <==> senderId != userId && userId !in users
    ensures st.result == Fail(AlreadyFriends) <==>
      senderId != userId && userId in users && senderId in users[userId].friends
    ensures st.result == Fail(AlreadySent) <==>
      senderId != userId && userId in users && senderId !in users[userId].friends &&
      exists i :: 0 <= i < |users[userId].friendRequests| &&
        users[userId].friendRequests[i].from == senderId && users[userId].friendRequests[i].status == Pending
    ensures st.result.Ok? || st.result.error in {SelfRequest, UserNotFound, AlreadyFriends, AlreadySent, Internal}
    ensures st.result.Fail? ==> st.users == users && st.nextId == nextId && st.notice == None
    ensures st.result.Ok? ==>
      senderId != userId && userId in users && senderId in users &&
      st.users.Keys == users.Keys && st.nextId == nextId + 1 &&
      st.users[userId] == users[userId].(friendRequests :=
        users[userId].friendRequests + [FriendRequest(nextId, senderId, Pending)]) &&
      st.users[senderId] == users[senderId].(sentRequests :=
        users[senderId].sentRequests + [SentRequest(userId, Pending)]) &&
      (forall u :: u in users && u != userId && u != senderId ==> st.users[u] == users[u]) &&
      st.notice == Some(Notice(userId, FriendRequestReceived(ProfileOf(users[senderId]))))
  {
    if senderId == userId then Step(Fail(SelfRequest), users, nextId, None)
    else if userId !in users then Step(Fail(UserNotFound), users, nextId, None)
    else
      var receiver := users[userId];
      if senderId in receiver.friends then Step(Fail(AlreadyFriends), users, nextId, None)
      else if PendingFromIndex(receiver.friendRequests, senderId) != -1 then Step(Fail(AlreadySent), users, nextId, None)
      // `sender.sentRequests` of a missing sender throws before anything is saved
      else if senderId !in users then Step(Fail(Internal), users, nextId, None)
      else
        var receiver' := receiver.(friendRequests := receiver.friendRequests + [FriendRequest(nextId, senderId, Pending)]);
        var sender := users[senderId];
        var sender' := sender.(sentRequests := sender.sentRequests + [SentRequest(userId, Pending)]);
        Step(Ok(()), users[userId := receiver'][senderId := sender'], nextId + 1,
             Some(Notice(userId, FriendRequestReceived(ProfileOf(sender)))))
  }

  function Decision(accept: bool): Status {
    if accept then Accepted else Rejected
  }

  /** `acceptFriendRequest` (accept) and `rejectFriendRequest` (!accept) of request
      `requestId` by its receiver `userId`. */
  function Answer(users: map<UserId, User>, nextId: nat, userId: UserId, requestId: nat, accept: bool): (st: Step)
    ensures userId !in users ==> st.result == Fail(Internal)
    ensures st.result == Fail(RequestNotFound) <==>
      userId in users &&
      forall i :: 0 <= i < |users[userId].friendRequests| ==>
        !(users[userId].friendRequests[i].id == requestId && users[userId].friendRequests[i].status == Pending)
    ensures st.result.Ok? || st.result.error in {RequestNotFound, Internal}
    ensures st.result.Fail? ==> st.users == users && st.nextId == nextId && st.notice == None
    ensures st.result.Ok? ==> userId in users && st.users.Keys == users.Keys && st.nextId == nextId
    ensures st.notice.Some? <==> st.result.Ok? && accept
  {
    if userId !in users then Step(Fail(Internal), users, nextId, None)
    else
      var user := users[userId];
      var k := PendingIndex(user.friendRequests, requestId);
      if k == -1 then Step(Fail(RequestNotFound), users, nextId, None)
      else
        var senderId := user.friendRequests[k].from;
        // `sender.sentRequests` of a missing sender throws before anything is saved
        if senderId !in users then Step(Fail(Internal), users, nextId, None)
        else
          var user' := user.(
            friendRequests := user.friendRequests[k := user.friendRequests[k].(status := Decision(accept))],
            friends := if accept then user.friends + [senderId] else user.friends);
          var users1 := users[userId := user'];
          var sender := users1[senderId];
          var j := MirrorIndex(sender.sentRequests, userId);
          var sender' := sender.(
            sentRequests := if j == -1 then sender.sentRequests
                            else sender.sentRequests[j := sender.sentRequests[j].(status := Decision(accept))],
            friends := if accept then sender.friends + [userId] else sender.friends);
          Step(Ok(()), users1[senderId := sender'], nextId,
               if accept then Some(Notice(senderId, FriendRequestAccepted(ProfileOf(user)))) else None)
  }

  /** `user.friendRequests.filter(req => req.status === "pending")`. */
  function PendingRequests(s: seq<FriendRequest>): (r: seq<FriendRequest>)
    ensures forall x :: x in r <==> x in s && x.status == Pending
  {
    Filter(s, (x: FriendRequest) => x.status == Pending)
  }

  /** `getFriendRequests`. */
  function GetFriendRequests(users: map<UserId, User>, userId: UserId): (r: Result<seq<FriendRequest>>)
    ensures r.Ok? <==> userId in users
    ensures r.Fail? ==> r.error == Internal
    ensures r.Ok? ==> forall x :: x in r.value <==> x in users[userId].friendRequests && x.status == Pending
  {
    if userId !in users then Fail(Internal) else Ok(PendingRequests(users[userId].friendRequests))
  }

  /** The `_id`s of `sentRequests.filter(pending).map(req => req.to)`. */
  function PendingTargets(s: seq<SentRequest>): (r: seq<UserId>)
    ensures forall v :: v in r <==> exists i :: 0 <= i < |s| && s[i].to == v && s[i].status == Pending
  {
    if s == [] then []
    else
      var rest := PendingTargets(s[1..]);
      assert forall i :: 1 <= i < |s| ==> s[i] == s[1..][i - 1];
      (if s[0].status == Pending then [s[0].to] else []) + rest
  }

  /** `fullName` or `email` matches `query`, approximating the case-insensitive `$regex`
      by a case-insensitive substring test. */
  predicate Matches(u: User, query: string) {
    Contains(Lower(u.fullName), Lower(query)) || Contains(Lower(u.email), Lower(query))
  }

  /** The `$and` of searchUsers' filter, for caller `me` with pending targets `pending`. */
  predicate Eligible(u: User, me: UserId, friends: seq<UserId>, pending: seq<UserId>, query: string) {
    u.id != me && u.id !in friends && u.id !in pending && Matches(u, query)
  }

  /** `searchUsers`: the first ten eligible users, in collection order. */
  function SearchUsers(users: map<UserId, User>, order: seq<UserId>, userId: UserId, query: Option<string>): (r: Result<seq<User>>)
    ensures r == Fail(QueryRequired) <==> query.None? || query.value == ""
    ensures r.Fail? ==> r.error in {QueryRequired, Internal}
    ensures r.Ok? ==> userId in users && |r.value| <= 10
  {
    if query.None? || query.value == "" then Fail(QueryRequired)
    else if userId !in users then Fail(Internal)
    else
      var me := users[userId];
      var pending := PendingTargets(me.sentRequests);
      Ok(Take(Filter(Records(users, order),
                     (u: User) => Eligible(u, userId, me.friends, pending, query.value)), 10))
  }

  // ---------------------------------------------------------------------------------
  // Properties of the transitions

  /** No entry at all is a pending request from `a`: nothing is counted. */
  lemma NoPendingFromCount(s: seq<FriendRequest>, a: UserId)
    requires PendingFromIndex(s, a) == -1
    ensures PendingFrom(s, a) == 0
  {
    if PendingFrom(s, a) > 0 {
      var i := PendingFromWitness(s, a);
    }
  }

  lemma {:induction false} PendingFromWitness(s: seq<FriendRequest>, a: UserId) returns (i: nat)
    requires PendingFrom(s, a) > 0
    ensures i < |s| && s[i].from == a && s[i].status == Pending
  {
    var n := |s| - 1;
    if s[n].from == a && s[n].status == Pending {
      i := n;
    } else {
      i := PendingFromWitness(s[..n], a);
      assert s[i] == s[..n][i];
    }
  }

  /** A successful send keeps the store consistent. */
  lemma SendPreservesConsistent(users: map<UserId, User>, nextId: nat, senderId: UserId, userId: UserId)
    requires Consistent(users, nextId)
    ensures var st := SendRequest(users, nextId, senderId, userId); Consistent(st.users, st.nextId)
  {
    var st := SendRequest(users, nextId, senderId, userId);
    if st.result.Ok? {
      assert PendingFromIndex(users[userId].friendRequests, senderId) == -1;
      NoPendingFromCount(users[userId].friendRequests, senderId);
      SendOkConsistent(users, st.users, nextId, senderId, userId);
    }
  }

  /** The record changes of a successful send, stated without the guards. */
  lemma SendOkConsistent(users: map<UserId, User>, users': map<UserId, User>, nextId: nat, senderId: UserId, userId: UserId)
    requires Consistent(users, nextId)
    requires senderId != userId && userId in users && senderId in users
    requires PendingFrom(users[userId].friendRequests, senderId) == 0
    requires users'.Keys == users.Keys
    requires users'[userId] == users[userId].(friendRequests :=
      users[userId].friendRequests + [FriendRequest(nextId, senderId, Pending)])
    requires users'[senderId] == users[senderId].(sentRequests :=
      users[senderId].sentRequests + [SentRequest(userId, Pending)])
    requires forall u :: u in users && u != userId && u != senderId ==> users'[u] == users[u]
    ensures Consistent(users', nextId + 1)
  {
    var recv := users[userId].friendRequests;
    var entry := FriendRequest(nextId, senderId, Pending);
    assert AgreeExcept(users, users', senderId, userId);
    assert KeyedById(users') by {
      KeyedKept(users, users', senderId, userId);
    }
    assert FriendsSymmetric(users') by {
      SymmetryKept(users, users', senderId, userId);
    }
    assert FreshIds(users', nextId + 1) by {
      IdsFreshAppend(recv, nextId, senderId);
      FreshKept(users, users', nextId, nextId + 1, senderId, userId);
    }
    assert NoSelfRequests(users') by {
      assert FromOthers(recv, userId);
      FromOthersAppend(recv, userId, entry);
      NoSelfKept(users, users', senderId, userId);
    }
    assert MirrorsBalanced(users') by {
      BalancedAfterSend(users, users', senderId, userId, nextId);
    }
  }

  /** Sending the same request again straight away fails with "already sent". */
  lemma SendTwiceFails(users: map<UserId, User>, nextId: nat, senderId: UserId, userId: UserId)
    requires SendRequest(users, nextId, senderId, userId).result.Ok?
    ensures var st := SendRequest(users, nextId, senderId, userId);
      SendRequest(st.users, st.nextId, senderId, userId).result == Fail(AlreadySent)
  {
    var st := SendRequest(users, nextId, senderId, userId);
    var s := st.users[userId].friendRequests;
    assert s[|s| - 1] == FriendRequest(nextId, senderId, Pending);
  }

  /** The exact effect of a successful accept or reject on the two records involved. */
  lemma AnswerOutcome(users: map<UserId, User>, nextId: nat, userId: UserId, requestId: nat, accept: bool)
    requires NoSelfRequests(users)
    requires Answer(users, nextId, userId, requestId, accept).result.Ok?
    ensures var st := Answer(users, nextId, userId, requestId, accept);
      var owner := users[userId];
      var k := PendingIndex(owner.friendRequests, requestId);
      0 <= k < |owner.friendRequests| &&
      var senderId := owner.friendRequests[k].from;
      var sender := users[senderId];
      var j := MirrorIndex(sender.sentRequests, userId);
      senderId in users && senderId != userId &&
      // the owner's entry is decided, the others are untouched
      st.users[userId].friendRequests == owner.friendRequests[k := owner.friendRequests[k].(status := Decision(accept))] &&
      st.users[userId].sentRequests == owner.sentRequests &&
      // the sender's first pending request to the owner, if any, is decided
      st.users[senderId].sentRequests ==
        (if j == -1 then sender.sentRequests else sender.sentRequests[j := sender.sentRequests[j].(status := Decision(accept))]) &&
      st.users[senderId].friendRequests == sender.friendRequests &&
      // accept appends each id to the other's friends, without de-duplication; reject does not
      st.users[userId].friends == (if accept then owner.friends + [senderId] else owner.friends) &&
      st.users[senderId].friends == (if accept then sender.friends + [userId] else sender.friends) &&
      (forall u :: u in users && u != userId && u != senderId ==> st.users[u] == users[u]) &&
      st.notice == (if accept then Some(Notice(senderId, FriendRequestAccepted(ProfileOf(owner)))) else None)
  {
    var owner := users[userId];
    var k := PendingIndex(owner.friendRequests, requestId);
    assert owner.friendRequests[k].from != userId;
  }

  /** In a consistent store the sender's mirror entry always exists, so the best-effort
      `if (senderRequestIndex !== -1)` branch is always taken. */
  lemma AnswerFindsMirror(users: map<UserId, User>, nextId: nat, userId: UserId, requestId: nat, accept: bool)
    requires Consistent(users, nextId)
    requires Answer(users, nextId, userId, requestId, accept).result.Ok?
    ensures var owner := users[userId];
      var senderId := owner.friendRequests[PendingIndex(owner.friendRequests, requestId)].from;
      MirrorIndex(users[senderId].sentRequests, userId) != -1
  {
    var owner := users[userId];
    var k := PendingIndex(owner.friendRequests, requestId);
    var senderId := owner.friendRequests[k].from;
    PendingFromPositive(owner.friendRequests, k, senderId);
    PendingToWitness(users[senderId].sentRequests, userId);
  }

  /** A successful accept or reject keeps the store consistent. */
  lemma AnswerPreservesConsistent(users: map<UserId, User>, nextId: nat, userId: UserId, requestId: nat, accept: bool)
    requires Consistent(users, nextId)
    ensures var st := Answer(users, nextId, userId, requestId, accept); Consistent(st.users, st.nextId)
  {
    var st := Answer(users, nextId, userId, requestId, accept);
    if st.result.Ok? {
      AnswerOutcome(users, nextId, userId, requestId, accept);
      AnswerFindsMirror(users, nextId, userId, requestId, accept);
      var fr := users[userId].friendRequests;
      var k := PendingIndex(fr, requestId);
      var a0 := fr[k].from;
      AnswerOkConsistent(users, st.users, nextId, userId, a0, k, MirrorIndex(users[a0].sentRequests, userId), accept);
    }
  }

  /** The record changes of a successful accept or reject, stated without the lookups:
      entry `k` of the owner `t` (from `a0`) and entry `j` of `a0` (to `t`) are decided. */
  lemma AnswerOkConsistent(users: map<UserId, User>, users': map<UserId, User>, nextId: nat,
                           t: UserId, a0: UserId, k: nat, j: nat, accept: bool)
    requires Consistent(users, nextId)
    requires a0 in users && t in users && a0 != t
    requires k < |users[t].friendRequests| && users[t].friendRequests[k].from == a0
    requires users[t].friendRequests[k].status == Pending
    requires j < |users[a0].sentRequests| && users[a0].sentRequests[j].to == t
    requires users[a0].sentRequests[j].status == Pending
    requires users'.Keys == users.Keys
    requires forall u :: u in users && u != t && u != a0 ==> users'[u] == users[u]
    requires users'[t].id == users[t].id && users'[a0].id == users[a0].id
    requires users'[t].friendRequests == users[t].friendRequests[k := users[t].friendRequests[k].(status := Decision(accept))]
    requires users'[t].sentRequests == users[t].sentRequests
    requires users'[a0].sentRequests == users[a0].sentRequests[j := users[a0].sentRequests[j].(status := Decision(accept))]
    requires users'[a0].friendRequests == users[a0].friendRequests
    requires users'[t].friends == (if accept then users[t].friends + [a0] else users[t].friends)
    requires users'[a0].friends == (if accept then users[a0].friends + [t] else users[a0].friends)
    ensures Consistent(users', nextId)
  {
    var fr := users[t].friendRequests;
    assert AgreeExcept(users, users', a0, t);
    assert KeyedById(users') by {
      KeyedKept(users, users', a0, t);
    }
    assert FriendsSymmetric(users') by {
      if accept {
        SymmetryAfterBefriend(users, users', a0, t);
      } else {
        SymmetryKept(users, users', a0, t);
      }
    }
    assert FromOthers(fr, t) && IdsFresh(fr, nextId);
    StatusChangeKeeps(fr, k, Decision(accept), nextId, t);
    assert FreshIds(users', nextId) by {
      FreshKept(users, users', nextId, nextId, a0, t);
    }
    assert NoSelfRequests(users') by {
      NoSelfKept(users, users', a0, t);
    }
    assert MirrorsBalanced(users') by {
      BalancedAfterAnswer(users, users', a0, t, k, j, Decision(accept));
    }
  }

  /** A request that has been accepted or rejected cannot be answered again. */
  lemma AnswerTwiceFails(users: map<UserId, User>, nextId: nat, userId: UserId, requestId: nat, first: bool, second: bool)
    requires Consistent(users, nextId)
    requires Answer(users, nextId, userId, requestId, first).result.Ok?
    ensures var st := Answer(users, nextId, userId, requestId, first);
      Answer(st.users, st.nextId, userId, requestId, second).result == Fail(RequestNotFound)
  {
    var st := Answer(users, nextId, userId, requestId, first);
    AnswerOutcome(users, nextId, userId, requestId, first);
    var fr := users[userId].friendRequests;
    assert IdsFresh(fr, nextId);
    DecidedLeavesNone(fr, PendingIndex(fr, requestId), requestId, Decision(first), nextId);
  }

  /** With unique ids, deciding the pending entry `k` with id `id` leaves no pending
      entry with that id. */
  lemma DecidedLeavesNone(fr: seq<FriendRequest>, k: int, id: nat, status: Status, nextId: nat)
    requires IdsFresh(fr, nextId) && 0 <= k < |fr| && fr[k].id == id && status != Pending
    ensures var fr' := fr[k := fr[k].(status := status)];
      forall i :: 0 <= i < |fr'| ==> !(fr'[i].id == id && fr'[i].status == Pending)
  {
    var fr' := fr[k := fr[k].(status := status)];
    forall i | 0 <= i < |fr'| ensures !(fr'[i].id == id && fr'[i].status == Pending) {
      if i != k {
        assert fr'[i] == fr[i];
        assert i < k || k < i;
      }
    }
  }

  /** After accepting, the two users list each other as friends. */
  lemma AcceptMakesFriends(users: map<UserId, User>, nextId: nat, userId: UserId, requestId: nat)
    requires NoSelfRequests(users)
    requires Answer(users, nextId, userId, requestId, true).result.Ok?
    ensures var st := Answer(users, nextId, userId, requestId, true);
      var owner := users[userId];
      var senderId := owner.friendRequests[PendingIndex(owner.friendRequests, requestId)].from;
      senderId in st.users[userId].friends && userId in st.users[senderId].friends
  {
    AnswerOutcome(users, nextId, userId, requestId, true);
  }

  /** The guards of sendFriendRequest all pass. */
  lemma SendSucceeds(users: map<UserId, User>, nextId: nat, senderId: UserId, userId: UserId)
    requires senderId != userId && userId in users && senderId in users
    requires senderId !in users[userId].friends
    requires PendingFromIndex(users[userId].friendRequests, senderId) == -1
    ensures SendRequest(users, nextId, senderId, userId).result.Ok?
  {
  }

  /** The lookups of acceptFriendRequest / rejectFriendRequest all succeed. */
  lemma AnswerSucceeds(users: map<UserId, User>, nextId: nat, userId: UserId, requestId: nat, accept: bool)
    requires userId in users
    requires PendingIndex(users[userId].friendRequests, requestId) != -1
    requires users[userId].friendRequests[PendingIndex(users[userId].friendRequests, requestId)].from in users
    ensures Answer(users, nextId, userId, requestId, accept).result.Ok?
  {
  }

  /** The request a send appends is the one its fresh id finds. */
  lemma NewRequestFound(recv: seq<FriendRequest>, nextId: nat, senderId: UserId)
    requires IdsFresh(recv, nextId)
    ensures PendingIndex(recv + [FriendRequest(nextId, senderId, Pending)], nextId) == |recv|
  {
    var fr := recv + [FriendRequest(nextId, senderId, Pending)];
    var p := (r: FriendRequest) => r.id == nextId && r.status == Pending;
    assert PendingIndex(fr, nextId) == FindFirst(fr, p);
    forall i | 0 <= i < |recv| ensures !p(fr[i]) {
      assert fr[i] == recv[i];
    }
    assert p(fr[|recv|]);
  }

  /** Rejecting the only pending request from `a` leaves none from `a`. */
  lemma RejectClears(recv: seq<FriendRequest>, id: nat, a: UserId)
    requires PendingFrom(recv, a) == 0
    ensures var fr := recv + [FriendRequest(id, a, Pending)];
      PendingFromIndex(fr[|recv| := fr[|recv|].(status := Rejected)], a) == -1
  {
    var fr := recv + [FriendRequest(id, a, Pending)];
    var fr' := fr[|recv| := fr[|recv|].(status := Rejected)];
    PendingFromAppend(recv, FriendRequest(id, a, Pending), a);
    PendingFromUpdate(fr, |recv|, fr[|recv|].(status := Rejected), a);
    if PendingFromIndex(fr', a) != -1 {
      PendingFromPositive(fr', PendingFromIndex(fr', a), a);
    }
  }

  /** A rejected sender may send again: only a pending request blocks a new one. */
  lemma ResendAfterReject(users: map<UserId, User>, nextId: nat, senderId: UserId, userId: UserId)
    requires Consistent(users, nextId)
    requires SendRequest(users, nextId, senderId, userId).result.Ok?
    ensures var sent := SendRequest(users, nextId, senderId, userId);
      var rejected := Answer(sent.users, sent.nextId, userId, nextId, false);
      rejected.result.Ok? &&
      SendRequest(rejected.users, rejected.nextId, senderId, userId).result.Ok?
  {
    var sent := SendRequest(users, nextId, senderId, userId);
    SendPreservesConsistent(users, nextId, senderId, userId);
    var recv := users[userId].friendRequests;
    NewRequestFound(recv, nextId, senderId);
    AnswerSucceeds(sent.users, sent.nextId, userId, nextId, false);
    var rejected := Answer(sent.users, sent.nextId, userId, nextId, false);
    AnswerOutcome(sent.users, sent.nextId, userId, nextId, false);
    NoPendingFromCount(recv, senderId);
    RejectClears(recv, nextId, senderId);
    SendSucceeds(rejected.users, rejected.nextId, senderId, userId);
  }

  /** getFriendRequests keeps exactly the pending entries in their original order. */
  lemma PendingRequestsOrder(s: seq<FriendRequest>, t: seq<FriendRequest>, x: FriendRequest)
    ensures PendingRequests(s + t) == PendingRequests(s) + PendingRequests(t)
    ensures PendingRequests([x]) == if x.status == Pending then [x] else []
  {
    FilterAppend(s, t, (x: FriendRequest) => x.status == Pending);
    FilterSingleton(x, (x: FriendRequest) => x.status == Pending);
  }

  /** searchUsers never returns the caller, a friend of the caller or a user the caller
      has a pending request to; every result matches the query; and fewer than ten
      results means every eligible user was returned. */
  lemma SearchExcludes(users: map<UserId, User>, order: seq<UserId>, userId: UserId, query: Option<string>)
    requires SearchUsers(users, order, userId, query).Ok?
    ensures var r := SearchUsers(users, order, userId, query).value;
      var me := users[userId];
      (forall u :: u in r ==>
        u.id != userId && u.id !in me.friends && Matches(u, query.value) &&
        (forall i :: 0 <= i < |me.sentRequests| && me.sentRequests[i].status == Pending ==> me.sentRequests[i].to != u.id)) &&
      (|r| < 10 ==> forall v :: v in order && v in users && Eligible(users[v], userId, me.friends, PendingTargets(me.sentRequests), query.value) ==> users[v] in r)
  {
    var me := users[userId];
    var pending := PendingTargets(me.sentRequests);
    var all := Filter(Records(users, order), (u: User) => Eligible(u, userId, me.friends, pending, query.value));
    var r := SearchUsers(users, order, userId, query).value;
    assert r == Take(all, 10);
    forall u | u in r ensures u in all { }
    if |r| < 10 {
      assert r == all;
    }
  }
}
