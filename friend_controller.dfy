/** The friend-request handlers of server/controllers/friend.controller.js as methods
    over the database and the socket server. Each handler first runs its lookups and
    `findIndex` loops on the records it loaded (RunSend, RunAnswer), which is proved to
    compute the matching transition of FriendState; it then saves the changed records
    and emits at most one event, and so keeps the store's invariant. */
module FriendController {
  import opened Seqs
  import opened Store
  import opened FriendState
  import Realtime

  /** The body of `sendFriendRequest` up to the saves: four guards in order, the lookup
      of the sender, and the two pushes. */
  method RunSend(users: map<UserId, User>, nextId: nat, senderId: UserId, userId: UserId) returns (st: Step)
    ensures st == SendRequest(users, nextId, senderId, userId)
  {
    if senderId == userId {
      return Step(Fail(SelfRequest), users, nextId, None);
    }
    if userId !in users {
      return Step(Fail(UserNotFound), users, nextId, None);
    }
    var receiver := users[userId];
    if senderId in receiver.friends {
      return Step(Fail(AlreadyFriends), users, nextId, None);
    }
    var existing := FindIndex(receiver.friendRequests, (r: FriendRequest) => r.from == senderId && r.status == Pending);
    if existing != -1 {
      return Step(Fail(AlreadySent), users, nextId, None);
    }
    receiver := receiver.(friendRequests := receiver.friendRequests + [FriendRequest(nextId, senderId, Pending)]);
    if senderId !in users {
      return Step(Fail(Internal), users, nextId, None);
    }
    var sender := users[senderId];
    var sender' := sender.(sentRequests := sender.sentRequests + [SentRequest(userId, Pending)]);
    st := Step(Ok(()), users[userId := receiver][senderId := sender'], nextId + 1,
               Some(Notice(userId, FriendRequestReceived(ProfileOf(sender)))));
  }

  /** The body of `acceptFriendRequest` (accept) or `rejectFriendRequest` (!accept) up to
      the saves. Each save writes only the paths its document changed, so the sender's
      changes apply on top of the owner's. */
  method RunAnswer(users: map<UserId, User>, nextId: nat, userId: UserId, requestId: nat, accept: bool) returns (st: Step)
    ensures st == Answer(users, nextId, userId, requestId, accept)
  {
    if userId !in users {
      return Step(Fail(Internal), users, nextId, None);
    }
    var user := users[userId];
    var k := FindIndex(user.friendRequests, (r: FriendRequest) => r.id == requestId && r.status == Pending);
    if k == -1 {
      return Step(Fail(RequestNotFound), users, nextId, None);
    }
    var senderId := user.friendRequests[k].from;
    var user' := user.(friendRequests := user.friendRequests[k := user.friendRequests[k].(status := Decision(accept))]);
    if accept {
      user' := user'.(friends := user.friends + [senderId]);
    }
    if senderId !in users {
      return Step(Fail(Internal), users, nextId, None);
    }
    var users1 := users[userId := user'];
    var sender := users1[senderId];
    var j := FindIndex(sender.sentRequests, (r: SentRequest) => r.to == userId && r.status == Pending);
    if j != -1 {
      sender := sender.(sentRequests := sender.sentRequests[j := sender.sentRequests[j].(status := Decision(accept))]);
    }
    if accept {
      sender := sender.(friends := sender.friends + [userId]);
    }
    var notice := if accept then Some(Notice(senderId, FriendRequestAccepted(ProfileOf(user)))) else None;
    st := Step(Ok(()), users1[senderId := sender], nextId, notice);
  }

  /** `sendFriendRequest`: the receiver gets a pending entry with a new id, the sender a
      pending entry pointing at the receiver, and the receiver is told if online. */
  method SendFriendRequest(db: Database, rt: Realtime.Realtime, senderId: UserId, userId: UserId) returns (res: Result<()>)
    requires db.Valid()
    modifies db`users, db`nextId, rt`outbox
    ensures db.Valid()
    ensures var st := SendRequest(old(db.users), old(db.nextId), senderId, userId);
      res == st.result && db.users == st.users && db.nextId == st.nextId &&
      rt.outbox == old(rt.outbox) + Realtime.Notify(rt.userSocketMap, st.notice)
  {
    var st := RunSend(db.users, db.nextId, senderId, userId);
    SendPreservesConsistent(db.users, db.nextId, senderId, userId);
    MessagesOrderedLater(db.messages, db.nextId, st.nextId);
    db.users, db.nextId := st.users, st.nextId;
    rt.Send(st.notice);
    res := st.result;
  }

  /** `acceptFriendRequest`: the receiver's pending entry and the sender's mirror entry
      become accepted, each id is appended to the other's friends, and the sender is told
      if online. */
  method AcceptFriendRequest(db: Database, rt: Realtime.Realtime, userId: UserId, requestId: nat) returns (res: Result<()>)
    requires db.Valid()
    modifies db`users, rt`outbox
    ensures db.Valid()
    ensures var st := Answer(old(db.users), old(db.nextId), userId, requestId, true);
      res == st.result && db.users == st.users &&
      rt.outbox == old(rt.outbox) + Realtime.Notify(rt.userSocketMap, st.notice)
  {
    var st := RunAnswer(db.users, db.nextId, userId, requestId, true);
    AnswerPreservesConsistent(db.users, db.nextId, userId, requestId, true);
    db.users := st.users;
    rt.Send(st.notice);
    res := st.result;
  }

  /** `rejectFriendRequest`: the receiver's pending entry and the sender's mirror entry
      become rejected; friends are untouched and nothing is emitted. */
  method RejectFriendRequest(db: Database, userId: UserId, requestId: nat) returns (res: Result<()>)
    requires db.Valid()
    modifies db`users
    ensures db.Valid()
    ensures var st := Answer(old(db.users), old(db.nextId), userId, requestId, false);
      res == st.result && db.users == st.users && st.notice == None
  {
    var st := RunAnswer(db.users, db.nextId, userId, requestId, false);
    AnswerPreservesConsistent(db.users, db.nextId, userId, requestId, false);
    db.users := st.users;
    res := st.result;
  }
}
