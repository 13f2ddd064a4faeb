/** The message handlers of server/controllers/message.controller.js: the sidebar's
    friends with their unseen counts, opening a conversation (which marks the other
    side's messages seen), the no-op "mark as seen" endpoint, and sending a message to a
    friend. */
module MessageController {
  import opened Seqs
  import opened Store
  import Realtime

  /** `{senderId: from, receiverId: to, seen: false}`. */
  predicate Unseen(m: Message, from: UserId, to: UserId) {
    m.senderId == from && m.receiverId == to && !m.seen
  }

  /** The number of messages from `from` to `to` that `to` has not seen. */
  function UnseenCount(messages: seq<Message>, from: UserId, to: UserId): nat {
    |Filter(messages, (m: Message) => Unseen(m, from, to))|
  }

  /** The `$or` of getMessages: sent from a to b or from b to a. */
  predicate Between(m: Message, a: UserId, b: UserId) {
    (m.senderId == a && m.receiverId == b) || (m.senderId == b && m.receiverId == a)
  }

  /** The messages exchanged by `a` and `b`, in the order they are stored. */
  function Conversation(messages: seq<Message>, a: UserId, b: UserId): (r: seq<Message>)
    ensures forall m :: m in r <==> m in messages && Between(m, a, b)
  {
    Filter(messages, (m: Message) => Between(m, a, b))
  }

  /** `Message.updateMany({senderId: from, receiverId: to}, {seen: true})`. */
  function MarkSeen(messages: seq<Message>, from: UserId, to: UserId): (r: seq<Message>)
    ensures |r| == |messages|
    ensures forall i :: 0 <= i < |messages| ==>
      r[i] == messages[i].(seen := r[i].seen) &&
      (r[i].seen <==> messages[i].seen || (messages[i].senderId == from && messages[i].receiverId == to))
  {
    seq(|messages|, i requires 0 <= i < |messages| =>
      if messages[i].senderId == from && messages[i].receiverId == to then messages[i].(seen := true) else messages[i])
  }

  // ---------------------------------------------------------------------------------
  // Properties of the message store

  /** Opening a conversation leaves nothing unseen from the other side. */
  lemma MarkSeenClears(messages: seq<Message>, from: UserId, to: UserId)
    ensures UnseenCount(MarkSeen(messages, from, to), from, to) == 0
  {
    FilterNone(MarkSeen(messages, from, to), (m: Message) => Unseen(m, from, to));
  }

  /** ... and changes no other sender/receiver pair's count. */
  lemma MarkSeenOthers(messages: seq<Message>, from: UserId, to: UserId, a: UserId, b: UserId)
    requires a != from || b != to
    ensures UnseenCount(MarkSeen(messages, from, to), a, b) == UnseenCount(messages, a, b)
  {
    FilterAgree(MarkSeen(messages, from, to), messages, (m: Message) => Unseen(m, a, b));
  }

  /** Marking twice is marking once. */
  lemma MarkSeenIdempotent(messages: seq<Message>, from: UserId, to: UserId)
    ensures MarkSeen(MarkSeen(messages, from, to), from, to) == MarkSeen(messages, from, to)
  {
    var once := MarkSeen(messages, from, to);
    var twice := MarkSeen(once, from, to);
    forall i | 0 <= i < |messages| ensures twice[i] == once[i] { }
  }

  /** Both participants are shown the same conversation. */
  lemma ConversationSymmetric(messages: seq<Message>, a: UserId, b: UserId)
    ensures Conversation(messages, a, b) == Conversation(messages, b, a)
  {
    FilterEquivalent(messages, (m: Message) => Between(m, a, b), (m: Message) => Between(m, b, a));
  }

  /** A stored message joins the end of exactly the conversations it belongs to. */
  lemma ConversationAppend(messages: seq<Message>, m: Message, a: UserId, b: UserId)
    ensures Conversation(messages + [m], a, b) == Conversation(messages, a, b) + (if Between(m, a, b) then [m] else [])
  {
    FilterAppend(messages, [m], (x: Message) => Between(x, a, b));
    FilterSingleton(m, (x: Message) => Between(x, a, b));
  }

  /** A stored message adds one to exactly the count it is unseen for. */
  lemma UnseenAppend(messages: seq<Message>, m: Message, a: UserId, b: UserId)
    ensures UnseenCount(messages + [m], a, b) == UnseenCount(messages, a, b) + (if Unseen(m, a, b) then 1 else 0)
  {
    FilterAppend(messages, [m], (x: Message) => Unseen(x, a, b));
    FilterSingleton(m, (x: Message) => Unseen(x, a, b));
  }

  /** In a store whose ids increase, a conversation comes back oldest first. */
  lemma {:induction false} ConversationChronological(messages: seq<Message>, a: UserId, b: UserId)
    requires IdsIncrease(messages)
    ensures IdsIncrease(Conversation(messages, a, b))
  {
    if messages != [] {
      var rest := messages[1..];
      IncreaseTail(messages);
      ConversationChronological(rest, a, b);
      var tail := Conversation(rest, a, b);
      assert Conversation(messages, a, b) == (if Between(messages[0], a, b) then [messages[0]] else []) + tail;
      if Between(messages[0], a, b) {
        assert forall x :: x in tail ==> x in rest;
        IncreaseCons(messages[0], rest, tail);
      }
    }
  }

  /** The rest of an increasing sequence increases, and lies above its head. */
  lemma IncreaseTail(messages: seq<Message>)
    requires IdsIncrease(messages) && messages != []
    ensures IdsIncrease(messages[1..])
    ensures forall x :: x in messages[1..] ==> messages[0].id < x.id
  {
    var rest := messages[1..];
    forall i, j | 0 <= i < j < |rest| ensures rest[i].id < rest[j].id {
      assert rest[i] == messages[i + 1] && rest[j] == messages[j + 1];
    }
    forall x | x in rest ensures messages[0].id < x.id {
      var k :| 0 <= k < |rest| && rest[k] == x;
      assert x == messages[k + 1];
    }
  }

  /** A head below everything of `rest` keeps an increasing part of `rest` increasing. */
  lemma IncreaseCons(head: Message, rest: seq<Message>, tail: seq<Message>)
    requires forall x :: x in rest ==> head.id < x.id
    requires forall x :: x in tail ==> x in rest
    requires IdsIncrease(tail)
    ensures IdsIncrease([head] + tail)
  {
    var r := [head] + tail;
    forall i, j | 0 <= i < j < |r| ensures r[i].id < r[j].id {
      if i == 0 {
        assert r[j] == tail[j - 1] && r[j] in tail;
      } else {
        assert r[i] == tail[i - 1] && r[j] == tail[j - 1];
      }
    }
  }

  // ---------------------------------------------------------------------------------
  // getUsersForSidebar

  /** The `{users, unseenMessages}` of getUsersForSidebar. */
  datatype SidebarData = SidebarData(users: seq<User>, unseenMessages: map<UserId, nat>)

  /** `getUsersForSidebar`: the caller's friends that still exist, in list order, and for
      each friend with unseen messages to the caller, their number. */
  method GetUsersForSidebar(db: Database, userId: UserId) returns (r: Result<SidebarData>)
    ensures r.Fail? <==> userId !in db.users
    ensures r.Fail? ==> r.error == Internal
    ensures r.Ok? ==> r.value.users == Records(db.users, db.users[userId].friends)
    ensures r.Ok? ==> forall f :: f in r.value.unseenMessages <==>
      (exists j :: 0 <= j < |r.value.users| && r.value.users[j].id == f) && UnseenCount(db.messages, f, userId) > 0
    ensures r.Ok? ==> forall f :: f in r.value.unseenMessages ==>
      r.value.unseenMessages[f] == UnseenCount(db.messages, f, userId)
  {
    if userId !in db.users {
      return Fail(Internal);
    }
    var friends := Records(db.users, db.users[userId].friends);
    var unseen: map<UserId, nat> := map[];
    var i := 0;
    while i < |friends|
      invariant 0 <= i <= |friends|
      invariant forall f :: f in unseen <==>
        (exists j :: 0 <= j < i && friends[j].id == f) && UnseenCount(db.messages, f, userId) > 0
      invariant forall f :: f in unseen ==> unseen[f] == UnseenCount(db.messages, f, userId)
    {
      var n := UnseenCount(db.messages, friends[i].id, userId);
      if n > 0 {
        unseen := unseen[friends[i].id := n];
      }
      i := i + 1;
    }
    r := Ok(SidebarData(friends, unseen));
  }

  /** With records keyed by their ids, the sidebar lists a friend id exactly when it is
      in the caller's friends and names an existing user. */
  lemma SidebarIds(users: map<UserId, User>, ids: seq<UserId>, f: UserId)
    requires KeyedById(users)
    ensures (exists j :: 0 <= j < |Records(users, ids)| && Records(users, ids)[j].id == f) <==> f in ids && f in users
  {
    var r := Records(users, ids);
    if f in ids && f in users {
      assert users[f] in r;
      var j :| 0 <= j < |r| && r[j] == users[f];
    }
  }

  // ---------------------------------------------------------------------------------
  // getMessages and markMessageAsSeen

  /** `getMessages`: the conversation as it was before the call (the query runs before
      the update), and every message the selected user sent the caller becomes seen. */
  method GetMessages(db: Database, myId: UserId, selectedUserId: UserId) returns (messages: seq<Message>)
    requires db.Valid()
    modifies db`messages
    ensures db.Valid()
    ensures messages == Conversation(old(db.messages), myId, selectedUserId)
    ensures db.messages == MarkSeen(old(db.messages), selectedUserId, myId)
  {
    messages := Conversation(db.messages, myId, selectedUserId);
    db.messages := MarkSeen(db.messages, selectedUserId, myId);
  }

  /** `markMessageAsSeen` passes `{seen: true}` as the projection of `findById`, so it
      reads one message and writes nothing: it answers success and changes no state. */
  method MarkMessageAsSeen(db: Database, id: nat) returns (r: Result<()>)
    ensures r == Ok(())
  {
    r := Ok(());
  }

  // ---------------------------------------------------------------------------------
  // sendMessage

  /** What sendMessage leaves behind. */
  datatype Posted = Posted(result: Result<Message>, messages: seq<Message>, nextId: nat, notice: Option<Notice>)

  /** `sendMessage` of `text` and `image` at local time hour:minute. `uploaded` is the
      `secure_url` the image host answers, or None when the upload throws. */
  function PostMessage(users: map<UserId, User>, messages: seq<Message>, nextId: nat,
                       senderId: UserId, receiverId: UserId, text: Option<string>, image: Option<string>,
                       uploaded: Option<string>, hour: Hour, minute: Minute): (p: Posted)
    ensures p.result == Fail(NotFriends) <==> senderId in users && receiverId !in users[senderId].friends
    ensures p.result == Fail(Internal) <==>
      senderId !in users || (receiverId in users[senderId].friends && Realtime.Truthy(image) && uploaded.None?)
    ensures p.result.Fail? ==> p.messages == messages && p.nextId == nextId && p.notice == None
    ensures p.result.Ok? ==>
      var m := p.result.value;
      m.id == nextId && m.senderId == senderId && m.receiverId == receiverId && m.text == text && !m.seen &&
      m.image == (if Realtime.Truthy(image) then uploaded else None) && m.createdAt == At(hour, minute) &&
      p.messages == messages + [m] && p.nextId == nextId + 1 &&
      p.notice == Some(Notice(receiverId, NewMessage(m)))
  {
    if senderId !in users then Posted(Fail(Internal), messages, nextId, None)
    else if receiverId !in users[senderId].friends then Posted(Fail(NotFriends), messages, nextId, None)
    else if Realtime.Truthy(image) && uploaded.None? then Posted(Fail(Internal), messages, nextId, None)
    else
      var imageUrl := if Realtime.Truthy(image) then uploaded else None;
      var m := Message(nextId, senderId, receiverId, text, imageUrl, false, At(hour, minute));
      Posted(Ok(m), messages + [m], nextId + 1, Some(Notice(receiverId, NewMessage(m))))
  }

  /** A sent message appears at the end of the conversation of its two users, and of no
      other, and adds one to the receiver's unseen count from the sender. */
  lemma PostEffects(users: map<UserId, User>, messages: seq<Message>, nextId: nat,
                    senderId: UserId, receiverId: UserId, text: Option<string>, image: Option<string>,
                    uploaded: Option<string>, hour: Hour, minute: Minute, a: UserId, b: UserId)
    requires PostMessage(users, messages, nextId, senderId, receiverId, text, image, uploaded, hour, minute).result.Ok?
    ensures var p := PostMessage(users, messages, nextId, senderId, receiverId, text, image, uploaded, hour, minute);
      Conversation(p.messages, a, b) ==
        Conversation(messages, a, b) +
        (if (a == senderId && b == receiverId) || (a == receiverId && b == senderId) then [p.result.value] else []) &&
      UnseenCount(p.messages, a, b) ==
        UnseenCount(messages, a, b) + (if a == senderId && b == receiverId then 1 else 0)
  {
    var p := PostMessage(users, messages, nextId, senderId, receiverId, text, image, uploaded, hour, minute);
    ConversationAppend(messages, p.result.value, a, b);
    UnseenAppend(messages, p.result.value, a, b);
  }

  /** A post keeps the store's invariants. */
  lemma PostKeepsInvariant(users: map<UserId, User>, messages: seq<Message>, nextId: nat,
                           senderId: UserId, receiverId: UserId, text: Option<string>, image: Option<string>,
                           uploaded: Option<string>, hour: Hour, minute: Minute)
    requires Consistent(users, nextId) && MessagesOrdered(messages, nextId)
    ensures var p := PostMessage(users, messages, nextId, senderId, receiverId, text, image, uploaded, hour, minute);
      Consistent(users, p.nextId) && MessagesOrdered(p.messages, p.nextId)
  {
    var p := PostMessage(users, messages, nextId, senderId, receiverId, text, image, uploaded, hour, minute);
    if p.result.Ok? {
      ConsistentLater(users, nextId, nextId + 1);
      MessagesOrderedAppend(messages, nextId, p.result.value);
    }
  }

  /** The body of `sendMessage` up to the save: the friend gate, the optional upload and
      the new document. */
  method RunPost(users: map<UserId, User>, messages: seq<Message>, nextId: nat,
                 senderId: UserId, receiverId: UserId, text: Option<string>, image: Option<string>,
                 uploaded: Option<string>, hour: Hour, minute: Minute) returns (p: Posted)
    ensures p == PostMessage(users, messages, nextId, senderId, receiverId, text, image, uploaded, hour, minute)
  {
    if senderId !in users {
      return Posted(Fail(Internal), messages, nextId, None);
    }
    if receiverId !in users[senderId].friends {
      return Posted(Fail(NotFriends), messages, nextId, None);
    }
    var imageUrl: Option<string> := None;
    if image.Some? && image.value != "" {
      if uploaded.None? {
        return Posted(Fail(Internal), messages, nextId, None);
      }
      imageUrl := uploaded;
    }
    var m := Message(nextId, senderId, receiverId, text, imageUrl, false, At(hour, minute));
    p := Posted(Ok(m), messages + [m], nextId + 1, Some(Notice(receiverId, NewMessage(m))));
  }

  /** `sendMessage`: only to a friend; the stored message is emitted to the receiver if
      online and returned to the sender. */
  method SendMessage(db: Database, rt: Realtime.Realtime, senderId: UserId, receiverId: UserId,
                     text: Option<string>, image: Option<string>, uploaded: Option<string>,
                     hour: Hour, minute: Minute) returns (res: Result<Message>)
    requires db.Valid()
    modifies db`messages, db`nextId, rt`outbox
    ensures db.Valid()
    ensures var p := PostMessage(old(db.users), old(db.messages), old(db.nextId), senderId, receiverId, text, image, uploaded, hour, minute);
      res == p.result && db.messages == p.messages && db.nextId == p.nextId &&
      rt.outbox == old(rt.outbox) + Realtime.Notify(rt.userSocketMap, p.notice)
  {
    var p := RunPost(db.users, db.messages, db.nextId, senderId, receiverId, text, image, uploaded, hour, minute);
    PostKeepsInvariant(db.users, db.messages, db.nextId, senderId, receiverId, text, image, uploaded, hour, minute);
    db.messages, db.nextId := p.messages, p.nextId;
    rt.Send(p.notice);
    res := p.result;
  }
}
