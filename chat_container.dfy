/** The open conversation of client/src/components/ChatContainer.jsx: which pushed
    messages join it, which loaded messages are kept, the send guard, the seen/sent label
    and the online dot. Each rule is tied back to the server's view of the same
    conversation. */
module ChatView {
  import opened Seqs
  import opened Text
  import opened Store
  import TimeFormat
  import MessageController
  import Realtime

  /** `newMessage.senderId === selectedUser?._id || newMessage.receiverId === selectedUser?._id`:
      with nobody selected both sides compare an id with `undefined`. */
  predicate BelongsTo(m: Message, selected: Option<UserId>) {
    selected.Some? && (m.senderId == selected.value || m.receiverId == selected.value)
  }

  /** The list after a pushed `newMessage`. */
  function Pushed(messages: seq<Message>, m: Message, selected: Option<UserId>): (r: seq<Message>)
    ensures BelongsTo(m, selected) ==> r == messages + [m]
    ensures !BelongsTo(m, selected) ==> r == messages
  {
    if BelongsTo(m, selected) then messages + [m] else messages
  }

  /** The `validMessages` filter: a message without `createdAt`, or with one that does
      not parse as a date, is dropped; the others keep their order. */
  function LoadedMessages(messages: seq<Message>): (r: seq<Message>)
    ensures forall m :: m in r <==> m in messages && m.createdAt.At?
    ensures |r| <= |messages|
  {
    Filter(messages, (m: Message) => m.createdAt.At?)
  }

  /** Every message kept by the load shows a time. */
  lemma LoadedShowTimes(messages: seq<Message>)
    ensures forall m :: m in LoadedMessages(messages) ==> TimeFormat.FormatMessageTime(m.createdAt) != ""
  {
  }

  /** Messages the server stamped are all kept. */
  lemma LoadedKeepsStamped(messages: seq<Message>)
    requires forall i :: 0 <= i < |messages| ==> messages[i].createdAt.At?
    ensures LoadedMessages(messages) == messages
  {
    FilterKeepsAll(messages, (m: Message) => m.createdAt.At?);
  }

  /** The filter and the conversation query commute with storing one more message. */
  lemma LoadedAppend(messages: seq<Message>, m: Message)
    requires m.createdAt.At?
    ensures LoadedMessages(messages + [m]) == LoadedMessages(messages) + [m]
  {
    FilterAppend(messages, [m], (x: Message) => x.createdAt.At?);
    FilterSingleton(m, (x: Message) => x.createdAt.At?);
  }

  /** The client's list stays the server's conversation: if the list shows the loaded
      conversation of `me` with `selected`, and the server stores a message `m` for `me`
      and pushes it, the list afterwards shows the loaded conversation of the new store. */
  lemma PushKeepsConversation(stored: seq<Message>, m: Message, me: UserId, selected: UserId)
    requires m.receiverId == me && me != selected && m.createdAt.At?
    ensures Pushed(LoadedMessages(MessageController.Conversation(stored, me, selected)), m, Some(selected)) ==
            LoadedMessages(MessageController.Conversation(stored + [m], me, selected))
  {
    var before := MessageController.Conversation(stored, me, selected);
    MessageController.ConversationAppend(stored, m, me, selected);
    if BelongsTo(m, Some(selected)) {
      assert MessageController.Conversation(stored + [m], me, selected) == before + [m];
      LoadedAppend(before, m);
    } else {
      assert MessageController.Conversation(stored + [m], me, selected) == before + [];
      assert before + [] == before;
    }
  }

  /** The same for a message `me` sent: the server answers it, the list appends it, and
      the list shows the loaded conversation of the new store. */
  lemma SendKeepsConversation(stored: seq<Message>, m: Message, me: UserId, selected: UserId)
    requires m.senderId == me && m.receiverId == selected && m.createdAt.At?
    ensures LoadedMessages(MessageController.Conversation(stored, me, selected)) + [m] ==
            LoadedMessages(MessageController.Conversation(stored + [m], me, selected))
  {
    MessageController.ConversationAppend(stored, m, me, selected);
    LoadedAppend(MessageController.Conversation(stored, me, selected), m);
  }

  /** The label after the time: `isMine ? (msg.seen ? ' • Seen' : ' • Sent') : ''`. */
  function StatusLabel(m: Message, me: UserId): (r: string)
    ensures r == " \U{2022} Seen" <==> m.senderId == me && m.seen
    ensures r == " \U{2022} Sent" <==> m.senderId == me && !m.seen
    ensures r == "" <==> m.senderId != me
  {
    if m.senderId == me then (if m.seen then " \U{2022} Seen" else " \U{2022} Sent") else ""
  }

  /** Once the receiver opens the conversation, the sender's next load labels every
      one of their messages in it as seen. */
  lemma SeenAfterReceiverOpens(stored: seq<Message>, sender: UserId, receiver: UserId)
    requires sender != receiver
    ensures forall m :: (m in MessageController.Conversation(MessageController.MarkSeen(stored, sender, receiver), sender, receiver)
      && m.senderId == sender) ==> StatusLabel(m, sender) == " \U{2022} Seen"
  {
    var marked := MessageController.MarkSeen(stored, sender, receiver);
    forall m | m in MessageController.Conversation(marked, sender, receiver) && m.senderId == sender
      ensures m.seen
    {
      var i :| 0 <= i < |marked| && marked[i] == m;
      assert m.receiverId == receiver;
    }
  }

  /** `onlineUsers.includes(selectedUser?._id)`. */
  predicate IsOnline(onlineUsers: seq<UserId>, selected: Option<UserId>) {
    selected.Some? && selected.value in onlineUsers
  }

  /** After the server's connection or disconnect handler runs, the dot computed from
      the ids of its `getOnlineUsers` broadcast is shown exactly for a user the server now
      holds a socket for. */
  method OnlineAfterBroadcast(rt: Realtime.Realtime, connecting: bool, userId: Option<string>,
                              socketId: SocketId, u: UserId) returns (online: bool)
    requires rt.Valid()
    modifies rt
    ensures rt.Valid()
    ensures online <==> u in rt.userSocketMap
  {
    if connecting {
      rt.Connection(userId, socketId);
    } else {
      rt.Disconnect(userId);
    }
    var broadcast := rt.outbox[|rt.outbox| - 1];
    assert broadcast == ToAll(GetOnlineUsers(rt.keyOrder));
    online := IsOnline(broadcast.event.userIds, Some(u));
  }

  /** The component's state cells, with the signed-in user and the selected friend it
      is given. */
  class ChatState {
    var messages: seq<Message>
    var messageText: string
    const me: UserId
    const selected: Option<UserId>

    constructor (me: UserId, selected: Option<UserId>)
      ensures messages == [] && messageText == "" && this.me == me && this.selected == selected
    {
      this.me, this.selected := me, selected;
      messages, messageText := [], "";
    }

    /** The `newMessage` listener. */
    method OnNewMessage(m: Message)
      modifies this`messages
      ensures messages == Pushed(old(messages), m, selected)
    {
      if selected.Some? && (m.senderId == selected.value || m.receiverId == selected.value) {
        messages := messages + [m];
      }
    }

    /** `getMessages` given the answer of GET /api/messages/:id: a success shows the
        messages with valid dates, a failure answer changes nothing, a thrown request
        empties the list. */
    method OnMessagesReply(reply: Reply<seq<Message>>)
      modifies this`messages
      ensures reply.Threw? ==> messages == []
      ensures reply.Answered? && reply.success ==> messages == LoadedMessages(reply.data)
      ensures reply.Answered? && !reply.success ==> messages == old(messages)
    {
      match reply {
        case Threw =>
          messages := [];
        case Answered(success, data) =>
          if success {
            var valid: seq<Message> := [];
            var i := 0;
            while i < |data|
              invariant 0 <= i <= |data|
              invariant valid == LoadedMessages(data[..i])
            {
              LoadedStep(data, i);
              if data[i].createdAt.At? {
                valid := valid + [data[i]];
              }
              i := i + 1;
            }
            assert data[..|data|] == data;
            messages := valid;
          }
      }
    }

    /** `sendMessage`: a blank input sends nothing (`request` is None) and changes
        nothing; otherwise the text is posted as it is, and the answer, if it is a
        success, is appended and the input cleared. */
    method SendMessage(reply: Reply<Message>) returns (request: Option<string>)
      modifies this`messages, this`messageText
      ensures request == if Blank(old(messageText)) then None else Some(old(messageText))
      ensures request.Some? && reply.Answered? && reply.success ==>
        messages == old(messages) + [reply.data] && messageText == ""
      ensures request.None? || !(reply.Answered? && reply.success) ==>
        messages == old(messages) && messageText == old(messageText)
    {
      if Blank(messageText) {
        return None;
      }
      request := Some(messageText);
      if reply.Answered? && reply.success {
        messages := messages + [reply.data];
        messageText := "";
      }
    }

    /** The input's `onChange`. */
    method SetMessageText(text: string)
      modifies this`messageText
      ensures messageText == text
    {
      messageText := text;
    }
  }

  /** The loop of OnMessagesReply keeps one more element or not. */
  lemma LoadedStep(data: seq<Message>, i: nat)
    requires i < |data|
    ensures LoadedMessages(data[..i + 1]) == LoadedMessages(data[..i]) + (if data[i].createdAt.At? then [data[i]] else [])
  {
    assert data[..i + 1] == data[..i] + [data[i]];
    FilterAppend(data[..i], [data[i]], (x: Message) => x.createdAt.At?);
    FilterSingleton(data[i], (x: Message) => x.createdAt.At?);
  }
}
