/** The session state of client/context/AuthContext.jsx: the signed-in user, the online
    list the server broadcasts, the client socket, and the pending friend-request
    counter kept for the header badge. */
module AuthSession {
  import opened Seqs
  import opened Store
  import FriendState

  /** The client socket, opened with the handshake query `userId`; `connected` turns
      true once its handshake with the server completes. */
  datatype ClientSocket = ClientSocket(userId: UserId, connected: bool)

  /** The pending requests of the receiver grow by exactly the one a successful send
      appends, which is what the `friendRequest` listener's `+ 1` mirrors. */
  lemma SendAddsOnePending(users: map<UserId, User>, nextId: nat, senderId: UserId, userId: UserId)
    requires FriendState.SendRequest(users, nextId, senderId, userId).result.Ok?
    ensures var st := FriendState.SendRequest(users, nextId, senderId, userId);
      |FriendState.PendingRequests(st.users[userId].friendRequests)| ==
      |FriendState.PendingRequests(users[userId].friendRequests)| + 1
  {
    var fr := users[userId].friendRequests;
    var x := FriendRequest(nextId, senderId, Pending);
    FriendState.PendingRequestsOrder(fr, [x], x);
  }

  class Session {
    var token: Option<string>
    var authUser: Option<User>
    var onlineUsers: seq<UserId>
    var socket: Option<ClientSocket>
    var friendRequestCount: nat
    /** The number of client sockets created so far. A socket that is replaced as the
        current one is not disconnected. */
    var socketsCreated: nat

    /** The initial state: the token read from local storage, nobody signed in. */
    constructor (storedToken: Option<string>)
      ensures token == storedToken && authUser == None && onlineUsers == [] && socket == None && friendRequestCount == 0
      ensures socketsCreated == 0
    {
      token, authUser, onlineUsers, socket, friendRequestCount := storedToken, None, [], None, 0;
      socketsCreated := 0;
    }

    /** The `friendRequest` listener. */
    method OnFriendRequest()
      modifies this`friendRequestCount
      ensures friendRequestCount == old(friendRequestCount) + 1
    {
      friendRequestCount := friendRequestCount + 1;
    }

    /** `getFriendRequestCount` given the answer of GET /api/friends/requests:
        `data.requests?.length || 0` on success, 0 when the request throws, and no
        change on a failure answer. */
    method OnRequestCountReply(reply: Reply<Option<seq<FriendRequest>>>)
      modifies this`friendRequestCount
      ensures reply.Threw? ==> friendRequestCount == 0
      ensures reply.Answered? && reply.success ==>
        friendRequestCount == if reply.data.Some? then |reply.data.value| else 0
      ensures reply.Answered? && !reply.success ==> friendRequestCount == old(friendRequestCount)
    {
      match reply {
        case Threw =>
          friendRequestCount := 0;
        case Answered(success, data) =>
          if success {
            friendRequestCount := if data.Some? then |data.value| else 0;
          }
      }
    }

    /** The `getOnlineUsers` listener: the list is replaced by the broadcast. */
    method OnGetOnlineUsers(userIds: seq<UserId>)
      modifies this`onlineUsers
      ensures onlineUsers == userIds
    {
      onlineUsers := userIds;
    }

    /** `logout`: no token, nobody signed in, nobody online, no requests counted, and no
        socket (an open one is disconnected and dropped). */
    method Logout()
      modifies this
      ensures token == None && authUser == None && onlineUsers == [] && friendRequestCount == 0 && socket == None
      ensures socketsCreated == old(socketsCreated)
    {
      token, authUser, onlineUsers, friendRequestCount := None, None, [], 0;
      if socket.Some? {
        socket := None;
      }
    }

    /** `connectSocket(userData)`: nothing happens without user data or while the
        current socket is connected; otherwise a new socket for the user is created and
        becomes the current one. `io(...)` returns it before its handshake, so it is not
        yet connected. */
    method ConnectSocket(userData: Option<User>) returns (started: bool)
      modifies this`socket, this`socketsCreated
      ensures started <==> userData.Some? && !(old(socket).Some? && old(socket).value.connected)
      ensures started ==> socket == Some(ClientSocket(userData.value.id, false)) && socketsCreated == old(socketsCreated) + 1
      ensures !started ==> socket == old(socket) && socketsCreated == old(socketsCreated)
    {
      if userData.None? || (socket.Some? && socket.value.connected) {
        return false;
      }
      socket := Some(ClientSocket(userData.value.id, false));
      socketsCreated := socketsCreated + 1;
      started := true;
    }

    /** The handshake of the current socket completes: socket.io sets its `connected`. */
    method OnConnect()
      modifies this`socket
      ensures socket == if old(socket).Some? then Some(old(socket).value.(connected := true)) else None
    {
      if socket.Some? {
        socket := Some(socket.value.(connected := true));
      }
    }
  }

  /** Signing in twice opens one socket when the first handshake has completed in
      between: the second `connectSocket` finds the first connected and keeps it. */
  method ConnectTwice(s: Session, first: User, second: User)
    requires s.socket == None
    modifies s
    ensures s.socket == Some(ClientSocket(first.id, true))
    ensures s.socketsCreated == old(s.socketsCreated) + 1
  {
    var a := s.ConnectSocket(Some(first));
    s.OnConnect();
    var b := s.ConnectSocket(Some(second));
    assert a && !b;
  }

  /** Without the handshake in between, the guard sees a socket that is not yet
      connected, and the second sign-in creates a second socket: the first one stays
      open but is no longer the current one. */
  method ConnectBeforeHandshake(s: Session, first: User, second: User)
    requires s.socket == None
    modifies s
    ensures s.socket == Some(ClientSocket(second.id, false))
    ensures s.socketsCreated == old(s.socketsCreated) + 2
  {
    var a := s.ConnectSocket(Some(first));
    var b := s.ConnectSocket(Some(second));
    assert a && b;
  }

  /** After a logout the next sign-in opens a fresh socket for the new user. */
  method LogoutThenConnect(s: Session, next: User)
    modifies s
    ensures s.socket == Some(ClientSocket(next.id, false)) && s.friendRequestCount == 0
  {
    s.Logout();
    var started := s.ConnectSocket(Some(next));
    assert started;
  }

  /** A fetch of the server's pending list sets the counter to its length; each later
      successful send to this user and its `friendRequest` event add one on both sides,
      so the counter keeps matching the server. */
  method CountFollowsServer(s: Session, users: map<UserId, User>, nextId: nat, me: UserId, senderId: UserId)
    requires me in users
    requires FriendState.SendRequest(users, nextId, senderId, me).result.Ok?
    modifies s
    ensures var st := FriendState.SendRequest(users, nextId, senderId, me);
      s.friendRequestCount == |FriendState.PendingRequests(st.users[me].friendRequests)|
  {
    var fetched := FriendState.GetFriendRequests(users, me);
    s.OnRequestCountReply(Answered(true, Some(fetched.value)));
    SendAddsOnePending(users, nextId, senderId, me);
    s.OnFriendRequest();
  }
}
