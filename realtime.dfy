/** The socket server of server.js: the process-wide `userSocketMap` from user id to
    socket id, the connection and disconnect handlers with their `getOnlineUsers`
    broadcasts, and the "emit to this user if online" lookup the controllers use.
    Emits are appended to an outbox instead of being sent. */
module Realtime {
  import opened Seqs
  import opened Store

  /** `if (userId)`: the handshake's user id is present and not the empty string. */
  predicate Truthy(userId: Option<string>) {
    userId.Some? && userId.value != ""
  }

  /** `Object.keys` after `map[u] = ...`: an existing key keeps its place, a new one goes
      last (the order of keys that are not array indices). */
  function KeysAfterSet(keys: seq<UserId>, u: UserId): (r: seq<UserId>)
    ensures NoDup(keys) ==> NoDup(r)
    ensures forall v :: v in r <==> v in keys || v == u
    ensures u in keys ==> r == keys
  {
    if u in keys then keys
    else
      var r := keys + [u];
      assert forall i :: 0 <= i < |keys| ==> r[i] == keys[i];
      r
  }

  /** `Object.keys` after `delete map[u]`: the other keys in their previous order. */
  function KeysAfterDelete(keys: seq<UserId>, u: UserId): (r: seq<UserId>)
    ensures NoDup(keys) ==> NoDup(r)
    ensures forall v :: v in r <==> v in keys && v != u
  {
    assert NoDup(keys) ==> NoDup(Filter(keys, v => v != u)) by {
      if NoDup(keys) { FilterNoDup(keys, v => v != u); }
    }
    Filter(keys, v => v != u)
  }

  /** `const socketId = userSocketMap[u]; if (socketId) io.to(socketId).emit(e)`. */
  function Deliver(sockets: map<UserId, SocketId>, u: UserId, e: ServerEvent): (r: seq<Emission>)
    ensures |r| <= 1
    ensures r != [] <==> u in sockets && sockets[u] != ""
    ensures r != [] ==> r[0] == ToSocket(sockets[u], e)
  {
    if u in sockets && sockets[u] != "" then [ToSocket(sockets[u], e)] else []
  }

  /** What a handler's optional notice puts into the outbox. */
  function Notify(sockets: map<UserId, SocketId>, notice: Option<Notice>): (r: seq<Emission>)
    ensures notice.None? ==> r == []
    ensures notice.Some? ==> r == Deliver(sockets, notice.value.to, notice.value.event)
  {
    if notice.Some? then Deliver(sockets, notice.value.to, notice.value.event) else []
  }

  class Realtime {
    /** `userSocketMap`. */
    var userSocketMap: map<UserId, SocketId>
    /** The key order `Object.keys(userSocketMap)` reports. */
    var keyOrder: seq<UserId>
    /** Every emit so far, oldest first. */
    var outbox: seq<Emission>

    ghost predicate Valid()
      reads this
    {
      NoDup(keyOrder) && forall u :: u in keyOrder <==> u in userSocketMap
    }

    /** `export const userSocketMap = {}`: nobody is online at start. */
    constructor ()
      ensures Valid()
      ensures userSocketMap == map[] && keyOrder == [] && outbox == []
    {
      userSocketMap := map[];
      keyOrder := [];
      outbox := [];
    }

    /** `io.on("connection")`: record the socket of a truthy user id, replacing any earlier
        one, then broadcast the ids of everybody online. */
    method Connection(userId: Option<string>, socketId: SocketId)
      requires Valid()
      modifies this
      ensures Valid()
      ensures userSocketMap == if Truthy(userId) then old(userSocketMap)[userId.value := socketId] else old(userSocketMap)
      ensures keyOrder == if Truthy(userId) then KeysAfterSet(old(keyOrder), userId.value) else old(keyOrder)
      ensures outbox == old(outbox) + [ToAll(GetOnlineUsers(keyOrder))]
    {
      if userId.Some? && userId.value != "" {
        keyOrder := KeysAfterSet(keyOrder, userId.value);
        userSocketMap := userSocketMap[userId.value := socketId];
      }
      outbox := outbox + [ToAll(GetOnlineUsers(keyOrder))];
    }

    /** `socket.on("disconnect")`: delete the entry of the user id the connection was made
        with, whatever socket it now holds, then broadcast the ids of everybody online. */
    method Disconnect(userId: Option<string>)
      requires Valid()
      modifies this
      ensures Valid()
      ensures userSocketMap == if userId.Some? then old(userSocketMap) - {userId.value} else old(userSocketMap)
      ensures keyOrder == if userId.Some? then KeysAfterDelete(old(keyOrder), userId.value) else old(keyOrder)
      ensures outbox == old(outbox) + [ToAll(GetOnlineUsers(keyOrder))]
    {
      if userId.Some? {
        keyOrder := KeysAfterDelete(keyOrder, userId.value);
        userSocketMap := userSocketMap - {userId.value};
      }
      outbox := outbox + [ToAll(GetOnlineUsers(keyOrder))];
    }

    /** The controllers' `io.to(userSocketMap[u]).emit(...)` when that socket id is truthy. */
    method Send(notice: Option<Notice>)
      modifies this`outbox
      ensures outbox == old(outbox) + Notify(userSocketMap, notice)
    {
      if notice.Some? {
        var u := notice.value.to;
        if u in userSocketMap && userSocketMap[u] != "" {
          outbox := outbox + [ToSocket(userSocketMap[u], notice.value.event)];
        }
      }
    }
  }

  /** A user who connects twice and whose first (superseded) connection then disconnects
      is offline afterwards: the disconnect handler does not compare socket ids. */
  method StaleDisconnect(u: UserId, first: SocketId, second: SocketId) returns (online: bool)
    requires u != ""
    ensures !online
  {
    var rt := new Realtime();
    rt.Connection(Some(u), first);
    rt.Connection(Some(u), second);
    assert rt.userSocketMap == map[u := second];
    rt.Disconnect(Some(u));
    online := u in rt.userSocketMap;
  }

  /** Two connections for one user leave exactly one entry, holding the later socket. */
  method Reconnect(u: UserId, first: SocketId, second: SocketId) returns (sockets: map<UserId, SocketId>, keys: seq<UserId>)
    requires u != ""
    ensures sockets == map[u := second]
    ensures keys == [u]
  {
    var rt := new Realtime();
    rt.Connection(Some(u), first);
    rt.Connection(Some(u), second);
    sockets, keys := rt.userSocketMap, rt.keyOrder;
  }
}
