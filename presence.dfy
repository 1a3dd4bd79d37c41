/** The presence registry and the WebRTC signalling relay of
    backend/src/lib/socket.js: the module-level `userSocketMap`
    ({ userId: socketId }) and the emits every handler makes. Sending is
    modelled as appending to an outbox that the contracts read. */
module Presence {
  import opened Common

  /** The three relayed signalling messages: `offerSignal`, `answerSignal`
      (both carry `signal`) and `iceCandidate` (carries `candidate`). */
  datatype SignalKind = Offer | Answer | IceCandidate

  /** An outbound socket.io event with its payload. `from` is the sender's
      handshake userId, which may be absent. */
  datatype Event =
    | OnlineUsers(userIds: set<UserId>)
    | Signal(kind: SignalKind, callId: CallId, payload: string, from: Option<string>)
    | IncomingCall(callId: CallId, callerId: UserId, callerName: string, callerProfilePic: string)
    | CallAccepted(callId: CallId)
    | CallRejected(callId: CallId)
    | CallEnded(callId: CallId)

  /** `io.emit(...)` goes to every connected client, `io.to(id).emit(...)`
      to one socket. */
  datatype Target = Everyone | ToSocket(socketId: SocketId)

  datatype Emit = Emit(target: Target, event: Event)

  /** One connection: its socket id and the `userId` handshake query
      parameter, which the client may leave out. */
  datatype Conn = Conn(socketId: SocketId, userId: Option<string>)

  /** The JavaScript truthiness test `if (userId)`: present and non-empty.
      A missing query parameter and the empty string are both falsy. */
  predicate HasUserId(c: Conn)
    ensures c.userId.None? || c.userId == Some("") ==> !HasUserId(c)
    ensures HasUserId(c) ==> KeyOf(c.userId) == c.userId.value && KeyOf(c.userId) != ""
  {
    c.userId.Some? && c.userId.value != ""
  }

  /** The property name `userSocketMap[userId]` uses: JavaScript turns an
      `undefined` key into the string "undefined". */
  function KeyOf(userId: Option<string>): (k: string)
    ensures userId.Some? ==> k == userId.value
    ensures userId.None? ==> k == "undefined"
  {
    match userId
    case Some(u) => u
    case None => "undefined"
  }

  /** The online list carried by the most recent broadcast in an outbox,
      or the empty set when nothing has been broadcast yet: what a client
      that has seen every emit believes is online. */
  function LastOnline(outbox: seq<Emit>): (r: set<UserId>)
  {
    if |outbox| == 0 then {}
    else if outbox[|outbox| - 1].event.OnlineUsers? then outbox[|outbox| - 1].event.userIds
    else LastOnline(outbox[..|outbox| - 1])
  }

  /** Emitting anything other than a presence broadcast leaves every
      client's view of who is online as it was. */
  lemma {:induction false} LastOnlineAppend(outbox: seq<Emit>, e: Emit)
    ensures !e.event.OnlineUsers? ==> LastOnline(outbox + [e]) == LastOnline(outbox)
    ensures e.event.OnlineUsers? ==> LastOnline(outbox + [e]) == e.event.userIds
  {
    assert (outbox + [e])[..|outbox|] == outbox;
  }

  class SocketServer {
    /** `userSocketMap`: the socket each online user was last seen on. */
    var userSocketMap: map<UserId, SocketId>
    /** Every emit so far, oldest first. */
    var outbox: seq<Emit>

    /** The latest presence broadcast always lists exactly the users the
        registry holds. */
    ghost predicate Valid()
      reads this
    {
      LastOnline(outbox) == userSocketMap.Keys
    }

    constructor ()
      ensures Valid() && userSocketMap == map[] && outbox == []
    {
      userSocketMap := map[];
      outbox := [];
    }

    /** `getReceiverSocketId(userId)`: a plain lookup. */
    function ReceiverSocketId(userId: UserId): (r: Option<SocketId>)
      reads this
      ensures r.Some? <==> userId in userSocketMap
      ensures r.Some? ==> r.value == userSocketMap[userId]
    {
      if userId in userSocketMap then Some(userSocketMap[userId]) else None
    }

    /** The "connection" handler: registers a non-empty handshake userId
        (a later connection replaces an earlier one) and broadcasts the
        registry's key set to everyone. */
    method Connect(c: Conn)
      requires Valid()
      modifies this
      ensures Valid()
      ensures userSocketMap == if HasUserId(c) then old(userSocketMap)[c.userId.value := c.socketId] else old(userSocketMap)
      ensures outbox == old(outbox) + [Emit(Everyone, OnlineUsers(userSocketMap.Keys))]
    {
      if HasUserId(c) {
        userSocketMap := userSocketMap[c.userId.value := c.socketId];
      }
      LastOnlineAppend(outbox, Emit(Everyone, OnlineUsers(userSocketMap.Keys)));
      outbox := outbox + [Emit(Everyone, OnlineUsers(userSocketMap.Keys))];
    }

    /** The "disconnect" handler: deletes the entry under the connection's
        userId without checking that it still names this socket, so a stale
        disconnect evicts a newer connection of the same user; then
        broadcasts the key set. */
    method Disconnect(c: Conn)
      requires Valid()
      modifies this
      ensures Valid()
      ensures userSocketMap == old(userSocketMap) - {KeyOf(c.userId)}
      ensures outbox == old(outbox) + [Emit(Everyone, OnlineUsers(userSocketMap.Keys))]
    {
      userSocketMap := userSocketMap - {KeyOf(c.userId)};
      LastOnlineAppend(outbox, Emit(Everyone, OnlineUsers(userSocketMap.Keys)));
      outbox := outbox + [Emit(Everyone, OnlineUsers(userSocketMap.Keys))];
    }

    /** `io.to(socketId).emit(event)` for anything but a presence broadcast. */
    method EmitTo(socketId: SocketId, event: Event)
      requires Valid() && !event.OnlineUsers?
      modifies this`outbox
      ensures Valid()
      ensures outbox == old(outbox) + [Emit(ToSocket(socketId), event)]
    {
      LastOnlineAppend(outbox, Emit(ToSocket(socketId), event));
      outbox := outbox + [Emit(ToSocket(socketId), event)];
    }

    /** The `offerSignal`, `answerSignal` and `iceCandidate` handlers:
        forward callId and payload unchanged, with `from` rewritten to the
        sender's handshake userId, to the socket registered for `to`;
        silently drop the message when `to` is offline. */
    method Relay(c: Conn, kind: SignalKind, callId: CallId, payload: string, to: UserId)
      requires Valid()
      modifies this`outbox
      ensures Valid()
      ensures outbox == if to in userSocketMap
                        then old(outbox) + [Emit(ToSocket(userSocketMap[to]), Signal(kind, callId, payload, c.userId))]
                        else old(outbox)
    {
      var receiver := ReceiverSocketId(to);
      if receiver.Some? {
        EmitTo(receiver.value, Signal(kind, callId, payload, c.userId));
      }
    }
  }

  /** Last connect wins: after two connections of one user, the registry
      names the second socket, whatever came before. */
  method LastConnectWins(server: SocketServer, first: Conn, second: Conn)
    requires server.Valid() && HasUserId(first) && second.userId == first.userId
    modifies server
    ensures server.Valid()
    ensures server.userSocketMap.Keys == old(server.userSocketMap.Keys) + {first.userId.value}
    ensures server.userSocketMap[first.userId.value] == second.socketId
  {
    server.Connect(first);
    server.Connect(second);
  }

  /** A stale disconnect: a user reconnects on a new socket, then the old
      socket's disconnect arrives and the user is reported offline although
      the new socket is still open. */
  method StaleDisconnectEvicts(server: SocketServer, old1: Conn, new1: Conn)
    requires server.Valid() && HasUserId(old1) && new1.userId == old1.userId
    modifies server
    ensures server.Valid()
    ensures old1.userId.value !in server.userSocketMap
    ensures old1.userId.value !in LastOnline(server.outbox)
  {
    server.Connect(old1);
    server.Connect(new1);
    server.Disconnect(old1);
  }
}
