/** The call-management handlers of backend/src/lib/socket.js
    (`callAccepted`, `callRejected`, `endCall`): each runs the controller's
    lifecycle step and then notifies the counterpart's socket, if that
    user is online.

    As written, the handlers call the async controller functions without
    `await` (socket.js:70, 80, 90), so `call` is a Promise: always truthy,
    with `call.callerId` and `call.receiverId` undefined, and the socket
    lookup reads `userSocketMap["undefined"]`. The `...AsWritten` members
    model that; the handlers the rest of the model uses await the session,
    which is what the code evidently intends. */
module CallEvents {
  import opened Common
  import opened Presence
  import CallModel
  import VideoCall

  /** `io.to(userSocketMap[recipient]).emit(e)` guarded by the lookup:
      at most one emit, to the recipient's socket, and none when the
      recipient is offline. */
  function Notify(sockets: map<UserId, SocketId>, recipient: string, e: Event): (r: seq<Emit>)
    ensures |r| <= 1
    ensures r == [] <==> recipient !in sockets
    ensures r != [] ==> r[0] == Emit(ToSocket(sockets[recipient]), e)
  {
    if recipient in sockets then [Emit(ToSocket(sockets[recipient]), e)] else []
  }

  /** The party `endCall` notifies: the receiver when the sender is the
      caller, the caller otherwise. */
  function OtherParty(call: VideoCall.Session, sender: Option<string>): (r: UserId)
    ensures r == call.callerId || r == call.receiverId
    ensures call.callerId != call.receiverId ==> (r == call.receiverId <==> sender == Some(call.callerId))
  {
    if sender == Some(call.callerId) then call.receiverId else call.callerId
  }

  /** Between two distinct parties, whichever of them ends the call, the
      notice goes to the other one. */
  lemma OtherPartyIsTheOther(call: VideoCall.Session, sender: Option<string>)
    requires call.callerId != call.receiverId
    requires sender == Some(call.callerId) || sender == Some(call.receiverId)
    ensures Some(OtherParty(call, sender)) != sender
    ensures OtherParty(call, sender) == (if sender == Some(call.callerId) then call.receiverId else call.callerId)
  {
  }

  /** What the awaited `callAccepted` handler emits: `callAccepted` to the
      caller of a known call, if the caller is online. */
  function AcceptedNotices(table: map<CallId, VideoCall.Session>, sockets: map<UserId, SocketId>, callId: CallId): (r: seq<Emit>)
    ensures r != [] <==> callId in table && table[callId].callerId in sockets
    ensures r != [] ==> r == [Emit(ToSocket(sockets[table[callId].callerId]), CallAccepted(callId))]
  {
    if callId in table then Notify(sockets, table[callId].callerId, CallAccepted(callId)) else []
  }

  /** What the awaited `callRejected` handler emits: `callRejected` to the
      caller of a known call, if the caller is online. */
  function RejectedNotices(table: map<CallId, VideoCall.Session>, sockets: map<UserId, SocketId>, callId: CallId): (r: seq<Emit>)
    ensures r != [] <==> callId in table && table[callId].callerId in sockets
    ensures r != [] ==> r == [Emit(ToSocket(sockets[table[callId].callerId]), CallRejected(callId))]
  {
    if callId in table then Notify(sockets, table[callId].callerId, CallRejected(callId)) else []
  }

  /** What the awaited `endCall` handler emits: `callEnded` to the other
      party of a known call, if that party is online. */
  function EndedNotices(table: map<CallId, VideoCall.Session>, sockets: map<UserId, SocketId>,
                        callId: CallId, sender: Option<string>): (r: seq<Emit>)
    ensures r != [] <==> callId in table && OtherParty(table[callId], sender) in sockets
    ensures r != [] ==> r == [Emit(ToSocket(sockets[OtherParty(table[callId], sender)]), CallEnded(callId))]
  {
    if callId in table then Notify(sockets, OtherParty(table[callId], sender), CallEnded(callId)) else []
  }

  /** What each of the three handlers emits as written: the unawaited
      Promise is truthy and its `callerId`/`receiverId` are undefined, so
      the lookup key is "undefined" whatever the call. */
  function NoticesAsWritten(sockets: map<UserId, SocketId>, e: Event): (r: seq<Emit>)
    ensures r != [] <==> "undefined" in sockets
  {
    Notify(sockets, KeyOf(None), e)
  }

  /** The missing `await` loses the notice: for a known call whose caller
      is online (and no user is registered under the id "undefined"), the
      intended handler tells the caller and the handler as written tells
      nobody. The same holds for `callRejected` and for `endCall`. */
  lemma MissingAwaitDropsNotices(table: map<CallId, VideoCall.Session>, sockets: map<UserId, SocketId>,
                                 callId: CallId, sender: Option<string>)
    requires callId in table && table[callId].callerId in sockets && table[callId].receiverId in sockets
    requires "undefined" !in sockets
    ensures |AcceptedNotices(table, sockets, callId)| == 1 && NoticesAsWritten(sockets, CallAccepted(callId)) == []
    ensures |RejectedNotices(table, sockets, callId)| == 1 && NoticesAsWritten(sockets, CallRejected(callId)) == []
    ensures |EndedNotices(table, sockets, callId, sender)| == 1 && NoticesAsWritten(sockets, CallEnded(callId)) == []
  {
  }

  /** A concrete instance: alice (socket "s1") calls bob (socket "s2"); bob
      accepts call "c1"; only the awaited handler reaches alice. */
  lemma MissingAwaitExample()
    ensures
      var alice := VideoCall.Session("c1", "alice", "Alice", "", "bob", "Bob", "", VideoCall.Pending, 0, None);
      var sockets: map<UserId, SocketId> := map["alice" := "s1", "bob" := "s2"];
      AcceptedNotices(map["c1" := alice], sockets, "c1") == [Emit(ToSocket("s1"), CallAccepted("c1"))]
      && NoticesAsWritten(sockets, CallAccepted("c1")) == []
  {
  }

  /** The awaited `callAccepted` handler. */
  method OnCallAccepted(server: SocketServer, calls: VideoCall.CallController, c: Conn, callId: CallId, writeOk: bool)
    requires server.Valid() && calls.Valid()
    modifies server`outbox, calls
    ensures server.Valid() && calls.Valid()
    ensures calls.activeCalls ==
      if callId in old(calls.activeCalls)
      then old(calls.activeCalls)[callId := old(calls.activeCalls)[callId].(status := VideoCall.Active)]
      else old(calls.activeCalls)
    ensures calls.timers == old(calls.timers)
    ensures calls.records ==
      if callId in old(calls.activeCalls) && writeOk
      then CallModel.UpdateByCallId(old(calls.records), callId, CallModel.Patch(CallModel.Accepted, None, None))
      else old(calls.records)
    ensures server.outbox == old(server.outbox) + AcceptedNotices(old(calls.activeCalls), server.userSocketMap, callId)
  {
    var call := calls.HandleCallAccepted(callId, writeOk);
    if call.Some? {
      var callerSocket := server.ReceiverSocketId(call.value.callerId);
      if callerSocket.Some? {
        server.EmitTo(callerSocket.value, CallAccepted(callId));
      }
    }
  }

  /** The `callAccepted` handler as written: the lifecycle step still runs,
      but the notice goes only to a socket registered as "undefined". */
  method OnCallAcceptedAsWritten(server: SocketServer, calls: VideoCall.CallController, c: Conn, callId: CallId, writeOk: bool)
    requires server.Valid() && calls.Valid()
    modifies server`outbox, calls
    ensures server.Valid() && calls.Valid()
    ensures calls.activeCalls ==
      if callId in old(calls.activeCalls)
      then old(calls.activeCalls)[callId := old(calls.activeCalls)[callId].(status := VideoCall.Active)]
      else old(calls.activeCalls)
    ensures calls.timers == old(calls.timers)
    ensures calls.records ==
      if callId in old(calls.activeCalls) && writeOk
      then CallModel.UpdateByCallId(old(calls.records), callId, CallModel.Patch(CallModel.Accepted, None, None))
      else old(calls.records)
    ensures server.outbox == old(server.outbox) + NoticesAsWritten(server.userSocketMap, CallAccepted(callId))
  {
    var pending := calls.HandleCallAccepted(callId, writeOk);
    var callerSocket := server.ReceiverSocketId(KeyOf(None));
    if callerSocket.Some? {
      server.EmitTo(callerSocket.value, CallAccepted(callId));
    }
  }

  /** The awaited `callRejected` handler. */
  method OnCallRejected(server: SocketServer, calls: VideoCall.CallController, c: Conn, callId: CallId,
                        now: Millis, writeOk: bool)
    requires server.Valid() && calls.Valid()
    modifies server`outbox, calls
    ensures server.Valid() && calls.Valid()
    ensures calls.activeCalls ==
      if callId in old(calls.activeCalls)
      then old(calls.activeCalls)[callId := old(calls.activeCalls)[callId].(status := VideoCall.Rejected, endTime := Some(now))]
      else old(calls.activeCalls)
    ensures calls.timers ==
      if callId in old(calls.activeCalls)
      then old(calls.timers) + multiset{VideoCall.Timer(callId, now + VideoCall.GraceDelay)}
      else old(calls.timers)
    ensures calls.records ==
      if callId in old(calls.activeCalls) && writeOk
      then CallModel.UpdateByCallId(old(calls.records), callId, CallModel.Patch(CallModel.Rejected, Some(now), None))
      else old(calls.records)
    ensures server.outbox == old(server.outbox) + RejectedNotices(old(calls.activeCalls), server.userSocketMap, callId)
  {
    var call := calls.HandleCallRejected(callId, now, writeOk);
    if call.Some? {
      var callerSocket := server.ReceiverSocketId(call.value.callerId);
      if callerSocket.Some? {
        server.EmitTo(callerSocket.value, CallRejected(callId));
      }
    }
  }

  /** The `callRejected` handler as written. */
  method OnCallRejectedAsWritten(server: SocketServer, calls: VideoCall.CallController, c: Conn, callId: CallId,
                                 now: Millis, writeOk: bool)
    requires server.Valid() && calls.Valid()
    modifies server`outbox, calls
    ensures server.Valid() && calls.Valid()
    ensures calls.activeCalls ==
      if callId in old(calls.activeCalls)
      then old(calls.activeCalls)[callId := old(calls.activeCalls)[callId].(status := VideoCall.Rejected, endTime := Some(now))]
      else old(calls.activeCalls)
    ensures calls.timers ==
      if callId in old(calls.activeCalls)
      then old(calls.timers) + multiset{VideoCall.Timer(callId, now + VideoCall.GraceDelay)}
      else old(calls.timers)
    ensures calls.records ==
      if callId in old(calls.activeCalls) && writeOk
      then CallModel.UpdateByCallId(old(calls.records), callId, CallModel.Patch(CallModel.Rejected, Some(now), None))
      else old(calls.records)
    ensures server.outbox == old(server.outbox) + NoticesAsWritten(server.userSocketMap, CallRejected(callId))
  {
    var pending := calls.HandleCallRejected(callId, now, writeOk);
    var callerSocket := server.ReceiverSocketId(KeyOf(None));
    if callerSocket.Some? {
      server.EmitTo(callerSocket.value, CallRejected(callId));
    }
  }

  /** The awaited `endCall` handler: notifies the other party, chosen by
      comparing the caller with the sender's handshake userId. */
  method OnEndCall(server: SocketServer, calls: VideoCall.CallController, c: Conn, callId: CallId,
                   now: Millis, writeOk: bool)
    requires server.Valid() && calls.Valid()
    modifies server`outbox, calls
    ensures server.Valid() && calls.Valid()
    ensures calls.activeCalls ==
      if callId in old(calls.activeCalls)
      then old(calls.activeCalls)[callId := old(calls.activeCalls)[callId].(status := VideoCall.Ended, endTime := Some(now))]
      else old(calls.activeCalls)
    ensures calls.timers ==
      if callId in old(calls.activeCalls)
      then old(calls.timers) + multiset{VideoCall.Timer(callId, now + VideoCall.GraceDelay)}
      else old(calls.timers)
    ensures calls.records ==
      if callId in old(calls.activeCalls) && writeOk
      then CallModel.UpdateByCallId(old(calls.records), callId,
             CallModel.Patch(CallModel.Ended, Some(now),
                             Some(VideoCall.RoundedSeconds(now - old(calls.activeCalls)[callId].startTime))))
      else old(calls.records)
    ensures server.outbox == old(server.outbox) + EndedNotices(old(calls.activeCalls), server.userSocketMap, callId, c.userId)
  {
    var call := calls.HandleCallEnded(callId, now, writeOk);
    if call.Some? {
      var otherUserId := if c.userId == Some(call.value.callerId) then call.value.receiverId else call.value.callerId;
      var otherSocket := server.ReceiverSocketId(otherUserId);
      if otherSocket.Some? {
        server.EmitTo(otherSocket.value, CallEnded(callId));
      }
    }
  }

  /** The `endCall` handler as written: `call.callerId === userId` compares
      undefined, and either branch picks an undefined user id. */
  method OnEndCallAsWritten(server: SocketServer, calls: VideoCall.CallController, c: Conn, callId: CallId,
                            now: Millis, writeOk: bool)
    requires server.Valid() && calls.Valid()
    modifies server`outbox, calls
    ensures server.Valid() && calls.Valid()
    ensures calls.activeCalls ==
      if callId in old(calls.activeCalls)
      then old(calls.activeCalls)[callId := old(calls.activeCalls)[callId].(status := VideoCall.Ended, endTime := Some(now))]
      else old(calls.activeCalls)
    ensures calls.timers ==
      if callId in old(calls.activeCalls)
      then old(calls.timers) + multiset{VideoCall.Timer(callId, now + VideoCall.GraceDelay)}
      else old(calls.timers)
    ensures calls.records ==
      if callId in old(calls.activeCalls) && writeOk
      then CallModel.UpdateByCallId(old(calls.records), callId,
             CallModel.Patch(CallModel.Ended, Some(now),
                             Some(VideoCall.RoundedSeconds(now - old(calls.activeCalls)[callId].startTime))))
      else old(calls.records)
    ensures server.outbox == old(server.outbox) + NoticesAsWritten(server.userSocketMap, CallEnded(callId))
  {
    var pending := calls.HandleCallEnded(callId, now, writeOk);
    var otherSocket := server.ReceiverSocketId(KeyOf(None));
    if otherSocket.Some? {
      server.EmitTo(otherSocket.value, CallEnded(callId));
    }
  }
}
