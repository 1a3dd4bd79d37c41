/** The call session table and call lifecycle of
    backend/src/controllers/videocall.controller.js: the module-level
    `activeCalls` Map, the persistent `calls` collection it mirrors, and the
    5-second deletion timers that reject and end schedule.

    Substitutes: `new Date()` is the `now` parameter (one clock reading per
    handler), `uuidv4()` is the `freshId` parameter, whether a Mongo write
    succeeds is the `writeOk` parameter, and `setTimeout(..., 5000)` adds a
    timer that the explicit `Expire` step later fires. */
module VideoCall {
  import opened Common
  import CallModel
  import Presence

  /** The in-memory status of a session. */
  datatype SessionStatus = Pending | Active | Rejected | Ended

  /** The display fields read from a user document. */
  datatype Profile = Profile(fullName: string, profilePic: string)

  /** The call object `initiateCall` stores in `activeCalls`. */
  datatype Session = Session(
    id: CallId,
    callerId: UserId,
    callerName: string,
    callerProfilePic: string,
    receiverId: UserId,
    receiverName: string,
    receiverProfilePic: string,
    status: SessionStatus,
    startTime: Millis,
    endTime: Option<Millis>)

  /** A pending `setTimeout(() => activeCalls.delete(callId), 5000)`. */
  datatype Timer = Timer(callId: CallId, due: Millis)

  /** The delay before a rejected or ended session is deleted. */
  const GraceDelay: int := 5000

  /** `initiateCall`'s HTTP reply: 200 with `{ callId, receiverOnline }`,
      404 "Receiver not found", or 500 when the history write throws. */
  datatype InitiateResult = Initiated(callId: CallId, receiverOnline: bool) | ReceiverNotFound | ServerError

  /** `getCallStatus`'s HTTP reply: 200 with the call, 404 or 403. */
  datatype StatusResult = Found(call: Session) | CallNotFound | NotAuthorized

  /** `Math.round(elapsed / 1000)`: whole seconds, halves rounded up. */
  function RoundedSeconds(elapsed: int): (r: int)
    ensures 1000 * r - 500 <= elapsed < 1000 * r + 500
    ensures elapsed >= 0 ==> r >= 0
  {
    (elapsed + 500) / 1000
  }

  /** Rounding to the nearest second has exactly one answer. */
  lemma RoundedSecondsUnique(elapsed: int, r: int)
    requires 1000 * r - 500 <= elapsed < 1000 * r + 500
    ensures r == RoundedSeconds(elapsed)
  {
    var q := RoundedSeconds(elapsed);
    assert 1000 * (r - q) < 1000 && 1000 * (q - r) < 1000;
  }

  /** The pending session `initiateCall` builds. */
  function NewSession(callId: CallId, callerId: UserId, caller: Profile, receiverId: UserId,
                      receiver: Profile, now: Millis): (s: Session)
    ensures s.id == callId && s.callerId == callerId && s.receiverId == receiverId
    ensures s.callerName == caller.fullName && s.callerProfilePic == caller.profilePic
    ensures s.receiverName == receiver.fullName && s.receiverProfilePic == receiver.profilePic
    ensures s.status == Pending && s.startTime == now && s.endTime == None
  {
    Session(callId, callerId, caller.fullName, caller.profilePic,
            receiverId, receiver.fullName, receiver.profilePic, Pending, now, None)
  }

  class CallController {
    /** `activeCalls`: the sessions held in memory, by callId. */
    var activeCalls: map<CallId, Session>
    /** The `calls` collection. */
    var records: CallModel.CallStore
    /** Deletion timers that have not fired yet. */
    var timers: multiset<Timer>

    /** Every session and every record sits under its own callId. */
    ghost predicate Valid()
      reads this
    {
      (forall id :: id in activeCalls ==> activeCalls[id].id == id) && CallModel.Keyed(records)
    }

    constructor ()
      ensures Valid() && activeCalls == map[] && records == map[] && timers == multiset{}
    {
      activeCalls := map[];
      records := map[];
      timers := multiset{};
    }

    /** `initiateCall`: 404 for an unknown receiver with nothing changed.
        Otherwise the pending session is stored under `freshId` before the
        history record is created; if that write throws (a failed write or a
        duplicate callId) the reply is 500, the session stays and nobody is
        notified. Otherwise the receiver, when online, and only the
        receiver, gets `incomingCall`, and the reply says whether that
        happened. */
    method InitiateCall(server: Presence.SocketServer, callerId: UserId, caller: Profile,
                        receiverId: UserId, accounts: map<UserId, Profile>,
                        now: Millis, freshId: CallId, writeOk: bool)
      returns (r: InitiateResult)
      requires Valid() && server.Valid()
      modifies this, server`outbox
      ensures Valid() && server.Valid() && timers == old(timers)
      ensures receiverId !in accounts ==>
        r == ReceiverNotFound && activeCalls == old(activeCalls) && records == old(records)
        && server.outbox == old(server.outbox)
      ensures receiverId in accounts ==>
        activeCalls == old(activeCalls)[freshId := NewSession(freshId, callerId, caller, receiverId, accounts[receiverId], now)]
      ensures receiverId in accounts ==>
        (records, r.Initiated?) == CallModel.Create(old(records), CallModel.NewRecord(freshId, callerId, receiverId, now), writeOk)
      ensures r.ServerError? <==> receiverId in accounts && !(writeOk && freshId !in old(records))
      ensures r.Initiated? ==> r.callId == freshId && (r.receiverOnline <==> receiverId in server.userSocketMap)
      ensures server.outbox ==
        if r.Initiated? && receiverId in server.userSocketMap
        then old(server.outbox) + [Presence.Emit(Presence.ToSocket(server.userSocketMap[receiverId]),
                                                 Presence.IncomingCall(freshId, callerId, caller.fullName, caller.profilePic))]
        else old(server.outbox)
    {
      if receiverId !in accounts {
        return ReceiverNotFound;
      }
      var receiver := accounts[receiverId];
      activeCalls := activeCalls[freshId := NewSession(freshId, callerId, caller, receiverId, receiver, now)];
      var created := CallModel.Create(records, CallModel.NewRecord(freshId, callerId, receiverId, now), writeOk);
      records := created.0;
      if !created.1 {
        return ServerError;
      }
      var receiverSocket := server.ReceiverSocketId(receiverId);
      if receiverSocket.Some? {
        server.EmitTo(receiverSocket.value, Presence.IncomingCall(freshId, callerId, caller.fullName, caller.profilePic));
      }
      r := Initiated(freshId, receiverSocket.Some?);
    }

    /** `getCallStatus`: 404 for a callId not in memory, 403 for a requester
        who is neither the caller nor the receiver, else the stored session
        as it is. */
    function GetCallStatus(callId: CallId, userId: UserId): (r: StatusResult)
      reads this
      ensures r.CallNotFound? <==> callId !in activeCalls
      ensures r.NotAuthorized? <==>
        callId in activeCalls && activeCalls[callId].callerId != userId && activeCalls[callId].receiverId != userId
      ensures r.Found? ==>
        callId in activeCalls && r.call == activeCalls[callId]
        && (r.call.callerId == userId || r.call.receiverId == userId)
    {
      if callId !in activeCalls then CallNotFound
      else
        var call := activeCalls[callId];
        if call.callerId != userId && call.receiverId != userId then NotAuthorized
        else Found(call)
    }

    /** `handleCallAccepted`: null for an unknown callId with nothing
        changed; otherwise the session becomes active whatever its status
        was, and the history record, when the write succeeds, becomes
        'accepted'. The session change happens first and a failed write
        does not undo it. */
    method HandleCallAccepted(callId: CallId, writeOk: bool) returns (r: Option<Session>)
      requires Valid()
      modifies this
      ensures Valid() && timers == old(timers)
      ensures callId !in old(activeCalls) ==>
        r == None && activeCalls == old(activeCalls) && records == old(records)
      ensures callId in old(activeCalls) ==>
        r == Some(old(activeCalls)[callId].(status := Active))
        && activeCalls == old(activeCalls)[callId := r.value]
      ensures records ==
        if callId in old(activeCalls) && writeOk
        then CallModel.UpdateByCallId(old(records), callId, CallModel.Patch(CallModel.Accepted, None, None))
        else old(records)
      ensures r.Some? && writeOk && callId in records ==> records[callId].status == CallModel.Accepted
    {
      if callId !in activeCalls {
        return None;
      }
      var call := activeCalls[callId];
      call := call.(status := Active);
      activeCalls := activeCalls[callId := call];
      if writeOk {
        records := CallModel.UpdateByCallId(records, callId, CallModel.Patch(CallModel.Accepted, None, None));
      }
      r := Some(call);
    }

    /** `handleCallRejected`: null for an unknown callId with nothing
        changed; otherwise the session becomes rejected with `endTime` now,
        the record with that callId (and no other) becomes 'rejected' with
        that end time when the write succeeds, and the session's deletion
        is scheduled 5000 ms later. */
    method HandleCallRejected(callId: CallId, now: Millis, writeOk: bool) returns (r: Option<Session>)
      requires Valid()
      modifies this
      ensures Valid()
      ensures callId !in old(activeCalls) ==>
        r == None && activeCalls == old(activeCalls) && records == old(records) && timers == old(timers)
      ensures callId in old(activeCalls) ==>
        r == Some(old(activeCalls)[callId].(status := Rejected, endTime := Some(now)))
        && activeCalls == old(activeCalls)[callId := r.value]
        && timers == old(timers) + multiset{Timer(callId, now + GraceDelay)}
      ensures records ==
        if callId in old(activeCalls) && writeOk
        then CallModel.UpdateByCallId(old(records), callId, CallModel.Patch(CallModel.Rejected, Some(now), None))
        else old(records)
      ensures r.Some? && writeOk && callId in records ==>
        records[callId].status == CallModel.Rejected && records[callId].endTime == Some(now)
    {
      if callId !in activeCalls {
        return None;
      }
      var call := activeCalls[callId];
      call := call.(status := Rejected, endTime := Some(now));
      activeCalls := activeCalls[callId := call];
      if writeOk {
        records := CallModel.UpdateByCallId(records, callId, CallModel.Patch(CallModel.Rejected, Some(now), None));
      }
      timers := timers + multiset{Timer(callId, now + GraceDelay)};
      r := Some(call);
    }

    /** `handleCallEnded`: null for an unknown callId with nothing changed;
        otherwise the session becomes ended with `endTime` now, the record
        with that callId becomes 'ended' with that end time and the elapsed
        time since the session's start rounded to whole seconds, when the
        write succeeds, and the session's deletion is scheduled 5000 ms
        later. */
    method HandleCallEnded(callId: CallId, now: Millis, writeOk: bool) returns (r: Option<Session>)
      requires Valid()
      modifies this
      ensures Valid()
      ensures callId !in old(activeCalls) ==>
        r == None && activeCalls == old(activeCalls) && records == old(records) && timers == old(timers)
      ensures callId in old(activeCalls) ==>
        r == Some(old(activeCalls)[callId].(status := Ended, endTime := Some(now)))
        && activeCalls == old(activeCalls)[callId := r.value]
        && timers == old(timers) + multiset{Timer(callId, now + GraceDelay)}
      ensures records ==
        if callId in old(activeCalls) && writeOk
        then CallModel.UpdateByCallId(old(records), callId,
               CallModel.Patch(CallModel.Ended, Some(now), Some(RoundedSeconds(now - old(activeCalls)[callId].startTime))))
        else old(records)
      ensures r.Some? && writeOk && callId in records ==>
        records[callId].status == CallModel.Ended && records[callId].endTime == Some(now)
        && (now >= r.value.startTime ==> records[callId].duration >= 0)
    {
      if callId !in activeCalls {
        return None;
      }
      var call := activeCalls[callId];
      call := call.(status := Ended, endTime := Some(now));
      activeCalls := activeCalls[callId := call];
      if writeOk {
        var durationSeconds := RoundedSeconds(now - call.startTime);
        records := CallModel.UpdateByCallId(records, callId,
                     CallModel.Patch(CallModel.Ended, Some(now), Some(durationSeconds)));
      }
      timers := timers + multiset{Timer(callId, now + GraceDelay)};
      r := Some(call);
    }

    /** A deletion timer fires once its delay has passed: the session with
        that callId leaves memory (whatever its status by then); the history
        record stays. */
    method Expire(t: Timer, now: Millis)
      requires Valid() && t in timers && t.due <= now
      modifies this
      ensures Valid()
      ensures activeCalls == old(activeCalls) - {t.callId}
      ensures records == old(records)
      ensures timers == old(timers) - multiset{t}
    {
      activeCalls := activeCalls - {t.callId};
      timers := timers - multiset{t};
    }
  }

  /** The controller does not enforce pending -> active -> ended: a
      rejected call accepted afterwards is active again, keeps its end
      time, and is still deleted when the reject's timer fires. */
  method AcceptAfterReject(calls: CallController, callId: CallId, now: Millis)
    requires calls.Valid() && callId in calls.activeCalls
    modifies calls
    ensures calls.Valid()
    ensures callId in calls.activeCalls && calls.activeCalls[callId].status == Active
    ensures calls.activeCalls[callId].endTime == Some(now)
    ensures Timer(callId, now + GraceDelay) in calls.timers
  {
    var rejected := calls.HandleCallRejected(callId, now, true);
    var accepted := calls.HandleCallAccepted(callId, true);
  }

  /** An ended call leaves memory once its timer fires. */
  method EndThenExpire(calls: CallController, callId: CallId, now: Millis, later: Millis)
    requires calls.Valid() && callId in calls.activeCalls && later >= now + GraceDelay
    modifies calls
    ensures calls.Valid()
    ensures callId !in calls.activeCalls
    ensures callId in old(calls.records) ==> callId in calls.records && calls.records[callId].status == CallModel.Ended
  {
    var ended := calls.HandleCallEnded(callId, now, true);
    calls.Expire(Timer(callId, now + GraceDelay), later);
  }
}
