/** The persistent call-history record (backend/src/models/call.model.js)
    and the two Mongo operations the controller performs on the collection:
    `Call.create` and `Call.findOneAndUpdate({ callId }, patch)`. */
module CallModel {
  import opened Common

  /** The schema's `status` enum; 'missed' is the default. */
  datatype CallStatus = Missed | Accepted | Rejected | Ended

  /** The string Mongo stores for a status: one of the schema's enum
      values, 'missed' for the default. */
  function StatusName(s: CallStatus): (name: string)
    ensures name in {"missed", "accepted", "rejected", "ended"}
    ensures name == "missed" <==> s == Missed
    ensures name == "accepted" <==> s == Accepted
    ensures name == "rejected" <==> s == Rejected
    ensures name == "ended" <==> s == Ended
  {
    match s
    case Missed => "missed"
    case Accepted => "accepted"
    case Rejected => "rejected"
    case Ended => "ended"
  }

  /** Distinct statuses are stored as distinct strings. */
  lemma StatusNameInjective(a: CallStatus, b: CallStatus)
    ensures StatusName(a) == StatusName(b) ==> a == b
  {
  }

  /** One document of the `calls` collection. `duration` is in seconds and
      defaults to 0; `endTime` is absent until a reject or an end sets it. */
  datatype CallRecord = CallRecord(
    callId: CallId,
    callerId: UserId,
    receiverId: UserId,
    status: CallStatus,
    duration: int,
    startTime: Millis,
    endTime: Option<Millis>)

  /** The collection, indexed by its unique `callId`. */
  type CallStore = map<CallId, CallRecord>

  /** Every document sits under its own callId. */
  ghost predicate Keyed(store: CallStore)
  {
    forall id :: id in store ==> store[id].callId == id
  }

  /** The fields a `findOneAndUpdate` sets; an absent field is left alone. */
  datatype Patch = Patch(status: CallStatus, endTime: Option<Millis>, duration: Option<int>)

  /** The document `Call.create` builds from the given fields, with the
      schema defaults applied. */
  function NewRecord(callId: CallId, callerId: UserId, receiverId: UserId, startTime: Millis): (r: CallRecord)
    ensures r.callId == callId && r.callerId == callerId && r.receiverId == receiverId
    ensures r.status == Missed && r.duration == 0 && r.startTime == startTime && r.endTime == None
  {
    CallRecord(callId, callerId, receiverId, Missed, 0, startTime, None)
  }

  /** `Call.create`: refused when the unique `callId` index already holds
      the id, or when the write itself fails (`writeOk` false). */
  function Create(store: CallStore, rec: CallRecord, writeOk: bool): (r: (CallStore, bool))
    ensures r.1 <==> writeOk && rec.callId !in store
    ensures r.1 ==> r.0.Keys == store.Keys + {rec.callId} && r.0[rec.callId] == rec
    ensures r.1 ==> forall id :: id in store ==> r.0[id] == store[id]
    ensures !r.1 ==> r.0 == store
  {
    if writeOk && rec.callId !in store then (store[rec.callId := rec], true) else (store, false)
  }

  /** Applies a patch to one document. */
  function ApplyPatch(rec: CallRecord, p: Patch): (r: CallRecord)
    ensures r.callId == rec.callId && r.callerId == rec.callerId && r.receiverId == rec.receiverId
    ensures r.startTime == rec.startTime && r.status == p.status
    ensures r.endTime == (if p.endTime.Some? then p.endTime else rec.endTime)
    ensures r.duration == (if p.duration.Some? then p.duration.value else rec.duration)
  {
    rec.(status := p.status,
         endTime := if p.endTime.Some? then p.endTime else rec.endTime,
         duration := if p.duration.Some? then p.duration.value else rec.duration)
  }

  /** `Call.findOneAndUpdate({ callId }, patch)`: patches the document with
      that callId and no other; a callId with no document is a silent no-op. */
  function UpdateByCallId(store: CallStore, callId: CallId, p: Patch): (r: CallStore)
    ensures r.Keys == store.Keys
    ensures callId in store ==> r[callId] == ApplyPatch(store[callId], p)
    ensures forall id :: id in store && id != callId ==> r[id] == store[id]
    ensures Keyed(store) ==> Keyed(r)
  {
    if callId in store then store[callId := ApplyPatch(store[callId], p)] else store
  }
}
