# Chat-app calls, presence and friends in Dafny

This project models the server-side call and friend logic of a chat
application, and two pure pieces of its web client:

- **Call sessions** (`VideoCall`, `CallModel`). The in-memory `activeCalls`
  table of the video-call controller, the persistent `calls` collection it
  mirrors, and the call lifecycle: initiate, status lookup, accept, reject,
  end. The 5-second delayed deletion after a reject or an end is a timer
  that an explicit `Expire` step fires.
- **Presence and signalling** (`Presence`, `CallEvents`). The socket
  server's `userSocketMap`, the online-users broadcast after every connect
  and disconnect, the relay of WebRTC offers, answers and ICE candidates,
  and the call notices sent to the other party. Emits are appended to an
  outbox.
- **Friend graph** (`Friends`). Send, accept, reject and remove friend
  requests, and the available-users exclusion rule. Each rule is a function
  over a `Graph` value. The class `FriendStore` performs the same rules in
  place on its fields. The invariant: lists hold no duplicates, nobody
  lists themselves, friendship is symmetric, and requests name existing
  users.
- **Call history display** (`CallHistory`). `formatCallDuration` with
  JavaScript's number semantics (`Math.floor`, a sign-keeping `%`,
  `padStart`), the status label, the icon, and the choice of the other
  party.
- **User search** (`ConnectPage`). The case-insensitive substring filter
  over name and email, and the active tab's loading flag.

Outside effects become parameters:

- the clock is `now` (milliseconds);
- `uuidv4()` is `freshId`;
- whether a database write succeeds is `writeOk`;
- `setTimeout` is a `Timer` value in a multiset.

Each socket or HTTP handler is one atomic step.

## Model

| member | source | states |
|---|---|---|
| CallModel.StatusName | backend/src/models/call.model.js:20-24 | each status is stored as its own enum string: missed as 'missed' (the default), accepted as 'accepted', rejected as 'rejected', ended as 'ended' |
| CallModel.StatusNameInjective | backend/src/models/call.model.js:20-24 | the four stored status strings are distinct |
| CallModel.NewRecord | backend/src/controllers/videocall.controller.js:43-49 | a new record carries the given ids and start time, with status 'missed', duration 0 and no end time (the schema defaults) |
| CallModel.Create | backend/src/models/call.model.js:5-9 | a create succeeds iff the write succeeds and the callId is not yet stored (unique index); on success exactly that record is added and nothing else changes; on failure nothing changes |
| CallModel.ApplyPatch | backend/src/controllers/videocall.controller.js:163-170 | a patch sets the status and the fields it names, and keeps the ids, the start time and every field it does not name |
| CallModel.UpdateByCallId | backend/src/controllers/videocall.controller.js:109-112 | `findOneAndUpdate({ callId })` patches the record with that callId and no other; an unknown callId is a no-op; records stay keyed by their callId |
| Presence.HasUserId | backend/src/lib/socket.js:29 | `if (userId)`: a missing userId and the empty string are falsy; a truthy userId is its own map key, and not the empty one |
| Presence.KeyOf | backend/src/lib/socket.js:104 | a present userId is its own key; a missing one is the JavaScript key "undefined" |
| Presence.LastOnlineAppend | backend/src/lib/socket.js:31-32 | a presence broadcast replaces what clients believe is online; any other emit leaves that belief unchanged |
| Presence.SocketServer.constructor | backend/src/lib/socket.js:23 | the registry starts empty, with nothing emitted |
| Presence.SocketServer.ReceiverSocketId | backend/src/lib/socket.js:18-20 | `getReceiverSocketId` is a plain lookup: a socket iff the user is registered, and then the registered one |
| Presence.SocketServer.Connect | backend/src/lib/socket.js:28-32 | a non-empty userId is registered to the new socket, replacing any earlier entry; without one the map is unchanged; the key set is broadcast to everyone, so the last broadcast equals the registry |
| Presence.SocketServer.Disconnect | backend/src/lib/socket.js:102-106 | the entry under the connection's userId is deleted unconditionally and other entries stay; the new key set is broadcast |
| Presence.SocketServer.EmitTo | backend/src/lib/socket.js:74 | a targeted emit appends exactly that emit and keeps the presence invariant |
| Presence.SocketServer.Relay | backend/src/lib/socket.js:35-66 | an offer, answer or ICE candidate goes only to the socket registered for `to`, with callId and payload unchanged and `from` set to the sender's handshake userId; it is dropped when `to` is offline |
| Presence.LastConnectWins | backend/src/lib/socket.js:28-29 | after two connections of one user, the registry names the second socket |
| Presence.StaleDisconnectEvicts | backend/src/lib/socket.js:102-105 | a disconnect of an old socket removes a user who has reconnected, both from the registry and from the broadcast list |
| VideoCall.RoundedSeconds | backend/src/controllers/videocall.controller.js:160 | `Math.round(elapsed / 1000)` is the whole number of seconds within half a second of `elapsed`, and is non-negative when `elapsed` is |
| VideoCall.RoundedSecondsUnique | backend/src/controllers/videocall.controller.js:160 | that nearest whole second is unique |
| VideoCall.NewSession | backend/src/controllers/videocall.controller.js:26-37 | the stored session copies the ids and the names and pictures of both users, with status pending, start time now and no end time |
| VideoCall.CallController.constructor | backend/src/controllers/videocall.controller.js:9 | no sessions, no records and no timers at start |
| VideoCall.CallController.InitiateCall | backend/src/controllers/videocall.controller.js:11-73 | an unknown receiver gives 404 with nothing changed. Otherwise the session is stored under the fresh id and the record is created through `Create`; a failed create gives 500 with no notice. `receiverOnline` holds iff the receiver is registered, and only then is `incomingCall` sent, only to that socket |
| VideoCall.CallController.GetCallStatus | backend/src/controllers/videocall.controller.js:75-97 | 404 iff the callId is not in memory; 403 iff the requester is neither caller nor receiver; otherwise the stored session unchanged |
| VideoCall.CallController.HandleCallAccepted | backend/src/controllers/videocall.controller.js:100-118 | an unknown callId gives null and changes nothing; otherwise the session becomes active whatever its prior status, and on a successful write the record becomes 'accepted'; a failed write leaves the session change in place |
| VideoCall.CallController.HandleCallRejected | backend/src/controllers/videocall.controller.js:120-146 | an unknown callId gives null and changes nothing; otherwise the session becomes rejected with end time now, only that record becomes 'rejected' with that end time, and a deletion timer 5000 ms later is added |
| VideoCall.CallController.HandleCallEnded | backend/src/controllers/videocall.controller.js:148-180 | as for reject, with status 'ended', and the duration is the elapsed time rounded to whole seconds, which is non-negative when the end is not before the start |
| VideoCall.CallController.Expire | backend/src/controllers/videocall.controller.js:141-143 | a due timer deletes its session from memory and keeps the history record |
| VideoCall.AcceptAfterReject | backend/src/controllers/videocall.controller.js:100-146 | no state machine is enforced: a rejected call accepted afterwards is active again, keeps its end time and its pending deletion |
| VideoCall.EndThenExpire | backend/src/controllers/videocall.controller.js:148-180 | after an end and the 5000 ms delay the session is gone from memory, and the record stays 'ended' |
| CallEvents.Notify | backend/src/lib/socket.js:72-75 | at most one emit, to the recipient's registered socket, and none iff the recipient is offline |
| CallEvents.OtherParty | backend/src/lib/socket.js:93 | the receiver iff the sender is the caller (for distinct parties), else the caller |
| CallEvents.OtherPartyIsTheOther | backend/src/lib/socket.js:93-97 | whichever party ends the call, the notice goes to the other one |
| CallEvents.AcceptedNotices | backend/src/lib/socket.js:69-77 | `callAccepted` goes to the caller's socket iff the call is known and the caller online |
| CallEvents.RejectedNotices | backend/src/lib/socket.js:79-87 | `callRejected` goes to the caller's socket iff the call is known and the caller online |
| CallEvents.EndedNotices | backend/src/lib/socket.js:89-100 | `callEnded` goes to the other party's socket iff the call is known and that party online |
| CallEvents.NoticesAsWritten | backend/src/lib/socket.js:70-72 | as written, a notice is sent iff some socket is registered under "undefined" |
| CallEvents.MissingAwaitDropsNotices | backend/src/lib/socket.js:69-100 | with both parties online, each awaited handler sends one notice and each handler as written sends none |
| CallEvents.MissingAwaitExample | backend/src/lib/socket.js:69-77 | concrete case: alice on s1 calls bob on s2, bob accepts c1; awaited, alice gets `callAccepted`; as written, nobody does |
| CallEvents.OnCallAccepted | backend/src/lib/socket.js:69-77 | the accept step runs as `HandleCallAccepted` does: the session becomes active, the record becomes 'accepted' when the write succeeds, no timer is added; the outbox gains exactly `AcceptedNotices` |
| CallEvents.OnCallAcceptedAsWritten | backend/src/lib/socket.js:69-77 | the accept step runs as `HandleCallAccepted` does (session, record, timers); the outbox gains exactly `NoticesAsWritten` |
| CallEvents.OnCallRejected | backend/src/lib/socket.js:79-87 | the reject step runs as `HandleCallRejected` does: session rejected with end time now, the record patched when the write succeeds, a deletion timer 5000 ms later for a known call; the outbox gains exactly `RejectedNotices` |
| CallEvents.OnCallRejectedAsWritten | backend/src/lib/socket.js:79-87 | the reject step runs as `HandleCallRejected` does (session, record, timers); the outbox gains exactly `NoticesAsWritten` |
| CallEvents.OnEndCall | backend/src/lib/socket.js:89-100 | the end step runs as `HandleCallEnded` does: session ended with end time now, the record 'ended' with the rounded duration when the write succeeds, a deletion timer 5000 ms later for a known call; the outbox gains exactly `EndedNotices` for the sender |
| CallEvents.OnEndCallAsWritten | backend/src/lib/socket.js:89-100 | the end step runs as `HandleCallEnded` does (session, record with duration, timers); the outbox gains exactly `NoticesAsWritten` |
| Friends.Pull | backend/src/controllers/friend.controller.js:110 | `$pull` keeps exactly the other elements, never lengthens a list, changes nothing when the id is absent, and keeps a list duplicate-free |
| Friends.PullConcat | backend/src/controllers/friend.controller.js:110 | `$pull` works element by element: pulling from two joined lists joins the two pulls, so what remains keeps its order |
| Friends.AddToSet | backend/src/controllers/friend.controller.js:111 | `$addToSet` leaves a list holding the id unchanged, and otherwise appends the id at the end; it keeps a list duplicate-free |
| Friends.ListOf | backend/src/controllers/friend.controller.js:16-17 | a user's list, or empty when the document lacks that field (`|| []`) |
| Friends.PullAt | backend/src/controllers/friend.controller.js:131-133 | `$pull` through `findByIdAndUpdate` changes only that user's list, and nothing for an unknown id |
| Friends.AddAt | backend/src/controllers/friend.controller.js:114-116 | `$addToSet` through `findByIdAndUpdate` changes only that user's list, does nothing for an id with no document, and creates `[x]` for a document without the list |
| Friends.SendRequest | backend/src/controllers/friend.controller.js:61-95 | 400 for oneself, 404 for an unknown target, 400 if already friends, 400 if already requested, 500 when the target's document lacks the list read, each with no change; success iff none of these hold, and then only the target's requests change, with the sender appended once |
| Friends.AcceptRequest | backend/src/controllers/friend.controller.js:98-123 | 500 when the current user has no document or no requests list; 400 when the other user has not asked; success iff the other user has asked, and then the request is removed, each user's friends become their old friends (none when the list is missing) plus the other, an absent other user is skipped, and no third user's list changes; otherwise no change |
| Friends.RejectRequest | backend/src/controllers/friend.controller.js:126-140 | always 200; only the current user's requests change, and they lose exactly the other user |
| Friends.RemoveFriend | backend/src/controllers/friend.controller.js:143-161 | always 200; each user's friends become their old friends minus the other, and no third user's list changes |
| Friends.AvailableUsers | backend/src/controllers/friend.controller.js:4-30 | 404 iff the current user has no document; otherwise exactly the users other than the current user, that user's friends and that user's requesters |
| Friends.SendKeepsValid | backend/src/controllers/friend.controller.js:86-88 | sending keeps the graph invariant |
| Friends.AcceptKeepsValid | backend/src/controllers/friend.controller.js:108-116 | accepting keeps the invariant: friendship stays symmetric, with no duplicates |
| Friends.RejectKeepsValid | backend/src/controllers/friend.controller.js:131-133 | rejecting keeps the invariant |
| Friends.RemoveKeepsValid | backend/src/controllers/friend.controller.js:148-154 | removing keeps the invariant |
| Friends.UnfriendSymmetric | backend/src/controllers/friend.controller.js:148-154 | pulling each of two users from the other's friends keeps friendship symmetric |
| Friends.RejectIdempotent | backend/src/controllers/friend.controller.js:131-133 | rejecting twice equals rejecting once |
| Friends.RemoveIdempotent | backend/src/controllers/friend.controller.js:148-154 | removing twice equals removing once |
| Friends.RemoveSymmetric | backend/src/controllers/friend.controller.js:148-154 | a removes b has the same outcome as b removes a |
| Friends.PullIdempotent | backend/src/controllers/friend.controller.js:132 | `$pull` twice equals `$pull` once |
| Friends.AcceptBefriends | backend/src/controllers/friend.controller.js:103-116 | on a valid graph, accepting a pending request succeeds, makes the two friends on both sides and clears the request |
| Friends.AcceptedNotAvailable | backend/src/controllers/friend.controller.js:14-23 | a requester is never offered as available, before or after being accepted |
| Friends.FriendStore.SendFriendRequest | backend/src/controllers/friend.controller.js:61-95 | the in-place handler yields exactly `SendRequest`'s state and reply, and keeps the invariant |
| Friends.FriendStore.AcceptFriendRequest | backend/src/controllers/friend.controller.js:98-123 | the in-place handler yields exactly `AcceptRequest`'s state and reply, and keeps the invariant |
| Friends.FriendStore.RejectFriendRequest | backend/src/controllers/friend.controller.js:126-140 | the in-place handler yields exactly `RejectRequest`'s state and reply, and keeps the invariant |
| Friends.FriendStore.RemoveFriendOf | backend/src/controllers/friend.controller.js:143-161 | the in-place handler yields exactly `RemoveFriend`'s state and reply, and keeps the invariant |
| CallHistory.NatToString | frontend/src/components/CallHistory.jsx:42 | `toString()` of a natural number reads back as that number and has no leading zero (so it is the unique such text); one digit iff below 10, at most two below 100 |
| CallHistory.IntToString | frontend/src/components/CallHistory.jsx:42 | a non-negative number prints as digits reading back as itself; a negative one as '-' followed by digits reading back as its magnitude |
| CallHistory.PadStart2 | frontend/src/components/CallHistory.jsx:42 | `padStart(2, '0')` leaves a text of two or more characters alone, and puts '0's in front of a shorter one up to length two |
| CallHistory.JsRemainder60 | frontend/src/components/CallHistory.jsx:41 | JavaScript's `% 60`: in [0, 59] for a non-negative dividend, in [-59, 0] for a negative one, with the dividend's sign |
| CallHistory.FormatClock | frontend/src/components/CallHistory.jsx:40-42 | the `MM:SS` text is at least five characters |
| CallHistory.ClockText | frontend/src/components/CallHistory.jsx:42 | two padded fields around a colon are at least five characters |
| CallHistory.FormatCallDuration | frontend/src/components/CallHistory.jsx:37-43 | 'N/A' iff the duration is missing or zero |
| CallHistory.PaddedValue | frontend/src/components/CallHistory.jsx:42 | a padded field reads back as its number, has at least two digits, and exactly two below 100 |
| CallHistory.ClockFields | frontend/src/components/CallHistory.jsx:40-42 | for s ≥ 0 the text is MM ':' SS, where MM has at least two digits reading floor(s/60) and SS has exactly two digits reading s mod 60, in [0, 59] |
| CallHistory.ClockSplit | frontend/src/components/CallHistory.jsx:40-42 | for s ≥ 0 the text is the padded minutes and the padded ordinary remainder around a colon |
| CallHistory.FormatClockRoundTrip | frontend/src/components/CallHistory.jsx:40-42 | round trip: reading MM and SS back gives MM·60 + SS = s |
| CallHistory.PositiveDurationShown | frontend/src/components/CallHistory.jsx:68-71 | a positive duration is shown as `MM:SS`, never 'N/A', and reads back as itself |
| CallHistory.NegativeClock | frontend/src/components/CallHistory.jsx:40-42 | JavaScript's floor and sign-keeping `%` make -5 seconds read "-1:-5" |
| CallHistory.IsOutgoing | frontend/src/components/CallHistory.jsx:116 | outgoing exactly when the signed-in user is the caller, a call to oneself included; a call received from someone else is never outgoing |
| CallHistory.OtherUser | frontend/src/components/CallHistory.jsx:116-117 | the receiver when the signed-in user placed the call, the caller otherwise |
| CallHistory.OtherUserIsCounterpart | frontend/src/components/CallHistory.jsx:116-117 | for a call between two users, the party shown is the one who is not the signed-in user |
| CallHistory.StatusText | frontend/src/components/CallHistory.jsx:59-83 | a duration is shown iff the call was accepted or ended and its duration is positive, and then as `formatCallDuration` renders it |
| CallHistory.RecordStatusLabels | frontend/src/components/CallHistory.jsx:59-82 | every stored status gets a real label; outgoing and incoming labels never coincide; two statuses share a label iff they are equal or both in {accepted, ended} |
| CallHistory.StatusLabelTable | frontend/src/components/CallHistory.jsx:59-82 | missed: 'No answer'/'Missed call'; rejected: 'Call rejected'/'Call declined'; accepted and ended: 'Outgoing call'/'Incoming call'; any other status: 'Unknown status' with no duration |
| CallHistory.CallIcon | frontend/src/components/CallHistory.jsx:45-57 | success icon for accepted and ended, missed icon for missed, warning icon for rejected, and the plain icon iff the status label is 'Unknown status' |
| ConnectPage.LowerChar | frontend/src/pages/ConnectPage.jsx:53 | `toLowerCase` on one character maps A-Z to a-z and leaves every other character alone |
| ConnectPage.Lower | frontend/src/pages/ConnectPage.jsx:53-54 | `toLowerCase` on a text lowers each character and keeps the length |
| ConnectPage.Includes | frontend/src/pages/ConnectPage.jsx:53-54 | `includes` finds the needle only in a text at least as long |
| ConnectPage.IncludesIffOccurs | frontend/src/pages/ConnectPage.jsx:53-54 | `includes` holds iff the needle occurs at some position of the text |
| ConnectPage.Matches | frontend/src/pages/ConnectPage.jsx:52-55 | the empty term matches every user; a term longer than both the name and the email matches nobody |
| ConnectPage.KeepMatching | frontend/src/pages/ConnectPage.jsx:52-55 | every kept user matches, and each user is kept exactly as many times as it occurs in the input when it matches, and not at all otherwise |
| ConnectPage.FilterUsersBySearch | frontend/src/pages/ConnectPage.jsx:49-56 | an empty term returns the list itself; every kept user is from the list and matches; every matching user is kept |
| ConnectPage.KeepMatchingInOrder | frontend/src/pages/ConnectPage.jsx:52-55 | the filter's result is a subsequence of its input |
| ConnectPage.SearchPreservesOrder | frontend/src/pages/ConnectPage.jsx:49-56 | the search result is an order-preserving subsequence of the list |
| ConnectPage.EmptyTermKeepsAll | frontend/src/pages/ConnectPage.jsx:50 | the early return for an empty term agrees with the filter, which would keep every user |
| ConnectPage.KeepMatchingIdempotent | frontend/src/pages/ConnectPage.jsx:52-55 | filtering twice with one term equals filtering once |
| ConnectPage.SearchIdempotent | frontend/src/pages/ConnectPage.jsx:49-56 | searching twice with one term equals searching once |
| ConnectPage.IsLoading | frontend/src/pages/ConnectPage.jsx:27-30 | the page is loading iff the active tab's loading flag is set |

## Left out

- `getCallHistory` (backend/src/controllers/videocall.controller.js:183-204) is a database query with sort, limit and populate, and is not modelled.
- `getFriends` and `getFriendRequests` are populate queries and are not modelled.
- WebRTC, media, ringtone, rendering, authentication, messages and the client stores are not part of this model.
- Concurrency is not modelled. Each socket or HTTP handler runs as one atomic step, so awaits inside one handler never interleave with another handler.
- Each handler reads the clock once (`now`). The source calls `new Date()` separately for the session's end time and for the record's end time, and in `initiateCall` separately for the session's start time (backend/src/controllers/videocall.controller.js:35) and the record's (line 48). The stored duration is computed from the session's start time, so in the source it can differ by a few milliseconds from the record's own end minus start; the model uses one instant for both.
- Database reads never fail in the model. In the source a failing `User.findById` or `User.find` throws and the handler replies 500: backend/src/controllers/videocall.controller.js:17 (caught at 69-71) and backend/src/controllers/friend.controller.js:7, 21, 71 and 103. Only the failure of `Call.create` and of the call-record updates is modelled (`writeOk`).
- The online-users list is a set. The order of `Object.keys` is not modelled.
- The user schema declares no `friends` or `friendRequests` fields, and the friend router is not mounted in the server. The model takes the controller's rules as the semantics.
- Malformed ids, which make Mongoose throw a CastError and reply 500, are not modelled.
- User ids are compared as strings, with no ObjectId casting.
- `formatCallDuration` takes integers only. Fractional and NaN durations are not modelled.
- Case folding is ASCII only. Unicode `toLowerCase` is not modelled.
- The code has no busy check (refusing a call to a user already in a call), and the model follows the code.
- The code does not enforce the pending → active → ended order, and the model follows the code (see `VideoCall.AcceptAfterReject`).
- Friends.AcceptRequest: assumes both database writes succeed. The source makes two separate updates (backend/src/controllers/friend.controller.js:109-116); if the second fails it replies 500 and leaves the friendship one-sided, which the model, and so `Friends.AcceptKeepsValid`, does not cover.
- Friends.RemoveFriend: assumes both database writes succeed. The source makes two separate updates (backend/src/controllers/friend.controller.js:148-154); if the second fails it replies 500 and leaves the friendship one-sided, which the model, and so `Friends.RemoveKeepsValid`, does not cover.
- Friends.SendRequest: assumes the `save()` at backend/src/controllers/friend.controller.js:88 succeeds; a failed save replies 500 with nothing stored.
- Friends.FriendStore.SendFriendRequest: requires the sender to be a user. The route serves only signed-in users, whose document exists.
- Friends.SendKeepsValid: requires the sender to be a user. The route serves only signed-in users, whose document exists.

## Findings

| source | as written | input that shows it | evidently intended | confidence | as-written member | corrected member |
|---|---|---|---|---|---|---|
| backend/src/lib/socket.js:70 | The `callAccepted`, `callRejected` and `endCall` handlers call the async controller functions without `await` (lines 70, 80, 90). `call` is a Promise, so `call.callerId` and `call.receiverId` are undefined, and the socket lookup reads `userSocketMap["undefined"]`. | alice is online on socket s1 and calls bob, who is on s2; bob accepts call c1. | The handler awaits the session. `callAccepted` then reaches alice's socket s1, and likewise `callRejected` reaches the caller and `callEnded` reaches the other party. | high; not executed | CallEvents.MissingAwaitExample | CallEvents.OnCallAccepted |
