/** The call-history display logic of frontend/src/components/CallHistory.jsx:
    `formatCallDuration`, the status label of `getCallStatusText`, the icon
    of `getCallIcon`, and the `isOutgoing`/`otherUser` choice per entry.
    Numbers are JavaScript integers: `Math.floor(s / 60)` floors,
    `s % 60` keeps the sign of `s`, and `toString().padStart(2, '0')`
    left-pads with zeros to two characters. */
module CallHistory {
  import opened Common
  import CallModel

  predicate IsDigit(c: char)
  {
    '0' <= c <= '9'
  }

  /** The number a string of decimal digits denotes, or None when some
      character is not a digit. The empty string reads as 0. */
  function ReadDigits(s: string): Option<nat>
  {
    if s == [] then Some(0)
    else
      var last := s[|s| - 1];
      match ReadDigits(s[..|s| - 1])
      case None => None
      case Some(v) => if IsDigit(last) then Some(v * 10 + (last as int - '0' as int)) else None
  }

  function DigitChar(d: int): (c: char)
    requires 0 <= d < 10
    ensures IsDigit(c) && c as int - '0' as int == d
  {
    (d + '0' as int) as char
  }

  /** `n.toString()` for a non-negative integer: its decimal digits, with
      no leading zero. */
  function NatToString(n: nat): (s: string)
    ensures ReadDigits(s) == Some(n)
    ensures n > 0 ==> s[0] != '0'
    ensures 1 <= |s| && (n < 10 <==> |s| == 1) && (n < 100 ==> |s| <= 2)
  {
    if n < 10 then [DigitChar(n)]
    else
      var front := NatToString(n / 10);
      var s := front + [DigitChar(n % 10)];
      assert s[..|s| - 1] == front;
      s
  }

  /** `n.toString()` for any integer: the digits of its magnitude, after a
      minus sign when it is negative. */
  function IntToString(n: int): (s: string)
    ensures n >= 0 ==> ReadDigits(s) == Some(n)
    ensures n < 0 ==> |s| >= 2 && s[0] == '-' && ReadDigits(s[1..]) == Some(-n)
  {
    if n >= 0 then NatToString(n)
    else
      var digits := NatToString(-n);
      assert ("-" + digits)[1..] == digits;
      "-" + digits
  }

  /** `s.padStart(2, '0')`: a text of two or more characters is left
      alone; a shorter one gets '0's in front up to length two. */
  function PadStart2(s: string): (r: string)
    ensures |r| == if |s| >= 2 then |s| else 2
    ensures |s| >= 2 ==> r == s
    ensures |s| < 2 ==> r[2 - |s|..] == s && forall i :: 0 <= i < 2 - |s| ==> r[i] == '0'
  {
    if |s| >= 2 then s else if |s| == 1 then "0" + s else "00"
  }

  /** JavaScript's `a % 60`: the remainder of the division truncated
      toward zero, so it has the sign of `a`. */
  function JsRemainder60(a: int): (r: int)
    ensures a >= 0 ==> 0 <= r < 60 && a - r == 60 * (a / 60)
    ensures a < 0 ==> -60 < r <= 0 && a - r == -60 * ((-a) / 60)
  {
    if a >= 0 then a % 60 else -((-a) % 60)
  }

  /** The `MM:SS` formatter shared by CallHistory.jsx, VideoCall.jsx and
      ChatHeader.jsx. */
  function FormatClock(seconds: int): (r: string)
    ensures |r| >= 5
  {
    ClockText(seconds / 60, JsRemainder60(seconds))
  }

  /** `${mins.toString().padStart(2, '0')}:${secs.toString().padStart(2, '0')}` */
  function ClockText(mins: int, secs: int): (r: string)
    ensures |r| >= 5
  {
    PadStart2(IntToString(mins)) + ":" + PadStart2(IntToString(secs))
  }

  /** `formatCallDuration`: 'N/A' for a missing or zero duration, `MM:SS`
      otherwise. */
  function FormatCallDuration(seconds: Option<int>): (r: string)
    ensures r == "N/A" <==> seconds.None? || seconds.value == 0
  {
    if seconds.None? || seconds.value == 0 then "N/A"
    else
      FormatClock(seconds.value)
  }

  /** Left zeros do not change a decimal number. */
  lemma {:induction false} LeadingZeros(z: string, s: string)
    requires forall i :: 0 <= i < |z| ==> z[i] == '0'
    requires ReadDigits(s).Some?
    ensures ReadDigits(z + s) == ReadDigits(s)
  {
    if s == [] {
      assert z + s == z;
      AllZeros(z);
    } else {
      var t := s[..|s| - 1];
      assert (z + s)[..|z + s| - 1] == z + t;
      LeadingZeros(z, t);
    }
  }

  lemma {:induction false} AllZeros(z: string)
    requires forall i :: 0 <= i < |z| ==> z[i] == '0'
    ensures ReadDigits(z) == Some(0)
  {
    if z != [] {
      AllZeros(z[..|z| - 1]);
    }
  }

  /** A padded field reads back as the number it was made from. */
  lemma PaddedValue(n: nat)
    ensures ReadDigits(PadStart2(NatToString(n))) == Some(n)
    ensures |PadStart2(NatToString(n))| >= 2
    ensures n < 100 ==> |PadStart2(NatToString(n))| == 2
  {
    var s := NatToString(n);
    if |s| == 1 {
      LeadingZeros("0", s);
    }
  }

  /** For a non-negative duration the text is `MM:SS`: MM is at least two
      digits and reads as the whole minutes, SS is exactly two digits and
      reads as the remaining seconds, between 0 and 59. */
  lemma ClockFields(seconds: nat)
    ensures exists mm, ss ::
      && FormatClock(seconds) == mm + ":" + ss
      && |mm| >= 2 && ReadDigits(mm) == Some(seconds / 60)
      && |ss| == 2 && ReadDigits(ss) == Some(seconds % 60) && seconds % 60 <= 59
  {
    ClockSplit(seconds);
    PaddedValue(seconds / 60);
    PaddedValue(seconds % 60);
  }

  /** For a non-negative duration the JavaScript remainder is the ordinary
      one, so the text is the two padded fields around a colon. */
  lemma ClockSplit(seconds: nat)
    ensures FormatClock(seconds)
      == PadStart2(NatToString(seconds / 60)) + ":" + PadStart2(NatToString(seconds % 60))
  {
    assert JsRemainder60(seconds) == seconds % 60;
  }

  /** The index of the first ':' in `s`, or |s| when there is none. */
  function ColonIndex(s: string): (k: nat)
    ensures k <= |s|
  {
    if s == [] || s[0] == ':' then 0 else 1 + ColonIndex(s[1..])
  }

  /** The first colon after a run of digits is the one that ends it. */
  lemma {:induction false} ColonAfterDigits(d: string, rest: string)
    requires forall i :: 0 <= i < |d| ==> IsDigit(d[i])
    ensures ColonIndex(d + ":" + rest) == |d|
  {
    if d != [] {
      assert (d + ":" + rest)[1..] == d[1..] + ":" + rest;
      ColonAfterDigits(d[1..], rest);
    } else {
      assert d + ":" + rest == ":" + rest;
    }
  }

  /** Reads a `MM:SS` text back into seconds: digits, a colon, then two
      digits. */
  function ParseClock(s: string): Option<int>
  {
    var k := ColonIndex(s);
    if k == 0 || k == |s| then None
    else if |s| - (k + 1) != 2 then None
    else match (ReadDigits(s[..k]), ReadDigits(s[k + 1..]))
      case (Some(mins), Some(secs)) => Some(mins * 60 + secs)
      case _ => None
  }

  /** A string that reads as a number holds digits only. */
  lemma {:induction false} ReadDigitsOnlyDigits(s: string)
    requires ReadDigits(s).Some?
    ensures forall i :: 0 <= i < |s| ==> IsDigit(s[i])
  {
    if s != [] {
      ReadDigitsOnlyDigits(s[..|s| - 1]);
    }
  }

  /** Digits, a colon and two digits parse to minutes * 60 + seconds. */
  lemma ParseJoin(mm: string, ss: string, mins: nat, secs: nat, total: nat)
    requires |mm| >= 1 && ReadDigits(mm) == Some(mins) && |ss| == 2 && ReadDigits(ss) == Some(secs)
    requires total == mins * 60 + secs
    ensures ParseClock(mm + ":" + ss) == Some(total)
  {
    var r := mm + ":" + ss;
    ReadDigitsOnlyDigits(mm);
    ColonAfterDigits(mm, ss);
    assert r[..|mm|] == mm;
    assert r[|mm| + 1..] == ss;
  }

  /** Round trip: reading a formatted duration back gives MM * 60 + SS,
      the original number of seconds. */
  lemma FormatClockRoundTrip(seconds: nat)
    ensures ParseClock(FormatClock(seconds)) == Some(seconds)
  {
    FieldsRoundTrip(seconds);
    ClockSplit(seconds);
  }

  /** The padded whole minutes and remaining seconds around a colon read
      back as the number of seconds they were made from. */
  lemma FieldsRoundTrip(seconds: nat)
    ensures ParseClock(PadStart2(NatToString(seconds / 60)) + ":" + PadStart2(NatToString(seconds % 60)))
      == Some(seconds)
  {
    var mins, secs := seconds / 60, seconds % 60;
    PaddedValue(mins);
    PaddedValue(secs);
    ParseJoin(PadStart2(NatToString(mins)), PadStart2(NatToString(secs)), mins, secs, seconds);
  }

  /** A positive duration is shown as `MM:SS` and never as 'N/A'. */
  lemma PositiveDurationShown(seconds: int)
    requires seconds > 0
    ensures FormatCallDuration(Some(seconds)) == FormatClock(seconds)
    ensures ParseClock(FormatCallDuration(Some(seconds))) == Some(seconds)
  {
    FormatClockRoundTrip(seconds);
  }

  /** One entry of the history list, with `callerId` and `receiverId`
      populated to user ids. */
  datatype HistoryEntry = HistoryEntry(callerId: UserId, receiverId: UserId, status: string, duration: int)

  /** `isOutgoing`: the signed-in user placed the call, a call to oneself
      included. A call the user received from someone else is never
      outgoing. */
  predicate IsOutgoing(e: HistoryEntry, me: UserId)
    ensures IsOutgoing(e, me) ==> me == e.callerId
    ensures me == e.callerId ==> IsOutgoing(e, me)
    ensures me == e.receiverId && e.callerId != e.receiverId ==> !IsOutgoing(e, me)
  {
    e.callerId == me
  }

  /** `otherUser`: the receiver of an outgoing call, the caller otherwise. */
  function OtherUser(e: HistoryEntry, me: UserId): (u: UserId)
    ensures u == e.callerId || u == e.receiverId
    ensures IsOutgoing(e, me) ==> u == e.receiverId
    ensures !IsOutgoing(e, me) ==> u == e.callerId
  {
    if IsOutgoing(e, me) then e.receiverId else e.callerId
  }

  /** For a call between two different users listed in the history of one
      of them, the other party shown is the other user. */
  lemma OtherUserIsCounterpart(e: HistoryEntry, me: UserId)
    requires e.callerId != e.receiverId && (me == e.callerId || me == e.receiverId)
    ensures OtherUser(e, me) != me
    ensures {OtherUser(e, me), me} == {e.callerId, e.receiverId}
  {
  }

  /** What `getCallStatusText` renders: a label, and for an accepted or
      ended call with a positive duration, the formatted duration. */
  datatype StatusView = StatusView(caption: string, duration: Option<string>)

  function StatusText(status: string, isOutgoing: bool, duration: int): (v: StatusView)
    ensures v.duration.Some? <==> (status == "accepted" || status == "ended") && duration > 0
    ensures v.duration.Some? ==> v.duration.value == FormatCallDuration(Some(duration))
  {
    if status == "accepted" || status == "ended" then
      StatusView(if isOutgoing then "Outgoing call" else "Incoming call",
                 if duration > 0 then Some(FormatCallDuration(Some(duration))) else None)
    else if status == "missed" then
      StatusView(if isOutgoing then "No answer" else "Missed call", None)
    else if status == "rejected" then
      StatusView(if isOutgoing then "Call rejected" else "Call declined", None)
    else
      StatusView("Unknown status", None)
  }

  /** Every status the schema allows gets a real label, and the label tells
      an outgoing call from an incoming one. */
  lemma RecordStatusLabels(s: CallModel.CallStatus, t: CallModel.CallStatus, outgoing: bool, d: int, d': int)
    ensures StatusText(CallModel.StatusName(s), outgoing, d).caption != "Unknown status"
    ensures StatusText(CallModel.StatusName(s), true, d).caption != StatusText(CallModel.StatusName(t), false, d').caption
    ensures StatusText(CallModel.StatusName(s), outgoing, d).caption == StatusText(CallModel.StatusName(t), outgoing, d').caption
            <==> s == t || (s in {CallModel.Accepted, CallModel.Ended} && t in {CallModel.Accepted, CallModel.Ended})
  {
  }

  /** The labels, status by status, as the component spells them; any
      other status gets 'Unknown status' and no duration. */
  lemma StatusLabelTable(status: string, outgoing: bool, d: int)
    ensures StatusText("missed", outgoing, d).caption == (if outgoing then "No answer" else "Missed call")
    ensures StatusText("rejected", outgoing, d).caption == (if outgoing then "Call rejected" else "Call declined")
    ensures StatusText("accepted", outgoing, d).caption == (if outgoing then "Outgoing call" else "Incoming call")
    ensures StatusText("ended", outgoing, d).caption == (if outgoing then "Outgoing call" else "Incoming call")
    ensures status !in {"missed", "rejected", "accepted", "ended"} ==>
      StatusText(status, outgoing, d) == StatusView("Unknown status", None)
  {
  }

  /** `getCallIcon`: the icon (and its colour class) per status. */
  datatype Icon = PhoneCallSuccess | PhoneMissedError | PhoneOffWarning | PhoneCallPlain

  function CallIcon(status: string): (i: Icon)
    ensures i == PhoneCallPlain <==> StatusText(status, true, 0).caption == "Unknown status"
    ensures status == "missed" ==> i == PhoneMissedError
    ensures status == "rejected" ==> i == PhoneOffWarning
    ensures status == "accepted" || status == "ended" ==> i == PhoneCallSuccess
  {
    if status == "accepted" || status == "ended" then PhoneCallSuccess
    else if status == "missed" then PhoneMissedError
    else if status == "rejected" then PhoneOffWarning
    else PhoneCallPlain
  }

  /** JavaScript formatting of a negative count: `Math.floor` rounds the
      minutes down and `%` keeps the sign, so -5 seconds shows as "-1:-5". */
  lemma NegativeClock()
    ensures FormatClock(-5) == "-1:-5"
  {
    assert -5 / 60 == -1 && JsRemainder60(-5) == -5;
    assert NatToString(1) == "1" && NatToString(5) == "5";
    assert IntToString(-1) == "-1" && IntToString(-5) == "-5";
    assert PadStart2("-1") == "-1" && PadStart2("-5") == "-5";
  }
}
