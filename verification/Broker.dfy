/**
 The activity broker: one Eligible frame and a quiet interval arm it, anything else stops it for good.

 A turn is what one round of polling showed. Times are milliseconds of a clock that only the turns
 supply. The records sent to the provider are fixed frames of 24 bytes.
 */
module Broker {
  import opened Prelude
  import opened Bytes

  const ARM_QUIET_INTERVAL: nat := 250
  const RESPONSE_BYTES: nat := 24
  const REVISION: nat := 1
  const MAGIC: seq<Byte> := [0x41, 0x53, 0x41, 0x42]
  const ELIGIBILITY_MAGIC: seq<Byte> := [0x41, 0x53, 0x45, 0x4C]

  datatype Eligibility = Eligible | Ineligible

  datatype State = Arming | Ready | Stopped | Unavailable

  datatype Reason = NoReason | Activity | EventLoss | EvidenceLost | Internal | EligibilityChanged

  datatype Status = Status(instance: nat, epoch: nat, state: State, reason: Reason)

  datatype Update = Update(state: State, reason: Reason)

  datatype ProtocolError = Incompatible | Malformed

  datatype Result<T> = Ok(value: T) | Err(error: ProtocolError)

  // ----- frames -----

  function StateCode(s: State): Byte {
    match s case Arming => 4 case Ready => 1 case Stopped => 2 case Unavailable => 3
  }

  function StateOf(code: Byte): Option<State> {
    match code case 4 => Some(Arming) case 1 => Some(Ready) case 2 => Some(Stopped) case 3 => Some(Unavailable)
               case _ => None
  }

  function ReasonCode(r: Reason): Byte {
    match r
    case NoReason => 0 case Activity => 1 case EventLoss => 2
    case EvidenceLost => 3 case Internal => 4 case EligibilityChanged => 5
  }

  function ReasonOf(code: Byte): Option<Reason> {
    match code
    case 0 => Some(NoReason) case 1 => Some(Activity) case 2 => Some(EventLoss)
    case 3 => Some(EvidenceLost) case 4 => Some(Internal) case 5 => Some(EligibilityChanged)
    case _ => None
  }

  /** The pairs of state and reason that a response may carry. */
  predicate Consistent(state: State, reason: Reason) {
    match state
    case Arming => reason == NoReason
    case Ready => reason == NoReason
    case Stopped => reason == Activity || reason == EligibilityChanged
    case Unavailable => reason == EventLoss || reason == EvidenceLost || reason == Internal
  }

  predicate StatusOk(s: Status) {
    Consistent(s.state, s.reason) && 0 < s.instance <= U64_MAX && 0 < s.epoch <= U64_MAX
  }

  function Header(state: State, reason: Reason): (b: seq<Byte>)
    ensures |b| == 8
  {
    MAGIC + BigEndian(REVISION, 2) + [StateCode(state), ReasonCode(reason)]
  }

  function Encode(s: Status): (b: seq<Byte>)
    ensures |b| == RESPONSE_BYTES
  {
    Header(s.state, s.reason) + BigEndian(s.instance, 8) + BigEndian(s.epoch, 8)
  }

  function Decode(b: seq<Byte>): (r: Result<Status>)
    requires |b| == RESPONSE_BYTES
  {
    if b[..4] != MAGIC || FromBigEndian(b[4..6]) != REVISION then Err(Incompatible)
    else
      var state, reason := StateOf(b[6]), ReasonOf(b[7]);
      var instance, epoch := FromBigEndian(b[8..16]), FromBigEndian(b[16..24]);
      if state.None? || reason.None? || !Consistent(state.value, reason.value) then Err(Malformed)
      else if instance == 0 || epoch == 0 then Err(Malformed)
      else Ok(Status(instance, epoch, state.value, reason.value))
  }

  lemma WordRoundTrip(n: nat)
    requires n <= U64_MAX
    ensures FromBigEndian(BigEndian(n, 8)) == n
  {
    assert Power256(4) == U32_MAX + 1;
    assert Power256(8) == U64_MAX + 1;
    BigEndianRoundTrip(n, 8);
  }

  lemma ThreeParts(a: seq<Byte>, b: seq<Byte>, c: seq<Byte>)
    requires |a| == |b| == |c| == 8
    ensures (a + b + c)[..8] == a && (a + b + c)[8..16] == b && (a + b + c)[16..24] == c
  {
  }

  lemma HeaderParts(state: State, reason: Reason)
    ensures var b := Header(state, reason);
            && b[..4] == MAGIC && FromBigEndian(b[4..6]) == REVISION
            && b[6] == StateCode(state) && b[7] == ReasonCode(reason)
  {
    var b := Header(state, reason);
    assert b[..4] == MAGIC;
    assert b[4..6] == BigEndian(REVISION, 2);
    assert Power256(2) == 0x1_0000;
    BigEndianRoundTrip(REVISION, 2);
  }

  lemma EncodeParts(s: Status)
    ensures var b := Encode(s);
            && b[..4] == MAGIC && FromBigEndian(b[4..6]) == REVISION
            && b[6] == StateCode(s.state) && b[7] == ReasonCode(s.reason)
            && b[8..16] == BigEndian(s.instance, 8) && b[16..24] == BigEndian(s.epoch, 8)
  {
    var b, header := Encode(s), Header(s.state, s.reason);
    ThreeParts(header, BigEndian(s.instance, 8), BigEndian(s.epoch, 8));
    HeaderParts(s.state, s.reason);
    assert b[..4] == header[..4];
    assert b[4..6] == header[4..6];
    assert b[6] == header[6] && b[7] == header[7];
  }

  /** Exactly the consistent statuses survive the wire. */
  lemma StatusRoundTrip(s: Status)
    requires s.instance <= U64_MAX && s.epoch <= U64_MAX
    ensures Decode(Encode(s)) == Ok(s) <==> StatusOk(s)
    ensures Decode(Encode(s)).Ok? ==> Decode(Encode(s)).value == s
  {
    EncodeParts(s);
    WordRoundTrip(s.instance);
    WordRoundTrip(s.epoch);
  }

  /** And every accepted frame is the one encoding of its status. */
  lemma StatusFrameIsCanonical(b: seq<Byte>)
    requires |b| == RESPONSE_BYTES && Decode(b).Ok?
    ensures StatusOk(Decode(b).value) && Encode(Decode(b).value) == b
  {
    FromBigEndianRoundTrip(b[4..6]);
    FromBigEndianRoundTrip(b[8..16]);
    FromBigEndianRoundTrip(b[16..24]);
    assert Power256(4) == U32_MAX + 1;
    assert Power256(8) == U64_MAX + 1;
    var s := Decode(b).value;
    assert b[..8] == b[..4] + b[4..6] + [b[6], b[7]];
    assert b[..8] == Header(s.state, s.reason);
    assert b == b[..8] + b[8..16] + b[16..24];
  }

  function EligibilityCode(e: Eligibility): Byte {
    if e == Eligible then 1 else 2
  }

  function EncodeEligibility(e: Eligibility): (b: seq<Byte>)
    ensures |b| == 8
  {
    ELIGIBILITY_MAGIC + BigEndian(REVISION, 2) + [EligibilityCode(e), 0]
  }

  function DecodeEligibility(b: seq<Byte>): Result<Eligibility>
    requires |b| == 8
  {
    if b[..4] != ELIGIBILITY_MAGIC || FromBigEndian(b[4..6]) != REVISION || b[7] != 0 then Err(Incompatible)
    else if b[6] == 1 then Ok(Eligible) else if b[6] == 2 then Ok(Ineligible) else Err(Malformed)
  }

  lemma EligibilityFrames(b: seq<Byte>, e: Eligibility)
    requires |b| == 8
    ensures DecodeEligibility(b) == Ok(e) <==> b == EncodeEligibility(e)
  {
    assert Power256(2) == 0x1_0000;
    BigEndianRoundTrip(REVISION, 2);
    FromBigEndianRoundTrip(b[4..6]);
    assert b == b[..4] + b[4..6] + [b[6], b[7]];
    var f := EncodeEligibility(e);
    assert f[..4] == ELIGIBILITY_MAGIC && f[4..6] == BigEndian(REVISION, 2);
  }

  // ----- what a turn shows -----

  datatype InputEvent = SynReport | SynDropped | OtherInput

  datatype Seen = Silent | Broken | FetchFailed | Fetched(events: seq<InputEvent>)

  /** What polling the eligibility channel showed; `read` is None when the frame could not be read. */
  datatype Channel = Quiet | HungUp | Frame(read: Option<Eligibility>)

  datatype Turn = Turn(now: nat, eligibility: Channel, devices: seq<Seen>)

  function ClassifyTransition(read: Option<Eligibility>): Update {
    if read == Some(Ineligible) then Update(Stopped, EligibilityChanged) else Update(Unavailable, EvidenceLost)
  }

  function ClassifyInput(e: InputEvent): Option<Update> {
    match e
    case SynReport => None
    case SynDropped => Some(Update(Unavailable, EventLoss))
    case OtherInput => Some(Update(Stopped, Activity))
  }

  function EventsUpdate(events: seq<InputEvent>): Option<Update> {
    if events == [] then None
    else if ClassifyInput(events[0]).Some? then ClassifyInput(events[0]) else EventsUpdate(events[1..])
  }

  function SeenUpdate(seen: Seen): Option<Update> {
    match seen
    case Silent => None
    case Broken => Some(Update(Unavailable, EvidenceLost))
    case FetchFailed => Some(Update(Unavailable, EvidenceLost))
    case Fetched(events) => EventsUpdate(events)
  }

  function DevicesUpdate(seen: seq<Seen>): Option<Update> {
    if seen == [] then None
    else if SeenUpdate(seen[0]).Some? then SeenUpdate(seen[0]) else DevicesUpdate(seen[1..])
  }

  function ChannelUpdate(c: Channel): Option<Update> {
    match c
    case Quiet => None
    case HungUp => Some(Update(Unavailable, EvidenceLost))
    case Frame(read) => Some(ClassifyTransition(read))
  }

  function Polled(seen: seq<Seen>, devices: nat): seq<Seen> {
    if devices < |seen| then seen[..devices] else seen
  }

  /** Why a turn stops a broker that still holds its evidence, if it does. */
  function Cause(devices: nat, t: Turn): Option<Update> {
    if ChannelUpdate(t.eligibility).Some? then ChannelUpdate(t.eligibility)
    else DevicesUpdate(Polled(t.devices, devices))
  }

  // ----- the broker -----

  datatype Machine = Machine(status: Status, devices: nat, eligibility: bool, deadline: Option<nat>)

  function Terminal(s: Status, u: Update): Status {
    Status(s.instance, if s.epoch == U64_MAX then U64_MAX else s.epoch + 1, u.state, u.reason)
  }

  function TurnUpdate(m: Machine, t: Turn): Option<Update> {
    if m.eligibility && ChannelUpdate(t.eligibility).Some? then ChannelUpdate(t.eligibility)
    else DevicesUpdate(Polled(t.devices, m.devices))
  }

  function Step(m: Machine, t: Turn): Machine {
    match TurnUpdate(m, t)
    case Some(u) => Machine(Terminal(m.status, u), 0, false, None)
    case None =>
      if m.deadline.Some? && t.now >= m.deadline.value
      then m.(status := m.status.(state := Ready), deadline := None) else m
  }

  /** What the broker finds when it starts: the first frame, keys held down, and events already queued. */
  datatype Beginning = Beginning(
    instance: nat, first: Eligibility, held: bool, queued: seq<Seen>, devices: nat, now: nat)

  /** A zero instance, no device, or a queue that cannot be read ends the process before it serves anyone. */
  predicate BeginningOk(b: Beginning) {
    0 < b.instance <= U64_MAX && b.devices > 0 && FetchFailed !in b.queued
  }

  /** A loss outranks activity among the events already queued. */
  function QueuedUpdate(queued: seq<Seen>, n: nat): Option<Update>
    requires n <= |queued|
  {
    if n == 0 then None
    else
      var before := QueuedUpdate(queued, n - 1);
      if before.Some? && before.value.state == Unavailable then before
      else match queued[n - 1]
        case Silent => before
        case FetchFailed => before
        case Broken => Some(Update(Unavailable, EvidenceLost))
        case Fetched(events) =>
          if SynDropped in events then Some(Update(Unavailable, EventLoss))
          else if OtherInput in events then Some(Update(Stopped, Activity)) else before
  }

  function InitialUpdate(b: Beginning): Option<Update> {
    if b.first == Ineligible then Some(Update(Stopped, EligibilityChanged))
    else if b.held then Some(Update(Stopped, Activity))
    else QueuedUpdate(b.queued, |b.queued|)
  }

  function Start(b: Beginning): Machine {
    match InitialUpdate(b)
    case Some(u) => Machine(Status(b.instance, 1, u.state, u.reason), 0, false, None)
    case None => Machine(Status(b.instance, 1, Arming, NoReason), b.devices, true, Some(b.now + ARM_QUIET_INTERVAL))
  }

  /** The broker after the first `n` turns. */
  function After(b: Beginning, turns: seq<Turn>, n: nat): Machine
    requires n <= |turns|
  {
    if n == 0 then Start(b) else Step(After(b, turns, n - 1), turns[n - 1])
  }

  // ----- whole runs -----

  predicate Stopping(s: State) {
    s == Stopped || s == Unavailable
  }

  ghost predicate NoCause(b: Beginning, turns: seq<Turn>, from: nat, to: nat)
    requires to <= |turns|
  {
    forall k :: from <= k < to ==> Cause(b.devices, turns[k]).None?
  }

  ghost predicate IntervalOver(b: Beginning, turns: seq<Turn>, n: nat)
    requires n <= |turns|
  {
    exists k :: 0 <= k < n && turns[k].now >= b.now + ARM_QUIET_INTERVAL
  }

  lemma {:induction false} UpdatesStop(seen: seq<Seen>)
    ensures DevicesUpdate(seen).Some? ==>
              Stopping(DevicesUpdate(seen).value.state) && Consistent(DevicesUpdate(seen).value.state, DevicesUpdate(seen).value.reason)
  {
    if seen != [] {
      UpdatesStop(seen[1..]);
      if seen[0].Fetched? {
        EventsStop(seen[0].events);
      }
    }
  }

  lemma {:induction false} EventsStop(events: seq<InputEvent>)
    ensures EventsUpdate(events).Some? ==>
              Stopping(EventsUpdate(events).value.state) && Consistent(EventsUpdate(events).value.state, EventsUpdate(events).value.reason)
  {
    if events != [] {
      EventsStop(events[1..]);
    }
  }

  lemma {:induction false} QueuedStops(queued: seq<Seen>, n: nat)
    requires n <= |queued|
    ensures var u := QueuedUpdate(queued, n);
            u.Some? ==> Stopping(u.value.state) && Consistent(u.value.state, u.value.reason)
  {
    if n > 0 {
      QueuedStops(queued, n - 1);
    }
  }

  /** Exactly where a run stands after any number of turns. */
  ghost predicate Standing(b: Beginning, turns: seq<Turn>, n: nat, m: Machine)
    requires n <= |turns|
  {
    && m.status.instance == b.instance && Consistent(m.status.state, m.status.reason)
    && if InitialUpdate(b).Some? then
         Stopping(m.status.state) && m.status.epoch == 1 && m.devices == 0 && !m.eligibility && m.deadline == None
       else if NoCause(b, turns, 0, n) then
         && m.status.epoch == 1 && m.devices == b.devices && m.eligibility
         && m.status.state == (if IntervalOver(b, turns, n) then Ready else Arming)
         && m.deadline == (if IntervalOver(b, turns, n) then None else Some(b.now + ARM_QUIET_INTERVAL))
       else
         Stopping(m.status.state) && m.status.epoch == 2 && m.devices == 0 && !m.eligibility && m.deadline == None
  }

  lemma StandingStart(b: Beginning, turns: seq<Turn>)
    requires BeginningOk(b)
    ensures Standing(b, turns, 0, Start(b))
  {
    QueuedStops(b.queued, |b.queued|);
  }

  lemma StandingStep(b: Beginning, turns: seq<Turn>, n: nat, m: Machine)
    requires n < |turns| && Standing(b, turns, n, m)
    ensures Standing(b, turns, n + 1, Step(m, turns[n]))
  {
    var t := turns[n];
    UpdatesStop(Polled(t.devices, m.devices));
    if InitialUpdate(b).None? {
      assert NoCause(b, turns, 0, n + 1) <==> NoCause(b, turns, 0, n) && Cause(b.devices, t).None?;
      assert IntervalOver(b, turns, n + 1) <==> IntervalOver(b, turns, n) || t.now >= b.now + ARM_QUIET_INTERVAL;
      assert NoCause(b, turns, 0, n) ==> TurnUpdate(m, t) == Cause(b.devices, t);
    }
    if m.devices == 0 {
      assert Polled(t.devices, 0) == [];
    }
  }

  lemma {:induction false} Stands(b: Beginning, turns: seq<Turn>, n: nat)
    requires BeginningOk(b) && n <= |turns|
    ensures Standing(b, turns, n, After(b, turns, n))
  {
    if n == 0 {
      StandingStart(b, turns);
    } else {
      Stands(b, turns, n - 1);
      StandingStep(b, turns, n - 1, After(b, turns, n - 1));
    }
  }

  /** Ready means one Eligible frame, nothing held or queued, a full quiet interval, and no cause since. */
  lemma ReadyExactly(b: Beginning, turns: seq<Turn>, n: nat)
    requires BeginningOk(b) && n <= |turns|
    ensures After(b, turns, n).status.state == Ready <==>
              InitialUpdate(b).None? && NoCause(b, turns, 0, n) && IntervalOver(b, turns, n)
  {
    Stands(b, turns, n);
  }

  /** Nothing follows a stop, and the epoch rises at most once. */
  lemma {:induction false} StopIsFinal(b: Beginning, turns: seq<Turn>, k: nat, n: nat)
    requires BeginningOk(b) && k <= n <= |turns| && Stopping(After(b, turns, k).status.state)
    ensures After(b, turns, n) == After(b, turns, k) && After(b, turns, n).status.epoch <= 2
  {
    Stands(b, turns, k);
    if k < n {
      StopIsFinal(b, turns, k, n - 1);
      assert Polled(turns[n - 1].devices, 0) == [];
    }
  }

  predicate IsSameReady(earlier: Status, later: Status) {
    earlier.state == Ready && later.state == Ready && earlier.instance == later.instance && earlier.epoch == later.epoch
  }

  /** Two answers that agree have no stop between them, and every answer in between was the same. */
  lemma SameReadyBrackets(b: Beginning, turns: seq<Turn>, i: nat, j: nat)
    requires BeginningOk(b) && i <= j <= |turns|
    ensures IsSameReady(After(b, turns, i).status, After(b, turns, j).status) <==>
              After(b, turns, i).status.state == Ready && NoCause(b, turns, i, j)
    ensures IsSameReady(After(b, turns, i).status, After(b, turns, j).status) ==>
              forall k :: i <= k <= j ==> After(b, turns, k).status == After(b, turns, i).status
  {
    forall k | i <= k <= j ensures Standing(b, turns, k, After(b, turns, k)) {
      Stands(b, turns, k);
    }
    if After(b, turns, i).status.state == Ready {
      assert NoCause(b, turns, 0, j) <==> NoCause(b, turns, i, j);
    }
  }

  /** Whatever the broker has to say at any time, the provider reads it as it is. */
  lemma AnswersDecode(b: Beginning, turns: seq<Turn>, n: nat)
    requires BeginningOk(b) && n <= |turns|
    ensures Decode(Encode(After(b, turns, n).status)) == Ok(After(b, turns, n).status)
  {
    Stands(b, turns, n);
    StatusRoundTrip(After(b, turns, n).status);
  }

  // ----- the code -----

  /** The loop variables of the broker's `run`. */
  class Loop {
    var status: Status
    var devices: nat
    var eligibility: bool
    var armDeadline: Option<nat>

    ghost function Now(): Machine
      reads this
    {
      Machine(status, devices, eligibility, armDeadline)
    }

    constructor (b: Beginning)
      ensures Now() == Start(b)
    {
      var update := InitialUpdate(b);
      var usable := update.None?;
      status := if usable then Status(b.instance, 1, Arming, NoReason)
                else Status(b.instance, 1, update.value.state, update.value.reason);
      devices := if usable then b.devices else 0;
      eligibility := usable;
      armDeadline := if usable then Some(b.now + ARM_QUIET_INTERVAL) else None;
    }

    /** The scan of one device's events. */
    method ScanEvents(events: seq<InputEvent>) returns (u: Option<Update>)
      ensures u == EventsUpdate(events)
    {
      for i := 0 to |events|
        invariant EventsUpdate(events) == EventsUpdate(events[i..])
      {
        u := ClassifyInput(events[i]);
        if u.Some? {
          return;
        }
        assert events[i..][1..] == events[i + 1..];
      }
      u := None;
    }

    /** The scan of the polled devices. */
    method ScanDevices(seen: seq<Seen>) returns (u: Option<Update>)
      ensures u == DevicesUpdate(seen)
    {
      for i := 0 to |seen|
        invariant DevicesUpdate(seen) == DevicesUpdate(seen[i..])
      {
        match seen[i] {
          case Silent => u := None;
          case Broken => u := Some(Update(Unavailable, EvidenceLost));
          case FetchFailed => u := Some(Update(Unavailable, EvidenceLost));
          case Fetched(events) => u := ScanEvents(events);
        }
        if u.Some? {
          return;
        }
        assert seen[i..][1..] == seen[i + 1..];
      }
      u := None;
    }

    /** One pass of the loop, and the answer a provider that asks in it gets. */
    method Turn(t: Turn) returns (answer: Status)
      modifies this
      ensures Now() == Step(old(Now()), t) && answer == status
    {
      var update := None;
      if eligibility {
        match t.eligibility {
          case Quiet =>
          case HungUp => update := Some(Update(Unavailable, EvidenceLost));
          case Frame(read) => update := Some(ClassifyTransition(read));
        }
      }
      if update.None? {
        update := ScanDevices(Polled(t.devices, devices));
      }
      if update.Some? {
        status := Terminal(status, update.value);
        devices, eligibility, armDeadline := 0, false, None;
      } else if armDeadline.Some? && t.now >= armDeadline.value {
        status := status.(state := Ready);
        armDeadline := None;
      }
      answer := status;
    }

    /** A whole run: every answer is the state that the turns so far determine. */
    method Serve(b: Beginning, turns: seq<Turn>) returns (answers: seq<Status>)
      requires Now() == Start(b)
      modifies this
      ensures |answers| == |turns| && forall n :: 0 <= n < |turns| ==> answers[n] == After(b, turns, n + 1).status
    {
      answers := [];
      for n := 0 to |turns|
        invariant |answers| == n && Now() == After(b, turns, n)
        invariant forall k :: 0 <= k < n ==> answers[k] == After(b, turns, k + 1).status
      {
        var answer := Turn(turns[n]);
        answers := answers + [answer];
      }
    }
  }

  /** `BrokerStatus::encode`, filling the frame field by field. */
  method EncodeInto(s: Status, frame: array<Byte>)
    requires frame.Length == RESPONSE_BYTES
    modifies frame
    ensures frame[..] == Encode(s)
  {
    Copy(MAGIC, frame, 0);
    Copy(BigEndian(REVISION, 2), frame, 4);
    Copy([StateCode(s.state), ReasonCode(s.reason)], frame, 6);
    assert frame[..8] == Header(s.state, s.reason);
    Copy(BigEndian(s.instance, 8), frame, 8);
    Copy(BigEndian(s.epoch, 8), frame, 16);
    assert frame[..24] == frame[..];
  }

  /** Appends to the part of the frame that is already filled. */
  method Copy(bytes: seq<Byte>, frame: array<Byte>, at: nat)
    requires at + |bytes| <= frame.Length
    modifies frame
    ensures frame[..at + |bytes|] == old(frame[..at]) + bytes
  {
    for i := 0 to |bytes|
      invariant frame[..at + i] == old(frame[..at]) + bytes[..i]
    {
      frame[at + i] := bytes[i];
      assert frame[..at + i + 1] == frame[..at + i] + [bytes[i]];
    }
  }
}
