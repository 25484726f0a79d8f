/**
 Pasting text into one focused client through the clipboard: claim the selection, press the paste
 keys, serve the target's requests, and keep checking until it is settled.

 Everything the X server and the other clients decide is given in advance: one section for each
 time the server is grabbed, one tick for each turn of the waiting loop. Other clients can take the
 clipboard only between grabs. The log is a history variable: the code adds to it each thing it has
 done or confirmed, where it does it, and what is claimed of a transfer is read off the log.
 */
module TextTransfer {
  import opened Prelude

  const TRANSFER_WAIT: nat := 2000
  const TRANSFER_SETTLE_WAIT: nat := 250
  const MAX_TRANSFER_EVENTS: nat := 256
  const MAX_SELECTION_REQUESTS: nat := 32
  const MAX_TEXT_TRANSFER_BYTES: nat := 32768

  // ----- what can happen -----

  datatype Evidence = Generation | Focus | Permit | Requestor | Ownership

  /** One thing that took effect; a request to the server that failed leaves no act. */
  datatype Act =
    | Taken | Grabbed | Ungrabbed | Confirmed(what: Evidence) | Claimed | Pasted
    | WroteTargets | Wrote(text: string) | Notified(accepted: bool) | Synced | GaveUp | Destroyed

  datatype Log = Empty | Then(before: Log, act: Act)

  function Acts(log: Log): seq<Act> {
    match log case Empty => [] case Then(before, a) => Acts(before) + [a]
  }

  /** What has been confirmed since the server was grabbed; None outside a grab. */
  function Found(log: Log): Option<set<Evidence>> {
    match log
    case Empty => None
    case Then(before, a) =>
      match a
      case Grabbed => Some({})
      case Ungrabbed => None
      case Confirmed(e) => if Found(before).Some? then Some(Found(before).value + {e}) else None
      case _ => Found(before)
  }

  predicate InGrab(log: Log) {
    Found(log).Some?
  }

  /** The transfer window owns the clipboard. */
  predicate Owns(log: Log) {
    match log
    case Empty => false
    case Then(before, a) =>
      match a
      case Claimed => true
      case Taken => false
      case GaveUp => false
      case _ => Owns(before)
  }

  const ALL: set<Evidence> := {Generation, Focus, Permit, Requestor, Ownership}

  /** Every write is of this text, under a grab in which everything was confirmed. */
  predicate Careful(log: Log, text: string) {
    match log
    case Empty => true
    case Then(before, a) => (a.Wrote? ==> a.text == text && Found(before) == Some(ALL)) && Careful(before, text)
  }

  predicate HasWrite(log: Log) {
    log.Then? && (log.act.Wrote? || HasWrite(log.before))
  }

  /** How far a delivery has come at the end of the log: written, announced, synchronized. */
  function Delivering(log: Log): nat {
    match log
    case Empty => 0
    case Then(before, a) =>
      if a.Wrote? then 1
      else if a == Notified(true) && Delivering(before) == 1 then 2
      else if a == Synced && Delivering(before) == 2 then 3
      else 0
  }

  /** Somewhere a delivery was completed by the release of the grab it was made under. */
  predicate HasDelivery(log: Log) {
    log.Then? && ((log.act == Ungrabbed && Delivering(log.before) == 3) || HasDelivery(log.before))
  }

  /** How far a check of the evidence has come at the end of the log. */
  function Checking(log: Log): nat {
    match log
    case Empty => 0
    case Then(before, a) =>
      if a == Grabbed then 1
      else if a == Confirmed(Generation) && Checking(before) == 1 then 2
      else if a == Confirmed(Focus) && Checking(before) == 2 then 3
      else if a == Confirmed(Permit) && Checking(before) == 3 then 4
      else if a == Confirmed(Ownership) && Checking(before) == 4 then 5
      else 0
  }

  /** The last thing in the log is a complete check of the evidence. */
  predicate JustChecked(log: Log) {
    log.Then? && log.act == Ungrabbed && Checking(log.before) == 5
  }

  // ----- grabbed sections -----

  datatype Wanted = Targets | PlainText | Unsupported

  /** Whether each step succeeds or holds; `identity` is None when a client identity cannot be read. */
  datatype Section = Section(
    taken: bool, grabs: bool, refreshes: bool, current: bool, focused: bool, permit: bool, identity: Option<bool>,
    readsOwner: bool, wanted: Wanted, writes: bool, notifies: bool, syncs: bool, ungrabs: bool)

  /** Between sections another client may take the clipboard. */
  function Disturbed(log: Log, taken: bool): Log {
    if taken then Then(log, Taken) else log
  }

  datatype Served = Served(log: Log, answer: Option<bool>)

  /** Announce the outcome to the requestor and synchronize. */
  function Answered(s: Section, log: Log, accepted: bool, answer: bool): Served {
    if !s.notifies then Served(log, None)
    else if !s.syncs then Served(Then(log, Notified(accepted)), None)
    else Served(Then(Then(log, Notified(accepted)), Synced), Some(answer))
  }

  /** What is wanted of a requestor that passed every check. */
  function Handed(s: Section, text: string, log: Log): Served {
    match s.wanted
    case Targets => if s.writes then Answered(s, Then(log, WroteTargets), true, false) else Served(log, None)
    case Unsupported => Answered(s, log, false, false)
    case PlainText => if s.writes then Answered(s, Then(log, Wrote(text)), true, true) else Served(log, None)
  }

  /** From the requestor on. */
  function Judged(s: Section, text: string, log: Log): Served {
    if s.identity.None? then Served(log, None)
    else if !s.identity.value then Answered(s, log, false, false)
    else
      var known := Then(log, Confirmed(Requestor));
      if !s.readsOwner then Served(known, None)
      else if !Owns(known) then Served(known, Some(false))
      else Handed(s, text, Then(known, Confirmed(Ownership)))
  }

  /** The body of `handle_selection_request`; None is an error. */
  function ServeBody(s: Section, text: string, log: Log): Served {
    if !s.refreshes || !s.current then Served(log, None)
    else if !s.focused then Served(Then(log, Confirmed(Generation)), None)
    else
      var seen := Then(Then(log, Confirmed(Generation)), Confirmed(Focus));
      if !s.permit then Served(seen, Some(false)) else Judged(s, text, Then(seen, Confirmed(Permit)))
  }

  function Serve(s: Section, text: string, log: Log): Served {
    var open := Disturbed(log, s.taken);
    if !s.grabs then Served(open, None)
    else
      var body := ServeBody(s, text, Then(open, Grabbed));
      if s.ungrabs then Served(Then(body.log, Ungrabbed), body.answer) else Served(body.log, None)
  }

  /** The answer alone, from the section and from whether the clipboard is held. */
  function ServeAnswer(s: Section, held: bool): Option<bool> {
    if !s.grabs || !s.ungrabs || !s.refreshes || !s.current || !s.focused then None
    else if !s.permit then Some(false)
    else if s.identity.None? then None
    else if !s.identity.value then (if s.notifies && s.syncs then Some(false) else None)
    else if !s.readsOwner then None
    else if !held then Some(false)
    else match s.wanted
      case Targets => if s.writes && s.notifies && s.syncs then Some(false) else None
      case Unsupported => if s.notifies && s.syncs then Some(false) else None
      case PlainText => if s.writes && s.notifies && s.syncs then Some(true) else None
  }

  datatype Looked = Looked(log: Log, good: bool)

  /** The body of `transfer_evidence_is_current`. */
  function LookBody(s: Section, log: Log): Looked {
    if !s.refreshes || !s.current then Looked(log, false)
    else if !s.focused then Looked(Then(log, Confirmed(Generation)), false)
    else
      var seen := Then(Then(log, Confirmed(Generation)), Confirmed(Focus));
      if !s.permit then Looked(seen, false)
      else
        var granted := Then(seen, Confirmed(Permit));
        if s.readsOwner && Owns(granted) then Looked(Then(granted, Confirmed(Ownership)), true) else Looked(granted, false)
  }

  function Look(s: Section, log: Log): Looked {
    var open := Disturbed(log, s.taken);
    if !s.grabs then Looked(open, false)
    else
      var body := LookBody(s, Then(open, Grabbed));
      if s.ungrabs then Looked(Then(body.log, Ungrabbed), body.good) else Looked(body.log, false)
  }

  // ----- the waiting loop -----

  datatype XEvent = Cleared | Requested(section: Section, time: nat) | Noise | ReadFailed

  datatype Tick = Tick(events: seq<XEvent>, evidence: Section, now: nat, polls: bool)

  datatype Terminal = Delivered | Offered | Interrupted

  datatype Progress = Progress(events: nat, requests: nat, last: Option<nat>, log: Log)

  datatype Outcome = Going(progress: Progress) | Replied(progress: Progress, terminal: Terminal) | Failed(progress: Progress)

  function HandleEvent(p: Progress, e: XEvent, text: string): Outcome {
    if e == ReadFailed then Failed(p)
    else
      var q := p.(events := p.events + 1);
      if q.events > MAX_TRANSFER_EVENTS || e == Cleared then Replied(q, Interrupted)
      else if !e.Requested? then Going(q)
      else
        var r := q.(requests := q.requests + 1);
        if r.requests > MAX_SELECTION_REQUESTS then Replied(r, Interrupted)
        else
          var served := Serve(e.section, text, r.log);
          var t := r.(log := served.log);
          match served.answer
          case None => Failed(t)
          case Some(delivered) => Going(if delivered then t.(last := Some(e.time)) else t)
  }

  function HandleEvents(p: Progress, events: seq<XEvent>, text: string, n: nat): Outcome
    requires n <= |events|
  {
    if n == 0 then Going(p)
    else match HandleEvents(p, events, text, n - 1)
      case Going(q) => HandleEvent(q, events[n - 1], text)
      case ended => ended
  }

  /** The evidence and the clock, after the events that have come. */
  function Settle(p: Progress, t: Tick, deadline: nat): Outcome {
    var looked := Look(t.evidence, p.log);
    var q := p.(log := looked.log);
    if !looked.good then Replied(q, Interrupted)
    else if q.last.Some? && (t.now >= q.last.value + TRANSFER_SETTLE_WAIT || t.now >= deadline) then Replied(q, Delivered)
    else if t.now >= deadline then Replied(q, Offered)
    else if !t.polls then Failed(q) else Going(q)
  }

  /** One turn of the loop. */
  function Turn(p: Progress, t: Tick, text: string, deadline: nat): Outcome {
    match HandleEvents(p, t.events, text, |t.events|)
    case Going(q) => Settle(q, t, deadline)
    case ended => ended
  }

  // ----- the whole transfer -----

  /** The offering section goes on to claim the clipboard and to press the keys. */
  datatype Offering = Offering(section: Section, claims: bool, resolves: bool, permitAgain: bool, types: bool)

  datatype Cleanup = Cleanup(
    taken: bool, grabs: bool, readsOwner: bool, releases: bool, destroys: bool, ungrabs: bool, syncs: bool)

  /** All that the outside decides; the tick at `expiry` has reached the deadline. */
  datatype World = World(
    creates: bool, offering: Offering, start: nat, tick: nat -> Tick, expiry: nat, cleanup: Cleanup)

  predicate Expires(w: World) {
    w.tick(w.expiry).now >= w.start + TRANSFER_WAIT
  }

  /** From the permit on: claim, look, press. */
  function OfferClaim(o: Offering, log: Log): Served {
    if !o.claims then Served(log, None)
    else
      var claimed := Then(log, Claimed);
      if !o.section.readsOwner || !o.resolves then Served(claimed, None)
      else if !o.permitAgain then Served(claimed, Some(false))
      else if !o.types then Served(Then(claimed, Confirmed(Permit)), None)
      else Served(Then(Then(claimed, Confirmed(Permit)), Pasted), Some(true))
  }

  function OfferBody(o: Offering, log: Log): Served {
    var s := o.section;
    if !s.refreshes || !s.current then Served(log, None)
    else if !s.focused then Served(Then(log, Confirmed(Generation)), None)
    else
      var seen := Then(Then(log, Confirmed(Generation)), Confirmed(Focus));
      if s.identity.None? then Served(seen, None)
      else if !s.permit then Served(seen, Some(false))
      else OfferClaim(o, Then(seen, Confirmed(Permit)))
  }

  function Offer(o: Offering, log: Log): Served {
    if !o.section.grabs then Served(log, None)
    else
      var body := OfferBody(o, Then(log, Grabbed));
      if o.section.ungrabs then Served(Then(body.log, Ungrabbed), body.answer) else Served(body.log, None)
  }

  function Begun(log: Log): Progress {
    Progress(0, 0, None, log)
  }

  /** The transfer up to the start of tick `i`, or where it ended before that. */
  function Before(w: World, text: string, i: nat): Outcome {
    if i == 0 then
      var offer := Offer(w.offering, Empty);
      match offer.answer
      case None => Failed(Begun(offer.log))
      case Some(false) => Replied(Begun(offer.log), Interrupted)
      case Some(true) => Going(Begun(offer.log))
    else match Before(w, text, i - 1)
      case Going(p) => Turn(p, w.tick(i - 1), text, w.start + TRANSFER_WAIT)
      case ended => ended
  }

  /** The attempt as a whole: no turn goes on past the tick at the deadline. */
  function Attempt(w: World, text: string): Outcome {
    Before(w, text, w.expiry + 1)
  }

  datatype Cleaned = Cleaned(log: Log, ok: bool)

  function CleanBody(c: Cleanup, log: Log): Cleaned {
    if !c.readsOwner then Cleaned(log, false)
    else
      var free := if Owns(log) && c.releases then Then(log, GaveUp) else log;
      if Owns(free) then Cleaned(free, false)
      else if c.destroys then Cleaned(Then(free, Destroyed), true) else Cleaned(free, false)
  }

  function CleanedUp(c: Cleanup, log: Log): Cleaned {
    var open := Disturbed(log, c.taken);
    if !c.grabs then Cleaned(open, false)
    else
      var body := CleanBody(c, Then(open, Grabbed));
      if !c.ungrabs then Cleaned(body.log, false)
      else
        var released := Then(body.log, Ungrabbed);
        if body.ok && c.syncs then Cleaned(Then(released, Synced), true) else Cleaned(released, false)
  }

  datatype Reply = Reply(requested: nat, delivered: nat, terminal: Terminal)

  datatype Result = Result(reply: Option<Reply>, log: Log)

  /** `text_insert`. */
  function Inserted(w: World, text: string, bytes: nat): Result {
    if !w.creates then Result(None, Empty)
    else
      var o := Attempt(w, text);
      var c := CleanedUp(w.cleanup, o.progress.log);
      if o.Replied? && c.ok
      then Result(Some(Reply(bytes, if o.terminal == Delivered then bytes else 0, o.terminal)), c.log)
      else Result(None, c.log)
  }

  // ----- what each section adds to the log -----

  /** Nothing was written or delivered, and whose the clipboard is did not change. */
  ghost predicate Idle(before: Log, after: Log, text: string) {
    && (Careful(after, text) <==> Careful(before, text)) && (HasDelivery(after) <==> HasDelivery(before))
    && (HasWrite(after) <==> HasWrite(before)) && (Owns(after) <==> Owns(before))
  }

  /** An act that is none of those that matter. */
  predicate Mere(a: Act) {
    a.Grabbed? || a.Confirmed? || a.Pasted? || a.WroteTargets? || a.Notified? || a.Synced? || a.Destroyed?
  }

  lemma MereIsIdle(log: Log, a: Act, text: string)
    requires Mere(a)
    ensures Idle(log, Then(log, a), text)
  {
  }

  lemma ConfirmedFacts(log: Log, e: Evidence, before: set<Evidence>, after: set<Evidence>)
    requires Found(log) == Some(before) && after == before + {e}
    ensures Found(Then(log, Confirmed(e))) == Some(after)
  {
  }

  /** Releasing the grab completes a delivery, or nothing. */
  lemma Release(log: Log, text: string)
    ensures var after := Then(log, Ungrabbed);
            && (Careful(after, text) <==> Careful(log, text)) && (HasWrite(after) <==> HasWrite(log))
            && (Owns(after) <==> Owns(log)) && !InGrab(after)
            && (HasDelivery(after) <==> HasDelivery(log) || Delivering(log) == 3)
  {
  }

  lemma DisturbedFacts(log: Log, taken: bool, text: string)
    ensures var after := Disturbed(log, taken);
            && (Careful(after, text) <==> Careful(log, text)) && (HasDelivery(after) <==> HasDelivery(log))
            && (HasWrite(after) <==> HasWrite(log)) && (Owns(after) <==> Owns(log) && !taken)
  {
  }

  lemma AnsweredFacts(s: Section, log: Log, accepted: bool, answer: bool, text: string)
    requires Delivering(log) <= 1
    ensures var r := Answered(s, log, accepted, answer);
            && Idle(log, r.log, text) && Found(r.log) == Found(log)
            && r.answer == (if s.notifies && s.syncs then Some(answer) else None)
            && (Delivering(r.log) == 3 <==> accepted && Delivering(log) == 1 && r.answer.Some?)
  {
    var told := Then(log, Notified(accepted));
    MereIsIdle(log, Notified(accepted), text);
    MereIsIdle(told, Synced, text);
  }

  /** What serving may do: write once, and deliver exactly if the answer says so. */
  ghost predicate Serving(before: Log, after: Log, answer: Option<bool>, text: string) {
    && (Careful(before, text) ==> Careful(after, text)) && (HasDelivery(after) <==> HasDelivery(before))
    && (Owns(after) <==> Owns(before)) && (Delivering(after) == 3 <==> answer == Some(true))
    && (HasWrite(before) ==> HasWrite(after))
    && (answer.Some? ==> (HasWrite(after) <==> HasWrite(before) || answer == Some(true)))
  }

  lemma HandedFacts(s: Section, text: string, log: Log)
    requires Found(log) == Some(ALL) && Delivering(log) == 0
    ensures Serving(log, Handed(s, text, log).log, Handed(s, text, log).answer, text)
    ensures Handed(s, text, log).answer ==
              match s.wanted
              case Targets => if s.writes && s.notifies && s.syncs then Some(false) else None
              case Unsupported => if s.notifies && s.syncs then Some(false) else None
              case PlainText => if s.writes && s.notifies && s.syncs then Some(true) else None
  {
    match s.wanted
    case Targets =>
      MereIsIdle(log, WroteTargets, text);
      AnsweredFacts(s, Then(log, WroteTargets), true, false, text);
    case Unsupported => AnsweredFacts(s, log, false, false, text);
    case PlainText => AnsweredFacts(s, Then(log, Wrote(text)), true, true, text);
  }

  lemma JudgedFacts(s: Section, text: string, log: Log)
    requires Found(log) == Some({Generation, Focus, Permit}) && Delivering(log) == 0
    ensures Serving(log, Judged(s, text, log).log, Judged(s, text, log).answer, text)
    ensures s.grabs && s.ungrabs && s.refreshes && s.current && s.focused && s.permit ==>
              Judged(s, text, log).answer == ServeAnswer(s, Owns(log))
  {
    if s.identity == Some(true) {
      var known := Then(log, Confirmed(Requestor));
      var owned := Then(known, Confirmed(Ownership));
      MereIsIdle(log, Confirmed(Requestor), text);
      MereIsIdle(known, Confirmed(Ownership), text);
      ConfirmedFacts(log, Requestor, {Generation, Focus, Permit}, {Generation, Focus, Permit, Requestor});
      ConfirmedFacts(known, Ownership, {Generation, Focus, Permit, Requestor}, ALL);
      HandedFacts(s, text, owned);
    } else {
      AnsweredFacts(s, log, false, false, text);
    }
  }

  lemma ServeBodyFacts(s: Section, text: string, log: Log)
    requires Found(log) == Some({}) && Delivering(log) == 0
    ensures Serving(log, ServeBody(s, text, log).log, ServeBody(s, text, log).answer, text)
    ensures s.grabs && s.ungrabs ==> ServeBody(s, text, log).answer == ServeAnswer(s, Owns(log))
  {
    var current := Then(log, Confirmed(Generation));
    var seen := Then(current, Confirmed(Focus));
    var granted := Then(seen, Confirmed(Permit));
    MereIsIdle(log, Confirmed(Generation), text);
    MereIsIdle(current, Confirmed(Focus), text);
    MereIsIdle(seen, Confirmed(Permit), text);
    ConfirmedFacts(log, Generation, {}, {Generation});
    ConfirmedFacts(current, Focus, {Generation}, {Generation, Focus});
    ConfirmedFacts(seen, Permit, {Generation, Focus}, {Generation, Focus, Permit});
    JudgedFacts(s, text, granted);
  }

  /** A request is answered as its section and the ownership decide; exactly a true answer is a delivery. */
  lemma ServeFacts(s: Section, text: string, log: Log)
    ensures var r := Serve(s, text, log);
            && (Careful(log, text) ==> Careful(r.log, text))
            && r.answer == ServeAnswer(s, Owns(log) && !s.taken)
            && (HasDelivery(r.log) <==> HasDelivery(log) || r.answer == Some(true))
            && (r.answer.Some? ==> (HasWrite(r.log) <==> HasWrite(log) || r.answer == Some(true)))
            && (Owns(r.log) <==> Owns(log) && !s.taken)
  {
    var open := Disturbed(log, s.taken);
    var held := Then(open, Grabbed);
    DisturbedFacts(log, s.taken, text);
    MereIsIdle(open, Grabbed, text);
    ServeBodyFacts(s, text, held);
    Release(ServeBody(s, text, held).log, text);
  }

  /** Whether the evidence is found good, from the section and from whether the clipboard is held. */
  predicate LookAnswer(s: Section, held: bool) {
    s.grabs && s.ungrabs && s.refreshes && s.current && s.focused && s.permit && s.readsOwner && held
  }

  lemma LookBodyFacts(s: Section, log: Log, text: string)
    requires Checking(log) == 1 && Delivering(log) == 0
    ensures var r := LookBody(s, log);
            && Idle(log, r.log, text) && Delivering(r.log) == 0
            && (r.good ==> Checking(r.log) == 5)
            && (s.grabs && s.ungrabs ==> r.good == LookAnswer(s, Owns(log)))
  {
    var current := Then(log, Confirmed(Generation));
    var seen := Then(current, Confirmed(Focus));
    var granted := Then(seen, Confirmed(Permit));
    MereIsIdle(log, Confirmed(Generation), text);
    MereIsIdle(current, Confirmed(Focus), text);
    MereIsIdle(seen, Confirmed(Permit), text);
    MereIsIdle(granted, Confirmed(Ownership), text);
    assert Checking(current) == 2;
    assert Checking(seen) == 3;
    assert Checking(granted) == 4;
  }

  /** A check of the evidence writes nothing, and a good one is the last thing in the log. */
  lemma LookFacts(s: Section, log: Log, text: string)
    ensures var r := Look(s, log);
            && (Careful(r.log, text) <==> Careful(log, text)) && (HasDelivery(r.log) <==> HasDelivery(log))
            && (HasWrite(r.log) <==> HasWrite(log)) && (Owns(r.log) <==> Owns(log) && !s.taken)
            && r.good == LookAnswer(s, Owns(log) && !s.taken) && (r.good ==> JustChecked(r.log))
  {
    var open := Disturbed(log, s.taken);
    var held := Then(open, Grabbed);
    DisturbedFacts(log, s.taken, text);
    MereIsIdle(open, Grabbed, text);
    LookBodyFacts(s, held, text);
    Release(LookBody(s, held).log, text);
  }

  /** Whether the clipboard was claimed. */
  predicate Claims(o: Offering) {
    var s := o.section;
    s.grabs && s.refreshes && s.current && s.focused && s.identity.Some? && s.permit && o.claims
  }

  /** Nothing written, nothing delivered, nothing under way. */
  ghost predicate Fresh(log: Log, text: string) {
    Careful(log, text) && !HasWrite(log) && !HasDelivery(log) && Delivering(log) == 0
  }

  lemma FreshNext(log: Log, a: Act, text: string)
    requires Fresh(log, text) && !a.Wrote?
    ensures Fresh(Then(log, a), text)
  {
  }

  lemma OfferClaimFacts(o: Offering, log: Log, text: string)
    requires Fresh(log, text) && !Owns(log)
    ensures Fresh(OfferClaim(o, log).log, text) && Owns(OfferClaim(o, log).log) == o.claims
  {
    var claimed := Then(log, Claimed);
    var granted := Then(claimed, Confirmed(Permit));
    FreshNext(log, Claimed, text);
    FreshNext(claimed, Confirmed(Permit), text);
    FreshNext(granted, Pasted, text);
    assert Owns(claimed);
    assert Owns(granted);
  }

  lemma OfferFacts(o: Offering, text: string)
    ensures var r := Offer(o, Empty); Fresh(r.log, text) && Owns(r.log) == Claims(o)
  {
    var held := Then(Empty, Grabbed);
    var current := Then(held, Confirmed(Generation));
    var seen := Then(current, Confirmed(Focus));
    var granted := Then(seen, Confirmed(Permit));
    FreshNext(Empty, Grabbed, text);
    FreshNext(held, Confirmed(Generation), text);
    FreshNext(current, Confirmed(Focus), text);
    FreshNext(seen, Confirmed(Permit), text);
    assert !Owns(current);
    assert !Owns(seen);
    assert !Owns(granted);
    OfferClaimFacts(o, granted, text);
    FreshNext(OfferBody(o, held).log, Ungrabbed, text);
  }

  // ----- whole transfers -----

  /** While the loop goes on: careful, within its bounds, and its memory of a delivery is the truth. */
  ghost predicate Sound(p: Progress, text: string) {
    && Careful(p.log, text) && p.events <= MAX_TRANSFER_EVENTS && p.requests <= MAX_SELECTION_REQUESTS
    && (p.last.Some? <==> HasDelivery(p.log)) && (HasWrite(p.log) ==> HasDelivery(p.log))
  }

  ghost predicate OutcomeSound(o: Outcome, text: string) {
    && Careful(o.progress.log, text)
    && (o.Going? ==> Sound(o.progress, text))
    && (o.Replied? && o.terminal == Delivered ==> JustChecked(o.progress.log) && HasDelivery(o.progress.log))
    && (o.Replied? && o.terminal == Offered ==> JustChecked(o.progress.log) && !HasWrite(o.progress.log))
  }

  /** The request in an event is the next to be served, and gets the text. */
  predicate GrantsNext(p: Progress, e: XEvent) {
    && e.Requested? && p.events < MAX_TRANSFER_EVENTS && p.requests < MAX_SELECTION_REQUESTS
    && ServeAnswer(e.section, Owns(p.log) && !e.section.taken) == Some(true)
  }

  lemma EventSound(p: Progress, e: XEvent, text: string)
    requires Sound(p, text)
    ensures OutcomeSound(HandleEvent(p, e, text), text)
    ensures HasDelivery(HandleEvent(p, e, text).progress.log) <==> HasDelivery(p.log) || GrantsNext(p, e)
  {
    if e.Requested? {
      ServeFacts(e.section, text, p.log);
    }
  }

  /** Among the first `n` events of a batch, one that was reached grants the text. */
  ghost predicate GrantsAmong(p: Progress, events: seq<XEvent>, text: string, n: nat)
    requires n <= |events|
  {
    exists k :: 0 <= k < n && GrantsAt(p, events, text, k)
  }

  ghost predicate GrantsAt(p: Progress, events: seq<XEvent>, text: string, k: nat)
    requires k < |events|
  {
    var o := HandleEvents(p, events, text, k);
    o.Going? && GrantsNext(o.progress, events[k])
  }

  lemma {:induction false} EventsSound(p: Progress, events: seq<XEvent>, text: string, n: nat)
    requires Sound(p, text) && n <= |events|
    ensures OutcomeSound(HandleEvents(p, events, text, n), text)
    ensures HasDelivery(HandleEvents(p, events, text, n).progress.log) <==>
              HasDelivery(p.log) || GrantsAmong(p, events, text, n)
  {
    if n > 0 {
      EventsSound(p, events, text, n - 1);
      var before := HandleEvents(p, events, text, n - 1);
      if before.Going? {
        EventSound(before.progress, events[n - 1], text);
      }
      assert GrantsAmong(p, events, text, n) <==> GrantsAmong(p, events, text, n - 1) || GrantsAt(p, events, text, n - 1);
    }
  }

  lemma TurnSound(p: Progress, t: Tick, text: string, deadline: nat)
    requires Sound(p, text)
    ensures OutcomeSound(Turn(p, t, text, deadline), text)
    ensures HasDelivery(Turn(p, t, text, deadline).progress.log) <==>
              HasDelivery(p.log) || GrantsAmong(p, t.events, text, |t.events|)
    ensures t.now >= deadline ==> !Turn(p, t, text, deadline).Going?
  {
    EventsSound(p, t.events, text, |t.events|);
    var o := HandleEvents(p, t.events, text, |t.events|);
    if o.Going? {
      LookFacts(t.evidence, o.progress.log, text);
    }
  }

  /** Request `n` of tick `i` is reached, and gets the text. */
  ghost predicate Grants(w: World, text: string, i: nat, n: nat) {
    && n < |w.tick(i).events| && Before(w, text, i).Going?
    && GrantsAt(Before(w, text, i).progress, w.tick(i).events, text, n)
  }

  ghost predicate GrantsIn(w: World, text: string, i: nat) {
    exists n: nat :: Grants(w, text, i, n)
  }

  /** Some request reached before tick `i` gets the text. */
  ghost predicate GrantsBefore(w: World, text: string, i: nat) {
    exists k: nat :: k < i && GrantsIn(w, text, k)
  }

  lemma GrantsBeforeNext(w: World, text: string, i: nat)
    ensures GrantsBefore(w, text, i + 1) <==> GrantsBefore(w, text, i) || GrantsIn(w, text, i)
  {
  }

  lemma GrantsInMeans(w: World, text: string, i: nat)
    requires Before(w, text, i).Going?
    ensures GrantsIn(w, text, i) <==>
              GrantsAmong(Before(w, text, i).progress, w.tick(i).events, text, |w.tick(i).events|)
  {
    var p, events := Before(w, text, i).progress, w.tick(i).events;
    if GrantsAmong(p, events, text, |events|) {
      var k :| 0 <= k < |events| && GrantsAt(p, events, text, k);
      assert Grants(w, text, i, k);
    }
  }

  lemma BeforeNext(w: World, text: string, i: nat)
    requires OutcomeSound(Before(w, text, i), text)
    ensures var o, next := Before(w, text, i), Before(w, text, i + 1);
            && OutcomeSound(next, text)
            && (HasDelivery(next.progress.log) <==> HasDelivery(o.progress.log) || GrantsIn(w, text, i))
  {
    var o := Before(w, text, i);
    if o.Going? {
      TurnSound(o.progress, w.tick(i), text, w.start + TRANSFER_WAIT);
      GrantsInMeans(w, text, i);
    }
  }

  lemma BeforeStart(w: World, text: string)
    ensures OutcomeSound(Before(w, text, 0), text)
    ensures !HasDelivery(Before(w, text, 0).progress.log) && !GrantsBefore(w, text, 0)
  {
    OfferFacts(w.offering, text);
  }

  lemma {:induction false} BeforeSound(w: World, text: string, i: nat)
    ensures OutcomeSound(Before(w, text, i), text)
    ensures HasDelivery(Before(w, text, i).progress.log) <==> GrantsBefore(w, text, i)
  {
    if i == 0 {
      BeforeStart(w, text);
    } else {
      var n := i - 1;
      BeforeSound(w, text, n);
      BeforeNext(w, text, n);
      GrantsBeforeNext(w, text, n);
    }
  }

  /** The deadline ends the loop: no attempt is still going on. */
  lemma AttemptEnds(w: World, text: string)
    requires Expires(w)
    ensures !Attempt(w, text).Going?
  {
    BeforeSound(w, text, w.expiry);
    var o := Before(w, text, w.expiry);
    if o.Going? {
      TurnSound(o.progress, w.tick(w.expiry), text, w.start + TRANSFER_WAIT);
    }
  }

  /** Cleaning up writes nothing, and succeeds only with the clipboard given up and the server released. */
  lemma CleanedUpFacts(c: Cleanup, log: Log, text: string)
    ensures var r := CleanedUp(c, log);
            && (Careful(r.log, text) <==> Careful(log, text)) && (HasDelivery(r.log) <==> HasDelivery(log))
            && (HasWrite(r.log) <==> HasWrite(log))
            && (r.ok ==> !Owns(r.log) && !InGrab(r.log))
  {
    var open := Disturbed(log, c.taken);
    var held := Then(open, Grabbed);
    DisturbedFacts(log, c.taken, text);
    MereIsIdle(open, Grabbed, text);
    CleanBodyFacts(c, held, text);
    var body := CleanBody(c, held).log;
    Release(body, text);
    MereIsIdle(Then(body, Ungrabbed), Synced, text);
  }

  lemma CleanBodyFacts(c: Cleanup, log: Log, text: string)
    requires Delivering(log) == 0
    ensures var r := CleanBody(c, log);
            && (Careful(r.log, text) <==> Careful(log, text)) && (HasDelivery(r.log) <==> HasDelivery(log))
            && (HasWrite(r.log) <==> HasWrite(log)) && Delivering(r.log) == 0 && (r.ok ==> !Owns(r.log))
  {
    var free := if Owns(log) && c.releases then Then(log, GaveUp) else log;
    assert Careful(free, text) <==> Careful(log, text);
    assert HasDelivery(free) <==> HasDelivery(log);
    assert HasWrite(free) <==> HasWrite(log);
    MereIsIdle(free, Destroyed, text);
  }

  // ----- the log as a sequence -----

  /** The write at `i` lies in a grab that began at `g`, and since then everything has been confirmed. */
  ghost predicate CheckedWrite(acts: seq<Act>, i: nat, g: nat) {
    && g < i < |acts| && acts[g] == Grabbed
    && (forall k :: g < k < i ==> acts[k] != Grabbed && acts[k] != Ungrabbed)
    && (forall e: Evidence :: Shown(acts, g, i, e))
  }

  ghost predicate Shown(acts: seq<Act>, from: nat, to: nat, e: Evidence) {
    exists k :: from < k < to && k < |acts| && acts[k] == Confirmed(e)
  }

  /** The text written at `i`, announced, synchronized, and the grab released. */
  predicate DeliveryAt(acts: seq<Act>, i: nat, text: string) {
    i + 4 <= |acts| && acts[i..i + 4] == [Wrote(text), Notified(true), Synced, Ungrabbed]
  }

  /** The acts end with a complete and good check of the evidence. */
  predicate EndsChecked(acts: seq<Act>) {
    && |acts| >= 6
    && acts[|acts| - 6..] == [Grabbed, Confirmed(Generation), Confirmed(Focus), Confirmed(Permit), Confirmed(Ownership), Ungrabbed]
  }

  lemma ShownLater(acts: seq<Act>, more: seq<Act>, from: nat, e: Evidence)
    requires Shown(acts, from, |acts|, e)
    ensures Shown(acts + more, from, |acts + more|, e)
  {
    var k :| from < k < |acts| && acts[k] == Confirmed(e);
    assert (acts + more)[k] == Confirmed(e);
  }

  /** Where the current grab began, and that what is found was confirmed since. */
  lemma {:induction false} FoundMeans(log: Log) returns (g: nat)
    requires Found(log).Some?
    ensures g < |Acts(log)| && Acts(log)[g] == Grabbed
    ensures forall k :: g < k < |Acts(log)| ==> Acts(log)[k] != Grabbed && Acts(log)[k] != Ungrabbed
    ensures forall e :: e in Found(log).value ==> Shown(Acts(log), g, |Acts(log)|, e)
  {
    var before, acts := Acts(log.before), Acts(log);
    assert acts == before + [log.act];
    if log.act == Grabbed {
      g := |before|;
    } else {
      g := FoundMeans(log.before);
      forall e | e in Found(log).value ensures Shown(acts, g, |acts|, e) {
        if e in Found(log.before).value {
          ShownLater(before, [log.act], g, e);
        } else {
          assert acts[|before|] == Confirmed(e);
        }
      }
    }
  }

  lemma {:induction false} CarefulMeans(log: Log, text: string, i: nat)
    requires Careful(log, text) && i < |Acts(log)| && Acts(log)[i].Wrote?
    ensures Acts(log)[i] == Wrote(text) && exists g: nat :: CheckedWrite(Acts(log), i, g)
  {
    var before, acts := Acts(log.before), Acts(log);
    assert acts == before + [log.act];
    if i < |before| {
      CarefulMeans(log.before, text, i);
      var g: nat :| CheckedWrite(before, i, g);
      CheckedLater(before, log.act, i, g);
    } else {
      var g := FoundMeans(log.before);
      forall e: Evidence ensures Shown(acts, g, i, e) {
        EvidenceInAll(e);
        var k :| g < k < |before| && before[k] == Confirmed(e);
        assert acts[k] == Confirmed(e);
      }
      assert CheckedWrite(acts, i, g);
    }
  }

  lemma EvidenceInAll(e: Evidence)
    ensures e in ALL
  {
    match e case Generation => case Focus => case Permit => case Requestor => case Ownership =>
  }

  lemma CheckedLater(before: seq<Act>, a: Act, i: nat, g: nat)
    requires CheckedWrite(before, i, g)
    ensures CheckedWrite(before + [a], i, g)
  {
    forall e: Evidence ensures Shown(before + [a], g, i, e) {
      assert Shown(before, g, i, e);
      var k :| g < k < i && k < |before| && before[k] == Confirmed(e);
      assert (before + [a])[k] == Confirmed(e);
    }
  }

  lemma WrittenLast(log: Log, text: string)
    requires Careful(log, text) && Delivering(log) == 3
    ensures |Acts(log)| >= 3 && Acts(log)[|Acts(log)| - 3..] == [Wrote(text), Notified(true), Synced]
  {
    var told := log.before;
    var wrote := told.before;
    assert log.act == Synced && Delivering(told) == 2;
    assert told.act == Notified(true) && Delivering(wrote) == 1;
    assert Careful(told, text);
    assert Careful(wrote, text);
    assert wrote.act == Wrote(text);
    assert Acts(told) == Acts(wrote) + [Notified(true)];
    assert Acts(log) == Acts(wrote.before) + [Wrote(text), Notified(true), Synced];
  }

  lemma {:induction false} DeliveryMeans(log: Log, text: string)
    requires Careful(log, text) && HasDelivery(log)
    ensures exists i: nat :: DeliveryAt(Acts(log), i, text)
  {
    var before, acts := Acts(log.before), Acts(log);
    assert acts == before + [log.act];
    if log.act == Ungrabbed && Delivering(log.before) == 3 {
      WrittenLast(log.before, text);
      var i := |before| - 3;
      assert acts[i..i + 4] == before[i..] + [Ungrabbed];
      assert DeliveryAt(acts, i, text);
    } else {
      DeliveryMeans(log.before, text);
      var i: nat :| DeliveryAt(before, i, text);
      assert acts[i..i + 4] == before[i..i + 4];
      assert DeliveryAt(acts, i, text);
    }
  }

  lemma JustCheckedMeans(log: Log)
    requires JustChecked(log)
    ensures EndsChecked(Acts(log))
  {
    var owned := log.before;
    assert owned.act == Confirmed(Ownership) && Checking(owned.before) == 4;
    var granted := owned.before;
    assert granted.act == Confirmed(Permit) && Checking(granted.before) == 3;
    var seen := granted.before;
    assert seen.act == Confirmed(Focus) && Checking(seen.before) == 2;
    var current := seen.before;
    assert current.act == Confirmed(Generation) && Checking(current.before) == 1;
    var held := current.before;
    assert held.act == Grabbed;
    assert Acts(current) == Acts(held.before) + [Grabbed, Confirmed(Generation)];
    assert Acts(granted) == Acts(held.before) + [Grabbed, Confirmed(Generation), Confirmed(Focus), Confirmed(Permit)];
    assert Acts(log) == Acts(held.before)
        + [Grabbed, Confirmed(Generation), Confirmed(Focus), Confirmed(Permit), Confirmed(Ownership), Ungrabbed];
  }

  lemma {:induction false} NoWriteMeans(log: Log, i: nat)
    requires !HasWrite(log) && i < |Acts(log)|
    ensures !Acts(log)[i].Wrote?
  {
    if i < |Acts(log.before)| {
      NoWriteMeans(log.before, i);
    }
  }

  // ----- the truth of a reply -----

  predicate ReplyOk(r: Reply) {
    && 0 < r.requested <= MAX_TEXT_TRANSFER_BYTES && r.delivered <= r.requested
    && (r.terminal == Delivered ==> r.delivered == r.requested)
    && (r.terminal != Delivered ==> r.delivered == 0)
  }

  /**
   Whatever becomes of a transfer, text is only ever written after generation, focus, permit,
   requestor and ownership were all confirmed under the same grab of the server.
   */
  lemma EveryWriteIsChecked(w: World, text: string, bytes: nat, i: nat)
    requires i < |Acts(Inserted(w, text, bytes).log)| && Acts(Inserted(w, text, bytes).log)[i].Wrote?
    ensures var acts := Acts(Inserted(w, text, bytes).log);
            acts[i] == Wrote(text) && exists g: nat :: CheckedWrite(acts, i, g)
  {
    if w.creates {
      BeforeSound(w, text, w.expiry + 1);
      CleanedUpFacts(w.cleanup, Attempt(w, text).progress.log, text);
      CarefulMeans(Inserted(w, text, bytes).log, text, i);
    }
  }

  /**
   A reply tells the truth. Delivered means that the whole text was written, announced, synchronized
   and released, and that a complete check of the evidence was the last thing before cleaning up;
   Offered means such a check and no write at all; every reply is valid, and leaves neither the
   clipboard nor the server held.
   */
  lemma TransferIsHonest(w: World, text: string, bytes: nat)
    requires Expires(w) && 0 < bytes <= MAX_TEXT_TRANSFER_BYTES && Inserted(w, text, bytes).reply.Some?
    ensures var Result(r, log) := Inserted(w, text, bytes);
            var attempt := Acts(Attempt(w, text).progress.log);
            && ReplyOk(r.value) && !Owns(log) && !InGrab(log)
            && (r.value.terminal == Delivered ==> EndsChecked(attempt) && exists i: nat :: DeliveryAt(attempt, i, text))
            && (r.value.terminal == Offered ==> EndsChecked(attempt) && forall i :: 0 <= i < |attempt| ==> !attempt[i].Wrote?)
  {
    var o := Attempt(w, text);
    BeforeSound(w, text, w.expiry + 1);
    CleanedUpFacts(w.cleanup, o.progress.log, text);
    if o.Replied? && o.terminal != Interrupted {
      JustCheckedMeans(o.progress.log);
      if o.terminal == Delivered {
        DeliveryMeans(o.progress.log, text);
      } else {
        forall i | 0 <= i < |Acts(o.progress.log)| ensures !Acts(o.progress.log)[i].Wrote? {
          NoWriteMeans(o.progress.log, i);
        }
      }
    }
  }

  // ----- when the text is delivered -----

  lemma {:induction false} DeliveryFound(log: Log, i: nat, text: string)
    requires DeliveryAt(Acts(log), i, text)
    ensures HasDelivery(log)
  {
    var before, acts := Acts(log.before), Acts(log);
    assert acts == before + [log.act];
    if i + 4 < |acts| {
      assert before[i..i + 4] == acts[i..i + 4];
      DeliveryFound(log.before, i, text);
    } else {
      var four := acts[i..i + 4];
      assert four[3] == log.act && four[2] == before[i + 2] && four[1] == before[i + 1] && four[0] == before[i];
      var synced := log.before;
      assert synced.Then? && synced.act == before[|before| - 1] == Synced;
      var told := synced.before;
      assert before == Acts(told) + [Synced];
      assert told.Then? && told.act == Acts(told)[|Acts(told)| - 1] == before[i + 1];
      var wrote := told.before;
      assert Acts(told) == Acts(wrote) + [Notified(true)];
      assert wrote.Then? && wrote.act == Acts(wrote)[|Acts(wrote)| - 1] == before[i];
      assert Delivering(wrote) == 1;
      assert Delivering(told) == 2;
      assert Delivering(synced) == 3;
    }
  }

  // Counts and ownership, from the inputs alone.

  function EventsBy(w: World, i: nat): nat {
    if i == 0 then 0 else EventsBy(w, i - 1) + |w.tick(i - 1).events|
  }

  function RequestsIn(events: seq<XEvent>, n: nat): nat
    requires n <= |events|
  {
    if n == 0 then 0 else RequestsIn(events, n - 1) + if events[n - 1].Requested? then 1 else 0
  }

  function RequestsBy(w: World, i: nat): nat {
    if i == 0 then 0 else RequestsBy(w, i - 1) + RequestsIn(w.tick(i - 1).events, |w.tick(i - 1).events|)
  }

  /** Before one of the first `n` requests another client took the clipboard. */
  predicate TakenIn(events: seq<XEvent>, n: nat)
    requires n <= |events|
  {
    n > 0 && ((events[n - 1].Requested? && events[n - 1].section.taken) || TakenIn(events, n - 1))
  }

  lemma {:induction false} EventsCounted(p: Progress, events: seq<XEvent>, text: string, n: nat)
    requires n <= |events| && HandleEvents(p, events, text, n).Going?
    ensures var q := HandleEvents(p, events, text, n).progress;
            && q.events == p.events + n && q.requests == p.requests + RequestsIn(events, n)
            && (Owns(q.log) <==> Owns(p.log) && !TakenIn(events, n))
  {
    if n > 0 {
      EventsCounted(p, events, text, n - 1);
      if events[n - 1].Requested? {
        ServeFacts(events[n - 1].section, text, HandleEvents(p, events, text, n - 1).progress.log);
      }
    }
  }

  /** At the start of every turn the clipboard is held: the offer claimed it, and every turn that goes on has checked it. */
  lemma {:induction false} TicksCounted(w: World, text: string, i: nat)
    requires Before(w, text, i).Going?
    ensures var p := Before(w, text, i).progress;
            p.events == EventsBy(w, i) && p.requests == RequestsBy(w, i) && Owns(p.log)
  {
    if i == 0 {
      OfferFacts(w.offering, text);
    } else {
      TicksCounted(w, text, i - 1);
      TurnCounted(Before(w, text, i - 1).progress, w.tick(i - 1), text, w.start + TRANSFER_WAIT);
    }
  }

  lemma TurnCounted(p: Progress, t: Tick, text: string, deadline: nat)
    requires Turn(p, t, text, deadline).Going?
    ensures var q := Turn(p, t, text, deadline).progress;
            && q.events == p.events + |t.events| && q.requests == p.requests + RequestsIn(t.events, |t.events|)
            && Owns(q.log)
  {
    EventsCounted(p, t.events, text, |t.events|);
    LookFacts(t.evidence, HandleEvents(p, t.events, text, |t.events|).progress.log, text);
  }

  // Which requests the loop gets to, from the inputs alone.

  predicate OfferGood(o: Offering) {
    var s := o.section;
    && s.grabs && s.ungrabs && s.refreshes && s.current && s.focused && s.identity.Some? && s.permit && s.readsOwner
    && o.claims && o.resolves && o.permitAgain && o.types
  }

  /** An event that does not end the transfer: no loss of the clipboard, no failed read, and a request is answered. */
  predicate Passes(e: XEvent, held: bool) {
    e != Cleared && e != ReadFailed && (e.Requested? ==> ServeAnswer(e.section, held && !e.section.taken).Some?)
  }

  predicate EventsPass(events: seq<XEvent>, n: nat)
    requires n <= |events|
  {
    forall k :: 0 <= k < n ==> Passes(events[k], !TakenIn(events, k))
  }

  /** Request `n` of a batch finds the clipboard held and everything in order. */
  predicate InOrder(events: seq<XEvent>, n: nat)
    requires n < |events|
  {
    events[n].Requested? && !TakenIn(events, n + 1) && ServeAnswer(events[n].section, true) == Some(true)
  }

  /** The time of the last delivery after the first `n` events of a batch. */
  function LastIn(events: seq<XEvent>, n: nat, last: Option<nat>): Option<nat>
    requires n <= |events|
  {
    if n == 0 then last
    else if InOrder(events, n - 1) then Some(events[n - 1].time) else LastIn(events, n - 1, last)
  }

  function LastBy(w: World, i: nat): Option<nat> {
    if i == 0 then None else LastIn(w.tick(i - 1).events, |w.tick(i - 1).events|, LastBy(w, i - 1))
  }

  /** After its events, a turn goes on: the evidence is good, nothing has settled, there is time, and the poll works. */
  predicate GoesOn(t: Tick, last: Option<nat>, deadline: nat) {
    && LookAnswer(t.evidence, !TakenIn(t.events, |t.events|) && !t.evidence.taken)
    && (last.Some? ==> t.now < last.value + TRANSFER_SETTLE_WAIT)
    && t.now < deadline && t.polls
  }

  predicate TurnPasses(t: Tick, last: Option<nat>, deadline: nat) {
    EventsPass(t.events, |t.events|) && GoesOn(t, last, deadline)
  }

  /** Every turn before `i` goes on. */
  predicate TurnsPass(w: World, i: nat) {
    i > 0 ==> TurnsPass(w, i - 1) && TurnPasses(w.tick(i - 1), LastBy(w, i), w.start + TRANSFER_WAIT)
  }

  /** The loop gets to event `n` of tick `i`. */
  ghost predicate Reached(w: World, i: nat, n: nat)
    requires n <= |w.tick(i).events|
  {
    && OfferGood(w.offering) && TurnsPass(w, i) && EventsPass(w.tick(i).events, n)
    && EventsBy(w, i) + n <= MAX_TRANSFER_EVENTS
    && RequestsBy(w, i) + RequestsIn(w.tick(i).events, n) <= MAX_SELECTION_REQUESTS
  }

  lemma PassesMeans(p: Progress, e: XEvent, text: string, held: bool)
    requires held == Owns(p.log)
    ensures var o := HandleEvent(p, e, text);
            && (o.Going? <==> && Passes(e, held) && p.events < MAX_TRANSFER_EVENTS
                              && (e.Requested? ==> p.requests < MAX_SELECTION_REQUESTS))
            && var delivered := e.Requested? && ServeAnswer(e.section, held && !e.section.taken) == Some(true);
               (o.Going? ==> o.progress.last == if delivered then Some(e.time) else p.last)
  {
    if e.Requested? {
      ServeFacts(e.section, text, p.log);
    }
  }

  lemma InOrderMeans(events: seq<XEvent>, n: nat)
    requires n < |events|
    ensures InOrder(events, n) <==>
              events[n].Requested? && ServeAnswer(events[n].section, !TakenIn(events, n) && !events[n].section.taken) == Some(true)
  {
  }

  lemma {:induction false} EventsReached(p: Progress, events: seq<XEvent>, text: string, n: nat)
    requires n <= |events| && Owns(p.log)
    requires p.events <= MAX_TRANSFER_EVENTS && p.requests <= MAX_SELECTION_REQUESTS
    ensures var o := HandleEvents(p, events, text, n);
            && (o.Going? <==> && EventsPass(events, n) && p.events + n <= MAX_TRANSFER_EVENTS
                              && p.requests + RequestsIn(events, n) <= MAX_SELECTION_REQUESTS)
            && (o.Going? ==> o.progress.last == LastIn(events, n, p.last))
  {
    if n > 0 {
      EventsReached(p, events, text, n - 1);
      var before := HandleEvents(p, events, text, n - 1);
      assert EventsPass(events, n) <==> EventsPass(events, n - 1) && Passes(events[n - 1], !TakenIn(events, n - 1));
      if before.Going? {
        EventsCounted(p, events, text, n - 1);
        PassesMeans(before.progress, events[n - 1], text, !TakenIn(events, n - 1));
        InOrderMeans(events, n - 1);
      }
    }
  }

  lemma TurnReached(p: Progress, t: Tick, text: string, deadline: nat)
    requires Owns(p.log) && p.events <= MAX_TRANSFER_EVENTS && p.requests <= MAX_SELECTION_REQUESTS
    ensures var o, last := Turn(p, t, text, deadline), LastIn(t.events, |t.events|, p.last);
            && (o.Going? <==> && TurnPasses(t, last, deadline)
                              && p.events + |t.events| <= MAX_TRANSFER_EVENTS
                              && p.requests + RequestsIn(t.events, |t.events|) <= MAX_SELECTION_REQUESTS)
            && (o.Going? ==> o.progress.last == last)
  {
    EventsReached(p, t.events, text, |t.events|);
    var o := HandleEvents(p, t.events, text, |t.events|);
    if o.Going? {
      EventsCounted(p, t.events, text, |t.events|);
      LookFacts(t.evidence, o.progress.log, text);
    }
  }

  lemma {:induction false} BeforeReached(w: World, text: string, i: nat)
    ensures var o := Before(w, text, i);
            && (o.Going? <==> && OfferGood(w.offering) && TurnsPass(w, i)
                              && EventsBy(w, i) <= MAX_TRANSFER_EVENTS && RequestsBy(w, i) <= MAX_SELECTION_REQUESTS)
            && (o.Going? ==> o.progress.last == LastBy(w, i))
  {
    if i == 0 {
      StartReached(w, text, i);
    } else {
      var n := i - 1;
      BeforeReached(w, text, n);
      BeforeStep(w, text, n);
    }
  }

  lemma StartReached(w: World, text: string, i: nat)
    requires i == 0
    ensures Before(w, text, i).Going? <==> OfferGood(w.offering)
    ensures Before(w, text, i).progress.last == LastBy(w, i) && EventsBy(w, i) == RequestsBy(w, i) == 0
  {
    OfferAnswers(w.offering);
  }

  lemma BeforeStep(w: World, text: string, i: nat)
    requires Before(w, text, i).Going? ==> Before(w, text, i).progress.last == LastBy(w, i)
    ensures var o := Before(w, text, i + 1);
            && (o.Going? <==> && Before(w, text, i).Going? && TurnPasses(w.tick(i), LastBy(w, i + 1), w.start + TRANSFER_WAIT)
                              && EventsBy(w, i + 1) <= MAX_TRANSFER_EVENTS && RequestsBy(w, i + 1) <= MAX_SELECTION_REQUESTS)
            && (o.Going? ==> o.progress.last == LastBy(w, i + 1))
  {
    var o := Before(w, text, i);
    if o.Going? {
      BeforeSound(w, text, i);
      TicksCounted(w, text, i);
      TurnReached(o.progress, w.tick(i), text, w.start + TRANSFER_WAIT);
    }
  }

  lemma OfferAnswers(o: Offering)
    ensures Offer(o, Empty).answer == Some(true) <==> OfferGood(o)
  {
  }

  /**
   The loop gets to an event exactly when the offer went through, every event before it left the
   transfer going, within both bounds, and every turn before it went on.
   */
  lemma ReachedExactly(w: World, text: string, i: nat, n: nat)
    requires n <= |w.tick(i).events|
    ensures Before(w, text, i).Going? && HandleEvents(Before(w, text, i).progress, w.tick(i).events, text, n).Going? <==>
              Reached(w, i, n)
  {
    BeforeReached(w, text, i);
    if Before(w, text, i).Going? {
      TicksCounted(w, text, i);
      EventsReached(Before(w, text, i).progress, w.tick(i).events, text, n);
    }
  }

  /** The loop gets to request `n` of tick `i` with room for it, and finds everything in order. */
  ghost predicate Granted(w: World, i: nat, n: nat) {
    && n < |w.tick(i).events| && Reached(w, i, n) && InOrder(w.tick(i).events, n)
    && EventsBy(w, i) + n < MAX_TRANSFER_EVENTS
    && RequestsBy(w, i) + RequestsIn(w.tick(i).events, n) < MAX_SELECTION_REQUESTS
  }

  /**
   A request gets the text exactly when the loop gets to it within its bounds, nobody took the
   clipboard before it in that turn, and its section finds everything in order.
   */
  lemma GrantsExactly(w: World, text: string, i: nat, n: nat)
    ensures Grants(w, text, i, n) <==> Granted(w, i, n)
  {
    if n < |w.tick(i).events| {
      ReachedExactly(w, text, i, n);
      if Reached(w, i, n) {
        TicksCounted(w, text, i);
        var p, events := Before(w, text, i).progress, w.tick(i).events;
        EventsCounted(p, events, text, n);
        GrantsNextMeans(HandleEvents(p, events, text, n).progress, events[n]);
      }
    }
  }

  lemma GrantsNextMeans(p: Progress, e: XEvent)
    ensures GrantsNext(p, e) <==>
              && e.Requested? && p.events < MAX_TRANSFER_EVENTS && p.requests < MAX_SELECTION_REQUESTS
              && Owns(p.log) && !e.section.taken && ServeAnswer(e.section, true) == Some(true)
  {
  }

  /**
   The text was delivered if and only if the inputs grant some request, whatever the reply says.
   So an Interrupted reply hides a delivery exactly then.
   */
  lemma DeliveryExactly(w: World, text: string, bytes: nat)
    requires w.creates
    ensures (exists i: nat :: DeliveryAt(Acts(Inserted(w, text, bytes).log), i, text)) <==>
              exists k: nat, n: nat :: k <= w.expiry && Granted(w, k, n)
  {
    var attempt := Attempt(w, text).progress.log;
    BeforeSound(w, text, w.expiry + 1);
    CleanedUpFacts(w.cleanup, attempt, text);
    DeliveredMeans(Inserted(w, text, bytes).log, text);
    GrantedBefore(w, text, w.expiry);
  }

  lemma DeliveredMeans(log: Log, text: string)
    requires Careful(log, text)
    ensures (exists i: nat :: DeliveryAt(Acts(log), i, text)) <==> HasDelivery(log)
  {
    if HasDelivery(log) {
      DeliveryMeans(log, text);
    }
    if i: nat :| DeliveryAt(Acts(log), i, text) {
      DeliveryFound(log, i, text);
    }
  }

  lemma GrantedBefore(w: World, text: string, i: nat)
    ensures GrantsBefore(w, text, i + 1) <==> exists k: nat, n: nat :: k <= i && Granted(w, k, n)
  {
    if GrantsBefore(w, text, i + 1) {
      var k: nat :| k < i + 1 && GrantsIn(w, text, k);
      var n: nat :| Grants(w, text, k, n);
      GrantsExactly(w, text, k, n);
      assert k <= i && Granted(w, k, n);
    }
    if k: nat, n: nat :| k <= i && Granted(w, k, n) {
      GrantsExactly(w, text, k, n);
      assert GrantsIn(w, text, k);
    }
  }

  const FINE := Section(false, true, true, true, true, true, Some(true), true, PlainText, true, true, true, true)

  function Interruption(): World {
    World(true, Offering(FINE, true, true, true, true), 0,
          (i: nat) => Tick([Requested(FINE, 0)], FINE.(focused := i > 0), 2000 * i, true), 1,
          Cleanup(false, true, true, true, true, true, true))
  }

  /** The text is delivered, then the focus moves: the reply says Interrupted and counts no bytes. */
  lemma InterruptedAfterDelivery(text: string)
    ensures Expires(Interruption()) && Inserted(Interruption(), text, 5).reply == Some(Reply(5, 0, Interrupted))
    ensures exists i: nat :: DeliveryAt(Acts(Inserted(Interruption(), text, 5).log), i, text)
  {
    var w := Interruption();
    var start := Before(w, text, 0);
    OfferFacts(w.offering, text);
    assert start.Going?;
    var p, events := start.progress, w.tick(0).events;
    assert HandleEvents(p, events, text, 0) == Going(p);
    ServeFacts(FINE, text, p.log);
    assert Grants(w, text, 0, 0);
    GrantsExactly(w, text, 0, 0);
    DeliveryExactly(w, text, 5);
    var served := HandleEvents(p, events, text, 1);
    assert served == HandleEvent(p, events[0], text) && served.Going?;
    LookFacts(w.tick(0).evidence, served.progress.log, text);
    assert Before(w, text, 1) == Turn(p, w.tick(0), text, TRANSFER_WAIT);
    assert Before(w, text, 2) == Before(w, text, 1);
    InterruptionCleans(Before(w, text, 1).progress.log, text);
  }

  lemma InterruptionCleans(log: Log, text: string)
    ensures CleanedUp(Interruption().cleanup, log).ok
  {
  }

  // ----- the code -----

  class Transfer {
    const owner: nat
    const stranger: nat
    var clipboard: nat
    var grabbed: bool
    var eventsSeen: nat
    var selectionRequests: nat
    var lastDelivery: Option<nat>
    ghost var log: Log

    /** The server's state is what the log says it is. */
    ghost predicate Valid()
      reads this
    {
      && owner != 0 && owner != stranger
      && (clipboard == owner <==> Owns(log)) && (grabbed <==> InGrab(log))
    }

    ghost function Now(): Progress
      reads this
    {
      Progress(eventsSeen, selectionRequests, lastDelivery, log)
    }

    constructor (window: nat, other: nat)
      requires window != 0 && window != other
      ensures Valid() && Now() == Begun(Empty)
    {
      owner, stranger, clipboard, grabbed := window, other, 0, false;
      eventsSeen, selectionRequests, lastDelivery, log := 0, 0, None, Empty;
    }

    // One request to the server, or one thing confirmed; what takes effect is recorded here and nowhere else.

    /** Another client claims the clipboard, or not. */
    method Disturb(taken: bool)
      requires Valid()
      modifies this`clipboard, this`log
      ensures Valid() && log == Disturbed(old(log), taken)
    {
      if taken {
        clipboard, log := stranger, Then(log, Taken);
      }
    }

    method Grab(works: bool) returns (ok: bool)
      requires Valid()
      modifies this`grabbed, this`log
      ensures Valid() && ok == works && log == if works then Then(old(log), Grabbed) else old(log)
    {
      if works {
        grabbed, log := true, Then(log, Grabbed);
      }
      ok := works;
    }

    method Ungrab(works: bool) returns (ok: bool)
      requires Valid()
      modifies this`grabbed, this`log
      ensures Valid() && ok == works && log == if works then Then(old(log), Ungrabbed) else old(log)
    {
      if works {
        grabbed, log := false, Then(log, Ungrabbed);
      }
      ok := works;
    }

    method Confirm(what: Evidence, holds: bool) returns (ok: bool)
      requires Valid()
      modifies this`log
      ensures Valid() && ok == holds && log == if holds then Then(old(log), Confirmed(what)) else old(log)
    {
      if holds {
        log := Then(log, Confirmed(what));
      }
      ok := holds;
    }

    /** A request that leaves ownership and grab as they are. */
    method Perform(act: Act, works: bool) returns (ok: bool)
      requires Valid() && (act.Wrote? || act.WroteTargets? || act.Notified? || act.Synced? || act.Pasted? || act.Destroyed?)
      modifies this`log
      ensures Valid() && ok == works && log == if works then Then(old(log), act) else old(log)
    {
      if works {
        log := Then(log, act);
      }
      ok := works;
    }

    method SetOwner(window: nat, works: bool) returns (ok: bool)
      requires Valid() && (window == owner || window == 0)
      modifies this`clipboard, this`log
      ensures Valid() && ok == works
      ensures log == if works then Then(old(log), if window == owner then Claimed else GaveUp) else old(log)
    {
      if works {
        clipboard, log := window, Then(log, if window == owner then Claimed else GaveUp);
      }
      ok := works;
    }

    /** Tell the requestor how it went, and synchronize. */
    method Announce(s: Section, accepted: bool, answer: bool) returns (r: Option<bool>)
      requires Valid()
      modifies this`log
      ensures Valid() && Served(log, r) == Answered(s, old(log), accepted, answer)
    {
      var ok := Perform(Notified(accepted), s.notifies);
      if !ok {
        return None;
      }
      ok := Perform(Synced, s.syncs);
      r := if ok then Some(answer) else None;
    }

    /** Write what a requestor that passed every check asks for. */
    method HandOver(s: Section, text: string) returns (r: Option<bool>)
      requires Valid()
      modifies this`log
      ensures Valid() && Served(log, r) == Handed(s, text, old(log))
    {
      match s.wanted {
        case Targets =>
          var ok := Perform(WroteTargets, s.writes);
          if !ok {
            return None;
          }
          r := Announce(s, true, false);
        case Unsupported =>
          r := Announce(s, false, false);
        case PlainText =>
          var ok := Perform(Wrote(text), s.writes);
          if !ok {
            return None;
          }
          r := Announce(s, true, true);
      }
    }

    /** The part of `handle_selection_request` that depends on who asks. */
    method JudgeRequestor(s: Section, text: string) returns (r: Option<bool>)
      requires Valid()
      modifies this`log
      ensures Valid() && Served(log, r) == Judged(s, text, old(log))
    {
      if s.identity.None? {
        return None;
      }
      var same := Confirm(Requestor, s.identity.value);
      if !same {
        r := Announce(s, false, false);
        return;
      }
      if !s.readsOwner {
        return None;
      }
      var owned := Confirm(Ownership, clipboard == owner);
      if !owned {
        return Some(false);
      }
      r := HandOver(s, text);
    }

    /** The target is current and focused; the start of every section. */
    method ConfirmTarget(s: Section) returns (ok: bool)
      requires Valid()
      modifies this`log
      ensures Valid() && ok == (s.refreshes && s.current && s.focused)
      ensures log == if !s.refreshes || !s.current then old(log)
                     else if !s.focused then Then(old(log), Confirmed(Generation))
                     else Then(Then(old(log), Confirmed(Generation)), Confirmed(Focus))
    {
      ok := Confirm(Generation, s.refreshes && s.current);
      if ok {
        ok := Confirm(Focus, s.focused);
      }
    }

    /** `handle_selection_request`. */
    method HandleSelectionRequest(s: Section, text: string) returns (r: Option<bool>)
      requires Valid()
      modifies this`clipboard, this`grabbed, this`log
      ensures Valid() && Served(log, r) == Serve(s, text, old(log))
    {
      Disturb(s.taken);
      var ok := Grab(s.grabs);
      if !ok {
        return None;
      }
      r := None;
      ok := ConfirmTarget(s);
      if ok {
        ok := Confirm(Permit, s.permit);
        if ok {
          r := JudgeRequestor(s, text);
        } else {
          r := Some(false);
        }
      }
      ok := Ungrab(s.ungrabs);
      if !ok {
        r := None;
      }
    }

    /** `transfer_evidence_is_current`. */
    method EvidenceIsCurrent(s: Section) returns (good: bool)
      requires Valid()
      modifies this`clipboard, this`grabbed, this`log
      ensures Valid() && Looked(log, good) == Look(s, old(log))
    {
      Disturb(s.taken);
      var ok := Grab(s.grabs);
      if !ok {
        return false;
      }
      good := ConfirmTarget(s);
      if good {
        good := Confirm(Permit, s.permit);
      }
      if good {
        good := Confirm(Ownership, s.readsOwner && clipboard == owner);
      }
      ok := Ungrab(s.ungrabs);
      good := good && ok;
    }

    /** One event of the inner loop; None while the transfer goes on. */
    method HandleOne(e: XEvent, text: string) returns (ended: Option<Option<Terminal>>)
      requires Valid()
      modifies this
      ensures Valid() && Now() == HandleEvent(old(Now()), e, text).progress
      ensures ended == EndOf(HandleEvent(old(Now()), e, text))
    {
      if e.ReadFailed? {
        return Some(None);
      }
      eventsSeen := eventsSeen + 1;
      if eventsSeen > MAX_TRANSFER_EVENTS || e.Cleared? {
        return Some(Some(Interrupted));
      }
      ended := None;
      if e.Requested? {
        selectionRequests := selectionRequests + 1;
        if selectionRequests > MAX_SELECTION_REQUESTS {
          return Some(Some(Interrupted));
        }
        var answer := HandleSelectionRequest(e.section, text);
        if answer.None? {
          return Some(None);
        }
        if answer.value {
          lastDelivery := Some(e.time);
        }
      }
    }

    /** The inner loop over the events that have come. */
    method HandlePending(events: seq<XEvent>, text: string) returns (ended: Option<Option<Terminal>>)
      requires Valid()
      modifies this
      ensures Valid() && Now() == HandleEvents(old(Now()), events, text, |events|).progress
      ensures ended == EndOf(HandleEvents(old(Now()), events, text, |events|))
    {
      ghost var p := Now();
      for i := 0 to |events|
        invariant Valid() && HandleEvents(p, events, text, i) == Going(Now())
      {
        ended := HandleOne(events[i], text);
        if ended.Some? {
          StaysEnded(p, events, text, i + 1, |events|);
          return;
        }
      }
      ended := None;
    }

    /** One turn of the waiting loop: the events, the evidence and the clock. */
    method TakeTurn(t: Tick, text: string, deadline: nat) returns (ended: Option<Option<Terminal>>)
      requires Valid()
      modifies this
      ensures Valid() && Now() == Turn(old(Now()), t, text, deadline).progress
      ensures ended == EndOf(Turn(old(Now()), t, text, deadline))
    {
      ended := HandlePending(t.events, text);
      if ended.Some? {
        return;
      }
      var good := EvidenceIsCurrent(t.evidence);
      if !good {
        return Some(Some(Interrupted));
      }
      if lastDelivery.Some? && (t.now >= lastDelivery.value + TRANSFER_SETTLE_WAIT || t.now >= deadline) {
        return Some(Some(Delivered));
      }
      if t.now >= deadline {
        return Some(Some(Offered));
      }
      ended := if t.polls then None else Some(None);
    }

    method TakeTick(w: World, text: string, i: nat) returns (ended: Option<Option<Terminal>>, ghost o: Outcome)
      requires Valid() && Before(w, text, i) == Going(Now())
      modifies this
      ensures Valid() && o == Before(w, text, i + 1) && Now() == o.progress && ended == EndOf(o)
    {
      ended := TakeTurn(w.tick(i), text, w.start + TRANSFER_WAIT);
      o := Before(w, text, i + 1);
    }

    /** `wait_for_transfer`; None is an error. */
    method WaitForTransfer(w: World, text: string) returns (r: Option<Terminal>)
      requires Valid() && Expires(w) && Before(w, text, 0) == Going(Now())
      modifies this
      ensures Valid() && Now() == Attempt(w, text).progress && EndOf(Attempt(w, text)) == Some(r)
    {
      AttemptEnds(w, text);
      var i, ended := 0, None;
      ghost var o := Going(Now());
      while ended.None?
        invariant 0 <= i <= w.expiry + 1 && Valid() && o == Before(w, text, i) && Now() == o.progress && ended == EndOf(o)
        decreases w.expiry + 1 - i, ended.None?
      {
        ended, o := TakeTick(w, text, i);
        i := i + 1;
      }
      AttemptStays(w, text, i, w.expiry + 1);
      r := ended.value;
    }

    /** `release_transfer_owner`. */
    method ReleaseOwner(c: Cleanup) returns (ok: bool)
      requires Valid()
      modifies this`clipboard, this`grabbed, this`log
      ensures Valid() && Cleaned(log, ok) == CleanedUp(c, old(log))
    {
      Disturb(c.taken);
      ok := Grab(c.grabs);
      if !ok {
        return;
      }
      ok := c.readsOwner;
      if ok && clipboard == owner {
        ok := SetOwner(0, c.releases);
      }
      if ok {
        ok := Perform(Destroyed, c.destroys);
      }
      var released := Ungrab(c.ungrabs);
      ok := ok && released;
      if ok {
        ok := Perform(Synced, c.syncs);
      }
    }

    /** Claim the clipboard and press the paste keys. */
    method ClaimAndPaste(o: Offering) returns (r: Option<bool>)
      requires Valid()
      modifies this`clipboard, this`log
      ensures Valid() && Served(log, r) == OfferClaim(o, old(log))
    {
      var ok := SetOwner(owner, o.claims);
      if !ok || !o.section.readsOwner || clipboard != owner || !o.resolves {
        return None;
      }
      ok := Confirm(Permit, o.permitAgain);
      if !ok {
        return Some(false);
      }
      ok := Perform(Pasted, o.types);
      r := if ok then Some(true) else None;
    }

    /** The offering section. */
    method OfferText(o: Offering) returns (r: Option<bool>)
      requires Valid()
      modifies this`clipboard, this`grabbed, this`log
      ensures Valid() && Served(log, r) == Offer(o, old(log))
    {
      var ok := Grab(o.section.grabs);
      if !ok {
        return None;
      }
      r := None;
      ok := ConfirmTarget(o.section);
      if ok && o.section.identity.Some? {
        ok := Confirm(Permit, o.section.permit);
        if ok {
          r := ClaimAndPaste(o);
        } else {
          r := Some(false);
        }
      }
      ok := Ungrab(o.section.ungrabs);
      if !ok {
        r := None;
      }
    }

    /** `text_insert`, once the owner window exists. */
    method TextInsert(w: World, text: string, bytes: nat) returns (r: Option<Reply>)
      requires Valid() && Expires(w) && w.creates && Now() == Begun(Empty)
      modifies this
      ensures Valid() && Result(r, log) == Inserted(w, text, bytes)
    {
      var offered := OfferText(w.offering);
      var terminal := None;
      if offered == Some(true) {
        terminal := WaitForTransfer(w, text);
      } else {
        AttemptStays(w, text, 0, w.expiry + 1);
        if offered == Some(false) {
          terminal := Some(Interrupted);
        }
      }
      var clean := ReleaseOwner(w.cleanup);
      r := None;
      if terminal.Some? && clean {
        r := Some(Reply(bytes, if terminal.value == Delivered then bytes else 0, terminal.value));
      }
    }
  }

  /** How an outcome is returned: None while it goes on, Some(None) for an error. */
  function EndOf(o: Outcome): Option<Option<Terminal>> {
    match o case Going(_) => None case Replied(_, t) => Some(Some(t)) case Failed(_) => Some(None)
  }

  lemma {:induction false} StaysEnded(p: Progress, events: seq<XEvent>, text: string, n: nat, m: nat)
    requires n <= m <= |events| && !HandleEvents(p, events, text, n).Going?
    ensures HandleEvents(p, events, text, m) == HandleEvents(p, events, text, n)
  {
    if n < m {
      StaysEnded(p, events, text, n, m - 1);
    }
  }

  lemma {:induction false} AttemptStays(w: World, text: string, n: nat, m: nat)
    requires n <= m && !Before(w, text, n).Going?
    ensures Before(w, text, m) == Before(w, text, n)
  {
    if n < m {
      AttemptStays(w, text, n, m - 1);
    }
  }
}
