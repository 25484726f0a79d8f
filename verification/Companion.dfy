/**
 The companion's provider sessions: one legacy session with its recovery rule, up to eight modern
 contexts, and the pointer slots that live and die with a session.

 Every connection made gets a new number. The log is a history variable: what was sent over which
 connection and how it was answered, and which pointer slots were saved.
 */
module Companion {
  import opened Prelude

  const MAX_MODERN_CONTEXTS: nat := 8
  const MAX_POINTER_SLOTS: nat := 32

  datatype Action = Action(client: nat, generation: nat, x: nat, y: nat, button: nat)

  datatype Call = SeatStatus | Click(action: Action) | Other(tool: nat)

  /** Success, an error to live with, an error that asks for a reconnect, or no answer at all. */
  datatype Reply = Good | Refused | Reconnect | Dropped

  datatype Via = Legacy | Creating | Modern

  /** `slot` names the pointer slot a click was replayed from. */
  datatype Event =
    | Sent(conn: nat, via: Via, call: Call, slot: Option<string>, reply: Reply)
    | Saved(conn: nat, name: string, action: Action)

  /** What happened, in order. */
  datatype Log = Empty | Then(before: Log, event: Event)

  function Events(log: Log): seq<Event> {
    match log case Empty => [] case Then(before, e) => Events(before) + [e]
  }

  function Logged(log: Log, e: Option<Event>): Log {
    match e case None => log case Some(e) => Then(log, e)
  }

  datatype Session = Session(conn: nat, slots: map<string, Action>)

  datatype Owner = ForLegacy | ForContext(context: nat)

  /** `owners` and `log` are history: whom each connection was made for, and what happened. */
  datatype State = State(
    legacy: Option<Session>, recovery: bool, contexts: map<nat, Session>, next: nat,
    owners: seq<Owner>, log: Log)

  /** A slot request; `valid` says whether its arguments parse and validate. */
  datatype SlotCall =
    | Save(name: string, action: Action, valid: bool)
    | Replay(name: string, generation: nat, valid: bool)
    | List(valid: bool)

  datatype Request =
    | LegacyCall(call: Call) | LegacySlot(slot: SlotCall)
    | Create | ModernCall(context: nat, call: Call) | ModernSlot(context: nat, slot: SlotCall)
    | Release(context: nat)

  /** Whether a connection can be made now, and what the provider will answer. */
  datatype World = World(connects: bool, reply: Reply)

  datatype Answer =
    | Replied(reply: Reply) | Opened(context: nat, reply: Reply) | SlotSaved(replaced: bool)
    | Slots(slots: map<string, Action>) | Released
    | Invalid | NotFound | Capacity | StaleContext | StatusRequired | NoProvider | SessionEnded

  predicate Ends(r: Reply) {
    r == Reconnect || r == Dropped
  }

  function AnswerTo(r: Reply): Answer {
    if r == Dropped then SessionEnded else Replied(r)
  }

  // ----- one request -----

  /** What a slot request does to a session: its new state, what is logged, the answer, whether it ended. */
  datatype SlotEffect = SlotEffect(session: Session, event: Option<Event>, answer: Answer, ended: bool)

  function SlotStep(s: Session, call: SlotCall, via: Via, reply: Reply): SlotEffect {
    if !call.valid then SlotEffect(s, None, Invalid, false)
    else match call
      case Save(name, action, _) =>
        if |s.slots| >= MAX_POINTER_SLOTS && name !in s.slots then SlotEffect(s, None, Capacity, false)
        else SlotEffect(s.(slots := s.slots[name := action]), Some(Saved(s.conn, name, action)), SlotSaved(name in s.slots), false)
      case Replay(name, generation, _) =>
        if name !in s.slots then SlotEffect(s, None, NotFound, false)
        else
          var action := s.slots[name].(generation := generation);
          SlotEffect(s, Some(Sent(s.conn, via, Click(action), Some(name), reply)), AnswerTo(reply), Ends(reply))
      case List(_) => SlotEffect(s, None, Slots(s.slots), false)
  }

  /** The legacy session, connected if need be. */
  function Connected(s: State): State {
    if s.legacy.Some? then s
    else s.(legacy := Some(Session(|s.owners|, map[])), owners := s.owners + [ForLegacy])
  }

  /** A call over the legacy session: an ending reply demands recovery, a good status call lifts it. */
  function LegacySent(s: State, call: Call, reply: Reply): State
    requires s.legacy.Some?
  {
    var logged := s.(log := Then(s.log, Sent(s.legacy.value.conn, Legacy, call, None, reply)));
    if Ends(reply) then logged.(legacy := None, recovery := true)
    else if call == SeatStatus && reply == Good then logged.(recovery := false)
    else logged
  }

  function LegacyCallStep(s: State, call: Call, w: World): (State, Answer) {
    if s.recovery && call != SeatStatus then (s, StatusRequired)
    else if s.legacy.None? && !w.connects then (s, NoProvider)
    else
      (LegacySent(Connected(s), call, w.reply), AnswerTo(w.reply))
  }

  function LegacySlotStep(s: State, call: SlotCall, w: World): (State, Answer) {
    if s.recovery then (s, StatusRequired)
    else if s.legacy.None? && !w.connects then (s, NoProvider)
    else
      var c := Connected(s);
      var e := SlotStep(c.legacy.value, call, Legacy, w.reply);
      (c.(legacy := if e.ended then None else Some(e.session), recovery := e.ended, log := Logged(c.log, e.event)), e.answer)
  }

  function CreateStep(s: State, w: World): (State, Answer) {
    if |s.contexts| >= MAX_MODERN_CONTEXTS then (s, Capacity)
    else if !w.connects then (s, NoProvider)
    else
      var conn := |s.owners|;
      var logged := s.(owners := s.owners + [ForContext(s.next)],
                       log := Then(s.log, Sent(conn, Creating, SeatStatus, None, w.reply)));
      if w.reply == Dropped then (logged, NoProvider)
      else if s.next == U64_MAX then (logged, Capacity)
      else (logged.(next := s.next + 1, contexts := s.contexts[s.next := Session(conn, map[])]),
            Opened(s.next, w.reply))
  }

  function ModernCallStep(s: State, context: nat, call: Call, w: World): (State, Answer) {
    if context !in s.contexts then (s, StaleContext)
    else
      var logged := s.(log := Then(s.log, Sent(s.contexts[context].conn, Modern, call, None, w.reply)));
      (if Ends(w.reply) then logged.(contexts := s.contexts - {context}) else logged,
       if w.reply == Dropped then StaleContext else Replied(w.reply))
  }

  function ModernSlotStep(s: State, context: nat, call: SlotCall, w: World): (State, Answer) {
    if context !in s.contexts then (s, StaleContext)
    else
      var e := SlotStep(s.contexts[context], call, Modern, w.reply);
      (s.(contexts := if e.ended then s.contexts - {context} else s.contexts[context := e.session], log := Logged(s.log, e.event)),
       if e.answer == SessionEnded then StaleContext else e.answer)
  }

  function Step(s: State, r: Request, w: World): (State, Answer) {
    match r
    case LegacyCall(call) => LegacyCallStep(s, call, w)
    case LegacySlot(slot) => LegacySlotStep(s, slot, w)
    case Create => CreateStep(s, w)
    case ModernCall(context, call) => ModernCallStep(s, context, call, w)
    case ModernSlot(context, slot) => ModernSlotStep(s, context, slot, w)
    case Release(context) =>
      if context in s.contexts then (s.(contexts := s.contexts - {context}), Released) else (s, StaleContext)
  }

  const Fresh := State(None, false, map[], 1, [], Empty)

  // ----- what the log says -----

  /** The slots saved over one connection, each with its last action. */
  function SavedSlots(log: Log, conn: nat): map<string, Action> {
    match log
    case Empty => map[]
    case Then(before, e) =>
      if e.Saved? && e.conn == conn then SavedSlots(before, conn)[e.name := e.action] else SavedSlots(before, conn)
  }

  /** An event after which its connection is done. A context is opened even on a reply that asks for a reconnect. */
  predicate Closes(e: Event) {
    e.Sent? && (e.reply == Dropped || (e.reply == Reconnect && e.via != Creating))
  }

  predicate Open(log: Log, conn: nat) {
    match log
    case Empty => true
    case Then(before, e) => !(Closes(e) && e.conn == conn) && Open(before, conn)
  }

  /** A legacy session ended and no status call has succeeded since. */
  predicate Pending(log: Log) {
    match log
    case Empty => false
    case Then(before, e) =>
      if LegacyEnd(e) then true else if IsRecovery(e) then false else Pending(before)
  }

  predicate LegacyEnd(e: Event) {
    e.Sent? && e.via == Legacy && Ends(e.reply)
  }

  predicate IsRecovery(e: Event) {
    e.Sent? && e.via == Legacy && e.call == SeatStatus && e.reply == Good
  }

  /** What every event must satisfy, given those before it. */
  predicate EventOk(log: Log, e: Event) {
    && Open(log, e.conn)
    && (e.Sent? && e.via == Legacy && e.call != SeatStatus ==> !Pending(log))
    && (e.Sent? && e.slot.Some? ==>
          && e.call.Click? && e.slot.value in SavedSlots(log, e.conn)
          && e.call.action == SavedSlots(log, e.conn)[e.slot.value].(generation := e.call.action.generation))
  }

  predicate LogOk(log: Log) {
    log.Then? ==> EventOk(log.before, log.event) && LogOk(log.before)
  }

  // ----- the invariant -----

  ghost predicate SessionOk(log: Log, owners: seq<Owner>, l: Session, owner: Owner) {
    && l.slots == SavedSlots(log, l.conn) && Open(log, l.conn)
    && l.conn < |owners| && owners[l.conn] == owner
  }

  predicate Older(log: Log, connections: nat) {
    log.Then? ==> log.event.conn < connections && Older(log.before, connections)
  }

  ghost predicate SessionsOk(s: State) {
    && (s.legacy.Some? ==> SessionOk(s.log, s.owners, s.legacy.value, ForLegacy))
    && (forall c :: c in s.contexts ==> SessionOk(s.log, s.owners, s.contexts[c], ForContext(c)))
  }

  ghost predicate IdentitiesOk(s: State) {
    1 <= s.next <= U64_MAX && forall c :: c in s.contexts ==> 1 <= c < s.next
  }

  ghost predicate HistoryOk(s: State) {
    Older(s.log, |s.owners|) && LogOk(s.log) && (s.recovery <==> Pending(s.log))
  }

  ghost predicate Valid(s: State) {
    SessionsOk(s) && IdentitiesOk(s) && HistoryOk(s)
  }

  lemma {:induction false} NewConnection(log: Log, conn: nat)
    requires Older(log, conn)
    ensures SavedSlots(log, conn) == map[] && Open(log, conn) && Older(log, conn + 1)
  {
    if log.Then? {
      NewConnection(log.before, conn);
    }
  }

  // ----- every request keeps it -----

  predicate Live(s: State, owner: Owner) {
    match owner case ForLegacy => s.legacy.Some? case ForContext(c) => c in s.contexts
  }

  function Without(s: State, owner: Owner): State {
    match owner case ForLegacy => s.(legacy := None) case ForContext(c) => s.(contexts := s.contexts - {c})
  }

  function With(s: State, owner: Owner, l: Session): State {
    match owner case ForLegacy => s.(legacy := Some(l)) case ForContext(c) => s.(contexts := s.contexts[c := l])
  }

  lemma WithoutKeeps(s: State, owner: Owner)
    requires Valid(s)
    ensures Valid(Without(s, owner)) && !Live(Without(s, owner), owner)
  {
  }

  lemma WithKeeps(s: State, owner: Owner, l: Session)
    requires Valid(s) && SessionOk(s.log, s.owners, l, owner)
    requires owner.ForContext? ==> 1 <= owner.context < s.next
    ensures Valid(With(s, owner, l))
  {
  }

  /** A session survives an event of another connection, or one that merely uses its own. */
  lemma SessionKept(log: Log, owners: seq<Owner>, e: Event, l: Session, owner: Owner)
    requires SessionOk(log, owners, l, owner) && (e.conn != l.conn || (e.Sent? && !Closes(e)))
    ensures SessionOk(Then(log, e), owners, l, owner)
  {
  }

  lemma SessionsKept(s: State, e: Event, owner: Owner)
    requires SessionsOk(s) && e.conn < |s.owners| && s.owners[e.conn] == owner
    requires Live(s, owner) ==> e.Sent? && !Closes(e)
    ensures SessionsOk(s.(log := Then(s.log, e)))
  {
    if s.legacy.Some? {
      SessionKept(s.log, s.owners, e, s.legacy.value, ForLegacy);
    }
    forall c | c in s.contexts ensures SessionOk(Then(s.log, e), s.owners, s.contexts[c], ForContext(c)) {
      SessionKept(s.log, s.owners, e, s.contexts[c], ForContext(c));
    }
  }

  /** Logging an event of a connection whose session is gone, or which merely uses it. */
  lemma LogKeeps(s: State, e: Event, owner: Owner)
    requires Valid(s) && EventOk(s.log, e) && e.conn < |s.owners| && s.owners[e.conn] == owner
    requires Live(s, owner) ==> e.Sent? && !Closes(e)
    ensures Valid(s.(log := Then(s.log, e), recovery := Pending(Then(s.log, e))))
  {
    SessionsKept(s, e, owner);
  }

  /** Saving is the same in the session and in the log. */
  lemma SessionSaved(log: Log, owners: seq<Owner>, l: Session, owner: Owner, name: string, action: Action)
    requires SessionOk(log, owners, l, owner)
    ensures SessionOk(Then(log, Saved(l.conn, name, action)), owners, l.(slots := l.slots[name := action]), owner)
  {
  }

  function SessionOf(s: State, owner: Owner): Session
    requires Live(s, owner)
  {
    match owner case ForLegacy => s.legacy.value case ForContext(c) => s.contexts[c]
  }

  /** A reply that closes the connection of a session, and the session with it. */
  lemma CloseKeeps(s: State, owner: Owner, e: Event)
    requires Valid(s) && Live(s, owner) && e.conn == SessionOf(s, owner).conn && EventOk(s.log, e)
    ensures Valid(Without(s, owner).(log := Then(s.log, e), recovery := Pending(Then(s.log, e))))
  {
    assert SessionOk(s.log, s.owners, SessionOf(s, owner), owner);
    WithoutKeeps(s, owner);
    LogKeeps(Without(s, owner), e, owner);
  }

  /** Saving a slot: the event and the session together, on top of a state without the session. */
  lemma SaveKeeps(s: State, owner: Owner, l: Session, name: string, action: Action)
    requires Valid(s) && !Live(s, owner) && SessionOk(s.log, s.owners, l, owner)
    requires owner.ForContext? ==> 1 <= owner.context < s.next
    ensures Valid(With(s, owner, l.(slots := l.slots[name := action])).(log := Then(s.log, Saved(l.conn, name, action))))
  {
    var e := Saved(l.conn, name, action);
    SessionsKept(s, e, owner);
    SessionSaved(s.log, s.owners, l, owner, name, action);
  }

  lemma WithoutThenWith(s: State, owner: Owner, l: Session)
    ensures With(Without(s, owner), owner, l) == With(s, owner, l)
  {
    if owner.ForContext? {
      assert (s.contexts - {owner.context})[owner.context := l] == s.contexts[owner.context := l];
    }
  }

  /** A new connection changes nothing for the sessions there are. */
  lemma ConnectKeeps(s: State, owner: Owner)
    requires Valid(s)
    ensures var made := s.(owners := s.owners + [owner]);
            Valid(made) && SessionOk(made.log, made.owners, Session(|s.owners|, map[]), owner)
  {
    NewConnection(s.log, |s.owners|);
  }

  lemma ConnectedKeeps(s: State)
    requires Valid(s)
    ensures Valid(Connected(s))
  {
    if s.legacy.None? {
      ConnectKeeps(s, ForLegacy);
      WithKeeps(s.(owners := s.owners + [ForLegacy]), ForLegacy, Session(|s.owners|, map[]));
    }
  }

  lemma LegacySentKeeps(s: State, call: Call, reply: Reply)
    requires Valid(s) && s.legacy.Some? && (s.recovery ==> call == SeatStatus)
    ensures Valid(LegacySent(s, call, reply))
  {
    var e := Sent(s.legacy.value.conn, Legacy, call, None, reply);
    if Ends(reply) {
      CloseKeeps(s, ForLegacy, e);
    } else {
      LogKeeps(s, e, ForLegacy);
    }
  }

  lemma LegacyCallKeeps(s: State, call: Call, w: World)
    requires Valid(s)
    ensures Valid(LegacyCallStep(s, call, w).0)
  {
    if (!s.recovery || call == SeatStatus) && (s.legacy.Some? || w.connects) {
      ConnectedKeeps(s);
      LegacySentKeeps(Connected(s), call, w.reply);
    }
  }

  lemma WithSelf(s: State, owner: Owner)
    requires Live(s, owner)
    ensures With(s, owner, SessionOf(s, owner)) == s
  {
    if owner.ForContext? {
      assert s.contexts[owner.context := s.contexts[owner.context]] == s.contexts;
    }
  }

  lemma ReplayKeeps(s: State, owner: Owner, name: string, generation: nat, via: Via, reply: Reply)
    requires Valid(s) && Live(s, owner) && via != Creating && (via == Legacy ==> !s.recovery)
    requires name in SessionOf(s, owner).slots
    ensures var l := SessionOf(s, owner);
            var e := Sent(l.conn, via, Click(l.slots[name].(generation := generation)), Some(name), reply);
            Valid((if Ends(reply) then Without(s, owner) else s)
                  .(log := Then(s.log, e), recovery := s.recovery || (Ends(reply) && via == Legacy)))
  {
    var l := SessionOf(s, owner);
    assert SessionOk(s.log, s.owners, l, owner);
    var e := Sent(l.conn, via, Click(l.slots[name].(generation := generation)), Some(name), reply);
    if Closes(e) {
      CloseKeeps(s, owner, e);
    } else {
      LogKeeps(s, e, owner);
    }
  }

  /** What a slot request leaves of a session and the log. */
  lemma SlotKeeps(s: State, owner: Owner, call: SlotCall, via: Via, reply: Reply)
    requires Valid(s) && Live(s, owner) && via != Creating && (via == Legacy ==> !s.recovery)
    ensures var e := SlotStep(SessionOf(s, owner), call, via, reply);
            var t := if e.ended then Without(s, owner) else With(s, owner, e.session);
            Valid(t.(log := Logged(s.log, e.event), recovery := s.recovery || (e.ended && via == Legacy)))
  {
    var effect := SlotStep(SessionOf(s, owner), call, via, reply);
    WithSelf(s, owner);
    if effect.event.None? {
    } else if call.Save? {
      WithoutKeeps(s, owner);
      SaveKeeps(Without(s, owner), owner, SessionOf(s, owner), call.name, call.action);
      WithoutThenWith(s, owner, effect.session);
    } else {
      ReplayKeeps(s, owner, call.name, call.generation, via, reply);
    }
  }

  lemma LegacySlotKeeps(s: State, call: SlotCall, w: World)
    requires Valid(s)
    ensures Valid(LegacySlotStep(s, call, w).0)
  {
    if !s.recovery && (s.legacy.Some? || w.connects) {
      ConnectedKeeps(s);
      SlotKeeps(Connected(s), ForLegacy, call, Legacy, w.reply);
    }
  }

  lemma CreateKeeps(s: State, w: World)
    requires Valid(s)
    ensures Valid(CreateStep(s, w).0)
  {
    if |s.contexts| < MAX_MODERN_CONTEXTS && w.connects {
      var conn, owner := |s.owners|, ForContext(s.next);
      var e := Sent(conn, Creating, SeatStatus, None, w.reply);
      var made := s.(owners := s.owners + [owner]);
      ConnectKeeps(s, owner);
      LogKeeps(made, e, owner);
      if w.reply != Dropped && s.next < U64_MAX {
        SessionKept(made.log, made.owners, e, Session(conn, map[]), owner);
        var logged := made.(log := Then(s.log, e));
        assert Valid(logged.(next := s.next + 1));
        WithKeeps(logged.(next := s.next + 1), owner, Session(conn, map[]));
      }
    }
  }

  lemma ModernCallKeeps(s: State, context: nat, call: Call, w: World)
    requires Valid(s)
    ensures Valid(ModernCallStep(s, context, call, w).0)
  {
    if context in s.contexts {
      var e := Sent(s.contexts[context].conn, Modern, call, None, w.reply);
      assert SessionOk(s.log, s.owners, s.contexts[context], ForContext(context));
      if Closes(e) {
        CloseKeeps(s, ForContext(context), e);
      } else {
        LogKeeps(s, e, ForContext(context));
      }
    }
  }

  lemma ModernSlotKeeps(s: State, context: nat, call: SlotCall, w: World)
    requires Valid(s)
    ensures Valid(ModernSlotStep(s, context, call, w).0)
  {
    if context in s.contexts {
      SlotKeeps(s, ForContext(context), call, Modern, w.reply);
    }
  }

  lemma StepKeeps(s: State, r: Request, w: World)
    requires Valid(s)
    ensures Valid(Step(s, r, w).0)
  {
    match r
    case LegacyCall(call) => LegacyCallKeeps(s, call, w);
    case LegacySlot(slot) => LegacySlotKeeps(s, slot, w);
    case Create => CreateKeeps(s, w);
    case ModernCall(context, call) => ModernCallKeeps(s, context, call, w);
    case ModernSlot(context, slot) => ModernSlotKeeps(s, context, slot, w);
    case Release(context) => WithoutKeeps(s, ForContext(context));
  }

  /** The limits on contexts and on the slots of each session. */
  ghost predicate ContextsBounded(contexts: map<nat, Session>) {
    && |contexts| <= MAX_MODERN_CONTEXTS
    && (forall c :: c in contexts ==> |contexts[c].slots| <= MAX_POINTER_SLOTS)
  }

  ghost predicate Bounded(s: State) {
    ContextsBounded(s.contexts) && (s.legacy.Some? ==> |s.legacy.value.slots| <= MAX_POINTER_SLOTS)
  }

  lemma Shrunk<K, V>(m: map<K, V>, k: K)
    ensures |m - {k}| <= |m|
  {
    assert (m - {k}).Keys == m.Keys - {k};
  }

  lemma Grown<K, V>(m: map<K, V>, k: K, v: V)
    ensures |m[k := v]| <= |m| + (if k in m then 0 else 1)
  {
    assert m[k := v].Keys == m.Keys + {k};
    if k in m {
      assert m.Keys + {k} == m.Keys;
    }
  }

  lemma SlotBounded(l: Session, call: SlotCall, via: Via, reply: Reply)
    requires |l.slots| <= MAX_POINTER_SLOTS
    ensures |SlotStep(l, call, via, reply).session.slots| <= MAX_POINTER_SLOTS
  {
    if call.Save? {
      Grown(l.slots, call.name, call.action);
    }
  }

  lemma RemovedBounded(contexts: map<nat, Session>, c: nat)
    requires ContextsBounded(contexts)
    ensures ContextsBounded(contexts - {c})
  {
    Shrunk(contexts, c);
  }

  lemma PutBounded(contexts: map<nat, Session>, c: nat, l: Session)
    requires ContextsBounded(contexts) && (c in contexts || |contexts| < MAX_MODERN_CONTEXTS)
    requires |l.slots| <= MAX_POINTER_SLOTS
    ensures ContextsBounded(contexts[c := l])
  {
    Grown(contexts, c, l);
  }

  lemma LegacySlotBounded(s: State, slot: SlotCall, w: World)
    requires Bounded(s)
    ensures Bounded(LegacySlotStep(s, slot, w).0)
  {
    SlotBounded(Connected(s).legacy.value, slot, Legacy, w.reply);
  }

  lemma ModernSlotBounded(s: State, context: nat, slot: SlotCall, w: World)
    requires Bounded(s)
    ensures Bounded(ModernSlotStep(s, context, slot, w).0)
  {
    if context in s.contexts {
      SlotBounded(s.contexts[context], slot, Modern, w.reply);
      RemovedBounded(s.contexts, context);
      PutBounded(s.contexts, context, SlotStep(s.contexts[context], slot, Modern, w.reply).session);
    }
  }

  lemma CreateBounded(s: State, w: World)
    requires Bounded(s)
    ensures Bounded(CreateStep(s, w).0)
  {
    if |s.contexts| < MAX_MODERN_CONTEXTS {
      PutBounded(s.contexts, s.next, Session(|s.owners|, map[]));
    }
  }

  lemma LegacyCallBounded(s: State, call: Call, w: World)
    requires Bounded(s)
    ensures Bounded(LegacyCallStep(s, call, w).0)
  {
  }

  lemma ModernCallBounded(s: State, context: nat, call: Call, w: World)
    requires Bounded(s)
    ensures Bounded(ModernCallStep(s, context, call, w).0)
  {
    RemovedBounded(s.contexts, context);
  }

  lemma StepBounded(s: State, r: Request, w: World)
    requires Bounded(s)
    ensures Bounded(Step(s, r, w).0)
  {
    match r
    case LegacyCall(call) => LegacyCallBounded(s, call, w);
    case LegacySlot(slot) => LegacySlotBounded(s, slot, w);
    case Create => CreateBounded(s, w);
    case ModernCall(context, call) => ModernCallBounded(s, context, call, w);
    case ModernSlot(context, slot) => ModernSlotBounded(s, context, slot, w);
    case Release(context) => RemovedBounded(s.contexts, context);
  }

  /** Requests only add to the log, identities only grow, and a context keeps its connection as long as it lives. */
  ghost predicate Progress(s: State, t: State) {
    && Events(s.log) <= Events(t.log) && s.next <= t.next
    && forall c :: c in t.contexts && c < s.next ==> c in s.contexts && t.contexts[c].conn == s.contexts[c].conn
  }

  lemma ProgressTransitive(s: State, t: State, u: State)
    requires Progress(s, t) && Progress(t, u)
    ensures Progress(s, u)
  {
  }

  lemma StepProgress(s: State, r: Request, w: World)
    ensures Progress(s, Step(s, r, w).0)
  {
    match r
    case LegacyCall(call) =>
    case LegacySlot(slot) =>
    case Create =>
    case ModernCall(context, call) =>
    case ModernSlot(context, slot) =>
    case Release(context) =>
  }

  // ----- whole runs -----

  /** The states a run goes through, one more than its requests. */
  ghost predicate IsRun(states: seq<State>, requests: seq<Request>, worlds: seq<World>) {
    && |requests| == |worlds| && |states| == |requests| + 1 && states[0] == Fresh
    && forall i :: 0 <= i < |requests| ==> states[i + 1] == Step(states[i], requests[i], worlds[i]).0
  }

  lemma {:induction false} RunValid(states: seq<State>, requests: seq<Request>, worlds: seq<World>, n: nat)
    requires IsRun(states, requests, worlds) && n < |states|
    ensures Valid(states[n])
  {
    if n > 0 {
      RunValid(states, requests, worlds, n - 1);
      StepKeeps(states[n - 1], requests[n - 1], worlds[n - 1]);
    }
  }

  lemma {:induction false} RunBounded(states: seq<State>, requests: seq<Request>, worlds: seq<World>, n: nat)
    requires IsRun(states, requests, worlds) && n < |states|
    ensures Bounded(states[n])
  {
    if n > 0 {
      RunBounded(states, requests, worlds, n - 1);
      StepBounded(states[n - 1], requests[n - 1], worlds[n - 1]);
    }
  }

  lemma {:induction false} RunProgress(states: seq<State>, requests: seq<Request>, worlds: seq<World>, i: nat, j: nat)
    requires IsRun(states, requests, worlds) && i <= j < |states|
    ensures Progress(states[i], states[j])
  {
    if i < j {
      RunProgress(states, requests, worlds, i, j - 1);
      StepProgress(states[j - 1], requests[j - 1], worlds[j - 1]);
      ProgressTransitive(states[i], states[j - 1], states[j]);
    }
  }

  lemma OpenedIs(s: State, r: Request, w: World)
    ensures Step(s, r, w).1.Opened? ==> Step(s, r, w).1.context == s.next && Step(s, r, w).0.next == s.next + 1
  {
  }

  /** At most eight contexts; each new identity is larger than all before it, and none comes back or changes hands. */
  lemma ContextsNeverReused(states: seq<State>, requests: seq<Request>, worlds: seq<World>, i: nat, j: nat)
    requires IsRun(states, requests, worlds) && i < j < |requests|
    ensures |states[j].contexts| <= MAX_MODERN_CONTEXTS
    ensures var a, b := Step(states[i], requests[i], worlds[i]).1, Step(states[j], requests[j], worlds[j]).1;
            a.Opened? && b.Opened? ==> a.context < b.context
    ensures forall c :: c in states[j].contexts && c < states[i].next ==>
              c in states[i].contexts && states[j].contexts[c].conn == states[i].contexts[c].conn
  {
    RunBounded(states, requests, worlds, j);
    RunProgress(states, requests, worlds, i, j);
    RunProgress(states, requests, worlds, i + 1, j);
    OpenedIs(states[i], requests[i], worlds[i]);
    OpenedIs(states[j], requests[j], worlds[j]);
  }

  /** The log before its event `i`, and what that event had to satisfy. */
  lemma {:induction false} LogOkAt(log: Log, i: nat) returns (before: Log)
    requires LogOk(log) && i < |Events(log)|
    ensures Events(before) == Events(log)[..i] && EventOk(before, Events(log)[i])
  {
    if i < |Events(log.before)| {
      before := LogOkAt(log.before, i);
      assert Events(log)[..i] == Events(log.before)[..i];
    } else {
      before := log.before;
    }
  }

  lemma {:induction false} StaysPending(log: Log, i: nat)
    requires i < |Events(log)| && LegacyEnd(Events(log)[i])
    requires forall k :: i < k < |Events(log)| ==> !IsRecovery(Events(log)[k])
    ensures Pending(log)
  {
    var n := |Events(log.before)|;
    assert Events(log)[n] == log.event;
    if i < n {
      assert forall k :: 0 <= k < n ==> Events(log)[k] == Events(log.before)[k];
      StaysPending(log.before, i);
    }
  }

  /** After a legacy session ends, no other legacy call than a status call is sent until one succeeds. */
  lemma StatusFirst(
    states: seq<State>, requests: seq<Request>, worlds: seq<World>, n: nat, events: seq<Event>, i: nat, j: nat)
    requires IsRun(states, requests, worlds) && n < |states| && events == Events(states[n].log)
    requires i < j < |events| && LegacyEnd(events[i])
    requires events[j].Sent? && events[j].via == Legacy && events[j].call != SeatStatus
    ensures exists k :: i < k < j && IsRecovery(events[k])
  {
    RunValid(states, requests, worlds, n);
    var before := LogOkAt(states[n].log, j);
    assert forall k :: 0 <= k < j ==> Events(before)[k] == events[k];
    if forall k :: i < k < j ==> !IsRecovery(events[k]) {
      StaysPending(before, i);
      assert false;
    }
  }

  lemma {:induction false} ClosedStays(log: Log, i: nat)
    requires i < |Events(log)| && Closes(Events(log)[i])
    ensures !Open(log, Events(log)[i].conn)
  {
    if i < |Events(log.before)| {
      ClosedStays(log.before, i);
    }
  }

  /** A closed connection is never used again. */
  lemma ClosedMeansClosed(
    states: seq<State>, requests: seq<Request>, worlds: seq<World>, n: nat, events: seq<Event>, i: nat, j: nat)
    requires IsRun(states, requests, worlds) && n < |states| && events == Events(states[n].log)
    requires i < j < |events| && Closes(events[i])
    ensures events[j].conn != events[i].conn
  {
    RunValid(states, requests, worlds, n);
    var before := LogOkAt(states[n].log, j);
    ClosedStays(before, i);
  }

  /** A replayed click is the last one saved under that name over the same connection, but for its generation. */
  lemma ReplayIsWhatWasSaved(
    states: seq<State>, requests: seq<Request>, worlds: seq<World>, n: nat, events: seq<Event>, j: nat)
    requires IsRun(states, requests, worlds) && n < |states| && events == Events(states[n].log)
    requires j < |events| && events[j].Sent? && events[j].slot.Some?
    ensures exists i ::
              0 <= i < j && SavesSlot(events[i], events[j]) && forall k :: i < k < j ==> !SavesName(events[k], events[j])
  {
    RunValid(states, requests, worlds, n);
    var before := LogOkAt(states[n].log, j);
    var i := LastSave(before, events[j].conn, events[j].slot.value);
    assert SavesSlot(events[i], events[j]);
    assert forall k :: i < k < j ==> Events(before)[k] == events[k];
  }

  predicate SavesName(e: Event, replay: Event)
    requires replay.Sent? && replay.slot.Some?
  {
    SavesAs(e, replay.conn, replay.slot.value)
  }

  predicate SavesSlot(e: Event, replay: Event)
    requires replay.Sent? && replay.slot.Some?
  {
    SavesName(e, replay) && replay.call.Click?
    && replay.call.action == e.action.(generation := replay.call.action.generation)
  }

  lemma {:induction false} LastSave(log: Log, conn: nat, name: string) returns (i: nat)
    requires name in SavedSlots(log, conn)
    ensures i < |Events(log)| && Events(log)[i] == Saved(conn, name, SavedSlots(log, conn)[name])
    ensures forall k :: i < k < |Events(log)| ==> !SavesAs(Events(log)[k], conn, name)
  {
    var n := |Events(log.before)|;
    if SavesAs(log.event, conn, name) {
      i := n;
    } else {
      i := LastSave(log.before, conn, name);
      assert forall k :: 0 <= k < n ==> Events(log)[k] == Events(log.before)[k];
    }
  }

  predicate SavesAs(e: Event, conn: nat, name: string) {
    e.Saved? && e.conn == conn && e.name == name
  }

  /**
   The exception in Closes is real: a context opened on a reply that asks for a reconnect is kept,
   and the next call with it goes out over that same connection.
   */
  lemma ReconnectAtCreationIsKept()
    ensures var first := Step(Fresh, Create, World(true, Reconnect));
            && first.1 == Opened(1, Reconnect)
            && Events(Step(first.0, ModernCall(1, Other(0)), World(true, Good)).0.log)
               == [Sent(0, Creating, SeatStatus, None, Reconnect), Sent(0, Modern, Other(0), None, Good)]
  {
    assert |Fresh.contexts| == 0;
  }

  // ----- the code -----

  /** The part of the server that holds provider sessions. */
  class Server {
    var legacy: Option<Session>
    var recovery: bool
    var contexts: map<nat, Session>
    var next: nat
    ghost var owners: seq<Owner>
    ghost var log: Log
    var connections: nat

    ghost function Now(): State
      reads this
    {
      State(legacy, recovery, contexts, next, owners, log)
    }

    ghost predicate Counted()
      reads this
    {
      connections == |owners|
    }

    constructor ()
      ensures Now() == Fresh && Counted()
    {
      legacy, recovery, contexts, next, connections := None, false, map[], 1, 0;
      owners, log := [], Empty;
    }

    /** `connect_seat`. */
    method Connect(ghost owner: Owner) returns (s: Session)
      requires Counted()
      modifies this`connections, this`owners
      ensures Counted() && owners == old(owners) + [owner] && s == Session(|old(owners)|, map[])
    {
      s := Session(connections, map[]);
      connections := connections + 1;
      owners := owners + [owner];
    }

    method ProviderCallLegacy(call: Call, w: World) returns (a: Answer)
      requires Counted()
      modifies this
      ensures Counted() && (Now(), a) == LegacyCallStep(old(Now()), call, w)
    {
      var isStatus := call == SeatStatus;
      if recovery && !isStatus {
        return StatusRequired;
      }
      if legacy.None? {
        if !w.connects {
          return NoProvider;
        }
        var session := Connect(ForLegacy);
        legacy := Some(session);
      }
      log := Then(log, Sent(legacy.value.conn, Legacy, call, None, w.reply));
      if w.reply == Dropped {
        legacy, recovery := None, true;
        return SessionEnded;
      }
      if w.reply == Reconnect {
        legacy, recovery := None, true;
      } else if isStatus && w.reply == Good {
        recovery := false;
      }
      a := Replied(w.reply);
    }

    /** `pointer_slot_call`, on a session taken out of the server. */
    method PointerSlotCall(s: Session, call: SlotCall, ghost via: Via, w: World)
      returns (session: Session, a: Answer, ended: bool, ghost event: Option<Event>)
      ensures var e := SlotStep(s, call, via, w.reply);
              session == e.session && a == e.answer && ended == e.ended && event == e.event
    {
      session, ended, event := s, false, None;
      if !call.valid {
        return s, Invalid, false, None;
      }
      match call {
        case Save(name, action, _) =>
          if |s.slots| >= MAX_POINTER_SLOTS && name !in s.slots {
            a := Capacity;
          } else {
            a := SlotSaved(name in s.slots);
            session := s.(slots := s.slots[name := action]);
            event := Some(Saved(s.conn, name, action));
          }
        case Replay(name, generation, _) =>
          if name !in s.slots {
            a := NotFound;
          } else {
            var action := s.slots[name].(generation := generation);
            event := Some(Sent(s.conn, via, Click(action), Some(name), w.reply));
            a, ended := AnswerTo(w.reply), Ends(w.reply);
          }
        case List(_) => a := Slots(s.slots);
      }
    }

    method PointerSlotLegacy(call: SlotCall, w: World) returns (a: Answer)
      requires Counted()
      modifies this
      ensures Counted() && (Now(), a) == LegacySlotStep(old(Now()), call, w)
    {
      if recovery {
        return StatusRequired;
      }
      if legacy.None? {
        if !w.connects {
          return NoProvider;
        }
        var session := Connect(ForLegacy);
        legacy := Some(session);
      }
      var session, ended;
      ghost var event;
      session, a, ended, event := PointerSlotCall(legacy.value, call, Legacy, w);
      legacy, log := Some(session), Logged(log, event);
      if ended {
        legacy, recovery := None, true;
      }
    }

    method CreateModernContext(w: World) returns (a: Answer)
      requires Counted()
      modifies this
      ensures Counted() && (Now(), a) == CreateStep(old(Now()), w)
    {
      if |contexts| >= MAX_MODERN_CONTEXTS {
        return Capacity;
      }
      if !w.connects {
        return NoProvider;
      }
      var session := Connect(ForContext(next));
      log := Then(log, Sent(session.conn, Creating, SeatStatus, None, w.reply));
      if w.reply == Dropped {
        return NoProvider;
      }
      if next == U64_MAX {
        return Capacity;
      }
      a := Opened(next, w.reply);
      contexts := contexts[next := session];
      next := next + 1;
    }

    method ProviderCallModern(context: nat, call: Call, w: World) returns (a: Answer)
      requires Counted()
      modifies this
      ensures Counted() && (Now(), a) == ModernCallStep(old(Now()), context, call, w)
    {
      if context !in contexts {
        return StaleContext;
      }
      log := Then(log, Sent(contexts[context].conn, Modern, call, None, w.reply));
      if Ends(w.reply) {
        contexts := contexts - {context};
      }
      a := if w.reply == Dropped then StaleContext else Replied(w.reply);
    }

    method PointerSlotModern(context: nat, call: SlotCall, w: World) returns (a: Answer)
      requires Counted()
      modifies this
      ensures Counted() && (Now(), a) == ModernSlotStep(old(Now()), context, call, w)
    {
      if context !in contexts {
        return StaleContext;
      }
      var session, ended;
      ghost var event;
      session, a, ended, event := PointerSlotCall(contexts[context], call, Modern, w);
      contexts, log := contexts[context := session], Logged(log, event);
      if ended {
        contexts := contexts - {context};
        assert contexts == old(contexts) - {context};
      }
      if a == SessionEnded {
        a := StaleContext;
      }
    }

    method SeatRelease(context: nat) returns (a: Answer)
      requires Counted()
      modifies this
      ensures Counted() && forall w :: (Now(), a) == Step(old(Now()), Release(context), w)
    {
      if context !in contexts {
        return StaleContext;
      }
      contexts := contexts - {context};
      a := Released;
    }
  }
}
