/**
 The observer as a function of its state: what `refresh`, `snapshot`, `subscribe`
 and `poll` do, branch by branch, including the counters that can run out.

 `log` is a history variable: every event ever numbered, in order. Nothing reads it
 to decide anything; it is what the theorems talk about.
 */
module ObserverSpec {
  import opened Prelude
  import opened Desktop

  datatype State = State(
    model: Option<Model>,
    nextClient: nat,
    sequence: nat,
    subscribed: bool,
    kinds: seq<EventKind>,
    events: seq<Envelope>,
    retainedAfter: nat,
    resync: bool,
    log: seq<Event>)

  const INITIAL := State(None, 1, 0, false, [], [], 0, false, [])

  datatype Refreshed = Current | ScanFailed | Exhausted

  /** `push_event`; false when the sequence space is exhausted. */
  function Push(s: State, event: Event): (State, bool) {
    if s.sequence >= U64_MAX then (s, false)
    else
      var s1 := s.(sequence := s.sequence + 1, log := s.log + [event]);
      if !s.subscribed || s.resync || !Wanted(s.kinds, event) then (s1, true)
      else if |s.events| == MAX_EVENTS then (s1.(events := [], resync := true), true)
      else (s1.(events := s.events + [Envelope(s.sequence + 1, event)]), true)
  }

  /** The record the previous model held for a window. */
  function Prior(records: seq<Record>, xid: nat): (r: Option<Record>)
    ensures r.Some? ==> r.value in records && r.value.xid == xid
    ensures r.None? ==> forall p :: p in records ==> p.xid != xid
  {
    if records == [] then None
    else if records[|records| - 1].xid == xid then Some(records[|records| - 1])
    else Prior(records[..|records| - 1], xid)
  }

  /** The `ClientRemoved` loop of `diff_model`, over a prefix of the old clients. */
  function Removals(s: State, records: seq<Record>, raws: seq<RawClient>): (State, bool) {
    if records == [] then (s, true)
    else
      var n := |records| - 1;
      var (s1, ok) := Removals(s, records[..n], raws);
      if !ok || HasXid(raws, records[n].xid) then (s1, ok)
      else Push(s1, ClientRemoved(records[n].descriptor.id))
  }

  /** One turn of the update loop of `diff_model`; `None` when a counter ran out. */
  function Update(s: State, previous: seq<Record>, raw: RawClient): (State, Option<Record>) {
    match Prior(previous, raw.xid)
    case Some(prior) =>
      var d := prior.descriptor;
      if raw.facts == d.facts then (s, Some(Record(raw.xid, d)))
      else if d.generation >= U64_MAX then (s, None)
      else
        var changed := Descriptor(d.id, d.generation + 1, raw.facts);
        var (s1, ok) := Push(s, ClientChanged(changed));
        (s1, if ok then Some(Record(raw.xid, changed)) else None)
    case None =>
      if s.nextClient >= U64_MAX then (s, None)
      else
        var added := Descriptor(s.nextClient, 0, raw.facts);
        var (s1, ok) := Push(s.(nextClient := s.nextClient + 1), ClientAdded(added));
        (s1, if ok then Some(Record(raw.xid, added)) else None)
  }

  function Updates(s: State, previous: seq<Record>, raws: seq<RawClient>): (State, seq<Record>, bool) {
    if raws == [] then (s, [], true)
    else
      var n := |raws| - 1;
      var (s1, records, ok) := Updates(s, previous, raws[..n]);
      if !ok then (s1, records, false)
      else
        match Update(s1, previous, raws[n]) {
          case (s2, Some(record)) => (s2, records + [record], true)
          case (s2, None) => (s2, records, false)
        }
  }

  function ActiveOf(records: seq<Record>, active: Option<nat>): Option<nat> {
    if active.None? then None
    else
      match Prior(records, active.value)
      case Some(record) => Some(record.descriptor.id)
      case None => None
  }

  function Assemble(raw: RawDesktop, records: seq<Record>): Model {
    Model(raw.currentWorkspace, raw.workspaces, records, ActiveOf(records, raw.active))
  }

  /** The two trailing events of `diff_model`. */
  function Trailer(s: State, previous: Model, model: Model): (State, bool) {
    var (s1, ok1) :=
      if previous.currentWorkspace != model.currentWorkspace || previous.workspaces != model.workspaces
      then Push(s, WorkspaceChanged(model.currentWorkspace)) else (s, true);
    if !ok1 || previous.active == model.active then (s1, ok1)
    else Push(s1, ActiveChanged(model.active))
  }

  /** `diff_model`; the previous model is already taken out of the state. */
  function Diff(s: State, previous: Model, raw: RawDesktop): (State, bool) {
    var (s1, ok1) := Removals(s, previous.clients, raw.clients);
    if !ok1 then (s1, false)
    else
      var (s2, records, ok2) := Updates(s1, previous.clients, raw.clients);
      if !ok2 then (s2, false)
      else
        var model := Assemble(raw, records);
        var (s3, ok3) := Trailer(s2, previous, model);
        (if ok3 then s3.(model := Some(model)) else s3, ok3)
  }

  /** The loop of `initial_model`: it allocates identities and reports nothing. */
  function Fresh(s: State, raws: seq<RawClient>): (State, seq<Record>, bool) {
    if raws == [] then (s, [], true)
    else
      var n := |raws| - 1;
      var (s1, records, ok) := Fresh(s, raws[..n]);
      if !ok || s1.nextClient >= U64_MAX then (s1, records, false)
      else
        (s1.(nextClient := s1.nextClient + 1),
         records + [Record(raws[n].xid, Descriptor(s1.nextClient, 0, raws[n].facts))],
         true)
  }

  function Initial(s: State, raw: RawDesktop): (State, bool) {
    var (s1, records, ok) := Fresh(s, raw.clients);
    (if ok then s1.(model := Some(Assemble(raw, records))) else s1, ok)
  }

  function Refresh(s: State, scan: Scan): (State, Refreshed) {
    match scan
    case None => (s, ScanFailed)
    case Some(raw) =>
      var (s1, ok) :=
        match s.model
        case None => Initial(s, raw)
        case Some(previous) => Diff(s.(model := None), previous, raw);
      (s1, if ok then Current else Exhausted)
  }

  datatype Reply =
    | Snapshot(sequence: nat, model: Model)
    | Subscribed(cursor: nat)
    | Batch(events: seq<Envelope>, cursor: nat)
    | NotSubscribed
    | ResyncRequired(latest: nat)
    | Failed(cause: Refreshed)

  /** `snapshot`: a pending resynchronisation ends here. */
  function TakeSnapshot(s: State, scan: Scan): (State, Reply) {
    var (s1, outcome) := Refresh(s, scan);
    if outcome != Current || s1.model.None? then (s1, Failed(outcome))
    else
      var s2 := if s1.resync
                then s1.(events := [], retainedAfter := s1.sequence, resync := false)
                else s1;
      (s2, Snapshot(s2.sequence, s2.model.value))
  }

  function Subscribe(s: State, kinds: seq<EventKind>, scan: Scan): (State, Reply) {
    var (s1, outcome) := Refresh(s, scan);
    if outcome != Current then (s1, Failed(outcome))
    else
      (s1.(subscribed := true, kinds := kinds, events := [],
           retainedAfter := s1.sequence, resync := false),
       Subscribed(s1.sequence))
  }

  /** The acknowledging loop at the head of `poll`. */
  function Acknowledge(s: State, after: nat): State
    decreases |s.events|
  {
    if s.events != [] && s.events[0].sequence <= after
    then Acknowledge(s.(events := s.events[1..], retainedAfter := s.events[0].sequence), after)
    else s
  }

  function Later(events: seq<Envelope>, after: nat): seq<Envelope> {
    if events == [] then []
    else
      var n := |events| - 1;
      Later(events[..n], after) + (if events[n].sequence > after then [events[n]] else [])
  }

  function Take<T>(items: seq<T>, limit: nat): seq<T> {
    if |items| <= limit then items else items[..limit]
  }

  function Page(s: State, after: nat, limit: nat): Reply {
    var events := Take(Later(s.events, after), limit);
    Batch(events, if events == [] then s.sequence else events[|events| - 1].sequence)
  }

  /**
   The waiting loop of `poll`. `scans` are the successive desktop scans it performs;
   the deadline passes with the last of them.
   */
  function Await(s: State, after: nat, limit: nat, scans: seq<Scan>): (State, Reply)
    requires scans != []
    decreases |scans|
  {
    var (s1, outcome) := Refresh(s, scans[0]);
    if outcome != Current then (s1, Failed(outcome))
    else if s1.resync then (s1, ResyncRequired(s1.sequence))
    else if (s1.events != [] && s1.events[0].sequence > after) || |scans| == 1
    then (s1, Page(s1, after, limit))
    else Await(s1, after, limit, scans[1..])
  }

  function Poll(s: State, after: nat, limit: nat, scans: seq<Scan>): (State, Reply)
    requires scans != []
  {
    if !s.subscribed then (s, NotSubscribed)
    else if after < s.retainedAfter || after > s.sequence then (s, ResyncRequired(s.sequence))
    else Await(Acknowledge(s, after), after, limit, scans)
  }

  datatype TargetReply = Target(record: Record) | NoSuchClient | Stale(current: nat)

  function RecordOf(records: seq<Record>, id: nat): Option<Record> {
    if records == [] then None
    else if records[0].descriptor.id == id then Some(records[0])
    else RecordOf(records[1..], id)
  }

  /** `target`: the freshness check in front of every action. */
  function ResolveTarget(s: State, id: nat, generation: nat): TargetReply {
    match if s.model.Some? then RecordOf(s.model.value.clients, id) else None
    case None => NoSuchClient
    case Some(record) =>
      if record.descriptor.generation != generation then Stale(record.descriptor.generation)
      else Target(record)
  }
}
