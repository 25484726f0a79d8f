/** The session observer itself: fields updated step by step, proved against ObserverSpec. */
module SessionObserver {
  import opened Prelude
  import opened Desktop
  import opened ObserverSpec

  class Observer {
    var model: Option<Model>
    var nextClient: nat
    var sequence: nat
    var subscribed: bool
    var subscribedKinds: seq<EventKind>
    var events: seq<Envelope>
    var retainedAfter: nat
    var resyncRequired: bool
    ghost var log: seq<Event>

    ghost function Now(): State
      reads this
    {
      State(model, nextClient, sequence, subscribed, subscribedKinds, events, retainedAfter, resyncRequired, log)
    }

    constructor ()
      ensures Now() == INITIAL
    {
      model, nextClient, sequence := None, 1, 0;
      subscribed, subscribedKinds, events := false, [], [];
      retainedAfter, resyncRequired, log := 0, false, [];
    }

    method PushEvent(event: Event) returns (ok: bool)
      modifies this
      ensures (Now(), ok) == Push(old(Now()), event)
    {
      if sequence >= U64_MAX {
        return false;
      }
      sequence := sequence + 1;
      log := log + [event];
      if !subscribed || resyncRequired || !Wanted(subscribedKinds, event) {
        return true;
      }
      if |events| == MAX_EVENTS {
        events := [];
        resyncRequired := true;
        return true;
      }
      events := events + [Envelope(sequence, event)];
      return true;
    }

    method ReportRemovals(previous: seq<Record>, raws: seq<RawClient>) returns (ok: bool)
      modifies this
      ensures (Now(), ok) == Removals(old(Now()), previous, raws)
    {
      var i := 0;
      while i < |previous|
        invariant 0 <= i <= |previous|
        invariant (Now(), true) == Removals(old(Now()), previous[..i], raws)
      {
        assert previous[..i + 1][..i] == previous[..i];
        if !HasXid(raws, previous[i].xid) {
          ok := PushEvent(ClientRemoved(previous[i].descriptor.id));
          if !ok {
            RemovalsStop(old(Now()), previous, i + 1, raws);
            return;
          }
        }
        i := i + 1;
      }
      assert previous[..i] == previous;
      ok := true;
    }

    method UpdateClient(previous: seq<Record>, raw: RawClient) returns (r: Option<Record>)
      modifies this
      ensures (Now(), r) == Update(old(Now()), previous, raw)
    {
      var prior := Prior(previous, raw.xid);
      if prior.Some? {
        var d := prior.value.descriptor;
        if raw.facts == d.facts {
          return Some(Record(raw.xid, d));
        }
        if d.generation >= U64_MAX {
          return None;
        }
        var changed := Descriptor(d.id, d.generation + 1, raw.facts);
        var ok := PushEvent(ClientChanged(changed));
        return if ok then Some(Record(raw.xid, changed)) else None;
      }
      if nextClient >= U64_MAX {
        return None;
      }
      var added := Descriptor(nextClient, 0, raw.facts);
      nextClient := nextClient + 1;
      var ok := PushEvent(ClientAdded(added));
      return if ok then Some(Record(raw.xid, added)) else None;
    }

    method UpdateClients(previous: seq<Record>, raws: seq<RawClient>) returns (records: seq<Record>, ok: bool)
      modifies this
      ensures (Now(), records, ok) == Updates(old(Now()), previous, raws)
    {
      records := [];
      var i := 0;
      while i < |raws|
        invariant 0 <= i <= |raws|
        invariant (Now(), records, true) == Updates(old(Now()), previous, raws[..i])
      {
        assert raws[..i + 1][..i] == raws[..i];
        var record := UpdateClient(previous, raws[i]);
        if record.None? {
          UpdatesStop(old(Now()), previous, raws, i + 1);
          return records, false;
        }
        records := records + [record.value];
        i := i + 1;
      }
      assert raws[..i] == raws;
      ok := true;
    }

    method DiffModel(previous: Model, raw: RawDesktop) returns (r: Option<Model>)
      modifies this
      ensures var (t, ok) := Diff(old(Now()), previous, raw);
              && Now() == t.(model := old(model)) && (ok <==> r.Some?) && (ok ==> t.model == r)
              && (!ok ==> t.model == old(model))
    {
      var ok := ReportRemovals(previous.clients, raw.clients);
      if !ok { RemovalsKeepModel(old(Now()), previous.clients, raw.clients); return None; }
      RemovalsKeepModel(old(Now()), previous.clients, raw.clients);
      label removed:
      var records;
      records, ok := UpdateClients(previous.clients, raw.clients);
      UpdatesKeepModel(old@removed(Now()), previous.clients, raw.clients);
      if !ok { return None; }
      var model' := Assemble(raw, records);
      ok := ReportTrailer(previous, model');
      r := if ok then Some(model') else None;
    }

    method ReportTrailer(previous: Model, model': Model) returns (ok: bool)
      modifies this
      ensures (Now(), ok) == Trailer(old(Now()), previous, model') && model == old(model)
    {
      ok := true;
      if previous.currentWorkspace != model'.currentWorkspace || previous.workspaces != model'.workspaces {
        ok := PushEvent(WorkspaceChanged(model'.currentWorkspace));
      }
      if ok && previous.active != model'.active {
        ok := PushEvent(ActiveChanged(model'.active));
      }
    }

    method InitialModel(raw: RawDesktop) returns (r: Option<Model>)
      modifies this
      ensures var (t, ok) := Initial(old(Now()), raw);
              && Now() == t.(model := old(model)) && (ok <==> r.Some?) && (ok ==> t.model == r)
              && (!ok ==> t.model == old(model))
    {
      var records: seq<Record> := [];
      var i := 0;
      while i < |raw.clients|
        invariant 0 <= i <= |raw.clients|
        invariant (Now(), records, true) == Fresh(old(Now()), raw.clients[..i])
        invariant model == old(model)
      {
        assert raw.clients[..i + 1][..i] == raw.clients[..i];
        if nextClient >= U64_MAX {
          FreshStop(old(Now()), raw.clients, i + 1);
          return None;
        }
        records := records + [Record(raw.clients[i].xid, Descriptor(nextClient, 0, raw.clients[i].facts))];
        nextClient := nextClient + 1;
        i := i + 1;
      }
      assert raw.clients[..i] == raw.clients;
      r := Some(Assemble(raw, records));
    }

    method RefreshModel(scan: Scan) returns (outcome: Refreshed)
      modifies this
      ensures (Now(), outcome) == Refresh(old(Now()), scan)
    {
      if scan.None? {
        return ScanFailed;
      }
      var previous := model;
      model := None;
      var next: Option<Model>;
      if previous.None? {
        next := InitialModel(scan.value);
      } else {
        next := DiffModel(previous.value, scan.value);
      }
      model := next;
      outcome := if next.Some? then Current else Exhausted;
    }

    method Snapshot(scan: Scan) returns (reply: Reply)
      modifies this
      ensures (Now(), reply) == TakeSnapshot(old(Now()), scan)
    {
      var outcome := RefreshModel(scan);
      if outcome != Current || model.None? {
        return Failed(outcome);
      }
      if resyncRequired {
        events, retainedAfter, resyncRequired := [], sequence, false;
      }
      reply := Reply.Snapshot(sequence, model.value);
    }

    method SubscribeTo(kinds: seq<EventKind>, scan: Scan) returns (reply: Reply)
      modifies this
      ensures (Now(), reply) == Subscribe(old(Now()), kinds, scan)
    {
      var outcome := RefreshModel(scan);
      if outcome != Current {
        return Failed(outcome);
      }
      subscribed, subscribedKinds, events := true, kinds, [];
      retainedAfter, resyncRequired := sequence, false;
      reply := Subscribed(sequence);
    }

    method PollEvents(after: nat, limit: nat, scans: seq<Scan>) returns (reply: Reply)
      requires scans != []
      modifies this
      ensures (Now(), reply) == Poll(old(Now()), after, limit, scans)
    {
      if !subscribed {
        return NotSubscribed;
      }
      if after < retainedAfter || after > sequence {
        return ResyncRequired(sequence);
      }
      while events != [] && events[0].sequence <= after
        invariant Acknowledge(Now(), after) == Acknowledge(old(Now()), after)
        decreases |events|
      {
        retainedAfter := events[0].sequence;
        events := events[1..];
      }
      var waited := 0;
      while true
        invariant 0 <= waited < |scans|
        invariant Await(Now(), after, limit, scans[waited..]) == Poll(old(Now()), after, limit, scans)
        decreases |scans| - waited
      {
        assert scans[waited..][1..] == scans[waited + 1..];
        var outcome := RefreshModel(scans[waited]);
        if outcome != Current {
          return Failed(outcome);
        }
        if resyncRequired {
          return ResyncRequired(sequence);
        }
        if (events != [] && events[0].sequence > after) || waited + 1 == |scans| {
          break;
        }
        waited := waited + 1;
      }
      var page := Take(Later(events, after), limit);
      reply := Batch(page, if page == [] then sequence else page[|page| - 1].sequence);
    }

    method TargetOf(id: nat, generation: nat) returns (reply: TargetReply)
      ensures reply == ResolveTarget(Now(), id, generation)
    {
      if model.None? {
        return NoSuchClient;
      }
      var records := model.value.clients;
      var i := 0;
      while i < |records|
        invariant 0 <= i <= |records|
        invariant RecordOf(records[i..], id) == RecordOf(records, id)
      {
        if records[i].descriptor.id == id {
          return if records[i].descriptor.generation != generation
                 then Stale(records[i].descriptor.generation) else Target(records[i]);
        }
        assert records[i..][1..] == records[i + 1..];
        i := i + 1;
      }
      reply := NoSuchClient;
    }
  }

  lemma {:induction false} RemovalsStop(s: State, records: seq<Record>, i: nat, raws: seq<RawClient>)
    requires i <= |records| && !Removals(s, records[..i], raws).1
    ensures Removals(s, records, raws) == Removals(s, records[..i], raws)
  {
    if i < |records| {
      var n := |records| - 1;
      assert records[..n][..i] == records[..i];
      RemovalsStop(s, records[..n], i, raws);
    } else {
      assert records[..i] == records;
    }
  }

  lemma {:induction false} UpdatesStop(s: State, previous: seq<Record>, raws: seq<RawClient>, i: nat)
    requires i <= |raws| && !Updates(s, previous, raws[..i]).2
    ensures Updates(s, previous, raws) == Updates(s, previous, raws[..i])
  {
    if i < |raws| {
      var n := |raws| - 1;
      assert raws[..n][..i] == raws[..i];
      UpdatesStop(s, previous, raws[..n], i);
    } else {
      assert raws[..i] == raws;
    }
  }

  lemma {:induction false} FreshStop(s: State, raws: seq<RawClient>, i: nat)
    requires i <= |raws| && !Fresh(s, raws[..i]).2
    ensures Fresh(s, raws) == Fresh(s, raws[..i])
  {
    if i < |raws| {
      var n := |raws| - 1;
      assert raws[..n][..i] == raws[..i];
      FreshStop(s, raws[..n], i);
    } else {
      assert raws[..i] == raws;
    }
  }

  lemma {:induction false} RemovalsKeepModel(s: State, records: seq<Record>, raws: seq<RawClient>)
    ensures Removals(s, records, raws).0.model == s.model
  {
    if records != [] {
      RemovalsKeepModel(s, records[..|records| - 1], raws);
    }
  }

  lemma {:induction false} UpdatesKeepModel(s: State, previous: seq<Record>, raws: seq<RawClient>)
    ensures Updates(s, previous, raws).0.model == s.model
  {
    if raws != [] {
      UpdatesKeepModel(s, previous, raws[..|raws| - 1]);
    }
  }
}
