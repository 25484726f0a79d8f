/** What every refresh keeps: the queue is an exact window on the log, and the log replays the model. */
module ObserverProofs {
  import opened Prelude
  import opened Desktop
  import opened ObserverSpec

  /** The numbered events after a cursor that a subscription asks for. */
  function Matching(log: seq<Event>, kinds: seq<EventKind>, after: nat): seq<Envelope> {
    if |log| <= after then []
    else
      var n := |log| - 1;
      Matching(log[..n], kinds, after) + (if Wanted(kinds, log[n]) then [Envelope(n + 1, log[n])] else [])
  }

  ghost predicate QueueOk(s: State) {
    && s.retainedAfter <= s.sequence
    && |s.events| <= MAX_EVENTS
    && (!s.subscribed ==> s.events == [] && !s.resync)
    && (s.subscribed && !s.resync ==> s.events == Matching(s.log, s.kinds, s.retainedAfter))
    && (s.resync ==> s.events == [] && |Matching(s.log, s.kinds, s.retainedAfter)| > MAX_EVENTS)
  }

  ghost predicate RecordsOk(records: seq<Record>, next: nat) {
    && DistinctIds(records)
    && DistinctXids(records)
    && forall i :: 0 <= i < |records| ==> 1 <= records[i].descriptor.id < next
  }

  ghost predicate HasId(records: seq<Record>, id: nat) {
    exists i :: 0 <= i < |records| && records[i].descriptor.id == id
  }

  ghost predicate ModelOk(m: Model, next: nat) {
    && RecordsOk(m.clients, next)
    && |m.clients| <= MAX_CLIENTS
    && 1 <= |m.workspaces| <= MAX_WORKSPACES
    && (forall i :: 0 <= i < |m.workspaces| ==> m.workspaces[i].id == i)
    && m.currentWorkspace < |m.workspaces|
    && (m.active.Some? ==> HasId(m.clients, m.active.value))
  }

  ghost predicate Valid(s: State) {
    && s.sequence == |s.log| <= U64_MAX
    && 1 <= s.nextClient
    && (s.model.Some? ==> ModelOk(s.model.value, s.nextClient))
    && QueueOk(s)
  }

  /** What any part of a refresh may change. */
  ghost predicate Grows(s: State, t: State) {
    && s.log <= t.log
    && t.sequence == |t.log| <= U64_MAX
    && s.nextClient <= t.nextClient
    && t.subscribed == s.subscribed && t.kinds == s.kinds && t.retainedAfter == s.retainedAfter
    && (s.resync ==> t.resync)
    && QueueOk(t)
  }

  ghost predicate Sound(s: State) {
    s.sequence == |s.log| <= U64_MAX && QueueOk(s)
  }

  /** The view after the events numbered since the log was `k` long. */
  function Since(view: View, s: State, k: nat): View
    requires k <= |s.log|
  {
    Fold(view, s.log[k..])
  }

  lemma PushGrows(s: State, event: Event)
    requires Sound(s)
    ensures Grows(s, Push(s, event).0)
    ensures Push(s, event).0.model == s.model && Push(s, event).0.nextClient == s.nextClient
    ensures Push(s, event).1 <==> s.sequence < U64_MAX
  {
    if s.sequence < U64_MAX {
      var log := s.log + [event];
      assert log[..|s.log|] == s.log;
      assert Matching(log, s.kinds, s.retainedAfter) ==
             Matching(s.log, s.kinds, s.retainedAfter) +
             (if Wanted(s.kinds, event) then [Envelope(|s.log| + 1, event)] else []);
    }
  }

  lemma PushFolds(view: View, s: State, event: Event, k: nat)
    requires Sound(s) && k <= |s.log| && s.sequence < U64_MAX
    ensures k <= |Push(s, event).0.log|
    ensures Since(view, Push(s, event).0, k) == Apply(Since(view, s, k), event)
  {
    var suffix := s.log[k..];
    assert (s.log + [event])[k..] == suffix + [event];
    assert (suffix + [event])[..|suffix|] == suffix;
  }

  lemma GrowsTransitive(s: State, t: State, u: State)
    requires Grows(s, t) && Grows(t, u)
    ensures Grows(s, u)
  {
  }

  lemma SinceCompose(view: View, s: State, t: State, u: State)
    requires s.log <= t.log <= u.log
    ensures Since(view, u, |s.log|) == Since(Since(view, t, |s.log|), u, |t.log|)
  {
    assert u.log[|s.log|..] == t.log[|s.log|..] + u.log[|t.log|..];
    FoldConcat(view, t.log[|s.log|..], u.log[|t.log|..]);
  }

  // ----- removals -----

  function DeadIds(records: seq<Record>, raws: seq<RawClient>): set<nat> {
    set r | r in records && !HasXid(raws, r.xid) :: r.descriptor.id
  }

  lemma {:induction false} RemovalsGrow(s: State, records: seq<Record>, raws: seq<RawClient>)
    requires Sound(s)
    ensures var t := Removals(s, records, raws).0;
            Grows(s, t) && t.model == s.model && t.nextClient == s.nextClient
  {
    if records != [] {
      var n := |records| - 1;
      RemovalsGrow(s, records[..n], raws);
      var t, e := Removals(s, records[..n], raws).0, ClientRemoved(records[n].descriptor.id);
      PushGrows(t, e);
      GrowsTransitive(s, t, Push(t, e).0);
    }
  }

  lemma DeadIdsLast(records: seq<Record>, raws: seq<RawClient>)
    requires records != []
    ensures var n := |records| - 1;
            DeadIds(records, raws) == DeadIds(records[..n], raws) +
                                      (if HasXid(raws, records[n].xid) then {} else {records[n].descriptor.id})
  {
    var n := |records| - 1;
    assert records == records[..n] + [records[n]];
  }

  lemma {:induction false} RemovalsReplay(view: View, s: State, records: seq<Record>, raws: seq<RawClient>)
    requires Sound(s) && Removals(s, records, raws).1
    ensures |s.log| <= |Removals(s, records, raws).0.log|
    ensures Since(view, Removals(s, records, raws).0, |s.log|)
         == view.(clients := view.clients - DeadIds(records, raws))
  {
    if records == [] {
      assert s.log[|s.log|..] == [];
      assert view.clients - DeadIds(records, raws) == view.clients;
    } else {
      var n := |records| - 1;
      var t := Removals(s, records[..n], raws).0;
      RemovalsReplay(view, s, records[..n], raws);
      RemovalsGrow(s, records[..n], raws);
      DeadIdsLast(records, raws);
      if !HasXid(raws, records[n].xid) {
        PushFolds(view, t, ClientRemoved(records[n].descriptor.id), |s.log|);
      }
      assert view.clients - DeadIds(records, raws)
          == view.clients - DeadIds(records[..n], raws) - (DeadIds(records, raws) - DeadIds(records[..n], raws));
    }
  }

  // ----- updates -----

  /** How a record of the new model comes from the old one. */
  ghost predicate Descends(r: Record, previous: seq<Record>, low: nat) {
    match Prior(previous, r.xid)
    case Some(p) =>
      && r.descriptor.id == p.descriptor.id
      && (r.descriptor == p.descriptor
          || (r.descriptor.generation == p.descriptor.generation + 1 && r.descriptor.facts != p.descriptor.facts))
    case None => low <= r.descriptor.id && r.descriptor.generation == 0
  }

  ghost predicate Descend(records: seq<Record>, raws: seq<RawClient>, previous: seq<Record>, low: nat) {
    && |records| == |raws|
    && forall i :: 0 <= i < |raws| ==>
         && records[i].xid == raws[i].xid && records[i].descriptor.facts == raws[i].facts
         && Descends(records[i], previous, low)
  }

  ghost predicate DistinctRaw(raws: seq<RawClient>) {
    forall i, j :: 0 <= i < j < |raws| ==> raws[i].xid != raws[j].xid
  }

  /** Before the updates every surviving client is still at its old descriptor. */
  ghost predicate Base(clients: map<nat, Descriptor>, previous: seq<Record>, raws: seq<RawClient>) {
    forall p :: p in previous && HasXid(raws, p.xid) ==>
      p.descriptor.id in clients && clients[p.descriptor.id] == p.descriptor
  }

  lemma FreshIdentity(records: seq<Record>, raws: seq<RawClient>, previous: seq<Record>, low: nat, r: Record, next: nat)
    requires RecordsOk(previous, low) && DistinctRaw(raws) && |raws| == |records| + 1
    requires Descend(records, raws[..|records|], previous, low) && RecordsOk(records, next)
    requires r.xid == raws[|records|].xid && Descends(r, previous, low)
    requires Prior(previous, r.xid).None? ==> r.descriptor.id == next
    ensures forall i :: 0 <= i < |records| ==> records[i].descriptor.id != r.descriptor.id && records[i].xid != r.xid
  {
    forall i | 0 <= i < |records|
      ensures records[i].descriptor.id != r.descriptor.id && records[i].xid != r.xid
    {
      assert records[i].xid == raws[i].xid;
      if Prior(previous, r.xid).Some? && Prior(previous, records[i].xid).Some? {
        var p, q := Prior(previous, r.xid).value, Prior(previous, records[i].xid).value;
        var j :| 0 <= j < |previous| && previous[j] == p;
        var k :| 0 <= k < |previous| && previous[k] == q;
      }
    }
  }

  lemma UpdateShape(s: State, previous: seq<Record>, raw: RawClient)
    requires RecordsOk(previous, s.nextClient) && 1 <= s.nextClient
    ensures var (t, r) := Update(s, previous, raw);
            r.Some? ==>
              && r.value.xid == raw.xid && r.value.descriptor.facts == raw.facts
              && Descends(r.value, previous, s.nextClient)
              && (Prior(previous, raw.xid).None? ==> r.value.descriptor.id == s.nextClient)
              && 1 <= r.value.descriptor.id < t.nextClient
  {
    var prior := Prior(previous, raw.xid);
    if prior.Some? {
      var i :| 0 <= i < |previous| && previous[i] == prior.value;
    }
  }

  lemma UpdateGrows(s: State, previous: seq<Record>, raw: RawClient)
    requires Sound(s)
    ensures Grows(s, Update(s, previous, raw).0)
    ensures Update(s, previous, raw).0.model == s.model
  {
    var t := Update(s, previous, raw).0;
    if t != s {
      var s0, e := UpdatePushes(s, previous, raw);
      PushGrows(s0, e);
    }
  }

  lemma UpdatePushes(s: State, previous: seq<Record>, raw: RawClient) returns (s0: State, e: Event)
    requires Update(s, previous, raw).0 != s
    ensures s0 == s.(nextClient := s0.nextClient) && s.nextClient <= s0.nextClient
    ensures Update(s, previous, raw).0 == Push(s0, e).0
  {
    var prior := Prior(previous, raw.xid);
    if prior.Some? {
      var d := prior.value.descriptor;
      s0, e := s, ClientChanged(Descriptor(d.id, d.generation + 1, raw.facts));
    } else {
      s0, e := s.(nextClient := s.nextClient + 1), ClientAdded(Descriptor(s.nextClient, 0, raw.facts));
    }
  }

  /** An unreported update left the descriptor as it was; a reported one carries it whole. */
  lemma UpdateFolds(view: View, s: State, previous: seq<Record>, raw: RawClient, k: nat)
    requires Sound(s) && k <= |s.log| && Update(s, previous, raw).1.Some?
    ensures k <= |Update(s, previous, raw).0.log|
    ensures var (t, r) := Update(s, previous, raw);
            var d := r.value.descriptor;
            var before, after := Since(view, s, k), Since(view, t, k);
            || (after == before && Prior(previous, raw.xid).Some? && Prior(previous, raw.xid).value.descriptor == d)
            || after == before.(clients := before.clients[d.id := d])
  {
    match Prior(previous, raw.xid)
    case Some(prior) =>
      var d := prior.descriptor;
      if raw.facts != d.facts {
        PushFolds(view, s, ClientChanged(Descriptor(d.id, d.generation + 1, raw.facts)), k);
      }
    case None =>
      PushFolds(view, s.(nextClient := s.nextClient + 1), ClientAdded(Descriptor(s.nextClient, 0, raw.facts)), k);
  }

  lemma {:induction false} UpdatesGrow(s: State, previous: seq<Record>, raws: seq<RawClient>)
    requires Sound(s)
    ensures Grows(s, Updates(s, previous, raws).0)
    ensures Updates(s, previous, raws).0.model == s.model
  {
    if raws != [] {
      var n := |raws| - 1;
      UpdatesGrow(s, previous, raws[..n]);
      var (t, _, ok) := Updates(s, previous, raws[..n]);
      if ok {
        UpdateGrows(t, previous, raws[n]);
        GrowsTransitive(s, t, Update(t, previous, raws[n]).0);
      }
    }
  }

  lemma {:induction false} UpdatesShape(s: State, previous: seq<Record>, raws: seq<RawClient>)
    requires Sound(s) && 1 <= s.nextClient && RecordsOk(previous, s.nextClient) && DistinctRaw(raws)
    ensures var (t, records, ok) := Updates(s, previous, raws);
            ok ==> Descend(records, raws, previous, s.nextClient) && RecordsOk(records, t.nextClient)
  {
    if raws != [] {
      var n := |raws| - 1;
      UpdatesShape(s, previous, raws[..n]);
      UpdatesGrow(s, previous, raws[..n]);
      var (t, records, ok) := Updates(s, previous, raws[..n]);
      if ok {
        UpdateShape(t, previous, raws[n]);
        UpdateGrows(t, previous, raws[n]);
        var (u, r) := Update(t, previous, raws[n]);
        if r.Some? {
          FreshIdentity(records, raws, previous, s.nextClient, r.value, t.nextClient);
          AppendedShape(records, raws, previous, s.nextClient, r.value, t.nextClient, u.nextClient);
        }
      }
    }
  }

  lemma AppendedShape(
      records: seq<Record>, raws: seq<RawClient>, previous: seq<Record>, low: nat, r: Record, next: nat, next': nat)
    requires |raws| == |records| + 1 && next <= next'
    requires Descend(records, raws[..|records|], previous, low) && RecordsOk(records, next)
    requires r.xid == raws[|records|].xid && r.descriptor.facts == raws[|records|].facts
    requires Descends(r, previous, low) && 1 <= r.descriptor.id < next'
    requires forall i :: 0 <= i < |records| ==> records[i].descriptor.id != r.descriptor.id && records[i].xid != r.xid
    ensures Descend(records + [r], raws, previous, low) && RecordsOk(records + [r], next')
  {
  }

  lemma {:induction false} UpdatesReplay(view: View, s: State, previous: seq<Record>, raws: seq<RawClient>)
    requires Sound(s) && 1 <= s.nextClient && RecordsOk(previous, s.nextClient)
    requires DistinctRaw(raws) && Base(view.clients, previous, raws)
    requires Updates(s, previous, raws).2
    ensures |s.log| <= |Updates(s, previous, raws).0.log|
    ensures Since(view, Updates(s, previous, raws).0, |s.log|)
         == view.(clients := view.clients + ClientMap(Updates(s, previous, raws).1))
  {
    UpdatesGrow(s, previous, raws);
    if raws == [] {
      assert s.log[|s.log|..] == [];
      assert view.clients + ClientMap([]) == view.clients;
    } else {
      var n := |raws| - 1;
      var (t, records, _) := Updates(s, previous, raws[..n]);
      UpdatesReplay(view, s, previous, raws[..n]);
      UpdatesGrow(s, previous, raws[..n]);
      UpdateFolds(view, t, previous, raws[n], |s.log|);
      UpdatesShape(s, previous, raws);
      AppendedClient(view.clients, previous, raws, records, Update(t, previous, raws[n]).1.value);
    }
  }

  lemma AppendedClient(
      clients: map<nat, Descriptor>, previous: seq<Record>, raws: seq<RawClient>, records: seq<Record>, r: Record)
    requires Base(clients, previous, raws) && HasXid(raws, r.xid) && DistinctIds(records + [r])
    ensures clients + ClientMap(records + [r])
         == (clients + ClientMap(records))[r.descriptor.id := r.descriptor]
    ensures Prior(previous, r.xid).Some? && Prior(previous, r.xid).value.descriptor == r.descriptor ==>
              clients + ClientMap(records + [r]) == clients + ClientMap(records)
  {
    var all := records + [r];
    assert all[..|records|] == records;
    ClientMapDomain(records);
    forall i | 0 <= i < |records| ensures records[i].descriptor.id != r.descriptor.id {
      assert all[i] == records[i] && all[|records|] == r;
    }
    assert clients + ClientMap(all) == (clients + ClientMap(records))[r.descriptor.id := r.descriptor];
  }

  // ----- the whole refresh -----

  lemma TrailerReplay(view: View, s: State, previous: Model, model: Model, k: nat)
    requires Sound(s) && k <= |s.log|
    requires Since(view, s, k).active == previous.active && Since(view, s, k).workspace == previous.currentWorkspace
    ensures var (t, ok) := Trailer(s, previous, model);
            && Grows(s, t) && t.model == s.model && t.nextClient == s.nextClient
            && (ok ==>
                  Since(view, t, k) == Since(view, s, k).(active := model.active, workspace := model.currentWorkspace))
  {
    var e1, e2 := WorkspaceChanged(model.currentWorkspace), ActiveChanged(model.active);
    var changed := previous.currentWorkspace != model.currentWorkspace || previous.workspaces != model.workspaces;
    var t := if changed then Push(s, e1).0 else s;
    if changed {
      PushGrows(s, e1);
      if s.sequence < U64_MAX { PushFolds(view, s, e1, k); }
    }
    if previous.active != model.active && (changed ==> s.sequence < U64_MAX) {
      PushGrows(t, e2);
      GrowsTransitive(s, t, Push(t, e2).0);
      if t.sequence < U64_MAX { PushFolds(view, t, e2, k); }
    }
  }

  lemma AssembledOk(raw: RawDesktop, records: seq<Record>, next: nat)
    requires ScanOk(raw) && RecordsOk(records, next) && |records| == |raw.clients|
    requires forall i :: 0 <= i < |records| ==> records[i].xid == raw.clients[i].xid
    ensures ModelOk(Assemble(raw, records), next)
  {
    if raw.active.Some? {
      var i :| 0 <= i < |raw.clients| && raw.clients[i].xid == raw.active.value;
      assert records[i] in records;
    }
  }

  lemma SurvivorsAreBase(previous: seq<Record>, raws: seq<RawClient>)
    requires DistinctIds(previous)
    ensures Base(ClientMap(previous) - DeadIds(previous, raws), previous, raws)
  {
    forall p | p in previous && HasXid(raws, p.xid)
      ensures p.descriptor.id !in DeadIds(previous, raws)
      ensures p.descriptor.id in ClientMap(previous) && ClientMap(previous)[p.descriptor.id] == p.descriptor
    {
      var i :| 0 <= i < |previous| && previous[i] == p;
      ClientMapAt(previous, i);
      forall q | q in previous && !HasXid(raws, q.xid) ensures q.descriptor.id != p.descriptor.id {
        var j :| 0 <= j < |previous| && previous[j] == q;
      }
    }
  }

  /** Every client that survives the scan is rewritten by the new records. */
  lemma NothingLeftOver(previous: seq<Record>, raws: seq<RawClient>, records: seq<Record>, low: nat)
    requires RecordsOk(previous, low) && Descend(records, raws, previous, low)
    ensures (ClientMap(previous) - DeadIds(previous, raws)) + ClientMap(records) == ClientMap(records)
  {
    ClientMapDomain(previous);
    ClientMapDomain(records);
    forall id | id in ClientMap(previous) && id !in DeadIds(previous, raws)
      ensures id in ClientMap(records)
    {
      var i :| 0 <= i < |previous| && previous[i].descriptor.id == id;
      assert previous[i] in previous;
      var j :| 0 <= j < |raws| && raws[j].xid == previous[i].xid;
      var p := Prior(previous, raws[j].xid).value;
      var k :| 0 <= k < |previous| && previous[k] == p;
      assert k == i;
      assert records[j].descriptor.id == id;
    }
  }

  lemma DiffKeeps(s: State, previous: Model, raw: RawDesktop)
    requires Sound(s) && s.model.None? && 1 <= s.nextClient && ModelOk(previous, s.nextClient) && ScanOk(raw)
    ensures var (t, ok) := Diff(s, previous, raw);
            && Grows(s, t)
            && (ok ==> t.model.Some? && ModelOk(t.model.value, t.nextClient)
                       && Since(ViewOf(previous), t, |s.log|) == ViewOf(t.model.value)
                       && Descend(t.model.value.clients, raw.clients, previous.clients, s.nextClient))
            && (!ok ==> t.model.None?)
  {
    var v0 := ViewOf(previous);
    RemovalsGrow(s, previous.clients, raw.clients);
    var (s1, ok1) := Removals(s, previous.clients, raw.clients);
    if ok1 {
      RemovalsReplay(v0, s, previous.clients, raw.clients);
      var v1 := v0.(clients := v0.clients - DeadIds(previous.clients, raw.clients));
      SurvivorsAreBase(previous.clients, raw.clients);
      UpdatesGrow(s1, previous.clients, raw.clients);
      var (s2, records, ok2) := Updates(s1, previous.clients, raw.clients);
      GrowsTransitive(s, s1, s2);
      if ok2 {
        UpdatesShape(s1, previous.clients, raw.clients);
        UpdatesReplay(v1, s1, previous.clients, raw.clients);
        NothingLeftOver(previous.clients, raw.clients, records, s.nextClient);
        SinceCompose(v0, s, s1, s2);
        var model := Assemble(raw, records);
        AssembledOk(raw, records, s2.nextClient);
        TrailerReplay(v0, s2, previous, model, |s.log|);
        GrowsTransitive(s, s2, Trailer(s2, previous, model).0);
      }
    }
  }

  lemma {:induction false} FreshKeeps(s: State, raws: seq<RawClient>)
    requires Sound(s) && 1 <= s.nextClient && DistinctRaw(raws)
    ensures var (t, records, ok) := Fresh(s, raws);
            && t == s.(nextClient := t.nextClient) && s.nextClient <= t.nextClient
            && (ok ==> |records| == |raws| && RecordsOk(records, t.nextClient)
                       && forall i :: 0 <= i < |raws| ==>
                            records[i].xid == raws[i].xid && s.nextClient <= records[i].descriptor.id)
  {
    if raws != [] {
      FreshKeeps(s, raws[..|raws| - 1]);
    }
  }

  lemma RefreshKeeps(s: State, scan: Scan)
    requires Valid(s) && (scan.Some? ==> ScanOk(scan.value))
    ensures var (t, outcome) := Refresh(s, scan);
            && Valid(t) && Grows(s, t)
            && (outcome == ScanFailed ==> t == s)
            && (outcome == Exhausted ==> t.model.None?)
            && (outcome == Current ==> t.model.Some?)
            && (outcome == Current && s.model.Some? ==>
                  Since(ViewOf(s.model.value), t, |s.log|) == ViewOf(t.model.value))
  {
    if scan.Some? {
      if s.model.None? {
        FreshKeeps(s, scan.value.clients);
        var (t, records, ok) := Fresh(s, scan.value.clients);
        if ok { AssembledOk(scan.value, records, t.nextClient); }
      } else {
        DiffKeeps(s.(model := None), s.model.value, scan.value);
      }
    }
  }
}
