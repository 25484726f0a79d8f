/** When a refresh succeeds: exactly when no counter runs out, and what is lost when one does. */
module ObserverLimits {
  import opened Prelude
  import opened Desktop
  import opened ObserverSpec
  import opened ObserverProofs
  import opened ObserverTheorems

  function Vanished(records: seq<Record>, raws: seq<RawClient>): nat {
    if records == [] then 0
    else Vanished(records[..|records| - 1], raws) + (if HasXid(raws, records[|records| - 1].xid) then 0 else 1)
  }

  predicate Arrives(previous: seq<Record>, raw: RawClient) {
    Prior(previous, raw.xid).None?
  }

  predicate Changes(previous: seq<Record>, raw: RawClient) {
    Prior(previous, raw.xid).Some? && Prior(previous, raw.xid).value.descriptor.facts != raw.facts
  }

  function Arrivals(previous: seq<Record>, raws: seq<RawClient>): nat {
    if raws == [] then 0
    else Arrivals(previous, raws[..|raws| - 1]) + (if Arrives(previous, raws[|raws| - 1]) then 1 else 0)
  }

  function Reports(previous: seq<Record>, raws: seq<RawClient>): nat {
    if raws == [] then 0
    else
      var last := raws[|raws| - 1];
      Reports(previous, raws[..|raws| - 1]) + (if Arrives(previous, last) || Changes(previous, last) then 1 else 0)
  }

  /** Some changed client already carries the last generation. */
  predicate Worn(previous: seq<Record>, raws: seq<RawClient>) {
    exists i :: 0 <= i < |raws| && Changes(previous, raws[i]) &&
      Prior(previous, raws[i].xid).value.descriptor.generation >= U64_MAX
  }

  predicate WorkspacesMove(previous: Model, raw: RawDesktop) {
    previous.currentWorkspace != raw.currentWorkspace || previous.workspaces != raw.workspaces
  }

  predicate ActiveMoves(previous: Model, raw: RawDesktop) {
    match raw.active
    case None => previous.active.Some?
    case Some(xid) =>
      match Prior(previous.clients, xid)
      case None => true
      case Some(p) => previous.active != Some(p.descriptor.id)
  }

  /** Whether the counters have room for what a scan would report, decided before the diff. */
  predicate Fits(s: State, raw: RawDesktop) {
    match s.model
    case None => s.nextClient + |raw.clients| <= U64_MAX
    case Some(previous) =>
      && s.nextClient + Arrivals(previous.clients, raw.clients) <= U64_MAX
      && !Worn(previous.clients, raw.clients)
      && s.sequence + Vanished(previous.clients, raw.clients) + Reports(previous.clients, raw.clients)
         + (if WorkspacesMove(previous, raw) then 1 else 0) + (if ActiveMoves(previous, raw) then 1 else 0) <= U64_MAX
  }

  lemma {:induction false} RemovalsFit(s: State, records: seq<Record>, raws: seq<RawClient>)
    requires Sound(s)
    ensures var (t, ok) := Removals(s, records, raws);
            && (ok <==> s.sequence + Vanished(records, raws) <= U64_MAX)
            && (ok ==> t.sequence == s.sequence + Vanished(records, raws))
  {
    if records != [] {
      var n := |records| - 1;
      RemovalsFit(s, records[..n], raws);
    }
  }

  lemma {:induction false} UpdatesFit(s: State, previous: seq<Record>, raws: seq<RawClient>)
    requires Sound(s) && s.nextClient <= U64_MAX
    ensures var (t, records, ok) := Updates(s, previous, raws);
            && (ok <==> && s.sequence + Reports(previous, raws) <= U64_MAX
                        && s.nextClient + Arrivals(previous, raws) <= U64_MAX
                        && !Worn(previous, raws))
            && (ok ==> t.sequence == s.sequence + Reports(previous, raws)
                       && t.nextClient == s.nextClient + Arrivals(previous, raws))
  {
    if raws != [] {
      var n := |raws| - 1;
      UpdatesFit(s, previous, raws[..n]);
      WornSplit(previous, raws);
      UpdateFits(Updates(s, previous, raws[..n]).0, previous, raws[n]);
    }
  }

  lemma UpdateFits(s: State, previous: seq<Record>, raw: RawClient)
    ensures var (t, r) := Update(s, previous, raw);
            && (r.Some? <==>
                  && (Arrives(previous, raw) ==> s.nextClient + 1 <= U64_MAX)
                  && (Arrives(previous, raw) || Changes(previous, raw) ==> s.sequence + 1 <= U64_MAX)
                  && (Changes(previous, raw) ==> Prior(previous, raw.xid).value.descriptor.generation < U64_MAX))
            && (r.Some? ==>
                  && t.nextClient == s.nextClient + (if Arrives(previous, raw) then 1 else 0)
                  && t.sequence == s.sequence + (if Arrives(previous, raw) || Changes(previous, raw) then 1 else 0))
  {
  }

  lemma WornSplit(previous: seq<Record>, raws: seq<RawClient>)
    requires raws != []
    ensures var n := |raws| - 1;
            Worn(previous, raws) <==>
              || Worn(previous, raws[..n])
              || (Changes(previous, raws[n]) && Prior(previous, raws[n].xid).value.descriptor.generation >= U64_MAX)
  {
    var n := |raws| - 1;
    if Worn(previous, raws[..n]) {
      var i :| 0 <= i < n && Changes(previous, raws[..n][i]) &&
               Prior(previous, raws[..n][i].xid).value.descriptor.generation >= U64_MAX;
      assert raws[i] == raws[..n][i];
    }
  }

  lemma ActiveDecided(raw: RawDesktop, previous: Model, records: seq<Record>, low: nat)
    requires ScanOk(raw) && ModelOk(previous, low) && Descend(records, raw.clients, previous.clients, low)
    ensures ActiveMoves(previous, raw) <==> previous.active != ActiveOf(records, raw.active)
  {
    if raw.active.Some? {
      var i :| 0 <= i < |raw.clients| && raw.clients[i].xid == raw.active.value;
      assert records[i] in records;
      var r := Prior(records, raw.active.value).value;
      var j :| 0 <= j < |records| && records[j] == r;
      assert Descends(r, previous.clients, low);
    }
  }

  lemma {:induction false} FreshFits(s: State, raws: seq<RawClient>)
    requires s.nextClient <= U64_MAX
    ensures var (t, _, ok) := Fresh(s, raws);
            && (ok <==> s.nextClient + |raws| <= U64_MAX)
            && (ok ==> t.nextClient == s.nextClient + |raws|)
  {
    if raws != [] {
      FreshFits(s, raws[..|raws| - 1]);
    }
  }

  lemma TrailerFits(s: State, previous: Model, model: Model)
    ensures Trailer(s, previous, model).1 <==>
              || (previous.currentWorkspace == model.currentWorkspace && previous.workspaces == model.workspaces
                  && previous.active == model.active)
              || s.sequence
                 + (if previous.currentWorkspace != model.currentWorkspace || previous.workspaces != model.workspaces then 1 else 0)
                 + (if previous.active != model.active then 1 else 0) <= U64_MAX
  {
  }

  lemma DiffFits(s: State, previous: Model, raw: RawDesktop)
    requires Sound(s) && s.model.None? && ScanOk(raw)
    requires 1 <= s.nextClient <= U64_MAX && ModelOk(previous, s.nextClient)
    ensures Diff(s, previous, raw).1 <==> Fits(s.(model := Some(previous)), raw)
  {
    RemovalsGrow(s, previous.clients, raw.clients);
    RemovalsFit(s, previous.clients, raw.clients);
    var (s1, ok1) := Removals(s, previous.clients, raw.clients);
    if ok1 {
      UpdatesFit(s1, previous.clients, raw.clients);
      var (s2, records, ok2) := Updates(s1, previous.clients, raw.clients);
      if ok2 {
        UpdatesShape(s1, previous.clients, raw.clients);
        ActiveDecided(raw, previous, records, s.nextClient);
        TrailerFits(s2, previous, Assemble(raw, records));
      }
    }
  }

  /** A refresh loses the model exactly when a counter has no room for what the scan reports. */
  lemma ExhaustedExactly(s: State, raw: RawDesktop)
    requires Valid(s) && s.nextClient <= U64_MAX && ScanOk(raw)
    ensures Refresh(s, Some(raw)).1 == Exhausted <==> !Fits(s, raw)
  {
    if s.model.None? {
      FreshFits(s, raw.clients);
    } else {
      DiffFits(s.(model := None), s.model.value, raw);
      assert s.(model := None).(model := Some(s.model.value)) == s;
    }
  }

  // ----- the counters over whole runs -----

  ghost predicate Within(records: seq<Record>, bound: nat) {
    forall r :: r in records ==> r.descriptor.generation <= bound
  }

  /** The identity counter is in its range, and no generation is ahead of the events numbered so far. */
  ghost predicate Counted(s: State) {
    s.nextClient <= U64_MAX && (s.model.Some? ==> Within(s.model.value.clients, s.sequence))
  }

  lemma {:induction false} RemovalsCounted(s: State, records: seq<Record>, raws: seq<RawClient>)
    ensures var t := Removals(s, records, raws).0;
            s.sequence <= t.sequence && t.nextClient == s.nextClient && t.model == s.model
  {
    if records != [] {
      RemovalsCounted(s, records[..|records| - 1], raws);
    }
  }

  lemma UpdateCounted(s: State, previous: seq<Record>, raw: RawClient, low: nat)
    requires s.nextClient <= U64_MAX && low <= s.sequence
    requires Within(previous, low)
    ensures var (t, r) := Update(s, previous, raw);
            && s.sequence <= t.sequence && t.nextClient <= U64_MAX && t.model == s.model
            && (r.Some? ==> r.value.descriptor.generation <= t.sequence)
  {
  }

  lemma {:induction false} UpdatesCounted(s: State, previous: seq<Record>, raws: seq<RawClient>)
    requires s.nextClient <= U64_MAX
    requires Within(previous, s.sequence)
    ensures var (t, records, _) := Updates(s, previous, raws);
            && s.sequence <= t.sequence && t.nextClient <= U64_MAX && t.model == s.model
            && Within(records, t.sequence)
  {
    if raws != [] {
      var n := |raws| - 1;
      UpdatesCounted(s, previous, raws[..n]);
      UpdateCounted(Updates(s, previous, raws[..n]).0, previous, raws[n], s.sequence);
    }
  }

  lemma {:induction false} FreshCounted(s: State, raws: seq<RawClient>)
    requires s.nextClient <= U64_MAX
    ensures var (t, records, _) := Fresh(s, raws);
            && t.nextClient <= U64_MAX && t.model == s.model
            && Within(records, 0)
  {
    if raws != [] {
      FreshCounted(s, raws[..|raws| - 1]);
    }
  }

  lemma TrailerCounted(s: State, previous: Model, model: Model)
    ensures var t := Trailer(s, previous, model).0;
            s.sequence <= t.sequence && t.nextClient == s.nextClient && t.model == s.model
  {
  }

  lemma DiffCounted(s: State, previous: Model, raw: RawDesktop)
    requires s.model.None? && s.nextClient <= U64_MAX && Within(previous.clients, s.sequence)
    ensures Counted(Diff(s, previous, raw).0)
  {
    RemovalsCounted(s, previous.clients, raw.clients);
    var (s1, ok1) := Removals(s, previous.clients, raw.clients);
    if ok1 {
      UpdatesCounted(s1, previous.clients, raw.clients);
      var (s2, records, ok2) := Updates(s1, previous.clients, raw.clients);
      if ok2 {
        TrailerCounted(s2, previous, Assemble(raw, records));
      }
    }
  }

  lemma RefreshCounted(s: State, scan: Scan)
    requires Counted(s)
    ensures Counted(Refresh(s, scan).0)
  {
    if scan.Some? {
      if s.model.None? {
        FreshCounted(s, scan.value.clients);
      } else {
        DiffCounted(s.(model := None), s.model.value, scan.value);
      }
    }
  }

  lemma {:induction false} AcknowledgeCounted(s: State, after: nat)
    requires Counted(s)
    ensures Counted(Acknowledge(s, after))
    decreases |s.events|
  {
    if s.events != [] && s.events[0].sequence <= after {
      AcknowledgeCounted(s.(events := s.events[1..], retainedAfter := s.events[0].sequence), after);
    }
  }

  lemma {:induction false} AwaitCounted(s: State, after: nat, limit: nat, scans: seq<Scan>)
    requires Counted(s) && scans != []
    ensures Counted(Await(s, after, limit, scans).0)
    decreases |scans|
  {
    RefreshCounted(s, scans[0]);
    if |scans| > 1 {
      AwaitCounted(Refresh(s, scans[0]).0, after, limit, scans[1..]);
    }
  }

  lemma ExecCounted(s: State, call: Call)
    requires Counted(s) && CallOk(call)
    ensures Counted(Exec(s, call).0)
  {
    if call.CallPoll? {
      AcknowledgeCounted(s, call.after);
      AwaitCounted(Acknowledge(s, call.after), call.after, call.limit, call.scans);
    } else {
      RefreshCounted(s, call.scan);
    }
  }

  /** Over every run of calls no generation is ahead of the sequence. */
  lemma {:induction false} RunCounted(calls: seq<Call>)
    requires forall i :: 0 <= i < |calls| ==> CallOk(calls[i])
    ensures Counted(Run(calls).0)
  {
    if calls != [] {
      var n := |calls| - 1;
      RunCounted(calls[..n]);
      ExecCounted(Run(calls[..n]).0, calls[n]);
    }
  }

  lemma {:induction false} ChangeIsReported(previous: seq<Record>, raws: seq<RawClient>, i: nat)
    requires i < |raws| && Changes(previous, raws[i])
    ensures Reports(previous, raws) >= 1
    decreases |raws|
  {
    if i < |raws| - 1 {
      ChangeIsReported(previous, raws[..|raws| - 1], i);
    }
  }

  /**
   So on every run only the identities and the sequence matter: a client cannot be at its last
   generation before the sequence is used up.
   */
  lemma RunExhaustedExactly(calls: seq<Call>, raw: RawDesktop)
    requires (forall i :: 0 <= i < |calls| ==> CallOk(calls[i])) && ScanOk(raw)
    ensures var s := Run(calls).0;
            Refresh(s, Some(raw)).1 == Exhausted <==>
              match s.model
              case None => s.nextClient + |raw.clients| > U64_MAX
              case Some(previous) =>
                || s.nextClient + Arrivals(previous.clients, raw.clients) > U64_MAX
                || s.sequence + Vanished(previous.clients, raw.clients) + Reports(previous.clients, raw.clients)
                   + (if WorkspacesMove(previous, raw) then 1 else 0) + (if ActiveMoves(previous, raw) then 1 else 0) > U64_MAX
  {
    RunKeeps(calls);
    RunCounted(calls);
    var s := Run(calls).0;
    ExhaustedExactly(s, raw);
    if s.model.Some? && Worn(Clients(s), raw.clients) {
      var i :| 0 <= i < |raw.clients| && Changes(Clients(s), raw.clients[i]) &&
               Prior(Clients(s), raw.clients[i].xid).value.descriptor.generation >= U64_MAX;
      ChangeIsReported(Clients(s), raw.clients, i);
    }
  }

  // ----- what exhaustion costs -----

  /**
   After the failed refresh nothing marks the loss: the next poll at a cursor in the window answers
   as if nothing had happened whenever the identities have room for the scan, and then every client
   of the model carries an identity that was never given out before.
   */
  lemma LossIsUnmarked(s: State, after: nat, limit: nat, raw: RawDesktop)
    requires Valid(s) && s.nextClient <= U64_MAX && ScanOk(raw) && 1 <= limit
    requires s.model.None? && s.subscribed && s.retainedAfter <= after <= s.sequence
    ensures var (t, reply) := Poll(s, after, limit, [Some(raw)]);
            && (reply == Failed(Exhausted) <==> s.nextClient + |raw.clients| > U64_MAX)
            && (!reply.Failed? ==>
                  && t.log == s.log && |Clients(t)| == |raw.clients|
                  && (forall i :: 0 <= i < |Clients(t)| ==> s.nextClient <= Clients(t)[i].descriptor.id)
                  && (reply.ResyncRequired? <==> s.resync)
                  && (!s.resync ==> reply.Batch? && reply.events == Take(Matching(s.log, s.kinds, after), limit)))
  {
    AcknowledgeKeeps(s, after);
    var a := Acknowledge(s, after);
    FreshFits(a, raw.clients);
    FreshKeeps(a, raw.clients);
    AwaitOutcome(a, after, limit, [Some(raw)]);
  }

  // A run that gets there: one client, and a desktop that goes to and fro between two workspaces.

  const STILL := Facts(None, None, None, [], [])
  const SPACES := [Workspace(0, None, None), Workspace(1, None, None)]
  const WINDOWS := [RawClient(7, STILL)]
  const FIRST := Record(7, Descriptor(1, 0, STILL))

  function Desk(n: nat): RawDesktop { RawDesktop(n % 2, SPACES, WINDOWS, None) }

  function Moves(n: nat): seq<Event> { seq(n, i requires 0 <= i => WorkspaceChanged((i + 1) % 2)) }

  function ModelAt(n: nat): Model { Model(n % 2, SPACES, [FIRST], None) }

  function Calls(n: nat): seq<Call> { seq(n + 1, i requires 0 <= i => CallRefresh(Some(Desk(i)))) }

  function At(n: nat): State { State(Some(ModelAt(n)), 2, n, false, [], [], 0, false, Moves(n)) }

  lemma DeskOk(n: nat)
    ensures ScanOk(Desk(n)) && ScansOk([Some(Desk(n))]) && HasXid(WINDOWS, 7)
  {
    assert WINDOWS[0].xid == 7;
  }

  /** The client itself never changes: a diff between two such desktops is its trailer. */
  lemma StillDiff(s: State, n: nat, m: nat)
    requires s.model.None?
    ensures Diff(s, ModelAt(n), Desk(m)) ==
              if n % 2 == m % 2 then (s.(model := Some(ModelAt(m))), true)
              else var (t, ok) := Push(s, WorkspaceChanged(m % 2)); (if ok then t.(model := Some(ModelAt(m))) else t, ok)
  {
    DeskOk(m);
    assert [FIRST][..0] == [] && WINDOWS[..0] == [];
    assert Removals(s, [FIRST], WINDOWS) == (s, true);
    assert Updates(s, [FIRST], []) == (s, [], true);
    assert Prior([FIRST], 7) == Some(FIRST);
    assert Update(s, [FIRST], WINDOWS[0]) == (s, Some(FIRST));
    assert [] + [FIRST] == [FIRST];
    assert Updates(s, [FIRST], WINDOWS) == (s, [FIRST], true);
  }

  lemma FirstDesk(s: State, m: nat)
    requires s.model.None? && s.nextClient < U64_MAX
    ensures Refresh(s, Some(Desk(m))) ==
              (s.(nextClient := s.nextClient + 1,
                  model := Some(Model(m % 2, SPACES, [Record(7, Descriptor(s.nextClient, 0, STILL))], None))), Current)
  {
    assert WINDOWS[..0] == [];
    assert Fresh(s, []) == (s, [], true);
    var born := Record(7, Descriptor(s.nextClient, 0, STILL));
    assert [] + [born] == [born];
    assert Fresh(s, WINDOWS) == (s.(nextClient := s.nextClient + 1), [born], true);
  }

  lemma OneMove(n: nat)
    requires n < U64_MAX
    ensures Refresh(At(n), Some(Desk(n + 1))) == (At(n + 1), Current)
  {
    StillDiff(At(n).(model := None), n, n + 1);
    assert Moves(n) + [WorkspaceChanged((n + 1) % 2)] == Moves(n + 1);
  }

  lemma RunMore(calls: seq<Call>, call: Call)
    requires (forall i :: 0 <= i < |calls| ==> CallOk(calls[i])) && CallOk(call)
    ensures var (s, peer) := Run(calls);
            Run(calls + [call]) == (Exec(s, call).0, Follow(peer, s, call, Exec(s, call).1))
  {
    assert (calls + [call])[..|calls|] == calls;
  }

  lemma {:induction false} RunReaches(n: nat)
    requires n <= U64_MAX
    ensures forall i :: 0 <= i < |Calls(n)| ==> CallOk(Calls(n)[i])
    ensures Run(Calls(n)) == (At(n), None)
  {
    forall i | 0 <= i < |Calls(n)| ensures CallOk(Calls(n)[i]) {
      DeskOk(i);
    }
    if n == 0 {
      assert Calls(n) == [] + [CallRefresh(Some(Desk(n)))] && Moves(n) == [];
      DeskOk(n);
      RunMore([], CallRefresh(Some(Desk(n))));
      FirstDesk(INITIAL, n);
    } else {
      RunReaches(n - 1);
      assert Calls(n) == Calls(n - 1) + [CallRefresh(Some(Desk(n)))];
      DeskOk(n);
      RunMore(Calls(n - 1), CallRefresh(Some(Desk(n))));
      OneMove(n - 1);
    }
  }

  /** The same run, with a subscription and a snapshot that the peer adopts. */
  function Watched(n: nat): seq<Call> {
    Calls(n) + [CallSubscribe([], Some(Desk(n))), CallSnapshot(Some(Desk(n)), true)]
  }

  lemma WatchedReaches(n: nat)
    requires n <= U64_MAX
    ensures forall i :: 0 <= i < |Watched(n)| ==> CallOk(Watched(n)[i])
    ensures Run(Watched(n)) == (At(n).(subscribed := true, retainedAfter := n), Some(Peer(ViewOf(ModelAt(n)), n)))
  {
    RunReaches(n);
    DeskOk(n);
    var subscribing := Calls(n) + [CallSubscribe([], Some(Desk(n)))];
    RunMore(Calls(n), CallSubscribe([], Some(Desk(n))));
    assert Watched(n) == subscribing + [CallSnapshot(Some(Desk(n)), true)];
    RunMore(subscribing, CallSnapshot(Some(Desk(n)), true));
    StillDiff(At(n).(model := None), n, n);
    assert Run(subscribing) == (At(n).(subscribed := true, retainedAfter := n), None);
    StillDiff(At(n).(subscribed := true, retainedAfter := n, model := None), n, n);
  }

  /**
   What the exhausted branch costs, on a run of calls: the sequence is used up, the workspace changes
   once more, the poll fails and drops the model, and the same poll again succeeds with no events
   although every identity the peer holds is gone. No resynchronisation is demanded.
   */
  lemma ExhaustionIsSilent()
    ensures exists calls: seq<Call>, raw: RawDesktop ::
              && (forall i :: 0 <= i < |calls| ==> CallOk(calls[i])) && ScanOk(raw)
              && var (s, following) := Run(calls);
                 && following.Some? && s.subscribed && Covers(s.kinds) && InStep(s, following.value)
                 && var peer := following.value;
                    var (lost, first) := Poll(s, peer.cursor, 1, [Some(raw)]);
                    var (again, second) := Poll(lost, peer.cursor, 1, [Some(raw)]);
                    && first == Failed(Exhausted) && second == Batch([], peer.cursor)
                    && again.model.Some? && !InStep(again, peer)
  {
    var n := U64_MAX;
    WatchedReaches(n);
    RunKeeps(Watched(n));
    DeskOk(n + 1);
    LossAt(n, Run(Watched(n)).0, Run(Watched(n)).1.value, Desk(n + 1));
  }

  lemma LossAt(n: nat, s: State, peer: Peer, raw: RawDesktop)
    requires n == U64_MAX && raw == Desk(n + 1)
    requires s == At(n).(subscribed := true, retainedAfter := n) && peer == Peer(ViewOf(ModelAt(n)), n)
    ensures var (lost, first) := Poll(s, peer.cursor, 1, [Some(raw)]);
            var (again, second) := Poll(lost, peer.cursor, 1, [Some(raw)]);
            && first == Failed(Exhausted) && second == Batch([], peer.cursor)
            && again.model.Some? && !InStep(again, peer)
  {
    var lost := s.(model := None);
    StillDiff(lost, n, n + 1);
    assert Refresh(s, Some(raw)) == (lost, Exhausted);
    assert Await(s, n, 1, [Some(raw)]) == (lost, Failed(Exhausted));
    FirstDesk(lost, n + 1);
    var reborn := Record(7, Descriptor(2, 0, STILL));
    var again := Refresh(lost, Some(raw)).0;
    assert again.model == Some(Model((n + 1) % 2, SPACES, [reborn], None));
    assert Await(lost, n, 1, [Some(raw)]) == (again, Batch([], n));
    ClientMapDomain([reborn]);
    ClientMapDomain([FIRST]);
    assert [reborn][0].descriptor.id == 2;
    assert 2 in ViewOf(again.model.value).clients && 2 !in peer.view.clients;
    assert again.log[n..] == [];
  }
}
