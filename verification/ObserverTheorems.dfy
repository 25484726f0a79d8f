/** Whole-run properties of the observer: exact polls, convergence, and freshness without reuse. */
module ObserverTheorems {
  import opened Prelude
  import opened Desktop
  import opened ObserverSpec
  import opened ObserverProofs

  // ----- windows on the log -----

  /** `EventBatch::validate`, as far as sequences go; PageOf adds the bound on the list. */
  ghost predicate BatchValid(events: seq<Envelope>, cursor: nat) {
    && (forall i, j :: 0 <= i < j < |events| ==> events[i].sequence < events[j].sequence)
    && (forall i :: 0 <= i < |events| ==> events[i].sequence <= cursor)
  }

  lemma {:induction false} MatchingOrdered(log: seq<Event>, kinds: seq<EventKind>, after: nat)
    ensures BatchValid(Matching(log, kinds, after), |log|)
    ensures forall i :: 0 <= i < |Matching(log, kinds, after)| ==> after < Matching(log, kinds, after)[i].sequence
  {
    if |log| > after {
      MatchingOrdered(log[..|log| - 1], kinds, after);
    }
  }

  lemma {:induction false} LaterConcat(left: seq<Envelope>, right: seq<Envelope>, after: nat)
    ensures Later(left + right, after) == Later(left, after) + Later(right, after)
    decreases |right|
  {
    if right == [] {
      assert left + right == left;
    } else {
      var n := |right| - 1;
      assert (left + right)[..|left| + n] == left + right[..n];
      LaterConcat(left, right[..n], after);
    }
  }

  /** Narrowing a window is the same as asking for the narrower one. */
  lemma {:induction false} LaterMatching(log: seq<Event>, kinds: seq<EventKind>, wide: nat, narrow: nat)
    requires wide <= narrow
    ensures Later(Matching(log, kinds, wide), narrow) == Matching(log, kinds, narrow)
  {
    if |log| > wide {
      var n := |log| - 1;
      LaterMatching(log[..n], kinds, wide, narrow);
      var last := if Wanted(kinds, log[n]) then [Envelope(n + 1, log[n])] else [];
      LaterConcat(Matching(log[..n], kinds, wide), last, narrow);
      if |log| <= narrow {
        assert Matching(log[..n], kinds, narrow) == [];
      }
    }
  }

  lemma {:induction false} LaterAll(events: seq<Envelope>, after: nat)
    requires forall i :: 0 <= i < |events| ==> after < events[i].sequence
    ensures Later(events, after) == events
  {
    if events != [] {
      LaterAll(events[..|events| - 1], after);
    }
  }

  lemma LaterTail(events: seq<Envelope>)
    requires events != [] && BatchValid(events, events[|events| - 1].sequence)
    ensures Later(events, events[0].sequence) == events[1..]
  {
    assert events == events[..1] + events[1..];
    LaterConcat(events[..1], events[1..], events[0].sequence);
    LaterAll(events[1..], events[0].sequence);
    assert events[..1][..0] == [];
  }

  /** Cutting the log at a delivered event splits the window there. */
  lemma {:induction false} MatchingSplit(log: seq<Event>, kinds: seq<EventKind>, after: nat, count: nat)
    requires 0 < count <= |Matching(log, kinds, after)|
    ensures var all := Matching(log, kinds, after);
            var cursor := all[count - 1].sequence;
            && after < cursor <= |log|
            && Matching(log[..cursor], kinds, after) == all[..count]
            && Matching(log, kinds, cursor) == all[count..]
  {
    var n := |log| - 1;
    var all, init := Matching(log, kinds, after), Matching(log[..n], kinds, after);
    if count <= |init| {
      MatchingSplit(log[..n], kinds, after, count);
      var cursor := init[count - 1].sequence;
      assert all[count - 1] == init[count - 1];
      assert log[..n][..cursor] == log[..cursor];
      assert all[..count] == init[..count];
      assert all[count..] == init[count..] + all[|init|..];
    } else {
      assert count == |all| && log[..n + 1] == log;
    }
  }

  // ----- poll -----

  ghost predicate ScansOk(scans: seq<Scan>) {
    forall i :: 0 <= i < |scans| && scans[i].Some? ==> ScanOk(scans[i].value)
  }

  lemma {:induction false} AcknowledgeKeeps(s: State, after: nat)
    requires Valid(s) && s.subscribed && s.retainedAfter <= after <= s.sequence
    ensures var t := Acknowledge(s, after);
            && Valid(t)
            && t == s.(events := t.events, retainedAfter := t.retainedAfter)
            && s.retainedAfter <= t.retainedAfter <= after
            && (s.resync ==> t == s)
            && (!s.resync ==> t.events == Matching(s.log, s.kinds, after))
    decreases |s.events|
  {
    MatchingOrdered(s.log, s.kinds, s.retainedAfter);
    if s.events != [] && s.events[0].sequence <= after {
      LaterTail(s.events);
      LaterMatching(s.log, s.kinds, s.retainedAfter, s.events[0].sequence);
      AcknowledgeKeeps(s.(events := s.events[1..], retainedAfter := s.events[0].sequence), after);
    } else if !s.resync {
      LaterMatching(s.log, s.kinds, s.retainedAfter, after);
      LaterAll(s.events, after);
    }
  }

  /** What the peer is owed after a cursor, and what a page of it says. */
  ghost predicate PageOf(t: State, after: nat, limit: nat, events: seq<Envelope>, cursor: nat) {
    var owed := Matching(t.log, t.kinds, after);
    && events == Take(owed, limit) && |events| <= MAX_EVENTS
    && BatchValid(events, cursor)
    && after <= cursor <= |t.log|
    && Matching(t.log[..cursor], t.kinds, after) == events
    && Matching(t.log, t.kinds, cursor) == owed[|events|..]
  }

  lemma TakenPage(log: seq<Event>, kinds: seq<EventKind>, after: nat, limit: nat)
    requires after <= |log| && 1 <= limit
    ensures var owed := Matching(log, kinds, after);
            var events := Take(owed, limit);
            var cursor := if events == [] then |log| else events[|events| - 1].sequence;
            && BatchValid(events, cursor)
            && after <= cursor <= |log|
            && Matching(log[..cursor], kinds, after) == events
            && Matching(log, kinds, cursor) == owed[|events|..]
  {
    MatchingOrdered(log, kinds, after);
    var events := Take(Matching(log, kinds, after), limit);
    if events != [] {
      MatchingSplit(log, kinds, after, |events|);
    } else {
      assert log[..|log|] == log;
    }
  }

  lemma PageIsExact(t: State, after: nat, limit: nat)
    requires t.sequence == |t.log| && t.events == Matching(t.log, t.kinds, t.retainedAfter) && |t.events| <= MAX_EVENTS
    requires t.retainedAfter <= after <= t.sequence && 1 <= limit
    ensures PageOf(t, after, limit, Page(t, after, limit).events, Page(t, after, limit).cursor)
  {
    LaterMatching(t.log, t.kinds, t.retainedAfter, after);
    WindowShrinks(t.log, t.kinds, t.retainedAfter, after);
    TakenPage(t.log, t.kinds, after, limit);
  }

  /** The outcome of a poll that passed its cursor check, however long it waited. */
  ghost predicate PollOutcome(s: State, after: nat, limit: nat, t: State, reply: Reply) {
    && Valid(t) && Grows(s, t)
    && (reply.Batch? || reply.ResyncRequired? || reply.Failed?)
    && (reply.Batch? ==> !t.resync && PageOf(t, after, limit, reply.events, reply.cursor))
    && (reply.ResyncRequired? ==> t.resync)
    && (reply.Failed? ==> reply.cause != Current)
    && (reply != Failed(Exhausted) && s.model.Some? ==>
          t.model.Some? && Since(ViewOf(s.model.value), t, |s.log|) == ViewOf(t.model.value))
  }

  lemma {:induction false} AwaitOutcome(s: State, after: nat, limit: nat, scans: seq<Scan>)
    requires Valid(s) && s.subscribed && s.retainedAfter <= after <= s.sequence && 1 <= limit
    requires scans != [] && ScansOk(scans)
    ensures PollOutcome(s, after, limit, Await(s, after, limit, scans).0, Await(s, after, limit, scans).1)
    decreases |scans|
  {
    RefreshKeeps(s, scans[0]);
    var (t, outcome) := Refresh(s, scans[0]);
    if s.model.Some? && outcome == ScanFailed {
      assert s.log[|s.log|..] == [];
    }
    if outcome == Current && !t.resync {
      if (t.events != [] && t.events[0].sequence > after) || |scans| == 1 {
        PageIsExact(t, after, limit);
      } else {
        AwaitOutcome(t, after, limit, scans[1..]);
        var (u, reply) := Await(t, after, limit, scans[1..]);
        GrowsTransitive(s, t, u);
        if s.model.Some? && t.model.Some? {
          SinceCompose(ViewOf(s.model.value), s, t, u);
        }
      }
    }
  }

  /**
   A successful poll returns exactly the first `limit` owed events and a cursor from which
   the rest, and nothing else, is still owed. A resynchronisation is demanded only for a
   cursor outside the window or after the queue overflowed.
   */
  lemma PollIsExact(s: State, after: nat, limit: nat, scans: seq<Scan>)
    requires Valid(s) && 1 <= limit && scans != [] && ScansOk(scans)
    ensures var (t, reply) := Poll(s, after, limit, scans);
            && Valid(t) && s.log <= t.log
            && (reply.NotSubscribed? <==> !s.subscribed)
            && (reply.Batch? ==> s.retainedAfter <= after <= s.sequence && t.kinds == s.kinds
                                 && PageOf(t, after, limit, reply.events, reply.cursor))
            && (reply.ResyncRequired? ==>
                  || after < s.retainedAfter || after > s.sequence
                  || |Matching(t.log, s.kinds, s.retainedAfter)| > MAX_EVENTS)
  {
    if s.subscribed && s.retainedAfter <= after <= s.sequence {
      AcknowledgeKeeps(s, after);
      var a := Acknowledge(s, after);
      AwaitOutcome(a, after, limit, scans);
      var t := Await(a, after, limit, scans).0;
      WindowShrinks(t.log, s.kinds, s.retainedAfter, t.retainedAfter);
    }
  }

  lemma {:induction false} WindowShrinks(log: seq<Event>, kinds: seq<EventKind>, wide: nat, narrow: nat)
    requires wide <= narrow
    ensures |Matching(log, kinds, narrow)| <= |Matching(log, kinds, wide)|
  {
    if |log| > wide {
      WindowShrinks(log[..|log| - 1], kinds, wide, narrow);
    }
  }

  // ----- convergence -----

  /** One call of the observer, as some request makes it. */
  datatype Call =
    | CallSnapshot(scan: Scan, adopt: bool)
    | CallSubscribe(kinds: seq<EventKind>, scan: Scan)
    | CallPoll(after: nat, limit: nat, scans: seq<Scan>)
    | CallRefresh(scan: Scan)

  ghost predicate CallOk(call: Call) {
    match call
    case CallSnapshot(scan, _) => ScansOk([scan])
    case CallSubscribe(_, scan) => ScansOk([scan])
    case CallPoll(_, limit, scans) => 1 <= limit && scans != [] && ScansOk(scans)
    case CallRefresh(scan) => ScansOk([scan])
  }

  function Exec(s: State, call: Call): (State, Reply)
    requires call.CallPoll? ==> call.scans != []
  {
    match call
    case CallSnapshot(scan, _) => TakeSnapshot(s, scan)
    case CallSubscribe(kinds, scan) => Subscribe(s, kinds, scan)
    case CallPoll(after, limit, scans) => Poll(s, after, limit, scans)
    case CallRefresh(scan) => (Refresh(s, scan).0, Failed(Refresh(s, scan).1))
  }

  /** A subscription to everything that moves the view. */
  predicate Covers(kinds: seq<EventKind>) {
    kinds == [] ||
    (AddedKind in kinds && ChangedKind in kinds && RemovedKind in kinds && ActiveKind in kinds && WorkspaceKind in kinds)
  }

  datatype Peer = Peer(view: View, cursor: nat)

  function FoldEnvelopes(view: View, events: seq<Envelope>): View {
    if events == [] then view
    else Apply(FoldEnvelopes(view, events[..|events| - 1]), events[|events| - 1].event)
  }

  /**
   What the peer does with a reply: it may start from any snapshot, it folds in every batch it
   polled at its own cursor under a covering subscription, and it gives up its copy when it is told
   that a counter is exhausted, until it takes another snapshot.
   */
  function Follow(peer: Option<Peer>, s: State, call: Call, reply: Reply): Option<Peer> {
    match (call, reply)
    case (_, Failed(Exhausted)) => None
    case (CallSnapshot(_, true), Snapshot(sequence, model)) => Some(Peer(ViewOf(model), sequence))
    case (CallPoll(after, _, _), Batch(events, cursor)) =>
      if peer.Some? && peer.value.cursor == after && Covers(s.kinds)
      then Some(Peer(FoldEnvelopes(peer.value.view, events), cursor)) else peer
    case _ => peer
  }

  /** Replaying the log from the peer's cursor over the peer's view gives the provider's model. */
  ghost predicate InStep(s: State, peer: Peer) {
    && peer.cursor <= |s.log|
    && s.model.Some?
    && Fold(peer.view, s.log[peer.cursor..]) == ViewOf(s.model.value)
  }

  lemma {:induction false} FoldMatching(view: View, log: seq<Event>, kinds: seq<EventKind>, after: nat)
    requires Covers(kinds) && after <= |log|
    ensures FoldEnvelopes(view, Matching(log, kinds, after)) == Fold(view, log[after..])
  {
    if |log| > after {
      var n := |log| - 1;
      FoldMatching(view, log[..n], kinds, after);
      assert log[after..][..n - after] == log[..n][after..];
      assert log[after..][n - after] == log[n];
      var all := Matching(log, kinds, after);
      if Wanted(kinds, log[n]) {
        assert all[..|all| - 1] == Matching(log[..n], kinds, after);
      } else {
        assert log[n] == ApplicationsChanged;
        assert all == Matching(log[..n], kinds, after);
      }
    }
  }

  lemma InStepGrows(s: State, t: State, peer: Peer)
    requires InStep(s, peer) && s.log <= t.log && t.model.Some?
    requires Since(ViewOf(s.model.value), t, |s.log|) == ViewOf(t.model.value)
    ensures InStep(t, peer)
  {
    assert t.log[peer.cursor..] == s.log[peer.cursor..] + t.log[|s.log|..];
    FoldConcat(peer.view, s.log[peer.cursor..], t.log[|s.log|..]);
  }

  /** The identity and dangling-reference checks of `DesktopSnapshot::validate`, and its list bounds. */
  ghost predicate SnapshotValid(m: Model) {
    && |m.workspaces| <= MAX_WORKSPACES && |m.clients| <= MAX_CLIENTS
    && (forall i, j :: 0 <= i < j < |m.workspaces| ==> m.workspaces[i].id != m.workspaces[j].id)
    && DistinctIds(m.clients)
    && (exists i :: 0 <= i < |m.workspaces| && m.workspaces[i].id == m.currentWorkspace)
    && (m.active.Some? ==> HasId(m.clients, m.active.value))
  }

  lemma ModelIsValidSnapshot(m: Model, next: nat)
    requires ModelOk(m, next)
    ensures SnapshotValid(m)
  {
    assert m.workspaces[m.currentWorkspace].id == m.currentWorkspace;
  }

  /** What one call keeps: the invariant, the log, and the log as an account of the model. */
  ghost predicate Kept(s: State, t: State, reply: Reply) {
    && Valid(t) && s.log <= t.log
    && (reply != Failed(Exhausted) && s.model.Some? ==>
          t.model.Some? && Since(ViewOf(s.model.value), t, |s.log|) == ViewOf(t.model.value))
    && (reply.Snapshot? ==>
          t.model == Some(reply.model) && t.sequence == reply.sequence && SnapshotValid(reply.model))
  }

  lemma SnapshotKeeps(s: State, scan: Scan)
    requires Valid(s) && (scan.Some? ==> ScanOk(scan.value))
    ensures Kept(s, TakeSnapshot(s, scan).0, TakeSnapshot(s, scan).1)
  {
    RefreshKeeps(s, scan);
    var (t, outcome) := Refresh(s, scan);
    Emptied(t);
    assert s.log[|s.log|..] == [];
    if outcome == Current { ModelIsValidSnapshot(t.model.value, t.nextClient); }
  }

  lemma SubscribeKeeps(s: State, kinds: seq<EventKind>, scan: Scan)
    requires Valid(s) && (scan.Some? ==> ScanOk(scan.value))
    ensures Kept(s, Subscribe(s, kinds, scan).0, Subscribe(s, kinds, scan).1)
  {
    RefreshKeeps(s, scan);
    Emptied(Refresh(s, scan).0);
    assert s.log[|s.log|..] == [];
  }

  lemma PollKeeps(s: State, after: nat, limit: nat, scans: seq<Scan>)
    requires Valid(s) && 1 <= limit && scans != [] && ScansOk(scans)
    ensures Kept(s, Poll(s, after, limit, scans).0, Poll(s, after, limit, scans).1)
  {
    assert s.log[|s.log|..] == [];
    if s.subscribed && s.retainedAfter <= after <= s.sequence {
      AcknowledgeKeeps(s, after);
      AwaitOutcome(Acknowledge(s, after), after, limit, scans);
    }
  }

  lemma ExecKeeps(s: State, call: Call)
    requires Valid(s) && CallOk(call)
    ensures Kept(s, Exec(s, call).0, Exec(s, call).1)
  {
    match call
    case CallPoll(after, limit, scans) => PollKeeps(s, after, limit, scans);
    case CallSnapshot(scan, _) => assert [scan][0] == scan; SnapshotKeeps(s, scan);
    case CallSubscribe(kinds, scan) => assert [scan][0] == scan; SubscribeKeeps(s, kinds, scan);
    case CallRefresh(scan) =>
      assert [scan][0] == scan && s.log[|s.log|..] == [];
      RefreshKeeps(s, scan);
  }

  lemma Emptied(s: State)
    requires Valid(s)
    ensures forall kinds :: Matching(s.log, kinds, s.sequence) == []
  {
  }

  lemma PeerKeeps(s: State, peer: Option<Peer>, call: Call)
    requires Valid(s) && CallOk(call)
    requires peer.Some? ==> InStep(s, peer.value)
    ensures var next := Follow(peer, s, call, Exec(s, call).1);
            next.Some? ==> InStep(Exec(s, call).0, next.value)
  {
    ExecKeeps(s, call);
    var (t, reply) := Exec(s, call);
    assert t.log[|t.log|..] == [];
    if peer.Some? && reply != Failed(Exhausted) {
      InStepGrows(s, t, peer.value);
      if call.CallPoll? && reply.Batch? && peer.value.cursor == call.after && Covers(s.kinds) {
        PollIsExact(s, call.after, call.limit, call.scans);
        BatchKeepsStep(t, peer.value, call.limit, reply.events, reply.cursor);
      }
    }
  }

  lemma BatchKeepsStep(t: State, peer: Peer, limit: nat, events: seq<Envelope>, cursor: nat)
    requires InStep(t, peer) && Covers(t.kinds) && PageOf(t, peer.cursor, limit, events, cursor)
    ensures InStep(t, Peer(FoldEnvelopes(peer.view, events), cursor))
  {
    FoldMatching(peer.view, t.log[..cursor], t.kinds, peer.cursor);
    FoldInTwo(peer.view, t.log, peer.cursor, cursor);
  }

  lemma FoldInTwo(view: View, log: seq<Event>, from: nat, cursor: nat)
    requires from <= cursor <= |log|
    ensures Fold(view, log[from..]) == Fold(Fold(view, log[..cursor][from..]), log[cursor..])
  {
    assert log[..cursor][from..] + log[cursor..] == log[from..];
    FoldConcat(view, log[..cursor][from..], log[cursor..]);
  }

  /** A whole session from connect: the state, and the peer's copy, after a list of calls. */
  ghost function Run(calls: seq<Call>): (State, Option<Peer>)
    requires forall i :: 0 <= i < |calls| ==> CallOk(calls[i])
  {
    if calls == [] then (INITIAL, None)
    else
      var n := |calls| - 1;
      var (s, peer) := Run(calls[..n]);
      assert CallOk(calls[n]);
      (Exec(s, calls[n]).0, Follow(peer, s, calls[n], Exec(s, calls[n]).1))
  }

  lemma {:induction false} RunKeeps(calls: seq<Call>)
    requires forall i :: 0 <= i < |calls| ==> CallOk(calls[i])
    ensures Valid(Run(calls).0)
    ensures Run(calls).1.Some? ==> InStep(Run(calls).0, Run(calls).1.value)
  {
    if calls != [] {
      var n := |calls| - 1;
      RunKeeps(calls[..n]);
      var (s, peer) := Run(calls[..n]);
      ExecKeeps(s, calls[n]);
      PeerKeeps(s, peer, calls[n]);
    }
  }

  /**
   Convergence, for every run. Under a covering subscription the peer's copy plus the events
   still queued for it is the provider's model; and if the queue no longer reaches back to
   the peer, the next poll at its cursor says so instead of returning events.
   */
  lemma Converges(calls: seq<Call>, limit: nat, scans: seq<Scan>)
    requires forall i :: 0 <= i < |calls| ==> CallOk(calls[i])
    requires Run(calls).1.Some?
    requires Run(calls).0.subscribed && Covers(Run(calls).0.kinds)
    requires 1 <= limit && scans != [] && ScansOk(scans)
    ensures var (s, peer) := Run(calls);
            var (view, cursor) := (peer.value.view, peer.value.cursor);
            var reply := Poll(s, cursor, limit, scans).1;
            && s.model.Some?
            && if !s.resync && s.retainedAfter <= cursor
            then FoldEnvelopes(view, Later(s.events, cursor)) == ViewOf(s.model.value)
            else reply.ResyncRequired? || reply.Failed?
  {
    RunKeeps(calls);
    var (s, peer) := Run(calls);
    var cursor := peer.value.cursor;
    if !s.resync && s.retainedAfter <= cursor {
      LaterMatching(s.log, s.kinds, s.retainedAfter, cursor);
      FoldMatching(peer.value.view, s.log, s.kinds, cursor);
    } else if s.retainedAfter <= cursor {
      AcknowledgeKeeps(s, cursor);
      RefreshKeeps(s, scans[0]);
    }
  }

  // ----- the attentive peer -----

  /** `acked` is the last cursor the peer polled with, `cursor` the one it will poll with next. */
  ghost predicate Attentive(s: State, acked: nat, cursor: nat) {
    && Valid(s) && s.subscribed
    && s.retainedAfter <= acked <= cursor <= s.sequence
    && Matching(s.log, s.kinds, s.retainedAfter) == Matching(s.log, s.kinds, acked)
  }

  lemma {:induction false} WindowsStayEqual(log: seq<Event>, log': seq<Event>, kinds: seq<EventKind>, a: nat, b: nat)
    requires a <= |log| && b <= |log| && log <= log'
    requires Matching(log, kinds, a) == Matching(log, kinds, b)
    ensures Matching(log', kinds, a) == Matching(log', kinds, b)
    decreases |log'|
  {
    if |log| < |log'| {
      WindowsStayEqual(log, log'[..|log'| - 1], kinds, a, b);
    } else {
      assert log == log';
    }
  }

  /** The cursor a poll leaves acknowledged; an overflowed queue acknowledges nothing more. */
  function NowAcked(s: State, acked: nat, cursor: nat): nat {
    if s.resync then acked else cursor
  }

  /** Polling from the latest cursor keeps the window open unless over MAX_EVENTS events went unacknowledged. */
  lemma AttentivePoll(s: State, acked: nat, cursor: nat, limit: nat, scans: seq<Scan>)
    requires Attentive(s, acked, cursor) && 1 <= limit && scans != [] && ScansOk(scans)
    ensures var (t, reply) := Poll(s, cursor, limit, scans);
            && (reply.Batch? || reply.ResyncRequired? || reply.Failed?)
            && t.kinds == s.kinds
            && (reply.Batch? ==> Attentive(t, NowAcked(s, acked, cursor), reply.cursor))
            && (reply.Failed? ==> Attentive(t, NowAcked(s, acked, cursor), cursor))
            && (reply.ResyncRequired? ==> |Matching(t.log, s.kinds, acked)| > MAX_EVENTS)
  {
    AcknowledgeKeeps(s, cursor);
    var a := Acknowledge(s, cursor);
    AwaitOutcome(a, cursor, limit, scans);
    var (t, reply) := Await(a, cursor, limit, scans);
    WindowsStayEqual(s.log, t.log, s.kinds, s.retainedAfter, acked);
    WindowShrinks(t.log, s.kinds, s.retainedAfter, t.retainedAfter);
    if !s.resync {
      WindowsStayEqual(s.log, t.log, s.kinds, a.retainedAfter, cursor);
    }
  }

  /** Background refreshes between the polls do not change this. */
  lemma AttentiveRefresh(s: State, acked: nat, cursor: nat, scan: Scan)
    requires Attentive(s, acked, cursor) && (scan.Some? ==> ScanOk(scan.value))
    ensures Attentive(Refresh(s, scan).0, acked, cursor) && Refresh(s, scan).0.kinds == s.kinds
  {
    RefreshKeeps(s, scan);
    WindowsStayEqual(s.log, Refresh(s, scan).0.log, s.kinds, s.retainedAfter, acked);
  }

  datatype Turn = Polled(limit: nat, scans: seq<Scan>) | Background(scan: Scan)

  ghost predicate TurnOk(turn: Turn) {
    match turn
    case Polled(limit, scans) => 1 <= limit && scans != [] && ScansOk(scans)
    case Background(scan) => scan.Some? ==> ScanOk(scan.value)
  }

  /** A peer that polls only from its latest cursor, up to the first demand to resynchronise. */
  ghost function Watch(s: State, acked: nat, cursor: nat, turns: seq<Turn>): (State, nat, bool)
    requires forall i :: 0 <= i < |turns| ==> TurnOk(turns[i])
    decreases |turns|
  {
    if turns == [] then (s, acked, false)
    else
      assert TurnOk(turns[0]);
      match turns[0]
      case Background(scan) => Watch(Refresh(s, scan).0, acked, cursor, turns[1..])
      case Polled(limit, scans) =>
        var (t, reply) := Poll(s, cursor, limit, scans);
        match reply
        case ResyncRequired(_) => (t, acked, true)
        case Batch(_, c) => Watch(t, NowAcked(s, acked, cursor), c, turns[1..])
        case _ => Watch(t, NowAcked(s, acked, cursor), cursor, turns[1..])
  }

  lemma {:induction false} WatchResync(s: State, acked: nat, cursor: nat, turns: seq<Turn>)
    requires Attentive(s, acked, cursor) && forall i :: 0 <= i < |turns| ==> TurnOk(turns[i])
    ensures var (t, unacked, resynced) := Watch(s, acked, cursor, turns);
            resynced ==> |Matching(t.log, s.kinds, unacked)| > MAX_EVENTS
    decreases |turns|
  {
    if turns != [] {
      assert TurnOk(turns[0]);
      match turns[0]
      case Background(scan) =>
        AttentiveRefresh(s, acked, cursor, scan);
        WatchResync(Refresh(s, scan).0, acked, cursor, turns[1..]);
      case Polled(limit, scans) =>
        AttentivePoll(s, acked, cursor, limit, scans);
        var (t, reply) := Poll(s, cursor, limit, scans);
        if reply.Batch? {
          WatchResync(t, NowAcked(s, acked, cursor), reply.cursor, turns[1..]);
        } else if reply.Failed? {
          WatchResync(t, NowAcked(s, acked, cursor), cursor, turns[1..]);
        }
    }
  }

  /** From any subscription on, such a peer is told to resynchronise only after an overflow. */
  lemma ResyncOnlyAfterOverflow(s: State, kinds: seq<EventKind>, scan: Scan, turns: seq<Turn>)
    requires Valid(s) && (scan.Some? ==> ScanOk(scan.value)) && Subscribe(s, kinds, scan).1.Subscribed?
    requires forall i :: 0 <= i < |turns| ==> TurnOk(turns[i])
    ensures var (start, reply) := Subscribe(s, kinds, scan);
            var (t, unacked, resynced) := Watch(start, reply.cursor, reply.cursor, turns);
            resynced ==> |Matching(t.log, kinds, unacked)| > MAX_EVENTS
  {
    RefreshKeeps(s, scan);
    var (start, reply) := Subscribe(s, kinds, scan);
    Emptied(Refresh(s, scan).0);
    WatchResync(start, reply.cursor, reply.cursor, turns);
  }

  // ----- freshness -----

  /** One refresh, or any change that leaves the model and the identity counter alone. */
  ghost predicate Next(s: State, t: State) {
    || (exists raw :: ScanOk(raw) && t == Refresh(s, Some(raw)).0)
    || (Valid(t) && t.model == s.model && t.nextClient == s.nextClient)
  }

  ghost predicate History(h: seq<State>) {
    && h != [] && Valid(h[0])
    && forall i :: 0 <= i < |h| - 1 ==> Next(h[i], h[i + 1])
  }

  function Clients(s: State): seq<Record> {
    if s.model.Some? then s.model.value.clients else []
  }

  lemma Inherits(s: State, t: State, r: Record) returns (p: Record)
    requires Valid(s) && Next(s, t) && r in Clients(t) && r.descriptor.id < s.nextClient
    ensures p in Clients(s) && p.descriptor.id == r.descriptor.id && p.xid == r.xid
    ensures p == r || p.descriptor.generation < r.descriptor.generation
  {
    if t.model == s.model {
      p := r;
    } else {
      var raw :| ScanOk(raw) && t == Refresh(s, Some(raw)).0;
      var i :| 0 <= i < |Clients(t)| && Clients(t)[i] == r;
      if s.model.None? {
        FreshKeeps(s, raw.clients);
        assert false;
      } else {
        DiffKeeps(s.(model := None), s.model.value, raw);
        assert Descends(r, s.model.value.clients, s.nextClient);
        p := Prior(s.model.value.clients, r.xid).value;
      }
    }
  }

  lemma NextKeeps(s: State, t: State)
    requires Valid(s) && Next(s, t)
    ensures Valid(t) && s.nextClient <= t.nextClient
  {
    if !(Valid(t) && t.model == s.model && t.nextClient == s.nextClient) {
      var raw :| ScanOk(raw) && t == Refresh(s, Some(raw)).0;
      RefreshKeeps(s, Some(raw));
    }
  }

  lemma {:induction false} HistoryKeeps(h: seq<State>, i: nat, j: nat)
    requires History(h) && i <= j < |h|
    ensures Valid(h[i]) && Valid(h[j]) && h[i].nextClient <= h[j].nextClient
    decreases j
  {
    if i < j {
      HistoryKeeps(h, i, j - 1);
      NextKeeps(h[j - 1], h[j]);
    } else if 0 < j {
      HistoryKeeps(h, j - 1, j - 1);
      NextKeeps(h[j - 1], h[j]);
    }
  }

  /**
   No identity is ever reused: an identity known at `i` and seen again at `j` was there all along,
   bound to the same window, and its generation has not fallen; an equal generation means an
   identical descriptor at every refresh in between.
   */
  lemma {:induction false} NeverReused(h: seq<State>, i: nat, j: nat, r: Record) returns (p: Record)
    requires History(h) && i <= j < |h|
    requires r in Clients(h[j]) && r.descriptor.id < h[i].nextClient
    ensures p in Clients(h[i]) && p.descriptor.id == r.descriptor.id && p.xid == r.xid
    ensures p.descriptor.generation <= r.descriptor.generation
    ensures p.descriptor.generation == r.descriptor.generation ==>
              forall k :: i <= k <= j ==> r in Clients(h[k])
    decreases j
  {
    if i == j {
      p := r;
    } else {
      HistoryKeeps(h, i, j - 1);
      var q := Inherits(h[j - 1], h[j], r);
      p := NeverReused(h, i, j - 1, q);
    }
  }

  lemma {:induction false} RecordOfExact(records: seq<Record>, id: nat)
    requires DistinctIds(records)
    ensures match RecordOf(records, id)
            case Some(r) => r in records && r.descriptor.id == id
            case None => forall r :: r in records ==> r.descriptor.id != id
  {
    if records != [] {
      RecordOfExact(records[1..], id);
      assert records == [records[0]] + records[1..];
    }
  }

  /**
   `target` accepts exactly what the peer saw: if the client was in a snapshot taken at `i` and
   the same identity and generation are accepted at `j`, the accepted record is the one seen,
   and it was current at every refresh between. Otherwise the refusal names the reason.
   */
  lemma TargetIsWhatWasSeen(h: seq<State>, i: nat, j: nat, seen: Record)
    requires History(h) && i <= j < |h| && seen in Clients(h[i])
    ensures match ResolveTarget(h[j], seen.descriptor.id, seen.descriptor.generation)
            case Target(r) => r == seen && forall k :: i <= k <= j ==> seen in Clients(h[k])
            case NoSuchClient => forall r :: r in Clients(h[j]) ==> r.descriptor.id != seen.descriptor.id
            case Stale(g) =>
              && g > seen.descriptor.generation
              && exists r :: r in Clients(h[j]) && r.descriptor.id == seen.descriptor.id
  {
    HistoryKeeps(h, i, j);
    RecordOfExact(Clients(h[j]), seen.descriptor.id);
    KnownIdentity(h[i], seen);
    var found := RecordOf(Clients(h[j]), seen.descriptor.id);
    if found.Some? {
      var p := NeverReused(h, i, j, found.value);
      SameIdentity(Clients(h[i]), p, seen);
    }
  }

  lemma KnownIdentity(s: State, r: Record)
    requires Valid(s) && r in Clients(s)
    ensures r.descriptor.id < s.nextClient && DistinctIds(Clients(s))
  {
    var n :| 0 <= n < |Clients(s)| && Clients(s)[n] == r;
  }

  lemma SameIdentity(records: seq<Record>, p: Record, q: Record)
    requires DistinctIds(records) && p in records && q in records && p.descriptor.id == q.descriptor.id
    ensures p == q
  {
    var m :| 0 <= m < |records| && records[m] == p;
    var n :| 0 <= n < |records| && records[n] == q;
  }

  /** Every call of the observer is a history of single refreshes, so the theorems above speak of it. */
  lemma {:induction false} AwaitIsHistory(s: State, after: nat, limit: nat, scans: seq<Scan>) returns (h: seq<State>)
    requires Valid(s) && s.subscribed && s.retainedAfter <= after <= s.sequence && 1 <= limit
    requires scans != [] && ScansOk(scans)
    ensures History(h) && h[0] == s && h[|h| - 1] == Await(s, after, limit, scans).0
    decreases |scans|
  {
    RefreshKeeps(s, scans[0]);
    var (t, outcome) := Refresh(s, scans[0]);
    if scans[0].Some? {
      assert ScanOk(scans[0].value) && t == Refresh(s, Some(scans[0].value)).0;
    }
    assert Next(s, t);
    if Await(s, after, limit, scans).0 == t {
      h := [s, t];
    } else {
      var rest := AwaitIsHistory(t, after, limit, scans[1..]);
      h := [s] + rest;
    }
  }

  lemma RefreshIsNext(s: State, scan: Scan)
    requires Valid(s) && ScansOk([scan])
    ensures Next(s, Refresh(s, scan).0)
  {
    assert [scan][0] == scan;
    if scan.Some? {
      assert ScanOk(scan.value) && Refresh(s, scan).0 == Refresh(s, Some(scan.value)).0;
    }
  }

  lemma CallIsHistory(s: State, call: Call) returns (h: seq<State>)
    requires Valid(s) && CallOk(call)
    ensures History(h) && h[0] == s && h[|h| - 1] == Exec(s, call).0
  {
    ExecKeeps(s, call);
    var t := Exec(s, call).0;
    if !call.CallPoll? {
      RefreshIsNext(s, call.scan);
      h := [s, Refresh(s, call.scan).0, t];
    } else if s.subscribed && s.retainedAfter <= call.after <= s.sequence {
      AcknowledgeKeeps(s, call.after);
      var rest := AwaitIsHistory(Acknowledge(s, call.after), call.after, call.limit, call.scans);
      h := [s] + rest;
    } else {
      h := [s];
    }
  }
}
