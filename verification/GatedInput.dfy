/** Injected input: bracketed key strokes under any failure pattern, and typing that stops on revocation. */
module GatedInput {
  import opened Prelude
  import opened SeatGate

  // ----- one key stroke -----

  datatype Stroke = Stroke(modifiers: seq<nat>, key: nat)

  datatype KeyEvent = Press(key: nat) | Release(key: nat)

  /**
   What happens at one moment: a request to the X server, of which only a checked one reports whether
   it was acknowledged, or a look at the gate. The moment is the place in the trace.
   */
  datatype Moment = Attempt(event: KeyEvent, acked: bool, checked: bool) | Look(accepted: bool)

  /** A stroke that goes well: modifiers down, key down and up, modifiers up in reverse. */
  function Script(modifiers: seq<nat>, key: nat): (r: seq<KeyEvent>)
    ensures |r| == 2 * |modifiers| + 2
  {
    var k := |modifiers|;
    seq(2 * k + 2, n requires 0 <= n < 2 * k + 2 =>
      if n < k then Press(modifiers[n])
      else if n == k then Press(key)
      else if n == k + 1 then Release(key)
      else Release(modifiers[2 * k + 1 - n]))
  }

  /** The keys down after the first `n` events of the script, in the order they went down. */
  function Held(modifiers: seq<nat>, key: nat, n: nat): seq<nat>
    requires n <= 2 * |modifiers| + 2
  {
    var k := |modifiers|;
    if n <= k then modifiers[..n] else if n == k + 1 then modifiers + [key] else modifiers[..2 * k + 2 - n]
  }

  function Acked(events: seq<KeyEvent>): (r: seq<Moment>)
    ensures |r| == |events|
  {
    seq(|events|, i requires 0 <= i < |events| => Attempt(events[i], true, true))
  }

  /** Best-effort releases of held keys, last pressed first. */
  function Released(held: seq<nat>, acks: seq<bool>): (r: seq<Moment>)
    requires |acks| == |held|
    ensures |r| == |held|
  {
    seq(|held|, i requires 0 <= i < |held| => Attempt(Release(held[|held| - 1 - i]), acks[i], false))
  }

  /** The script up to the request that failed, that request, and the cleanup. */
  function Failure(modifiers: seq<nat>, key: nat, cut: nat, acks: seq<bool>): seq<Moment>
    requires cut < 2 * |modifiers| + 2 && |acks| == |Held(modifiers, key, cut)|
  {
    var script := Script(modifiers, key);
    Acked(script)[..cut] + [Attempt(script[cut], false, true)] + Released(Held(modifiers, key, cut), acks)
  }

  /**
   The keys still owed a release after a trace, innermost last; `None` if the trace releases out
   of order. An acknowledged press owes one; an acknowledged or best-effort release of the
   innermost key pays it; a checked release that failed pays nothing.
   */
  function Owed(trace: seq<Moment>): Option<seq<nat>> {
    if trace == [] then Some([])
    else
      var n := |trace| - 1;
      match Owed(trace[..n])
      case None => None
      case Some(held) => OwedAfter(held, trace[n])
  }

  function OwedAfter(held: seq<nat>, m: Moment): Option<seq<nat>> {
    match m
    case Look(_) => Some(held)
    case Attempt(Press(k), acked, _) => Some(if acked then held + [k] else held)
    case Attempt(Release(k), acked, checked) =>
      if held == [] || held[|held| - 1] != k then None
      else Some(if acked || !checked then held[..|held| - 1] else held)
  }

  lemma HeldStep(modifiers: seq<nat>, key: nat, n: nat)
    requires n < 2 * |modifiers| + 2
    ensures var before, after := Held(modifiers, key, n), Held(modifiers, key, n + 1);
            match Script(modifiers, key)[n]
            case Press(k) => after == before + [k]
            case Release(k) => before == after + [k]
  {
  }

  lemma {:induction false} OwedByScript(modifiers: seq<nat>, key: nat, n: nat)
    requires n <= 2 * |modifiers| + 2
    ensures Owed(Acked(Script(modifiers, key))[..n]) == Some(Held(modifiers, key, n))
  {
    if n > 0 {
      OwedByScript(modifiers, key, n - 1);
      HeldStep(modifiers, key, n - 1);
      var all := Acked(Script(modifiers, key));
      assert all[..n][..n - 1] == all[..n - 1];
    }
  }

  lemma {:induction false} ReleasedPays(before: seq<Moment>, held: seq<nat>, acks: seq<bool>)
    requires Owed(before) == Some(held) && |acks| == |held|
    ensures Owed(before + Released(held, acks)) == Some([])
    decreases |held|
  {
    var tail := Released(held, acks);
    if held == [] {
      assert before + tail == before;
    } else {
      var n := |held| - 1;
      assert (before + [tail[0]])[..|before|] == before;
      ReleasedPays(before + [tail[0]], held[..n], acks[1..]);
      assert tail[1..] == Released(held[..n], acks[1..]);
      assert before + tail == before + [tail[0]] + tail[1..];
    }
  }

  /** A whole script brackets its keys. */
  lemma ScriptIsBracketed(modifiers: seq<nat>, key: nat)
    ensures Owed(Acked(Script(modifiers, key))) == Some([])
  {
    var all := Acked(Script(modifiers, key));
    OwedByScript(modifiers, key, |all|);
    assert all[..|all|] == all;
  }

  /** So does one that is cut short anywhere: every acknowledged press has its release, innermost first. */
  lemma FailureIsBracketed(modifiers: seq<nat>, key: nat, cut: nat, acks: seq<bool>)
    requires cut < 2 * |modifiers| + 2 && |acks| == |Held(modifiers, key, cut)|
    ensures Owed(Failure(modifiers, key, cut, acks)) == Some([])
  {
    var script := Script(modifiers, key);
    var all := Acked(script);
    OwedByScript(modifiers, key, cut);
    var failed := all[..cut] + [Attempt(script[cut], false, true)];
    assert failed[..cut] == all[..cut];
    ReleasedPays(failed, Held(modifiers, key, cut), acks);
  }

  /** How far a script gets before a request fails, when its requests are numbered from `base`. */
  function CutFrom(outcomes: nat -> bool, base: nat, n: nat, length: nat): (cut: nat)
    requires n <= length
    ensures n <= cut <= length
    ensures (forall i: nat :: base + n <= i < base + cut ==> outcomes(i)) && (cut < length ==> !outcomes(base + cut))
    decreases length - n
  {
    if n == length || !outcomes(base + n) then n else CutFrom(outcomes, base, n + 1, length)
  }

  function Cut(outcomes: nat -> bool, base: nat, s: Stroke): (cut: nat)
    ensures cut <= 2 * |s.modifiers| + 2
  {
    CutFrom(outcomes, base, 0, 2 * |s.modifiers| + 2)
  }

  predicate IsWhole(outcomes: nat -> bool, base: nat, s: Stroke) {
    Cut(outcomes, base, s) == 2 * |s.modifiers| + 2
  }

  /** The answers to the releases that follow a failed request. */
  function Acks(outcomes: nat -> bool, from: nat, n: nat): (r: seq<bool>)
    ensures |r| == n && forall i :: 0 <= i < n ==> r[i] == outcomes(from + i)
  {
    seq(n, i requires 0 <= i < n => outcomes(from + i))
  }

  /** Everything a stroke attempts, under a failure pattern: the whole script, or what its first failure leaves of it. */
  function StrokeTrace(outcomes: nat -> bool, base: nat, s: Stroke): seq<Moment> {
    if IsWhole(outcomes, base, s) then Acked(Script(s.modifiers, s.key)) else CutTrace(outcomes, base, s, Cut(outcomes, base, s))
  }

  function CutTrace(outcomes: nat -> bool, base: nat, s: Stroke, cut: nat): seq<Moment>
    requires cut < 2 * |s.modifiers| + 2
  {
    Failure(s.modifiers, s.key, cut, Acks(outcomes, base + cut + 1, |Held(s.modifiers, s.key, cut)|))
  }

  lemma CutIsBracketed(outcomes: nat -> bool, base: nat, s: Stroke, cut: nat)
    requires cut < 2 * |s.modifiers| + 2
    ensures Owed(CutTrace(outcomes, base, s, cut)) == Some([])
  {
    FailureIsBracketed(s.modifiers, s.key, cut, Acks(outcomes, base + cut + 1, |Held(s.modifiers, s.key, cut)|));
  }

  /** Every stroke brackets its keys, whatever fails. */
  lemma StrokeIsBracketed(outcomes: nat -> bool, base: nat, s: Stroke)
    ensures Owed(StrokeTrace(outcomes, base, s)) == Some([])
  {
    var trace := StrokeTrace(outcomes, base, s);
    if IsWhole(outcomes, base, s) {
      ScriptIsBracketed(s.modifiers, s.key);
    } else {
      var cut := Cut(outcomes, base, s);
      assert trace == CutTrace(outcomes, base, s, cut);
      CutIsBracketed(outcomes, base, s, cut);
    }
  }

  /** Where a script was cut, and which of the best-effort releases were acknowledged. */
  datatype Ending = Ending(cut: nat, acks: seq<bool>)

  ghost predicate CutShort(start: seq<Moment>, trace: seq<Moment>, modifiers: seq<nat>, key: nat, end: Ending) {
    && end.cut < 2 * |modifiers| + 2 && |end.acks| == |Held(modifiers, key, end.cut)|
    && trace == start + Failure(modifiers, key, end.cut, end.acks)
  }

  lemma FailedAt(start: seq<Moment>, trace: seq<Moment>, modifiers: seq<nat>, key: nat, end: Ending)
    requires end.cut < 2 * |modifiers| + 2 && |end.acks| == |Held(modifiers, key, end.cut)|
    requires var script := Script(modifiers, key);
             trace == start + Acked(script)[..end.cut] + [Attempt(script[end.cut], false, true)]
                      + Released(Held(modifiers, key, end.cut), end.acks)
    ensures CutShort(start, trace, modifiers, key, end)
  {
  }

  lemma AckedNext(start: seq<Moment>, modifiers: seq<nat>, key: nat, n: nat)
    requires n < 2 * |modifiers| + 2
    ensures var all := Acked(Script(modifiers, key)); start + all[..n] + [all[n]] == start + all[..n + 1]
  {
  }

  /** The answers in a trace are those of the failure pattern. */
  ghost predicate Answered(outcomes: nat -> bool, trace: seq<Moment>, from: nat) {
    forall i :: from <= i < |trace| ==> trace[i].Attempt? && trace[i].acked == outcomes(i)
  }

  lemma CutIs(outcomes: nat -> bool, base: nat, s: Stroke, c: nat)
    requires c <= 2 * |s.modifiers| + 2 && forall i: nat :: base <= i < base + c ==> outcomes(i)
    requires c < 2 * |s.modifiers| + 2 ==> !outcomes(base + c)
    ensures Cut(outcomes, base, s) == c
  {
  }

  lemma WholeIsDetermined(outcomes: nat -> bool, start: seq<Moment>, s: Stroke)
    requires Answered(outcomes, start + Acked(Script(s.modifiers, s.key)), |start|)
    ensures IsWhole(outcomes, |start|, s) && StrokeTrace(outcomes, |start|, s) == Acked(Script(s.modifiers, s.key))
  {
    var trace := start + Acked(Script(s.modifiers, s.key));
    forall i: nat | |start| <= i < |trace| ensures outcomes(i) {
      assert trace[i].acked;
    }
    CutIs(outcomes, |start|, s, 2 * |s.modifiers| + 2);
  }

  lemma FailureCut(outcomes: nat -> bool, start: seq<Moment>, trace: seq<Moment>, s: Stroke, end: Ending)
    requires CutShort(start, trace, s.modifiers, s.key, end) && Answered(outcomes, trace, |start|)
    ensures Cut(outcomes, |start|, s) == end.cut
  {
    forall i: nat | |start| <= i < |start| + end.cut ensures outcomes(i) {
      assert trace[i].acked;
    }
    assert !trace[|start| + end.cut].acked;
    CutIs(outcomes, |start|, s, end.cut);
  }

  lemma FailureAcks(outcomes: nat -> bool, start: seq<Moment>, trace: seq<Moment>, s: Stroke, end: Ending)
    requires CutShort(start, trace, s.modifiers, s.key, end) && Answered(outcomes, trace, |start|)
    ensures end.acks == Acks(outcomes, |start| + end.cut + 1, |end.acks|)
  {
    var held := Held(s.modifiers, s.key, end.cut);
    forall i | 0 <= i < |held| ensures end.acks[i] == outcomes(|start| + end.cut + 1 + i) {
      assert trace[|start| + end.cut + 1 + i] == Released(held, end.acks)[i];
    }
  }

  lemma FailureIsDetermined(outcomes: nat -> bool, start: seq<Moment>, trace: seq<Moment>, s: Stroke, end: Ending)
    requires CutShort(start, trace, s.modifiers, s.key, end) && Answered(outcomes, trace, |start|)
    ensures !IsWhole(outcomes, |start|, s) && trace == start + StrokeTrace(outcomes, |start|, s)
  {
    FailureCut(outcomes, start, trace, s, end);
    FailureAcks(outcomes, start, trace, s, end);
    var failure := Failure(s.modifiers, s.key, end.cut, end.acks);
    assert CutTrace(outcomes, |start|, s, end.cut) == failure;
    assert StrokeTrace(outcomes, |start|, s) == failure;
  }

  // ----- the connection -----

  function Struck(trace: seq<Moment>, outcomes: nat -> bool, s: Stroke): seq<Moment> {
    trace + StrokeTrace(outcomes, |trace|, s)
  }

  /** The provider's connection: what fails at which moment, and everything that happened. */
  class XServer {
    const outcomes: nat -> bool
    var trace: seq<Moment>

    constructor (outcomes: nat -> bool)
      ensures this.outcomes == outcomes && trace == []
    {
      this.outcomes := outcomes;
      trace := [];
    }

    method FakeInput(event: KeyEvent) returns (ok: bool)
      modifies this
      ensures ok == outcomes(|old(trace)|)
      ensures trace == old(trace) + [Attempt(event, ok, true)]
    {
      ok := outcomes(|trace|);
      trace := trace + [Attempt(event, ok, true)];
    }

    method BestEffortRelease(key: nat)
      modifies this
      ensures trace == old(trace) + [Attempt(Release(key), outcomes(|old(trace)|), false)]
    {
      trace := trace + [Attempt(Release(key), outcomes(|trace|), false)];
    }

    /** `release_keys`. */
    method ReleaseKeys(held: seq<nat>, ghost start: seq<Moment>) returns (ghost acks: seq<bool>)
      requires Answered(outcomes, trace, |start|)
      modifies this
      ensures Answered(outcomes, trace, |start|)
      ensures |acks| == |held| && trace == old(trace) + Released(held, acks)
    {
      acks := [];
      var i := |held|;
      while 0 < i
        invariant 0 <= i <= |held| && |acks| == |held| - i && Answered(outcomes, trace, |start|)
        invariant trace == old(trace) + Released(held[i..], acks)
      {
        i := i - 1;
        ghost var ack := outcomes(|trace|);
        BestEffortRelease(held[i]);
        assert Released(held[i..], acks + [ack])
            == Released(held[i + 1..], acks) + [Attempt(Release(held[i]), ack, false)];
        acks := acks + [ack];
      }
      assert held[i..] == held;
    }

    /** A checked release that failed: try once more, then release the rest. */
    method AbandonRelease(key: nat, held: seq<nat>, ghost start: seq<Moment>) returns (ghost acks: seq<bool>)
      requires Answered(outcomes, trace, |start|)
      modifies this
      ensures Answered(outcomes, trace, |start|)
      ensures |acks| == |held| + 1 && trace == old(trace) + Released(held + [key], acks)
    {
      ghost var ack := outcomes(|trace|);
      BestEffortRelease(key);
      acks := ReleaseKeys(held, start);
      assert Released(held + [key], [ack] + acks)
          == [Attempt(Release(key), ack, false)] + Released(held, acks);
      acks := [ack] + acks;
    }

    /** The modifiers go down one by one. */
    method PressModifiers(modifiers: seq<nat>, key: nat, ghost start: seq<Moment>) returns (ok: bool, ghost end: Ending)
      requires start == trace
      modifies this
      ensures Answered(outcomes, trace, |start|)
      ensures ok ==> trace == start + Acked(Script(modifiers, key))[..|modifiers|]
      ensures !ok ==> CutShort(start, trace, modifiers, key, end)
    {
      ghost var all := Acked(Script(modifiers, key));
      end := Ending(0, []);
      var pressed: seq<nat> := [];
      while |pressed| < |modifiers|
        invariant |pressed| <= |modifiers| && pressed == modifiers[..|pressed|]
        invariant trace == start + all[..|pressed|] && Answered(outcomes, trace, |start|)
      {
        var modifier := modifiers[|pressed|];
        ok := FakeInput(Press(modifier));
        if !ok {
          ghost var acks := ReleaseKeys(pressed, start);
          end := Ending(|pressed|, acks);
          FailedAt(start, trace, modifiers, key, end);
          return;
        }
        AckedNext(start, modifiers, key, |pressed|);
        pressed := pressed + [modifier];
      }
      ok := true;
    }

    /** The key goes down and up under the modifiers. */
    method TapKey(modifiers: seq<nat>, key: nat, ghost start: seq<Moment>) returns (ok: bool, ghost end: Ending)
      requires Answered(outcomes, trace, |start|) && trace == start + Acked(Script(modifiers, key))[..|modifiers|]
      modifies this
      ensures Answered(outcomes, trace, |start|)
      ensures ok ==> trace == start + Acked(Script(modifiers, key))[..|modifiers| + 2]
      ensures !ok ==> CutShort(start, trace, modifiers, key, end)
    {
      ghost var all := Acked(Script(modifiers, key));
      var k := |modifiers|;
      end := Ending(0, []);
      ok := FakeInput(Press(key));
      if !ok {
        ghost var acks := ReleaseKeys(modifiers, start);
        end := Ending(k, acks);
        assert Held(modifiers, key, k) == modifiers;
        FailedAt(start, trace, modifiers, key, end);
        return;
      }
      AckedNext(start, modifiers, key, k);
      ok, end := ReleaseChecked(modifiers, key, k + 1, key, modifiers, start);
    }

    /** A checked release, event `n` of the script; if it fails, that key and the rest are released as well as can be. */
    method ReleaseChecked(modifiers: seq<nat>, key: nat, n: nat, last: nat, rest: seq<nat>, ghost start: seq<Moment>)
      returns (ok: bool, ghost end: Ending)
      requires n < 2 * |modifiers| + 2 && Script(modifiers, key)[n] == Release(last)
      requires Held(modifiers, key, n) == rest + [last]
      requires Answered(outcomes, trace, |start|) && trace == start + Acked(Script(modifiers, key))[..n]
      modifies this
      ensures Answered(outcomes, trace, |start|)
      ensures ok ==> trace == start + Acked(Script(modifiers, key))[..n + 1]
      ensures !ok ==> CutShort(start, trace, modifiers, key, end)
    {
      end := Ending(n, []);
      ok := FakeInput(Release(last));
      if ok {
        AckedNext(start, modifiers, key, n);
      } else {
        ghost var acks := AbandonRelease(last, rest, start);
        end := Ending(n, acks);
        FailedAt(start, trace, modifiers, key, end);
      }
    }

    /** The modifiers are popped and released. */
    method ReleaseModifiers(modifiers: seq<nat>, key: nat, ghost start: seq<Moment>)
      returns (ok: bool, ghost end: Ending)
      requires Answered(outcomes, trace, |start|) && trace == start + Acked(Script(modifiers, key))[..|modifiers| + 2]
      modifies this
      ensures Answered(outcomes, trace, |start|)
      ensures ok ==> trace == start + Acked(Script(modifiers, key))
      ensures !ok ==> CutShort(start, trace, modifiers, key, end)
    {
      ghost var all := Acked(Script(modifiers, key));
      var k := |modifiers|;
      ok, end := true, Ending(0, []);
      var pressed := modifiers;
      while pressed != [] && ok
        invariant |pressed| <= k && pressed == modifiers[..|pressed|] && Answered(outcomes, trace, |start|)
        invariant ok ==> trace == start + all[..2 * k + 2 - |pressed|]
        invariant !ok ==> CutShort(start, trace, modifiers, key, end)
        decreases |pressed|
      {
        var n, modifier := 2 * k + 2 - |pressed|, pressed[|pressed| - 1];
        assert Held(modifiers, key, n) == pressed[..|pressed| - 1] + [modifier];
        pressed := pressed[..|pressed| - 1];
        ok, end := ReleaseChecked(modifiers, key, n, modifier, pressed, start);
      }
      assert all[..2 * k + 2] == all;
    }

    /** `type_key`: the whole script acknowledged, or the script cut at its first failure and cleaned up. */
    method TypeKey(s: Stroke) returns (ok: bool)
      modifies this
      ensures trace == Struck(old(trace), outcomes, s)
      ensures ok == IsWhole(outcomes, |old(trace)|, s)
    {
      ghost var start, end := trace, Ending(0, []);
      ok, end := PressModifiers(s.modifiers, s.key, start);
      if ok {
        ok, end := TapKey(s.modifiers, s.key, start);
      }
      if ok {
        ok, end := ReleaseModifiers(s.modifiers, s.key, start);
      }
      if ok {
        WholeIsDetermined(outcomes, start, s);
      } else {
        FailureIsDetermined(outcomes, start, trace, s, end);
      }
    }

    /** One look at the gate. */
    method LookAtGate(permit: nat, word: nat -> nat) returns (accepted: bool)
      modifies this
      ensures accepted == Accepts(word(|old(trace)|), permit) && trace == old(trace) + [Look(accepted)]
    {
      accepted := Accepts(word(|trace|), permit);
      trace := trace + [Look(accepted)];
    }

    /** The closure `keyboard_text` runs, inside `under_server_grab`. */
    method GrabbedSection(w: World, e: Section) returns (result: Option<bool>)
      requires w == WorldOf(w.permit, w.word, outcomes)
      modifies this
      ensures result == Grabbed(w, e, old(trace)).result && trace == Grabbed(w, e, old(trace)).trace
    {
      if !e.grab {
        return None;
      }
      result := None;
      if e.ready {
        var accepted := LookAtGate(w.permit, w.word);
        if !accepted {
          result := Some(false);
        } else if e.stroke.Some? {
          var typed := TypeKey(e.stroke.value);
          result := if typed then Some(true) else None;
        }
      }
      if !e.ungrab {
        result := None;
      }
    }

    /** One turn of the loop in `keyboard_text`, and whether it leaves the loop or the call. */
    method TypeCharacter(w: World, e: Section, completed: nat, ghost p: Progress)
      returns (done: nat, stopped: bool, failed: bool)
      requires w == WorldOf(w.permit, w.word, outcomes) && p.completed == completed && p.trace == trace && !p.stopped && !p.failed
      modifies this
      ensures var q := OneCharacter(w, e, p);
              done == q.completed && trace == q.trace && stopped == q.stopped && failed == q.failed && (failed ==> stopped)
    {
      var result := GrabbedSection(w, e);
      done, stopped, failed := completed, true, false;
      if result == Some(true) {
        done := completed + 1;
        var accepted := LookAtGate(w.permit, w.word);
        stopped := !accepted;
      } else {
        failed := result.None? && completed == 0;
      }
    }

    /** The loop of `keyboard_text`. */
    method TypeAll(w: World, env: seq<Section>) returns (completed: nat, failed: bool)
      requires w == WorldOf(w.permit, w.word, outcomes)
      modifies this
      ensures var p := Characters(w, old(trace), env, |env|);
              completed == p.completed && failed == p.failed && trace == p.trace
    {
      ghost var start, p := trace, Start(trace);
      var i, stopped := 0, false;
      completed, failed := 0, false;
      while i < |env| && !stopped
        invariant 0 <= i <= |env| && p == Characters(w, start, env, i)
        invariant p.completed == completed && p.trace == trace && p.stopped == stopped && p.failed == failed
        invariant failed ==> stopped
      {
        completed, stopped, failed := TypeCharacter(w, env[i], completed, p);
        p := OneCharacter(w, env[i], p);
        i := i + 1;
      }
      if stopped {
        StoppedStays(w, start, env, i, |env|);
      }
    }

    /** `keyboard_text`: the reply and everything that happened are those of the specification. */
    method KeyboardText(w: World, preflight: bool, env: seq<Section>) returns (r: Option<InputReply>)
      requires w == WorldOf(w.permit, w.word, outcomes)
      modifies this
      ensures r == Text(w, old(trace), preflight, env).reply && trace == Text(w, old(trace), preflight, env).trace
    {
      if |env| > U16_MAX || !preflight {
        return None;
      }
      var completed, failed := TypeAll(w, env);
      if failed {
        return None;
      }
      var complete := false;
      if completed == |env| {
        complete := LookAtGate(w.permit, w.word);
      }
      r := Some(InputReply(completed, |env|, if complete then Queued else Interrupted));
    }
  }

  // ----- gated text -----

  /** The session's permit, the gate's word at each moment, and what a stroke begun at a moment does. */
  datatype World = World(permit: nat, word: nat -> nat, strike: (nat, Stroke) -> seq<Moment>, whole: (nat, Stroke) -> bool)

  /** Strokes as `type_key` makes them, under the failures of the X server. */
  function WorldOf(permit: nat, word: nat -> nat, outcomes: nat -> bool): World {
    World(permit, word, (n: nat, s) => StrokeTrace(outcomes, n, s), (n: nat, s) => IsWhole(outcomes, n, s))
  }

  /** What one grabbed section of `keyboard_text` meets: each field is one call's success. */
  datatype Section = Section(grab: bool, ready: bool, stroke: Option<Stroke>, ungrab: bool)

  /** The part of the trace that one stroke takes. */
  datatype Span = Span(from: nat, to: nat)

  /** Progress through the text. `completed` is the code's counter; `strokes` is where each stroke typed lies in the trace. */
  datatype Progress = Progress(
    completed: nat, trace: seq<Moment>, strokes: seq<Span>, stopped: bool, failed: bool)

  function Start(trace: seq<Moment>): Progress {
    Progress(0, trace, [], false, false)
  }

  datatype Terminal = Queued | Interrupted
  datatype InputReply = InputReply(completed: nat, requested: nat, terminal: Terminal)

  /** What a grabbed section did: typed, refused by the gate, or failed; the trace after it; its stroke, if any. */
  datatype Effect = Effect(result: Option<bool>, trace: seq<Moment>, stroke: Option<Span>)

  function GateLook(w: World, trace: seq<Moment>): Moment {
    Look(Accepts(w.word(|trace|), w.permit))
  }

  function Grabbed(w: World, e: Section, trace: seq<Moment>): Effect {
    if !e.grab || !e.ready then Effect(None, trace, None)
    else
      var looked := trace + [GateLook(w, trace)];
      if !GateLook(w, trace).accepted then Effect(if e.ungrab then Some(false) else None, looked, None)
      else if e.stroke.None? then Effect(None, looked, None)
      else
        var after := looked + w.strike(|looked|, e.stroke.value);
        Effect(if w.whole(|looked|, e.stroke.value) && e.ungrab then Some(true) else None,
               after, Some(Span(|looked|, |after|)))
  }

  function OneCharacter(w: World, e: Section, p: Progress): Progress {
    var f := Grabbed(w, e, p.trace);
    var q := p.(trace := f.trace, strokes := if f.stroke.Some? then p.strokes + [f.stroke.value] else p.strokes);
    match f.result
    case Some(true) =>
      q.(completed := p.completed + 1, trace := f.trace + [GateLook(w, f.trace)], stopped := !GateLook(w, f.trace).accepted)
    case Some(false) => q.(stopped := true)
    case None => q.(stopped := true, failed := p.completed == 0)
  }

  /** After the first `n` characters. */
  function Characters(w: World, start: seq<Moment>, env: seq<Section>, n: nat): Progress
    requires n <= |env|
  {
    if n == 0 then Start(start)
    else
      var p := Characters(w, start, env, n - 1);
      if p.stopped then p else OneCharacter(w, env[n - 1], p)
  }

  /** What `keyboard_text` replies, what it did, and where each stroke lies in that. */
  datatype Typed = Typed(reply: Option<InputReply>, trace: seq<Moment>, strokes: seq<Span>)

  function Text(w: World, start: seq<Moment>, preflight: bool, env: seq<Section>): Typed {
    var p := Characters(w, start, env, |env|);
    if |env| > U16_MAX || !preflight then Typed(None, start, [])
    else if p.failed then Typed(None, p.trace, p.strokes)
    else if p.completed == |env| then
      var look := GateLook(w, p.trace);
      Typed(Some(InputReply(p.completed, |env|, if look.accepted then Queued else Interrupted)), p.trace + [look], p.strokes)
    else Typed(Some(InputReply(p.completed, |env|, Interrupted)), p.trace, p.strokes)
  }

  lemma {:induction false} StoppedStays(w: World, start: seq<Moment>, env: seq<Section>, n: nat, m: nat)
    requires n <= m <= |env| && Characters(w, start, env, n).stopped
    ensures Characters(w, start, env, m) == Characters(w, start, env, n)
  {
    if n < m {
      StoppedStays(w, start, env, n, m - 1);
    }
  }

  // ----- what the trace shows -----

  /** Stroke `k` of the trace is all that was tried for character `k`. */
  ghost predicate StrokeOk(w: World, env: seq<Section>, trace: seq<Moment>, strokes: seq<Span>, k: nat)
    requires k < |strokes|
  {
    var s := strokes[k];
    && k < |env| && env[k].stroke.Some? && s.from <= s.to <= |trace|
    && trace[s.from..s.to] == w.strike(s.from, env[k].stroke.value)
  }

  predicate WholeAt(w: World, env: seq<Section>, strokes: seq<Span>, k: nat)
    requires k < |strokes|
  {
    k < |env| && env[k].stroke.Some? && w.whole(strokes[k].from, env[k].stroke.value)
  }

  /** Strokes follow one another, and between them there are only looks at the gate. */
  ghost predicate Laid(start: nat, trace: seq<Moment>, strokes: seq<Span>) {
    && (forall k :: 0 <= k < |strokes| ==> start < strokes[k].from <= strokes[k].to <= |trace|)
    && (forall j, k :: 0 <= j < k < |strokes| ==> strokes[j].to <= strokes[k].from)
    && (forall i :: start <= i < |trace| && trace[i].Attempt? ==> Within(strokes, i))
  }

  ghost predicate Within(strokes: seq<Span>, i: nat) {
    exists k :: 0 <= k < |strokes| && strokes[k].from <= i < strokes[k].to
  }

  /** The gate's word was the permit at every moment of a range. */
  ghost predicate OnTime(w: World, from: nat, to: nat) {
    forall i: nat :: from <= i < to ==> w.word(i) == w.permit
  }

  /** The strokes whose script went through whole. */
  function Finished(w: World, env: seq<Section>, strokes: seq<Span>): nat {
    if strokes == [] then 0
    else |strokes| - 1 + if WholeAt(w, env, strokes, |strokes| - 1) then 1 else 0
  }

  ghost predicate TraceOk(w: World, start: seq<Moment>, env: seq<Section>, trace: seq<Moment>, strokes: seq<Span>) {
    && start <= trace && |strokes| <= |env| && Laid(|start|, trace, strokes)
    && (forall k :: 0 <= k < |strokes| ==> StrokeOk(w, env, trace, strokes, k))
    && (forall k :: 0 <= k < |strokes| - 1 ==> WholeAt(w, env, strokes, k))
    && (strokes != [] ==> OnTime(w, |start|, strokes[|strokes| - 1].from))
  }

  ghost predicate CountOk(w: World, start: seq<Moment>, env: seq<Section>, n: nat, p: Progress) {
    var finished := Finished(w, env, p.strokes);
    && p.completed <= finished <= p.completed + 1 && finished <= n <= |env|
    && (finished > p.completed <==> finished > 0 && !env[finished - 1].ungrab)
    && (!p.stopped ==> p.completed == n == |p.strokes| == finished && !p.failed && OnTime(w, |start|, |p.trace|))
    && (p.failed ==> p.stopped && p.completed == 0)
  }

  ghost predicate ProgressOk(w: World, start: seq<Moment>, env: seq<Section>, n: nat, p: Progress) {
    TraceOk(w, start, env, p.trace, p.strokes) && CountOk(w, start, env, n, p)
  }

  lemma LaidLook(start: nat, trace: seq<Moment>, strokes: seq<Span>, look: Moment)
    requires Laid(start, trace, strokes) && look.Look?
    ensures Laid(start, trace + [look], strokes)
  {
    forall i | start <= i < |trace + [look]| && (trace + [look])[i].Attempt? ensures Within(strokes, i) {
      assert trace[i].Attempt?;
    }
  }

  lemma LaidStroke(start: nat, trace: seq<Moment>, strokes: seq<Span>, attempts: seq<Moment>)
    requires start < |trace| && Laid(start, trace, strokes)
    ensures Laid(start, trace + attempts, strokes + [Span(|trace|, |trace| + |attempts|)])
  {
    var longer, more := trace + attempts, strokes + [Span(|trace|, |trace| + |attempts|)];
    forall i | start <= i < |longer| && longer[i].Attempt? ensures Within(more, i) {
      if i < |trace| {
        assert trace[i].Attempt?;
        var k :| 0 <= k < |strokes| && strokes[k].from <= i < strokes[k].to;
        assert more[k] == strokes[k];
      } else {
        assert more[|strokes|].from <= i < more[|strokes|].to;
      }
    }
  }

  /** A look at the gate adds nothing to the strokes. */
  lemma LookKeeps(w: World, start: seq<Moment>, env: seq<Section>, trace: seq<Moment>, strokes: seq<Span>, look: Moment)
    requires TraceOk(w, start, env, trace, strokes) && look.Look?
    ensures TraceOk(w, start, env, trace + [look], strokes)
  {
    LaidLook(|start|, trace, strokes, look);
    forall k | 0 <= k < |strokes| ensures StrokeOk(w, env, trace + [look], strokes, k) {
      assert StrokeOk(w, env, trace, strokes, k);
      var s := strokes[k];
      assert (trace + [look])[s.from..s.to] == trace[s.from..s.to];
    }
  }

  /** Strokes stay what they are when more is added behind them. */
  lemma StrokesStay(w: World, env: seq<Section>, trace: seq<Moment>, more: seq<Moment>, strokes: seq<Span>, span: Span)
    requires forall k :: 0 <= k < |strokes| ==> StrokeOk(w, env, trace, strokes, k)
    ensures forall k :: 0 <= k < |strokes| ==> StrokeOk(w, env, trace + more, strokes + [span], k)
    ensures forall k :: 0 <= k < |strokes| ==> WholeAt(w, env, strokes + [span], k) == WholeAt(w, env, strokes, k)
  {
    forall k | 0 <= k < |strokes| ensures StrokeOk(w, env, trace + more, strokes + [span], k) {
      assert StrokeOk(w, env, trace, strokes, k);
      var s := strokes[k];
      assert (trace + more)[s.from..s.to] == trace[s.from..s.to];
    }
  }

  /** The next stroke, begun in time behind strokes that all went through. */
  lemma StrokeKeeps(
    w: World, start: seq<Moment>, env: seq<Section>, trace: seq<Moment>, strokes: seq<Span>, attempts: seq<Moment>)
    requires TraceOk(w, start, env, trace, strokes) && OnTime(w, |start|, |trace|) && |start| < |trace|
    requires |strokes| < |env| && env[|strokes|].stroke.Some?
    requires attempts == w.strike(|trace|, env[|strokes|].stroke.value)
    requires strokes != [] ==> WholeAt(w, env, strokes, |strokes| - 1)
    ensures TraceOk(w, start, env, trace + attempts, strokes + [Span(|trace|, |trace| + |attempts|)])
  {
    var span := Span(|trace|, |trace| + |attempts|);
    var after, more := trace + attempts, strokes + [span];
    LaidStroke(|start|, trace, strokes, attempts);
    StrokesStay(w, env, trace, attempts, strokes, span);
    assert after[span.from..span.to] == attempts;
    assert StrokeOk(w, env, after, more, |strokes|);
    forall k | 0 <= k < |more| - 1 ensures WholeAt(w, env, more, k) {
      assert WholeAt(w, env, strokes, k);
    }
  }

  /** A word that is the permit at two moments is the permit at every moment between. */
  lemma Between(w: World, from: nat, middle: nat, to: nat)
    requires NeverFalls(w.word) && OnTime(w, from, middle + 1) && middle <= to && w.word(to) == w.permit
    ensures from <= middle ==> OnTime(w, from, to + 1)
  {
    if from <= middle {
      forall i: nat | from <= i < to + 1 ensures w.word(i) == w.permit {
        assert w.word(middle) == w.permit;
        assert i <= middle || w.word(middle) <= w.word(i) <= w.word(to);
      }
    }
  }

  lemma OnTimeNext(w: World, from: nat, to: nat)
    requires OnTime(w, from, to) && w.word(to) == w.permit
    ensures OnTime(w, from, to + 1)
  {
  }

  /** Nothing typed for a character: the loop ends. */
  lemma NoStrokeKeeps(w: World, start: seq<Moment>, env: seq<Section>, n: nat, p: Progress)
    requires ProgressOk(w, start, env, n, p) && !p.stopped && n < |env| && Grabbed(w, env[n], p.trace).stroke.None?
    ensures ProgressOk(w, start, env, n + 1, OneCharacter(w, env[n], p))
  {
    LookKeeps(w, start, env, p.trace, p.strokes, GateLook(w, p.trace));
  }

  lemma TypedKeeps(w: World, start: seq<Moment>, env: seq<Section>, n: nat, p: Progress)
    requires ProgressOk(w, start, env, n, p) && !p.stopped && n < |env| && Grabbed(w, env[n], p.trace).stroke.Some?
    ensures var q := OneCharacter(w, env[n], p); TraceOk(w, start, env, q.trace, q.strokes)
  {
    var look := GateLook(w, p.trace);
    var looked := p.trace + [look];
    LookKeeps(w, start, env, p.trace, p.strokes, look);
    OnTimeNext(w, |start|, |p.trace|);
    var attempts := w.strike(|looked|, env[n].stroke.value);
    StrokeKeeps(w, start, env, looked, p.strokes, attempts);
    LookKeeps(w, start, env, looked + attempts, p.strokes + [Span(|looked|, |looked| + |attempts|)],
              GateLook(w, looked + attempts));
  }

  lemma TypedCounts(w: World, start: seq<Moment>, env: seq<Section>, n: nat, p: Progress)
    requires NeverFalls(w.word) && |start| <= |p.trace|
    requires CountOk(w, start, env, n, p) && !p.stopped && n < |env| && Grabbed(w, env[n], p.trace).stroke.Some?
    ensures CountOk(w, start, env, n + 1, OneCharacter(w, env[n], p))
  {
    var f, q := Grabbed(w, env[n], p.trace), OneCharacter(w, env[n], p);
    assert q.strokes[n] == Span(|p.trace| + 1, |f.trace|);
    OnTimeNext(w, |start|, |p.trace|);
    if f.result == Some(true) && !q.stopped {
      Between(w, |start|, |p.trace|, |f.trace|);
    }
  }

  lemma CharacterKeeps(w: World, start: seq<Moment>, env: seq<Section>, n: nat, p: Progress)
    requires NeverFalls(w.word) && ProgressOk(w, start, env, n, p) && !p.stopped && n < |env|
    ensures ProgressOk(w, start, env, n + 1, OneCharacter(w, env[n], p))
  {
    if Grabbed(w, env[n], p.trace).stroke.None? {
      NoStrokeKeeps(w, start, env, n, p);
    } else {
      TypedKeeps(w, start, env, n, p);
      TypedCounts(w, start, env, n, p);
    }
  }

  lemma {:induction false} ProgressKept(w: World, start: seq<Moment>, env: seq<Section>, n: nat)
    requires NeverFalls(w.word) && n <= |env|
    ensures ProgressOk(w, start, env, n, Characters(w, start, env, n))
  {
    if n > 0 {
      ProgressKept(w, start, env, n - 1);
      if !Characters(w, start, env, n - 1).stopped {
        CharacterKeeps(w, start, env, n - 1, Characters(w, start, env, n - 1));
      }
    }
  }

  /** A stroke with an attempt at a moment when the gate's word is not the permit. */
  ghost predicate Late(w: World, s: Span) {
    exists i: nat :: s.from <= i < s.to && w.word(i) != w.permit
  }

  /** The permit still good at a later moment was good all along. */
  lemma StillGood(w: World, start: seq<Moment>, env: seq<Section>, p: Progress)
    requires NeverFalls(w.word) && TraceOk(w, start, env, p.trace, p.strokes) && p.strokes != []
    requires w.word(|p.trace|) == w.permit
    ensures OnTime(w, |start|, |p.trace| + 1)
  {
    Between(w, |start|, p.strokes[|p.strokes| - 1].from - 1, |p.trace|);
  }

  /** What the trace of a whole call shows. */
  ghost predicate TraceHonest(w: World, start: seq<Moment>, env: seq<Section>, trace: seq<Moment>, strokes: seq<Span>) {
    && start <= trace && |strokes| <= |env| && Laid(|start|, trace, strokes)
    && (forall k :: 0 <= k < |strokes| ==> StrokeOk(w, env, trace, strokes, k))
    && (forall k :: 0 <= k < |strokes| - 1 ==> WholeAt(w, env, strokes, k) && !Late(w, strokes[k]))
  }

  /** What the reply says of it. */
  ghost predicate ReplyHonest(w: World, start: seq<Moment>, env: seq<Section>, out: Typed) {
    var finished := Finished(w, env, out.strokes);
    && finished <= |env|
    && (out.reply.Some? ==>
          var r := out.reply.value;
          && 0 < r.requested == |env| && r.completed <= r.requested
          && r.completed <= finished <= r.completed + 1
          && (r.completed == finished <==> finished == 0 || env[finished - 1].ungrab)
          && (r.terminal == Queued <==> r.completed == |env| && out.trace != [] && Accepts(w.word(|out.trace| - 1), w.permit))
          && (r.terminal == Queued ==> finished == |out.strokes| == |env| && OnTime(w, |start|, |out.trace|)))
    && (out.reply.None? ==> finished == 0 || (finished == 1 && !env[0].ungrab))
  }

  lemma TraceIsHonest(w: World, start: seq<Moment>, env: seq<Section>, trace: seq<Moment>, strokes: seq<Span>)
    requires TraceOk(w, start, env, trace, strokes)
    ensures TraceHonest(w, start, env, trace, strokes)
  {
    forall k | 0 <= k < |strokes| - 1 ensures !Late(w, strokes[k]) {
      assert strokes[k].to <= strokes[|strokes| - 1].from;
    }
  }

  lemma ReplyIsHonest(w: World, start: seq<Moment>, env: seq<Section>)
    requires NeverFalls(w.word) && env != [] && |env| <= U16_MAX
    ensures ReplyHonest(w, start, env, Text(w, start, true, env))
  {
    ProgressKept(w, start, env, |env|);
    var p := Characters(w, start, env, |env|);
    if p.completed == |env| && w.word(|p.trace|) == w.permit {
      StillGood(w, start, env, p);
    }
  }

  /**
   Typing tells the truth, in every interleaving with the gate and whatever its strokes do. All that
   is attempted is one stroke for each of the first characters; at most the last of them has an
   attempt when the word is not the permit; all but the last went through whole. Queued means that
   every character's whole script is in the trace, in time, and that the permit still held at the
   last look. The count is the whole scripts, unless the server grab could not be released after the
   last of them; an error means none, or one after which it could not.
   */
  lemma TypingIsHonest(w: World, start: seq<Moment>, preflight: bool, env: seq<Section>)
    requires NeverFalls(w.word) && env != []
    ensures var out := Text(w, start, preflight, env);
            TraceHonest(w, start, env, out.trace, out.strokes) && ReplyHonest(w, start, env, out)
  {
    if preflight && |env| <= U16_MAX {
      ProgressKept(w, start, env, |env|);
      var p := Characters(w, start, env, |env|);
      LookKeeps(w, start, env, p.trace, p.strokes, GateLook(w, p.trace));
      TraceIsHonest(w, start, env, p.trace, p.strokes);
      TraceIsHonest(w, start, env, p.trace + [GateLook(w, p.trace)], p.strokes);
      ReplyIsHonest(w, start, env);
    }
  }

  /**
   Beside any interleaving of the gate: once a call that disables has returned, no stroke but the
   last has an attempt, for any permit issued before.
   */
  lemma TypingStopsAtDisable(
    states: seq<Gate>, labels: seq<Label>, place: nat -> nat, w: World, start: seq<Moment>, preflight: bool, env: seq<Section>,
    issue: nat, disable: nat)
    requires Behavior(states, labels) && Samples(states, place, w.word) && env != []
    requires issue <= disable && Disables(labels, disable) && states[issue].word == w.permit && IsEnabled(w.permit)
    ensures var strokes := Text(w, start, preflight, env).strokes;
            forall k, moment: nat :: 0 <= k < |strokes| - 1 && strokes[k].from <= moment < strokes[k].to ==>
              place(moment) <= disable
  {
    SampledNeverFalls(states, labels, place, w.word);
    TypingIsHonest(w, start, preflight, env);
    var strokes := Text(w, start, preflight, env).strokes;
    forall k, moment: nat | 0 <= k < |strokes| - 1 && strokes[k].from <= moment < strokes[k].to
      ensures place(moment) <= disable
    {
      assert !Late(w, strokes[k]);
      StillBefore(states, labels, place, w.word, issue, moment, disable);
    }
  }

  /** Each stroke in the trace is what `type_key` makes of it: its whole script, or a bracketed part of it. */
  lemma TypedStrokesAreBracketed(
    permit: nat, word: nat -> nat, outcomes: nat -> bool, start: seq<Moment>, preflight: bool, env: seq<Section>, k: nat)
    requires NeverFalls(word) && env != []
    requires k < |Text(WorldOf(permit, word, outcomes), start, preflight, env).strokes|
    ensures var w := WorldOf(permit, word, outcomes);
            var out := Text(w, start, preflight, env);
            var s := out.strokes[k];
            && k < |env| && env[k].stroke.Some? && s.from <= s.to <= |out.trace|
            && Owed(out.trace[s.from..s.to]) == Some([])
            && (WholeAt(w, env, out.strokes, k) ==>
                  out.trace[s.from..s.to] == Acked(Script(env[k].stroke.value.modifiers, env[k].stroke.value.key)))
  {
    var w := WorldOf(permit, word, outcomes);
    TypingIsHonest(w, start, preflight, env);
    var out := Text(w, start, preflight, env);
    assert StrokeOk(w, env, out.trace, out.strokes, k);
    StrokeIsBracketed(outcomes, out.strokes[k].from, env[k].stroke.value);
  }

  // ----- the exception is real -----

  const SURE := Stroke([], 30)

  function Always(): World {
    WorldOf(1, (time: nat) => 1, (time: nat) => true)
  }

  lemma SureIsWhole(base: nat)
    ensures Always().whole(base, SURE) && |Always().strike(base, SURE)| == 2
  {
    CutIs((time: nat) => true, base, SURE, 2);
  }

  /** A typed character reported as an error, and one left out of the count. */
  lemma UngrabFailureUndercounts()
    ensures var good, stuck := Section(true, true, Some(SURE), true), Section(true, true, Some(SURE), false);
            && NeverFalls(Always().word)
            && (var out := Text(Always(), [], true, [stuck]);
                out.reply.None? && Finished(Always(), [stuck], out.strokes) == 1)
            && (var out := Text(Always(), [], true, [good, stuck]);
                out.reply == Some(InputReply(1, 2, Interrupted)) && Finished(Always(), [good, stuck], out.strokes) == 2)
  {
    var good, stuck := Section(true, true, Some(SURE), true), Section(true, true, Some(SURE), false);
    var w := Always();
    SureIsWhole(1);
    var one := [stuck];
    assert Characters(w, [], one, 1) == OneCharacter(w, stuck, Start([]));
    assert Characters(w, [], one, 1).strokes[0].from == 1;
    var two := [good, stuck];
    var p := OneCharacter(w, good, Start([]));
    assert Characters(w, [], two, 0) == Start([]);
    assert Characters(w, [], two, 1) == p;
    assert p.completed == 1 && !p.stopped && |p.trace| == 4;
    SureIsWhole(5);
    assert Characters(w, [], two, 2) == OneCharacter(w, stuck, p);
  }
}
