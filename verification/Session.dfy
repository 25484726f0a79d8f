/**
 A provider session under the gate: one permit, checked before every request, and the single slot
 that lets one session wait idle.
 */
module Session {
  import opened Prelude
  import opened SeatGate

  datatype Message = Request(authorized: bool) | Goodbye | Hello | CleanEof | Unreadable

  /** What a session did with a message, and when it looked at the gate. */
  datatype Act = Handled(message: nat, at: nat) | Denied(message: nat, at: nat)

  /** Not admitted, cut off by the gate, ended by a message or by the request bound, or waiting for a message. */
  datatype Ending = Refused | Revoked | Closed | Waiting

  /** The moment of the check before message `n`; `pause` is how long the session waits before each message. */
  function CheckAt(start: nat, pause: nat -> nat, n: nat): (t: nat)
    ensures t > start + 1
  {
    (if n == 0 then start + 1 else CheckAt(start, pause, n - 1)) + pause(n) + 1
  }

  /** The permit is issued, the peer has a grant, and the permit still holds at the next look. */
  predicate Admitted(word: nat -> nat, start: nat, granted: bool) {
    IsEnabled(word(start)) && granted && Accepts(word(start + 1), word(start))
  }

  /** What becomes of request `k`. */
  function ActOn(messages: seq<Message>, start: nat, pause: nat -> nat, k: nat): Act
    requires k < |messages| && messages[k].Request?
  {
    if messages[k].authorized then Handled(k, CheckAt(start, pause, k)) else Denied(k, CheckAt(start, pause, k))
  }

  /** The gate stands at every moment as it stood when the permit was issued. */
  ghost predicate Untouched(word: nat -> nat, start: nat, to: nat) {
    forall moment: nat :: start <= moment <= to ==> word(moment) == word(start)
  }

  lemma StillUntouched(word: nat -> nat, start: nat, to: nat)
    requires NeverFalls(word) && start <= to && word(to) == word(start)
    ensures Untouched(word, start, to)
  {
    forall moment: nat | start <= moment <= to ensures word(moment) == word(start) {
      assert word(start) <= word(moment) <= word(to);
    }
  }

  /** Why a session that was admitted stopped after `n` requests. */
  ghost predicate Explains(
    word: nat -> nat, start: nat, maxRequests: nat, messages: seq<Message>, pause: nat -> nat, n: nat, ending: Ending)
  {
    match ending
    case Refused => false
    case Revoked =>
      n < maxRequests && n < |messages| && messages[n].Request? && !Accepts(word(CheckAt(start, pause, n)), word(start))
    case Closed => n == maxRequests || (n < |messages| && !messages[n].Request?)
    case Waiting => n == |messages| < maxRequests
  }

  /** The request loop. */
  method Serve(word: nat -> nat, start: nat, maxRequests: nat, messages: seq<Message>, pause: nat -> nat)
    returns (acts: seq<Act>, ending: Ending)
    requires NeverFalls(word) && IsEnabled(word(start))
    ensures |acts| <= maxRequests && |acts| <= |messages|
    ensures forall k :: 0 <= k < |acts| ==>
              messages[k].Request? && acts[k] == ActOn(messages, start, pause, k) && Untouched(word, start, acts[k].at)
    ensures Explains(word, start, maxRequests, messages, pause, |acts|, ending)
  {
    acts := [];
    var clock := start + 1;
    while |acts| < maxRequests && |acts| < |messages|
      invariant |acts| <= maxRequests && |acts| <= |messages|
      invariant clock == if acts == [] then start + 1 else CheckAt(start, pause, |acts| - 1)
      invariant forall k :: 0 <= k < |acts| ==>
                  messages[k].Request? && acts[k] == ActOn(messages, start, pause, k) && Untouched(word, start, acts[k].at)
    {
      var n := |acts|;
      clock := clock + pause(n) + 1;
      if !messages[n].Request? {
        return acts, Closed;
      }
      if !Accepts(word(clock), word(start)) {
        return acts, Revoked;
      }
      StillUntouched(word, start, clock);
      acts := acts + [if messages[n].authorized then Handled(n, clock) else Denied(n, clock)];
    }
    ending := if |acts| == maxRequests then Closed else Waiting;
  }

  /**
   `run`, from the permit on, beside any interleaving of other threads with the gate. Requests are
   taken in order up to the first other message, the first refused check or the bound, and the ending
   says which; every request taken found the gate untouched since the permit was issued, and none
   was taken after a disabling call had returned.
   */
  method Run(
    ghost states: seq<Gate>, ghost labels: seq<Label>, ghost place: nat -> nat,
    word: nat -> nat, start: nat, granted: bool, maxRequests: nat, messages: seq<Message>, pause: nat -> nat)
    returns (acts: seq<Act>, ending: Ending)
    requires Behavior(states, labels) && Samples(states, place, word)
    ensures |acts| <= maxRequests && |acts| <= |messages|
    ensures forall k :: 0 <= k < |acts| ==>
              messages[k].Request? && acts[k] == ActOn(messages, start, pause, k) && Untouched(word, start, acts[k].at)
    ensures forall k, disable: nat :: 0 <= k < |acts| && Disables(labels, disable) && place(start) <= disable ==>
              place(acts[k].at) <= disable
    ensures ending == Refused <==> !IsEnabled(word(start)) || !granted
    ensures if Admitted(word, start, granted) then Explains(word, start, maxRequests, messages, pause, |acts|, ending)
            else acts == [] && (ending == Refused || ending == Revoked)
  {
    acts := [];
    var issued := word(start);
    if !IsEnabled(issued) || !granted {
      return acts, Refused;
    }
    if !Accepts(word(start + 1), issued) {
      return acts, Revoked;
    }
    SampledNeverFalls(states, labels, place, word);
    acts, ending := Serve(word, start, maxRequests, messages, pause);
    forall k, disable: nat | 0 <= k < |acts| && Disables(labels, disable) && place(start) <= disable
      ensures place(acts[k].at) <= disable
    {
      assert acts[k] == ActOn(messages, start, pause, k);
      assert word(acts[k].at) == word(start);
      StillBefore(states, labels, place, word, place(start), acts[k].at, disable);
    }
  }

  // ----- the one session that may wait -----

  datatype Slot = Slot(taken: bool, holders: set<nat>)

  datatype SlotStep = Claim(session: nat, enabled: bool) | Drop(session: nat)

  /** The compare-exchange of a claim, or the store when a session ends. */
  function Take(s: Slot, step: SlotStep): Slot {
    match step
    case Claim(session, enabled) =>
      if enabled && !s.taken then Slot(true, s.holders + {session}) else s
    case Drop(session) =>
      if session in s.holders then Slot(false, s.holders - {session}) else s
  }

  function TakeAll(steps: seq<SlotStep>): Slot {
    if steps == [] then Slot(false, {}) else Take(TakeAll(steps[..|steps| - 1]), steps[|steps| - 1])
  }

  /** However claims and ends interleave, at most one session may wait, and the slot says whether one does. */
  lemma {:induction false} OneMayWait(steps: seq<SlotStep>)
    ensures TakeAll(steps).taken <==> TakeAll(steps).holders != {}
    ensures forall a, b :: a in TakeAll(steps).holders && b in TakeAll(steps).holders ==> a == b
  {
    if steps != [] {
      OneMayWait(steps[..|steps| - 1]);
    }
  }
}
