/**
 The eligibility guard: it vouches for the session at most once, and then only takes it back.

 The stop word is raised by signal handlers with a maximum, so it never falls. Each round of the
 guard's loop processes signals, drains the kernel's device events and looks at the word.
 */
module Guard {
  import opened Prelude
  import opened Broker

  datatype Stop = NoStop | Changed | Lost

  function Code(s: Stop): nat {
    match s case NoStop => 0 case Changed => 1 case Lost => 2
  }

  function Load(word: nat): Stop {
    if word == 0 then NoStop else if word == 1 then Changed else Lost
  }

  /** `fetch_max` of each signal in turn. */
  function Recorded(word: nat, signals: seq<Stop>): nat {
    if signals == [] then word
    else
      var w := Recorded(word, signals[..|signals| - 1]);
      var c := Code(signals[|signals| - 1]);
      if c > w then c else w
  }

  lemma {:induction false} WordNeverFalls(word: nat, signals: seq<Stop>)
    ensures Recorded(word, signals) >= word
    ensures forall i :: 0 <= i < |signals| ==> Recorded(word, signals) >= Code(signals[i])
  {
    if signals != [] {
      WordNeverFalls(word, signals[..|signals| - 1]);
    }
  }

  lemma {:induction false} WordComesFromSignals(word: nat, signals: seq<Stop>)
    ensures Recorded(word, signals) == word || exists i :: 0 <= i < |signals| && Recorded(word, signals) == Code(signals[i])
  {
    if signals != [] {
      WordComesFromSignals(word, signals[..|signals| - 1]);
    }
  }

  /** `drained` is None when the kernel's evidence was lost. */
  datatype Round = Round(processed: bool, signals: seq<Stop>, drained: Option<bool>)

  datatype Facts = Facts(
    owner: bool, seat: bool, foreground: bool, active: bool, local: bool, x11: bool,
    userClass: bool, stateActive: bool, unlocked: bool, awake: bool, notShuttingDown: bool)

  function StateOfFacts(f: Facts): (e: Eligibility)
    ensures e == Eligible ==> f.active && f.local && f.unlocked && f.awake
  {
    if f.owner && f.seat && f.foreground && f.active && f.local && f.x11 && f.userClass && f.stateActive
       && f.unlocked && f.awake && f.notShuttingDown then Eligible else Ineligible
  }

  /** A round in which nothing happened. */
  predicate Uneventful(r: Round) {
    r.processed && r.drained == Some(false) && forall i :: 0 <= i < |r.signals| ==> r.signals[i] == NoStop
  }

  /** All signals of a round, its own drain last. */
  function SignalsOf(r: Round): seq<Stop> {
    r.signals + (if r.drained == Some(true) then [Changed] else [])
  }

  lemma UneventfulWord(r: Round)
    requires r.processed && r.drained.Some?
    ensures Recorded(0, SignalsOf(r)) == 0 <==> Uneventful(r)
  {
    var signals := SignalsOf(r);
    WordNeverFalls(0, signals);
    WordComesFromSignals(0, signals);
    forall i | 0 <= i < |r.signals| ensures Recorded(0, signals) == 0 ==> r.signals[i] == NoStop {
      assert signals[i] == r.signals[i];
    }
    if r.drained == Some(true) {
      assert signals[|r.signals|] == Changed;
    } else {
      assert !r.drained.value && r.drained == Some(r.drained.value);
      assert signals == r.signals;
    }
  }

  class StopWord {
    var word: nat

    constructor ()
      ensures word == 0
    {
      word := 0;
    }

    method Record(s: Stop)
      modifies this
      ensures word == if Code(s) > old(word) then Code(s) else old(word)
    {
      word := if Code(s) > word then Code(s) else word;
    }

    method RecordAll(signals: seq<Stop>)
      modifies this
      ensures word == Recorded(old(word), signals)
    {
      for i := 0 to |signals|
        invariant word == Recorded(old(word), signals[..i])
      {
        assert signals[..i + 1][..i] == signals[..i];
        Record(signals[i]);
      }
      assert signals[..|signals|] == signals;
    }
  }

  /** How the guard left: still looping when the rounds ran out, done, or dead; the channel closes unless it loops. */
  datatype Ending = Looping | Done | Failed

  /**
   The guard's `run`. Eligible is sent first or never, and only for a session with nothing against
   it; the first eventful round ends the guard, with Ineligible exactly when only a change was
   recorded and it can be sent.
   */
  method Run(inputSetMatches: bool, facts: Facts, first: Round, rounds: seq<Round>, writes: nat -> bool)
    returns (sent: seq<Eligibility>, ending: Ending, ghost eventful: nat)
    ensures |sent| <= 2 && (forall i :: 0 < i < |sent| ==> sent[i] == Ineligible)
    ensures (sent != [] && sent[0] == Eligible) <==>
              inputSetMatches && StateOfFacts(facts) == Eligible && Uneventful(first) && writes(0)
    ensures |sent| == 2 ==> sent[0] == Eligible && ending == Done
    ensures ending == Looping <==>
              sent == [Eligible] && forall k :: 0 <= k < |rounds| ==> Uneventful(rounds[k])
    ensures sent != [] && sent[0] == Eligible && ending != Looping ==>
              && eventful < |rounds| && !Uneventful(rounds[eventful])
              && (forall k :: 0 <= k < eventful ==> Uneventful(rounds[k]))
              && var r := rounds[eventful];
                 (|sent| == 2 <==> r.processed && r.drained.Some? && Recorded(0, SignalsOf(r)) == Code(Changed) && writes(1))
  {
    sent, eventful := [], 0;
    var stop := new StopWord();
    if !first.processed || first.drained.None? {
      return sent, Failed, 0;
    }
    stop.RecordAll(SignalsOf(first));
    UneventfulWord(first);
    var eligibility := if inputSetMatches && Load(stop.word) == NoStop then StateOfFacts(facts) else Ineligible;
    if !writes(0) {
      return sent, Failed, 0;
    }
    sent := [eligibility];
    if eligibility == Ineligible {
      return sent, Done, 0;
    }
    for i := 0 to |rounds|
      invariant stop.word == 0 && sent == [Eligible]
      invariant forall k :: 0 <= k < i ==> Uneventful(rounds[k])
    {
      eventful := i;
      if !rounds[i].processed || rounds[i].drained.None? {
        return sent, Failed, i;
      }
      stop.RecordAll(SignalsOf(rounds[i]));
      UneventfulWord(rounds[i]);
      match Load(stop.word) {
        case NoStop =>
        case Changed =>
          if !writes(1) {
            return sent, Failed, i;
          }
          return sent + [Ineligible], Done, i;
        case Lost => return sent, Failed, i;
      }
    }
    ending := Looping;
  }

  /** Whatever the guard does after vouching stops the broker: another frame, an unreadable one, or a closed channel. */
  lemma AnySignStopsTheBroker(b: Beginning, turns: seq<Turn>, k: nat, n: nat)
    requires BeginningOk(b) && k < n <= |turns| && turns[k].eligibility != Quiet
    ensures Stopping(After(b, turns, n).status.state)
  {
    Stands(b, turns, n);
    assert Cause(b.devices, turns[k]).Some?;
  }
}
