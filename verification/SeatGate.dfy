/**
 The operator gate: one 64-bit word, read and changed by any number of threads at once.

 The protocol is a step relation over single atomic accesses. A control thread runs the
 compare-exchange loop of `set_enabled`; sessions load permits and check them before each request.
 */
module SeatGate {
  import opened Prelude

  const DISABLED_TERMINAL: nat := U64_MAX

  predicate IsEnabled(raw: nat) {
    raw != DISABLED_TERMINAL && raw % 2 == 1
  }

  datatype SeatStatus = SeatStatus(enabled: bool, generation: nat)

  function FromRaw(raw: nat): SeatStatus {
    SeatStatus(IsEnabled(raw), raw / 2)
  }

  predicate Accepts(word: nat, permit: nat) {
    word == permit && IsEnabled(permit)
  }

  datatype Outcome = Ok(status: SeatStatus) | Exhausted

  /** Where a control thread stands between two atomic accesses. */
  datatype Pc = Exchanging(current: nat) | Storing

  datatype Decision = Return(status: SeatStatus) | Goto(pc: Pc)

  /** The straight-line code after a load or a failed exchange, up to the next access. */
  function Decide(enabled: bool, current: nat): Decision {
    if IsEnabled(current) == enabled then Return(FromRaw(current))
    else if current >= U64_MAX || current + 1 == DISABLED_TERMINAL then Goto(Storing)
    else Goto(Exchanging(current))
  }

  /** One control call in progress: what it wants, and where it stands. */
  datatype Call = Call(enabled: bool, pc: Pc)

  datatype Gate = Gate(word: nat, calls: map<nat, Call>)

  const INITIAL := Gate(0, map[])

  datatype Label =
    | Began(thread: nat)
    | Retried(thread: nat, before: nat, after: Pc)
    | Finished(thread: nat, enabled: bool, outcome: Outcome)
    | Issued(session: nat, permit: nat)
    | IssueRefused(session: nat)
    | Checked(session: nat, permit: nat, accepted: bool)

  function Settle(calls: map<nat, Call>, t: nat, enabled: bool, d: Decision): map<nat, Call> {
    match d
    case Return(_) => calls - {t}
    case Goto(pc) => calls[t := Call(enabled, pc)]
  }

  /** The load that opens `set_enabled`. */
  ghost predicate BeginStep(g: Gate, h: Gate, t: nat, enabled: bool, event: Label) {
    var d := Decide(enabled, g.word);
    && t !in g.calls
    && h == Gate(g.word, Settle(g.calls, t, enabled, d))
    && event == match d
                case Return(status) => Finished(t, enabled, Ok(status))
                case Goto(_) => Began(t)
  }

  /** The compare-exchange, which either wins or hands back the word it saw. */
  ghost predicate ExchangeStep(g: Gate, h: Gate, t: nat, event: Label) {
    && t in g.calls && g.calls[t].pc.Exchanging?
    && var enabled := g.calls[t].enabled;
       var current := g.calls[t].pc.current;
       if g.word == current then
         && h == Gate(current + 1, g.calls - {t})
         && event == Finished(t, enabled, Ok(FromRaw(current + 1)))
       else
         var d := Decide(enabled, g.word);
         && h == Gate(g.word, Settle(g.calls, t, enabled, d))
         && event == match d
                     case Return(status) => Finished(t, enabled, Ok(status))
                     case Goto(pc) => Retried(t, current, pc)
  }

  /** The plain store of the terminal word. */
  ghost predicate StoreStep(g: Gate, h: Gate, t: nat, event: Label) {
    && t in g.calls && g.calls[t].pc.Storing?
    && h == Gate(DISABLED_TERMINAL, g.calls - {t})
    && event == Finished(t, g.calls[t].enabled, Exhausted)
  }

  ghost predicate SessionStep(g: Gate, h: Gate, s: nat, p: nat, event: Label) {
    && h == g
    && (|| (IsEnabled(g.word) && event == Issued(s, g.word))
        || (!IsEnabled(g.word) && event == IssueRefused(s))
        || event == Checked(s, p, Accepts(g.word, p)))
  }

  ghost predicate Step(g: Gate, h: Gate, event: Label) {
    || (exists t, enabled :: BeginStep(g, h, t, enabled, event))
    || (exists t :: ExchangeStep(g, h, t, event))
    || (exists t :: StoreStep(g, h, t, event))
    || (exists s, p :: SessionStep(g, h, s, p, event))
  }

  /** Any interleaving, as the states between the accesses and the labels on them. */
  ghost predicate Behavior(states: seq<Gate>, labels: seq<Label>) {
    && |states| == |labels| + 1
    && states[0] == INITIAL
    && forall i :: 0 <= i < |labels| ==> Step(states[i], states[i + 1], labels[i])
  }

  /** A call holds no word from the future, and only an enabling call has a store pending. */
  predicate CallOk(word: nat, call: Call) {
    match call.pc
    case Exchanging(current) =>
      current <= word && current + 1 < DISABLED_TERMINAL && IsEnabled(current) != call.enabled
    case Storing => call.enabled
  }

  ghost predicate GateOk(g: Gate) {
    g.word <= U64_MAX && forall t :: t in g.calls ==> CallOk(g.word, g.calls[t])
  }

  /** Disabling never needs the terminal store: an enabled word is odd and below it. */
  lemma DecideIsOk(enabled: bool, current: nat)
    requires current <= U64_MAX
    ensures Decide(enabled, current).Goto? ==> CallOk(current, Call(enabled, Decide(enabled, current).pc))
  {
    assert U64_MAX % 2 == 1;
  }

  lemma StepKeeps(g: Gate, h: Gate, event: Label)
    requires GateOk(g) && Step(g, h, event)
    ensures GateOk(h) && g.word <= h.word
  {
    if t, enabled :| BeginStep(g, h, t, enabled, event) {
      DecideIsOk(enabled, g.word);
    } else if t :| ExchangeStep(g, h, t, event) {
      DecideIsOk(g.calls[t].enabled, g.word);
      assert CallOk(g.word, g.calls[t]);
    } else if t :| StoreStep(g, h, t, event) {
      assert g.word <= h.word;
    }
  }

  lemma {:induction false} WordNeverDecreases(states: seq<Gate>, labels: seq<Label>, i: nat, j: nat)
    requires Behavior(states, labels) && i <= j < |states|
    ensures GateOk(states[j]) && states[i].word <= states[j].word
    decreases j
  {
    if 0 < j {
      WordNeverDecreases(states, labels, if i < j then i else j - 1, j - 1);
      StepKeeps(states[j - 1], states[j], labels[j - 1]);
    }
  }

  /** The gate never takes the word back: disabling always succeeds and never exhausts the gate. */
  lemma DisableNeverFails(states: seq<Gate>, labels: seq<Label>, i: nat)
    requires Behavior(states, labels) && i < |labels| && labels[i].Finished? && !labels[i].enabled
    ensures labels[i].outcome.Ok? && !labels[i].outcome.status.enabled
  {
    WordNeverDecreases(states, labels, i, i);
    assert Step(states[i], states[i + 1], labels[i]);
    DecideIsOk(false, states[i].word);
    if labels[i].outcome.Ok? { FinishedWord(states[i], states[i + 1], labels[i]); }
  }

  /** A call that returns success leaves, or found, the word as it wanted it. */
  lemma FinishedWord(g: Gate, h: Gate, event: Label)
    requires GateOk(g) && Step(g, h, event) && event.Finished? && event.outcome.Ok?
    ensures IsEnabled(h.word) == event.enabled == event.outcome.status.enabled
    ensures event.outcome.status == FromRaw(h.word)
  {
    assert U64_MAX % 2 == 1;
  }

  /** Each failed exchange strictly raises the word the loop retries with, so the loop ends. */
  lemma RetryRaises(states: seq<Gate>, labels: seq<Label>, i: nat)
    requires Behavior(states, labels) && i < |labels| && labels[i].Retried?
    ensures labels[i].after.Exchanging? ==> labels[i].before < labels[i].after.current <= U64_MAX
  {
    WordNeverDecreases(states, labels, i, i);
    assert Step(states[i], states[i + 1], labels[i]);
  }

  lemma IssuedPermit(states: seq<Gate>, labels: seq<Label>, i: nat)
    requires Behavior(states, labels) && i < |labels| && labels[i].Issued?
    ensures labels[i].permit == states[i].word && IsEnabled(labels[i].permit)
  {
    assert Step(states[i], states[i + 1], labels[i]);
  }

  lemma CheckedPermit(states: seq<Gate>, labels: seq<Label>, i: nat)
    requires Behavior(states, labels) && i < |labels| && labels[i].Checked?
    ensures labels[i].accepted == Accepts(states[i].word, labels[i].permit)
  {
    assert Step(states[i], states[i + 1], labels[i]);
  }

  /** A permit that was issued and is refused once is refused forever. */
  lemma RefusedForever(states: seq<Gate>, labels: seq<Label>, issue: nat, refusal: nat, later: nat)
    requires Behavior(states, labels) && issue < refusal < later < |labels|
    requires labels[issue].Issued? && labels[refusal].Checked? && labels[later].Checked?
    requires labels[issue].permit == labels[refusal].permit == labels[later].permit
    requires !labels[refusal].accepted
    ensures !labels[later].accepted
  {
    IssuedPermit(states, labels, issue);
    CheckedPermit(states, labels, refusal);
    CheckedPermit(states, labels, later);
    WordNeverDecreases(states, labels, issue, refusal);
    WordNeverDecreases(states, labels, refusal, later);
  }

  /** A call that disables returns with this access. */
  predicate Disables(labels: seq<Label>, i: nat) {
    i < |labels| && labels[i].Finished? && !labels[i].enabled
  }

  /** An enabled word is left behind for good by a disabling call that returns. */
  lemma DisableSeparates(states: seq<Gate>, labels: seq<Label>, i: nat, disable: nat, j: nat)
    requires Behavior(states, labels) && i <= disable < j < |states| && Disables(labels, disable)
    ensures IsEnabled(states[i].word) ==> states[i].word < states[j].word
  {
    DisableNeverFails(states, labels, disable);
    WordNeverDecreases(states, labels, i, disable);
    FinishedWord(states[disable], states[disable + 1], labels[disable]);
    StepKeeps(states[disable], states[disable + 1], labels[disable]);
    WordNeverDecreases(states, labels, disable + 1, j);
  }

  /**
   Revocation: once a disabling call has returned, no check of any permit issued before it
   succeeds, so no session under an old permit starts a request checked afterwards.
   */
  lemma DisableRevokes(states: seq<Gate>, labels: seq<Label>, issue: nat, disable: nat, check: nat)
    requires Behavior(states, labels) && issue < disable < check < |labels|
    requires labels[issue].Issued? && Disables(labels, disable)
    requires labels[check].Checked? && labels[check].permit == labels[issue].permit
    ensures !labels[check].accepted
  {
    IssuedPermit(states, labels, issue);
    CheckedPermit(states, labels, check);
    DisableSeparates(states, labels, issue, disable, check);
  }

  /** After exhaustion the gate stays shut: the terminal word never changes and issues nothing. */
  lemma TerminalIsAbsorbing(states: seq<Gate>, labels: seq<Label>, i: nat, j: nat)
    requires Behavior(states, labels) && i <= j < |labels| && states[i].word == DISABLED_TERMINAL
    ensures states[j].word == DISABLED_TERMINAL && !labels[j].Issued?
    ensures labels[j].Checked? ==> !labels[j].accepted
    ensures labels[j].Finished? && labels[j].enabled ==> labels[j].outcome.Exhausted?
  {
    WordNeverDecreases(states, labels, i, j);
    if labels[j].Checked? { CheckedPermit(states, labels, j); }
    if labels[j].Issued? { IssuedPermit(states, labels, j); }
    WordNeverDecreases(states, labels, i, j + 1);
    if labels[j].Finished? && labels[j].outcome.Ok? {
      FinishedWord(states[j], states[j + 1], labels[j]);
    }
  }

  /** The gate word at each moment some other code looks at it. */
  ghost predicate NeverFalls(word: nat -> nat) {
    forall i: nat, j: nat :: i <= j ==> word(i) <= word(j)
  }

  /** The word as one thread meets it: its moment `i` falls at `place(i)` among the accesses of all threads. */
  ghost predicate Samples(states: seq<Gate>, place: nat -> nat, word: nat -> nat) {
    && (forall i: nat, j: nat :: i <= j ==> place(i) <= place(j))
    && (forall i: nat :: place(i) < |states| && word(i) == states[place(i)].word)
  }

  /** Whatever the threads do, and whenever it is looked at, the word never falls. */
  lemma SampledNeverFalls(states: seq<Gate>, labels: seq<Label>, place: nat -> nat, word: nat -> nat)
    requires Behavior(states, labels) && Samples(states, place, word)
    ensures NeverFalls(word)
  {
    forall i: nat, j: nat | i <= j ensures word(i) <= word(j) {
      assert place(i) <= place(j) < |states|;
      WordNeverDecreases(states, labels, place(i), place(j));
    }
  }

  /** A moment at which the word is still an enabled one met before comes before every disabling call's return. */
  lemma StillBefore(
    states: seq<Gate>, labels: seq<Label>, place: nat -> nat, word: nat -> nat, issue: nat, moment: nat, disable: nat)
    requires Behavior(states, labels) && Samples(states, place, word) && Disables(labels, disable)
    requires issue <= disable && states[issue].word == word(moment) && IsEnabled(word(moment))
    ensures place(moment) <= disable
  {
    if disable < place(moment) {
      DisableSeparates(states, labels, issue, disable, place(moment));
      assert false;
    }
  }

  /** One thread's view: other threads may raise the word before any of its accesses. */
  class AtomicGate {
    var word: nat

    constructor ()
      ensures word == 0
    {
      word := 0;
    }

    /** What the other threads may have done; StepKeeps is the promise each of them makes. */
    method Interfere()
      requires word <= U64_MAX
      modifies this
      ensures old(word) <= word <= U64_MAX
    {
      var raised: nat :| word <= raised <= U64_MAX;
      word := raised;
    }

    /** `set_enabled`: it ends under every interference, and keeps the same promise. */
    method SetEnabled(enabled: bool) returns (r: Outcome)
      requires word <= U64_MAX
      modifies this
      ensures old(word) <= word <= U64_MAX
      ensures r.Ok? ==> r.status.enabled == enabled
      ensures !enabled ==> r.Ok?
      ensures r.Exhausted? ==> word == DISABLED_TERMINAL
      ensures r.Ok? ==> exists seen: nat :: old(word) <= seen <= word && r.status == FromRaw(seen)
    {
      Interfere();
      var current := word;
      while true
        invariant old(word) <= current <= word <= U64_MAX
        decreases U64_MAX - current
      {
        var status := FromRaw(current);
        if status.enabled == enabled {
          return Ok(status);
        }
        if current >= U64_MAX || current + 1 == DISABLED_TERMINAL {
          DecideIsOk(enabled, current);
          Interfere();
          word := DISABLED_TERMINAL;
          return Exhausted;
        }
        Interfere();
        if word == current {
          word := current + 1;
          assert U64_MAX % 2 == 1;
          return Ok(FromRaw(current + 1));
        }
        current := word;
      }
    }
  }
}
