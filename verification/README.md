# Agent Seat: a Dafny model and its proofs

Agent Seat lets an agent observe and operate an X11 desktop through a provider, a companion and an
activity broker. Each part is a small state machine that must not misinform the agent or outlive its
permission. This project models the hardest of them and proves what they keep over every run, every
input, every failure of the X server or the file system, and every interleaving of the threads or
programs beside them. `dafny verify dfyconfig.toml` checks the whole project.

Each component has a specification in functions or step relations; code that changes state is a
class or a method with the source's branches and loops, proved equal to that specification; and
theorems about the specification say what the component is for. What the outside world decides (a
scan of the desktop, an answer of the X server, a failing system call, a write by another program,
the clock) is an input that the proofs quantify over.

| file | component |
|---|---|
| `Desktop`, `ObserverSpec`, `ObserverProofs`, `ObserverTheorems`, `ObserverLimits`, `Observer` | a session's copy of the desktop, its event queue, and the peer that follows it |
| `Keyboard` | the search for a key stroke that yields a symbol |
| `SeatGate`, `Session`, `GatedInput`, `TextTransfer` | the operator's gate, and sessions and input under it |
| `PolicyStore`, `Install` | file transactions with rollback |
| `Framing`, `DeviceSet`, `Bitmap`, `Exec` | wire and file formats |
| `Broker`, `Guard`, `Companion` | protocols that fail closed |
| `Capture` | pixels to RGB |
| `Prelude`, `Bits`, `Bytes`, `Blocks`, `Text` | shared vocabulary |

## What turned out not to hold

Where a promise fails in the code, the model keeps the code, one member shows an input on which it
fails, and another says exactly when it holds.

- A counter that runs out in the middle of a refresh loses the model, and the next poll then answers
  with an empty batch although every client has a new identity: a run of calls that uses up the
  sequence gets there (`ObserverLimits.ExhaustionIsSilent`), and the poll after any such loss says
  nothing of it as long as identities are left (`ObserverLimits.LossIsUnmarked`). Over every run the
  model is lost exactly when the changes do not fit the identities or the sequence
  (`ObserverLimits.RunExhaustedExactly`); a generation cannot run out first. A peer that
  keeps its copy over the error is out of step; one that drops it until its next snapshot converges on
  every run (`ObserverTheorems.Converges`).
- A character whose key stroke was sent, but whose server ungrab failed, is not counted; if it was the
  first, the whole call reports an error (`GatedInput.UngrabFailureUndercounts`). The count is exact
  if and only if the ungrab after the last whole stroke succeeded (`GatedInput.TypingIsHonest`).
- A policy version written between the inode check and the exchange of a rollback is unlinked, though
  every operation succeeds (`PolicyStore.WindowLosesAVersion`). A version is lost if and only if the
  call rolls back, the writer acts in that window and the staging file is removed; when a call rolls
  back is stated over the directory, the failures and the writer's moments
  (`PolicyStore.Store.ReplacePolicy`). A staging file whose mode cannot be set is left behind.
- A device path with a tab or a newline is written but does not read back
  (`DeviceSet.TabIsNotReadBack`); a path that is not UTF-8 reads back as a different path without any
  error (`DeviceSet.ReadsBackAsShown`, `DeviceSet.MalformedIsMisread`). A record reads back exactly
  when no path has either (`DeviceSet.RoundTripExactly`).
- A key whose effective group is out of range is skipped when its range action redirects to a group it
  does not have, where the server uses its first group, or is undefined, where the model's server
  wraps; so a symbol that one key press would type is called unavailable
  (`Keyboard.RedirectedKeyIsRefused`). The search considers every other key that would yield the
  symbol, and only those (`Keyboard.CandidateExactly`).
- A companion context opened on an answer that asks for a reconnect is kept, and the next call goes
  out over that same session (`Companion.ReconnectAtCreationIsKept`); apart from this, a closed
  connection is never used again (`Companion.ClosedMeansClosed`).
- A text transfer interrupted after the text was written reports no delivered bytes, although its
  documentation says that an interruption precedes delivery
  (`TextTransfer.InterruptedAfterDelivery`). The text was delivered, whatever the reply, if and only
  if the inputs grant a request that the loop gets to (`TextTransfer.DeliveryExactly`); which events it
  gets to is stated over the inputs as well (`TextTransfer.ReachedExactly`).
- Not every list of ASCII arguments can be written as an Exec value: an argument with a percent sign
  and a space, or another character that needs quoting, has no spelling. Exactly the other lists,
  within the bound and with a usable program name, are denoted by some value (`Exec.DenotedExactly`).

## Model

| member | source | states |
|---|---|---|
| ObserverProofs.DiffKeeps | crates/agent-seat-x11/src/observer.rs:283-351 | a diff against any scan keeps every invariant of the session, and the events it logs, folded into the view of the old model, give the view of the new one |
| ObserverProofs.RefreshKeeps | crates/agent-seat-x11/src/observer.rs:213-235 | the same for a refresh from any state, for the first model as well as for a diff |
| ObserverTheorems.PollIsExact | crates/agent-seat-x11/src/observer.rs:154-211 | a batch is exactly the first `limit` matching events after the cursor, at most MAX_EVENTS, strictly increasing and within the returned cursor, with nothing skipped up to it; a resync is demanded only for a cursor outside the retained range or after an overflow |
| ObserverTheorems.AwaitOutcome | crates/agent-seat-x11/src/observer.rs:180-211 | the waiting loop, whatever the scans it makes, ends in such a page, a resync or a failure, and keeps the invariants |
| ObserverTheorems.ExecKeeps | crates/agent-seat-x11/src/observer.rs:131-211 | every public call keeps the session valid, only adds to the log, and replies with a valid snapshot or batch |
| ObserverTheorems.ModelIsValidSnapshot | crates/agent-seat-proto/src/message.rs:1692-1720 | every snapshot has distinct identities, its current workspace among its workspaces and its active client among its clients |
| ObserverTheorems.RunKeeps | crates/agent-seat-x11/src/observer.rs:131-235 | for every run of calls, a peer that follows snapshots and batches stays in step: its view plus the events it has not read is the view of the model |
| ObserverTheorems.Converges | crates/agent-seat-x11/src/observer.rs:131-235 | for every run subscribed to all kinds, the view of a peer that has a copy, with the queued events after its cursor folded in, equals the current model, or the next poll demands a resync or fails; a peer gives up its copy only when told of an exhausted counter, until its next snapshot |
| ObserverTheorems.AttentivePoll | crates/agent-seat-x11/src/observer.rs:154-211 | polling from the latest cursor keeps the queue equal to the unacknowledged matching events, or more than MAX_EVENTS of them were unacknowledged |
| ObserverTheorems.ResyncOnlyAfterOverflow | crates/agent-seat-x11/src/observer.rs:141-211 | a peer that always polls from its latest cursor is told to resync only after more than MAX_EVENTS matching events went unacknowledged |
| ObserverTheorems.NeverReused | crates/agent-seat-x11/src/observer.rs:283-361 | over every history an identity stays bound to one window, generations never fall, and equal generations mean that the descriptor was the same at every refresh between |
| ObserverTheorems.TargetIsWhatWasSeen | crates/agent-seat-x11/src/observer/manager.rs:335-361 | a target given by an identity and generation once seen is accepted only if the client is what it was and never changed in between; otherwise it is reported gone or stale with the newer generation |
| ObserverTheorems.RecordOfExact | crates/agent-seat-x11/src/observer/manager.rs:399-405 | the record found for an identity is the one that has it, and none is found only if none has it |
| ObserverTheorems.CallIsHistory | crates/agent-seat-x11/src/observer.rs:131-235 | every call is a sequence of refreshes and bookkeeping steps, so that the histories above are the ones that calls produce |
| ObserverLimits.ExhaustedExactly | crates/agent-seat-x11/src/observer.rs:229-235 | a refresh fails by exhaustion if and only if the changes between model and scan exceed what is left of the sequence, identity or generation counters |
| ObserverLimits.RunCounted | crates/agent-seat-x11/src/observer.rs:283-361 | over every run no generation is ahead of the number of events, and the identity counter is in its range |
| ObserverLimits.RunExhaustedExactly | crates/agent-seat-x11/src/observer.rs:229-361 | over every run a refresh fails by exhaustion if and only if the changes do not fit the identities or the sequence; the generations never matter |
| ObserverLimits.LossIsUnmarked | crates/agent-seat-x11/src/observer.rs:154-235 | after a lost model a poll within the window fails if and only if the identities have no room for the scan; otherwise it pages the old events, demands a resync only if the queue had overflowed, and every client has an identity never given out before |
| ObserverLimits.RunReaches | crates/agent-seat-x11/src/observer.rs:131-235 | for every number up to the last, a run of calls whose sequence is that number, with its whole state |
| ObserverLimits.ExhaustionIsSilent | crates/agent-seat-x11/src/observer.rs:154-235 | a run of calls, with a peer in step under a subscription to everything, after which a poll fails by exhaustion and loses the model, and the same poll again returns an empty batch to a peer no longer in step |
| SessionObserver.Observer.PushEvent | crates/agent-seat-x11/src/observer.rs:363-385 | the queue, sequence, retained range and resync flag after an event are those of the specification, overflow included |
| SessionObserver.Observer.DiffModel | crates/agent-seat-x11/src/observer.rs:283-351 | the three loops of the diff compute the specified model and events, and stop where a counter runs out |
| SessionObserver.Observer.InitialModel | crates/agent-seat-x11/src/observer.rs:262-281 | the first model gives the scanned clients consecutive new identities at generation zero |
| SessionObserver.Observer.RefreshModel | crates/agent-seat-x11/src/observer.rs:213-235 | a refresh refines its specification, including the model lost when the diff fails |
| SessionObserver.Observer.Snapshot | crates/agent-seat-x11/src/observer.rs:131-139 | a snapshot refreshes and ends a pending resync |
| SessionObserver.Observer.SubscribeTo | crates/agent-seat-x11/src/observer.rs:141-152 | subscribing empties the queue and starts it at the current sequence |
| SessionObserver.Observer.PollEvents | crates/agent-seat-x11/src/observer.rs:154-211 | acknowledging, waiting and paging refine the specified poll |
| SessionObserver.Observer.TargetOf | crates/agent-seat-x11/src/observer/manager.rs:335-361 | resolving a target refines its specification |
| Keyboard.Resolve | crates/agent-seat-x11/src/observer/keyboard.rs:146-224 | a stroke found yields exactly the wanted symbol on its key with the returned modifiers held over the current state, and no admissible key does it with fewer; the symbol is called unavailable only if every key that would yield it by the server's rules has an effective group out of range and a range action that does not bring it back; each other refusal has its exact cause |
| Keyboard.SearchStroke | crates/agent-seat-x11/src/observer/keyboard.rs:168-224 | the search over keys, levels and modifier subsets is sound, minimal and complete |
| Keyboard.ModifiersForLevel | crates/agent-seat-x11/src/observer/keyboard.rs:312-335 | the subset loop returns a cheapest subset of the momentary modifiers that selects the level, and none only if no subset does |
| Keyboard.MomentaryKeys | crates/agent-seat-x11/src/observer/keyboard.rs:250-275 | the collected keys are exactly one for each distinct momentary modifier mask, in map order |
| Keyboard.MomentaryComplete | crates/agent-seat-x11/src/observer/keyboard.rs:250-275 | no momentary modifier is missed: the bound on the number of keys never cuts any off |
| Keyboard.SafeLocked | crates/agent-seat-x11/src/observer/keyboard.rs:291-301 | the locks that may stay on are those of the lock keys, and failure means a mask outside the eight modifiers |
| Keyboard.HoldRequested | crates/agent-seat-x11/src/observer/keyboard.rs:146-168 | the requested modifiers become the keys that produce them, or the first reason why not |
| Keyboard.LevelIsUnique | crates/agent-seat-x11/src/observer/keyboard.rs:412-422 | the computed level is the one level the X Keyboard Extension assigns to the modifiers |
| Keyboard.NormalizedGroup | crates/agent-seat-x11/src/observer/keyboard.rs:393-410 | a group it gives is the one the server uses and exists on the key |
| Keyboard.GroupRefusedExactly | crates/agent-seat-x11/src/observer/keyboard.rs:393-410 | it agrees with the server if and only if the key has no groups, the group is in range, or the range action is wrap, clamp or a redirect to a group that exists |
| Keyboard.CandidateExactly | crates/agent-seat-x11/src/observer/keyboard.rs:168-224 | the search considers exactly the keys that yield the symbol by the server's rules and pass that condition |
| Keyboard.UnreachableExactly | crates/agent-seat-x11/src/observer/keyboard.rs:168-224 | the search finds nothing if and only if no key that yields the symbol by the server's rules passes that condition |
| Keyboard.RedirectedKeyIsRefused | crates/agent-seat-x11/src/observer/keyboard.rs:393-410 | a keyboard on which one key press types the symbol and the symbol is called unavailable |
| SeatGate.StepKeeps | crates/agent-seat-x11/src/seat.rs:28-101 | every atomic access of any thread keeps the protocol invariant and never lowers the word |
| SeatGate.WordNeverDecreases | crates/agent-seat-x11/src/seat.rs:46-73 | over every interleaving the word never decreases |
| SeatGate.DisableNeverFails | crates/agent-seat-x11/src/seat.rs:46-73 | disabling always succeeds, so the terminal word is only stored by a call that enables |
| SeatGate.FinishedWord | crates/agent-seat-x11/src/seat.rs:46-73 | a call that succeeds returns the status of the word it leaves, which is as it asked |
| SeatGate.RetryRaises | crates/agent-seat-x11/src/seat.rs:46-73 | every failed exchange strictly raises the value retried with |
| SeatGate.IssuedPermit | crates/agent-seat-x11/src/seat.rs:33-36 | a permit issued is the enabled word of that moment |
| SeatGate.RefusedForever | crates/agent-seat-x11/src/seat.rs:33-40 | a permit refused once is refused at every later check |
| SeatGate.DisableRevokes | crates/agent-seat-x11/src/seat.rs:33-73 | after a disabling call has returned, every check of a permit issued before it fails |
| SeatGate.SampledNeverFalls | crates/agent-seat-x11/src/seat.rs:28-73 | beside any interleaving, the word as one thread meets it, moment by moment, never falls |
| SeatGate.StillBefore | crates/agent-seat-x11/src/seat.rs:33-73 | a moment at which a thread meets the word of an earlier permit lies before the return of every disabling call made after that permit |
| SeatGate.TerminalIsAbsorbing | crates/agent-seat-x11/src/seat.rs:46-101 | after exhaustion no permit is issued or accepted and every enabling call fails |
| SeatGate.AtomicGate.SetEnabled | crates/agent-seat-x11/src/seat.rs:46-73 | the compare-exchange loop ends under every interference by other threads, returns the wanted state or exhaustion, and never lowers the word |
| Session.Run | crates/agent-seat-x11/src/session.rs:56-187 | an admitted session takes requests in order up to the first other message, the first refused check or the configured number, and the ending says which; each request taken, carried out exactly if authorized, found the gate unchanged at every moment since the permit was issued, and none was taken after a disabling call had returned, beside any interleaving of other threads with the gate |
| Session.OneMayWait | crates/agent-seat-x11/src/session.rs:214-240 | however claims and ends of sessions interleave, at most one session holds the idle slot, and the flag is set exactly while one does |
| GatedInput.StrokeIsBracketed | crates/agent-seat-x11/src/observer/input.rs:209-241 | under every failure pattern, each acknowledged press of a stroke is followed by a release or release attempt in reverse order, and nothing is owed at its end |
| GatedInput.XServer.TypeKey | crates/agent-seat-x11/src/observer/input.rs:209-235 | a stroke adds to the trace its whole script, or the script up to its first failed request and the releases owed, and succeeds exactly in the first case |
| GatedInput.XServer.ReleaseKeys | crates/agent-seat-x11/src/observer/input.rs:237-241 | releases are attempted for every key, last pressed first, whatever fails |
| GatedInput.XServer.KeyboardText | crates/agent-seat-x11/src/observer/input.rs:83-138 | the typing loop, driving real strokes and looks at the gate, makes the reply and the trace of moments that the specification gives |
| GatedInput.XServer.GrabbedSection | crates/agent-seat-x11/src/observer/input.rs:99-111 | one grabbed section looks at the gate before its stroke, types only if the look was accepted, and loses its result if the ungrab fails |
| GatedInput.TypingIsHonest | crates/agent-seat-x11/src/observer/input.rs:83-138 | read off the trace: only strokes of the first characters and looks at the gate happen, at most the last stroke has an attempt at a moment when the gate's word is not the permit, and all but the last are whole; Queued means every script is there whole and in time and, with the full count, exactly that the permit held at the last look; the count is the whole strokes if and only if the last one's ungrab succeeded; an error means none, or one whose ungrab failed |
| GatedInput.TypingStopsAtDisable | crates/agent-seat-x11/src/observer/input.rs:83-138 | beside any interleaving with the gate, once a disabling call has returned no stroke but the last has an attempt |
| GatedInput.TypedStrokesAreBracketed | crates/agent-seat-x11/src/observer/input.rs:83-138 | each stroke in the trace of a call brackets its keys, and a whole one is its script, acknowledged |
| GatedInput.UngrabFailureUndercounts | crates/agent-seat-x11/src/observer/input.rs:83-138 | runs in which a finished stroke is not counted, or is reported as an error |
| TextTransfer.EveryWriteIsChecked | crates/agent-seat-x11/src/observer/text_transfer.rs:268-363 | in every transfer, whatever becomes of it, each write is of the whole text and comes after generation, focus, permit, requestor and ownership were all confirmed under the same grab |
| TextTransfer.TransferIsHonest | crates/agent-seat-x11/src/observer/text_transfer.rs:32-84 | Delivered means the text was written, announced, synchronized and released, and a complete check of the evidence was the last thing before cleanup; Offered means such a check and no write; every reply validates and leaves the clipboard unowned by the transfer and the server ungrabbed |
| TextTransfer.BeforeSound | crates/agent-seat-x11/src/observer/text_transfer.rs:132-240 | up to every turn the transfer is careful and within its bounds, its memory of a delivery is the truth, and the log holds a delivery exactly if a request reached so far was granted |
| TextTransfer.AttemptEnds | crates/agent-seat-x11/src/observer/text_transfer.rs:132-240 | the waiting loop does not go on past the deadline |
| TextTransfer.ServeFacts | crates/agent-seat-x11/src/observer/text_transfer.rs:268-363 | a served request keeps every write checked, adds a completed delivery exactly when it is answered with one, and otherwise leaves no write behind unless it is an error |
| TextTransfer.DeliveryExactly | crates/agent-seat-x11/src/observer/text_transfer.rs:132-240 | the whole text was delivered if and only if the inputs grant some request, so an Interrupted reply hides a delivery exactly then |
| TextTransfer.ReachedExactly | crates/agent-seat-x11/src/observer/text_transfer.rs:32-240 | the loop gets to an event if and only if the offer went through, no earlier event was a loss of the clipboard, a failed read or a request that failed, both bounds were kept, and in every earlier turn the evidence was good, no delivery had settled, there was time and the poll worked |
| TextTransfer.GrantsExactly | crates/agent-seat-x11/src/observer/text_transfer.rs:132-363 | a request is granted if and only if the loop gets to it with room in its two bounds, nobody took the clipboard before it in that turn, and its section finds everything in order; all of it said of the inputs |
| TextTransfer.InterruptedAfterDelivery | crates/agent-seat-x11/src/observer/text_transfer.rs:204-218 | a run that delivers the text and then replies Interrupted with no bytes delivered |
| TextTransfer.Transfer.TextInsert | crates/agent-seat-x11/src/observer/text_transfer.rs:32-84 | offering, waiting and cleanup refine the specification over the real clipboard owner and grab |
| TextTransfer.Transfer.WaitForTransfer | crates/agent-seat-x11/src/observer/text_transfer.rs:132-240 | the nested loops refine the specified wait |
| TextTransfer.Transfer.HandleSelectionRequest | crates/agent-seat-x11/src/observer/text_transfer.rs:268-363 | one selection request makes the specified acts in the specified order, each recorded where it is done, and gives the specified answer |
| TextTransfer.Transfer.EvidenceIsCurrent | crates/agent-seat-x11/src/observer/text_transfer.rs:242-266 | one check of the evidence makes the specified acts and is good exactly when all of them were |
| TextTransfer.Transfer.OfferText | crates/agent-seat-x11/src/observer/text_transfer.rs:44-64 | the offering section claims and pastes only after its checks, as specified |
| TextTransfer.Transfer.ReleaseOwner | crates/agent-seat-x11/src/observer/text_transfer.rs:423-467 | cleanup succeeds only when the clipboard is given up and the server released |
| PolicyStore.Store.ReplacePolicy | crates/agent-seat-x11/src/config.rs:687-760 | how the call ends is decided by the directory, the failures and the writer's moments; a version of the other writer is lost if and only if the call rolls back, the writer acts in the rollback window and the staging file is removed; it rolls back if and only if it got as far as the exchange, the displaced version was not the expected one or could not be retained, the writer had not touched the target since, and the rollback itself works; a commit keeps the expected version as the recovery policy; a reply is what is installed; undisturbed, the call ends untouched, rolled back, preserved or committed with all three names as stated, and without failures it commits |
| PolicyStore.Store.Undo | crates/agent-seat-x11/src/config.rs:850-884 | the exchange is undone exactly when the target is still the candidate and nothing fails; otherwise the displaced version stays under the staging name |
| PolicyStore.Store.Stage | crates/agent-seat-x11/src/config.rs:910-952 | staging creates the candidate beside the policy or leaves the two policies alone, with a file left behind only when its mode could not be set or it could not be removed |
| PolicyStore.Store.Finish | crates/agent-seat-x11/src/config.rs:731-760 | retaining the displaced policy either commits or rolls back, and loses no version outside the window |
| PolicyStore.WriterInterferes | crates/agent-seat-x11/src/config.rs:687-760 | any number of writes by the other program moves only the target, to a version of its own, and unlinks none of its live versions |
| PolicyStore.WindowLosesAVersion | crates/agent-seat-x11/src/config.rs:687-760 | a replacement, every operation of which succeeds, that is refused and unlinks the other program's second version |
| PolicyStore.Settings.Save | crates/agent-seat-settings/src/lib.rs:141-149 | a saved draft is what is installed, and the shown version is kept as recovery policy |
| PolicyStore.Settings.RestorePrevious | crates/agent-seat-settings/src/lib.rs:169-174 | a restore installs the recovery policy's contents and keeps the shown version as recovery policy |
| PolicyStore.Settings.RestoreTwice | crates/agent-seat-settings/src/lib.rs:169-174 | restoring twice returns both files' contents |
| PolicyStore.Settings.SaveThenRestore | crates/agent-seat-settings/src/lib.rs:141-174 | a restore after a save brings the old contents back and keeps the saved ones as recovery policy |
| Install.InstallBundle | crates/agent-seat-activity-broker/src/bin/agent-seat-activity-enroll.rs:1731-1755 | for every bundle and every failure, success adds exactly the bundle beside what was there and replaces nothing, failure restores both directories if unlinking works, and no existing file ever changes; a clear way leads to success |
| Install.Transaction.Stage | crates/agent-seat-activity-broker/src/bin/agent-seat-activity-enroll.rs:1667-1688 | a staged file, whole or partly written, is recorded under the one name it holds |
| Install.Transaction.PublishAll | crates/agent-seat-activity-broker/src/bin/agent-seat-activity-enroll.rs:1690-1712 | each rename moves one file of the transaction to a free name; finishing means the whole bundle is installed |
| Install.Transaction.Drop | crates/agent-seat-activity-broker/src/bin/agent-seat-activity-enroll.rs:1715-1729 | an unfinished transaction takes back exactly its own files, under whatever name each has |
| Install.MoveEntry | crates/agent-seat-activity-broker/src/bin/agent-seat-activity-enroll.rs:1690-1712 | a rename to a free name keeps the files of the transaction apart from each other and from the original ones |
| Framing.Stream.ReadFrame | crates/agent-seat-proto/src/codec.rs:78-112 | however reads split or interrupt the stream, the answer and what is left are those the bytes determine, unless the stream itself fails |
| Framing.Stream.WriteFrame | crates/agent-seat-proto/src/codec.rs:120-140 | a message is written exactly when it is valid and within bounds; success appends one frame, a failing stream keeps a proper prefix of it, and a refusal writes nothing |
| Framing.Stream.Deliver | crates/agent-seat-proto/src/codec.rs:78-140 | any list of messages written and read over any unbroken schedules arrives exactly, then a clean end |
| Framing.RoundTrip | crates/agent-seat-proto/src/codec.rs:78-140 | reading the frames of any list of messages gives that list and then a clean end |
| Framing.CutStream | crates/agent-seat-proto/src/codec.rs:83-112 | a stream cut anywhere yields exactly the messages wholly before the cut, then a clean end, a truncated prefix or a truncated payload according to what the cut split |
| DeviceSet.EncodeMeans | crates/agent-seat-activity-broker/src/device_set.rs:200-244 | the encoder accepts exactly the nonempty bounded lists of well-formed devices in ascending order whose record fits, and writes their text form |
| DeviceSet.RoundTripExactly | crates/agent-seat-activity-broker/src/device_set.rs:200-321 | decoding what was encoded gives the same list if and only if no path holds a tab, a newline or bytes that are not UTF-8 |
| DeviceSet.AcceptedIsCanonical | crates/agent-seat-activity-broker/src/device_set.rs:247-321 | an accepted record is the one encoding of a list of well-formed devices with plain paths |
| DeviceSet.LineRoundTrip | crates/agent-seat-activity-broker/src/device_set.rs:247-321 | each device's line is one line and parses back to the device, every field included |
| DeviceSet.TabIsNotReadBack | crates/agent-seat-activity-broker/src/device_set.rs:388-403 | a device with a tab in its path that is encoded and does not decode to itself |
| DeviceSet.ReadsBackAsShown | crates/agent-seat-activity-broker/src/device_set.rs:200-244 | a record with paths that are not UTF-8 decodes, without error, to the displayed paths |
| DeviceSet.MalformedIsMisread | crates/agent-seat-activity-broker/src/device_set.rs:200-244 | a device with a path that is not UTF-8 is encoded, and the record decodes without error to a different device |
| DeviceSet.EncodeDeviceSet | crates/agent-seat-activity-broker/src/device_set.rs:200-244 | the encoder's loop refines the specification, with the first fault it meets |
| DeviceSet.DecodeDeviceSet | crates/agent-seat-activity-broker/src/device_set.rs:247-321 | the decoder refines the specification, and what it accepts encodes to the same text |
| DeviceSet.ValidateClasses | crates/agent-seat-activity-broker/src/device_set.rs:405-429 | a class list is accepted exactly when it is nonempty, known, and in the fixed order without repeats |
| Bitmap.BitmapCodes | crates/agent-seat-activity-broker/src/device_set.rs:362-377 | the codes are exactly the set bits below 65536 of the words, strictly ascending, so that the final sort has nothing to do |
| Bitmap.WordBits | crates/agent-seat-activity-broker/src/device_set.rs:362-377 | the bits of a word are those its hexadecimal digits spell |
| Exec.WordsAreLayouts | crates/agent-seat-x11/src/launch.rs:732-796 | a command is split into given words if and only if it is those words, bare or quoted, laid out between gaps |
| Exec.BareWordsAreBare | crates/agent-seat-x11/src/launch.rs:732-803 | no accepted unquoted word is empty or holds a reserved character, a quote, a backslash or a space |
| Exec.CommandRoundTrip | crates/agent-seat-x11/src/launch.rs:680-852 | for every nonempty list of ASCII arguments and every choice of quoting that can spell them, parsing the written command gives back exactly that list, and refuses it exactly for too many arguments or a program name that is empty, holds an equals sign or is not found |
| Exec.DenotedExactly | crates/agent-seat-x11/src/launch.rs:680-852 | some value means a list of arguments for every entry if and only if each argument is ASCII and has no percent sign or only bare characters, there are not too many, and the first is nonempty without an equals sign |
| Exec.StringRoundTrip | crates/agent-seat-x11/src/launch.rs:680-698 | decoding undoes string escaping for every text |
| Exec.ReadString | crates/agent-seat-x11/src/launch.rs:680-698 | the decoding loop refines the specification |
| Exec.ReadWords | crates/agent-seat-x11/src/launch.rs:732-796 | the reader with its flags follows the four-mode machine |
| Exec.ExpandWord | crates/agent-seat-x11/src/launch.rs:805-852 | expansion appends exactly what the field code or the literal stands for, or fails |
| Exec.ReadExec | crates/agent-seat-x11/src/launch.rs:705-730 | the whole parser refines the specification |
| Broker.ReadyExactly | crates/agent-seat-activity-broker/src/main.rs:84-201 | the broker is ready if and only if its first frame was Eligible, nothing was held or queued, a full quiet interval has passed, and no turn so far had a terminal cause |
| Broker.Stands | crates/agent-seat-activity-broker/src/main.rs:84-201 | after every number of turns of every run, state, reason, epoch, evidence and deadline are what the turns determine |
| Broker.StopIsFinal | crates/agent-seat-activity-broker/src/main.rs:153-201 | nothing changes after a stop, and the epoch was raised at most once |
| Broker.SameReadyBrackets | crates/agent-seat-activity-broker/src/lib.rs:160-165 | two answers are the same readiness if and only if the first is ready and no turn between had a cause; then every answer between was the same |
| Broker.AnswersDecode | crates/agent-seat-activity-broker/src/lib.rs:169-218 | every status the broker can ever send decodes to itself |
| Broker.StatusRoundTrip | crates/agent-seat-activity-broker/src/lib.rs:169-218 | exactly the statuses with matching state and reason and nonzero numbers survive the wire |
| Broker.StatusFrameIsCanonical | crates/agent-seat-activity-broker/src/lib.rs:180-218 | every accepted frame is the one encoding of its status |
| Broker.EligibilityFrames | crates/agent-seat-activity-broker/src/lib.rs:339-370 | a frame reads as an assertion if and only if it is the one written for it |
| Broker.Loop.Turn | crates/agent-seat-activity-broker/src/main.rs:153-201 | one pass of the loop, with its scans of channel and devices, refines the step |
| Broker.Loop.Serve | crates/agent-seat-activity-broker/src/main.rs:107-226 | every answer of a run is the status its turns determine |
| Broker.EncodeInto | crates/agent-seat-activity-broker/src/lib.rs:169-178 | filling the frame in place gives the specified bytes |
| Guard.Run | crates/agent-seat-activity-broker/src/bin/agent-seat-eligibility-guard.rs:104-142 | Eligible is sent first or never, and exactly for a matching, eligible and unchanged session; Ineligible follows exactly if the first eventful round was read without loss, recorded only a change, and the write works; the guard goes on exactly while every round is uneventful |
| Guard.WordNeverFalls | crates/agent-seat-activity-broker/src/bin/agent-seat-eligibility-guard.rs:541-561 | the stop word never falls and is at least every signal recorded |
| Guard.AnySignStopsTheBroker | crates/agent-seat-activity-broker/src/main.rs:326-335 | whatever comes from the guard after the first frame, or its silence by a closed channel, stops the broker for good |
| Companion.StepKeeps | crates/agent-seat-mcp/src/mcp.rs:511-650 | every request, whatever the provider answers, keeps the invariant that ties sessions, slots, contexts and the recovery flag to the history |
| Companion.StatusFirst | crates/agent-seat-mcp/src/mcp.rs:554-650 | over every run, between the end of a legacy session and the next legacy call other than a status call, a status call succeeded |
| Companion.ContextsNeverReused | crates/agent-seat-mcp/src/mcp.rs:910-954 | at most eight contexts live at once, each new identity exceeds all before it, and none comes back or changes its connection |
| Companion.RunBounded | crates/agent-seat-mcp/src/mcp.rs:788-945 | over every run there are at most eight contexts and at most 32 slots in each session |
| Companion.ClosedMeansClosed | crates/agent-seat-mcp/src/mcp.rs:525-650 | nothing is sent over a connection after it closed |
| Companion.ReplayIsWhatWasSaved | crates/agent-seat-mcp/src/mcp.rs:788-900 | a replayed click is the last one saved under its name over the same connection, but for the new generation |
| Companion.ReconnectAtCreationIsKept | crates/agent-seat-mcp/src/mcp.rs:511-523 | a context whose first answer asked for a reconnect stays usable |
| Companion.Server.ProviderCallLegacy | crates/agent-seat-mcp/src/mcp.rs:554-586 | a legacy call refines its step |
| Companion.Server.ProviderCallModern | crates/agent-seat-mcp/src/mcp.rs:525-552 | a call with a context refines its step |
| Companion.Server.CreateModernContext | crates/agent-seat-mcp/src/mcp.rs:511-523 | opening a context refines its step, capacity and exhaustion included |
| Companion.Server.PointerSlotCall | crates/agent-seat-mcp/src/mcp.rs:788-900 | saving, replaying and listing refine the specified effect on a session |
| Companion.Server.PointerSlotLegacy | crates/agent-seat-mcp/src/mcp.rs:618-650 | a slot request on the legacy session refines its step |
| Companion.Server.PointerSlotModern | crates/agent-seat-mcp/src/mcp.rs:588-616 | a slot request with a context refines its step |
| Companion.Server.SeatRelease | crates/agent-seat-mcp/src/mcp.rs:401-428 | releasing a context refines its step: the context is gone, or was unknown |
| Capture.ToRgb | crates/agent-seat-x11/src/observer/capture.rs:299-332 | a picture comes out exactly when depth, length and masks are acceptable; it has three samples for each pixel, each from its own pixel's bytes under padding and byte order |
| Capture.StrideMeans | crates/agent-seat-x11/src/observer/capture.rs:303-316 | the stride is the least whole number of padding units that holds a row, and no size overflows |
| Capture.ScaledIsNearest | crates/agent-seat-x11/src/observer/capture.rs:367-383 | a component is the one integer nearest to 255 * value / maximum and fits a byte |
| Capture.ScaledEnds | crates/agent-seat-x11/src/observer/capture.rs:367-383 | zero goes to 0 and full scale to 255 |
| Capture.ScaledIsMonotone | crates/agent-seat-x11/src/observer/capture.rs:367-383 | brighter never becomes darker |
| Capture.EightBitsAreExact | crates/agent-seat-x11/src/observer/capture.rs:367-383 | eight-bit components pass through unchanged |
| Capture.FieldMeans | crates/agent-seat-x11/src/observer/capture.rs:367-383 | the value taken is the pixel's bits under the mask, moved down, and at most the maximum |
| Capture.MaskExactly | crates/agent-seat-x11/src/observer/capture.rs:367-383 | the accepted masks are the nonempty runs of ones other than 32 ones |
| Capture.ComponentExactly | crates/agent-seat-x11/src/observer/capture.rs:367-383 | conversion fails exactly on an unacceptable mask, never on the byte conversion |
| Capture.ReadPixel | crates/agent-seat-x11/src/observer/capture.rs:352-365 | shifting and combining gives the bytes' value in either order |

## Left out

- X11 requests, atoms and property reads (`scan`, `property32`, ownership, Composite): a scan is any input with distinct windows, workspaces numbered from zero with the current one among them, and an active window among the visible ones; every other answer is an arbitrary input.
- Stacking order and workspace names are not carried by events, so views compare clients as a map from identity to descriptor; descriptor field bounds come from the scan and are not modelled.
- JSON, TOML, PNG, base64 and UTF-8 decoding: an abstract pair of functions with a round trip, a validity predicate, or characters instead of bytes.
- Management (`manage`, `observe_terminal`, the preparation functions) and pointer actions and single keys in `input.rs`: they would add further small cases of target checks, gate checks and bracketed input.
- Wall-clock time: deadlines are compared with times that the inputs supply; the poll loop of the observer ends when its list of scans does.
- Program lookup, application discovery, process spawning, capabilities of a call, file modes and owners, peer credentials, D-Bus, udev and netlink: a function or a truth value that the inputs supply.
- The GTK interface, command-line parsing, tool schemas, the initial input set, advertisement and active-policy markers: no harder property than those above.
- ObserverTheorems.Converges: an exhausted counter reaches the peer as the error of its own call; the evidence check of a text transfer, which swallows the error of its refresh, is not among the calls of a run.
- Keyboard.Resolve: assumes one modifier-map entry for each keycode; masks are sets of bit positions; for an undefined range action the model's server wraps.
- PolicyStore.Store.ReplacePolicy: inode numbers are not reused during a call, the other program only renames complete versions onto the target, and a staging name is free when it is chosen.
- Install.InstallBundle: no other program writes to the two directories, which are distinct.
- TextTransfer.TransferIsHonest: does not bound the wait in real time; a run is given a tick at which the deadline has passed.
- Broker.ReadyExactly: a failure that ends the process ends the run; a start that fails has no run.
- Capture.ToRgb: the image formats and nonzero dimensions that reading the image has already admitted are assumed.
- GatedInput.TypingIsHonest: the preflight resolution of all characters is one truth value; which stroke a character resolves to is an input, and what it types is Keyboard's subject.
