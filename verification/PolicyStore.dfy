/**
 Replacing the saved policy as a transaction, against a directory that another writer may rename
 new versions into at any moment and whose operations may fail at any moment.

 The directory binds three names to inodes, and inodes to contents. Inode numbers are never
 reused, so equal inodes mean the same file. `foreign` is a history variable: the versions the
 other writer has put in place during the call and has not itself replaced since.
 */
module PolicyStore {
  import opened Prelude

  datatype Name = Target | Previous | Staging

  datatype Dir = Dir(
    target: Option<nat>, previous: Option<nat>, staging: Option<nat>,
    data: map<nat, string>, next: nat, foreign: set<nat>)

  datatype Snapshot = Snapshot(inode: nat, source: string)

  function At(d: Dir, n: Name): Option<nat> {
    match n
    case Target => d.target
    case Previous => d.previous
    case Staging => d.staging
  }

  function Put(d: Dir, n: Name, inode: Option<nat>): Dir {
    match n
    case Target => d.(target := inode)
    case Previous => d.(previous := inode)
    case Staging => d.(staging := inode)
  }

  ghost predicate Bound(d: Dir, o: Option<nat>) {
    o.Some? ==> o.value in d.data
  }

  ghost predicate Apart(o: Option<nat>, p: Option<nat>) {
    o.Some? ==> o != p
  }

  ghost predicate DirOk(d: Dir) {
    && Bound(d, d.target) && Bound(d, d.previous) && Bound(d, d.staging)
    && Apart(d.target, d.previous) && Apart(d.target, d.staging) && Apart(d.previous, d.staging)
    && (forall i :: i in d.data ==> i < d.next)
    && (forall i :: i in d.foreign ==> i in d.data)
  }

  ghost predicate Linked(d: Dir, inode: nat) {
    d.target == Some(inode) || d.previous == Some(inode) || d.staging == Some(inode)
  }

  /** Every version the other writer put in place is still reachable under some name. */
  ghost predicate AllLinked(d: Dir) {
    forall i :: i in d.foreign ==> Linked(d, i)
  }

  ghost predicate IsForeign(d: Dir, o: Option<nat>) {
    o.Some? && o.value in d.foreign
  }

  ghost predicate Holds(d: Dir, n: Name, source: string) {
    At(d, n).Some? && At(d, n).value in d.data && d.data[At(d, n).value] == source
  }

  /** The other writer renames a new version onto the target, past any lock. */
  function Written(d: Dir, source: string): Dir {
    d.(target := Some(d.next), data := d.data[d.next := source], next := d.next + 1,
       foreign := d.foreign - (if d.target.Some? then {d.target.value} else {}) + {d.next})
  }

  function WrittenAll(d: Dir, sources: seq<string>): Dir {
    if sources == [] then d else Written(WrittenAll(d, sources[..|sources| - 1]), sources[|sources| - 1])
  }

  function Exchanged(d: Dir, m: Name, n: Name): Dir {
    Put(Put(d, m, At(d, n)), n, At(d, m))
  }

  function Moved(d: Dir, m: Name, n: Name): Dir {
    Put(Put(d, m, None), n, At(d, m))
  }

  function Created(d: Dir, source: string): Dir {
    d.(staging := Some(d.next), data := d.data[d.next := source], next := d.next + 1)
  }

  function ReadAt(d: Dir, n: Name, valid: string -> bool): Option<Snapshot> {
    match At(d, n)
    case None => None
    case Some(i) => if i in d.data && valid(d.data[i]) then Some(Snapshot(i, d.data[i])) else None
  }

  /** Contents survive and the target never disappears. */
  ghost predicate Kept(d: Dir, e: Dir) {
    && d.next <= e.next
    && (d.target.Some? ==> e.target.Some?)
    && (forall i :: i in d.data ==> i in e.data && e.data[i] == d.data[i])
    && (forall i :: i in e.foreign ==> i in d.foreign || d.next <= i)
  }

  /** Between two steps of ours: at most the target moved, to a version of the writer's. */
  ghost predicate Interfered(d: Dir, e: Dir, disturbed: bool) {
    && DirOk(e) && Kept(d, e) && (AllLinked(d) ==> AllLinked(e))
    && e.previous == d.previous && e.staging == d.staging
    && (!disturbed ==> e == d)
    && (disturbed ==> IsForeign(e, e.target) && d.next <= e.target.value)
  }

  lemma {:induction false} WriterInterferes(d: Dir, sources: seq<string>)
    requires DirOk(d)
    ensures Interfered(d, WrittenAll(d, sources), sources != [])
  {
    if sources != [] {
      WriterInterferes(d, sources[..|sources| - 1]);
    }
  }

  // ----- the transaction -----

  datatype Op =
    | Lock | ReadCurrent | CheckRecovery | InspectStaged | Install | ReadDisplaced
    | InspectTarget | RollBack | Retain | SecureRecovery | Remove | SyncDirectory | ReadBack | ReadRecovery

  /** How creating the staging file can go wrong; after SecureFailed the code leaves it behind. */
  datatype StagingFault = NoFault | CannotCreate | SecureFailed | WriteFailed

  /** The moments between our steps at which the other writer may act. */
  datatype Point = Start | Staged | Installed | Checked | RollbackWindow | Finishing

  datatype Env = Env(
    valid: string -> bool, fails: Op -> bool, fault: StagingFault, writer: Point -> seq<string>)

  ghost predicate Quiet(env: Env) {
    forall p :: env.writer(p) == []
  }

  ghost predicate Reliable(env: Env) {
    env.fault == NoFault && forall op :: !env.fails(op)
  }

  datatype Result = Replaced(snapshot: Snapshot) | Refused

  /** How the call ended, as far as the directory is concerned. */
  datatype Ending = Untouched | LeftStaging | RolledBack | Preserved | Committed

  /** The one way to lose a version: it lands after the rollback check and before the rollback exchange. */
  ghost predicate LostInWindow(env: Env, end: Ending) {
    end == RolledBack && env.writer(RollbackWindow) != [] && !env.fails(Remove)
  }

  // How the call ends, decided by what it is given: the directory, the failures and the writer's moments.

  function UndoEnd(env: Env, clear: bool): Ending {
    if clear && !env.fails(InspectTarget) && !env.fails(RollBack) then RolledBack else Preserved
  }

  function FinishEnd(env: Env, clear: bool): Ending {
    if !env.fails(Retain) then Committed else UndoEnd(env, clear && env.writer(Checked) == [])
  }

  function InspectEnd(env: Env, matches: bool): Ending {
    var clear := env.writer(Installed) == [];
    if env.fails(ReadDisplaced) || !matches then UndoEnd(env, clear) else FinishEnd(env, clear)
  }

  function InstallEnd(env: Env): Ending {
    if env.fails(Install) then Untouched else InspectEnd(env, env.writer(Staged) == [])
  }

  /** The call gets as far as staging the candidate. */
  predicate Proceeds(d: Dir, expected: Snapshot, candidate: string, env: Env) {
    && env.valid(candidate) && !env.fails(Lock) && env.writer(Start) == [] && !env.fails(ReadCurrent)
    && ReadAt(d, Target, env.valid) == Some(expected) && candidate != expected.source && !env.fails(CheckRecovery)
  }

  function EndOf(d: Dir, expected: Snapshot, candidate: string, env: Env): Ending {
    if !Proceeds(d, expected, candidate, env) then Untouched
    else if env.fault == SecureFailed then LeftStaging
    else if env.fault != NoFault || env.fails(InspectStaged) then Untouched
    else InstallEnd(env)
  }

  /** A rollback: the displaced version was not the expected one, or could not be retained, and the target is still ours. */
  predicate RollsBack(d: Dir, expected: Snapshot, candidate: string, env: Env) {
    && Proceeds(d, expected, candidate, env)
    && env.fault == NoFault && !env.fails(InspectStaged) && !env.fails(Install)
    && env.writer(Installed) == [] && !env.fails(InspectTarget) && !env.fails(RollBack)
    && (env.fails(ReadDisplaced) || env.writer(Staged) != [] || (env.fails(Retain) && env.writer(Checked) == []))
  }

  lemma RollsBackExactly(d: Dir, expected: Snapshot, candidate: string, env: Env)
    ensures EndOf(d, expected, candidate, env) == RolledBack <==> RollsBack(d, expected, candidate, env)
  {
  }

  /** What an undisturbed call can leave behind, failure by failure. */
  ghost predicate Transacted(d: Dir, e: Dir, expected: nat, candidate: nat, env: Env, end: Ending) {
    && e.foreign == d.foreign
    && match end {
    case Untouched => e.target == d.target && e.previous == d.previous && (e.staging.Some? ==> env.fails(Remove))
    case RolledBack => e.target == d.target && e.previous == d.previous && (e.staging.Some? ==> env.fails(Remove))
    case LeftStaging => e.target == d.target && e.previous == d.previous && env.fault == SecureFailed
    case Preserved => e.target == Some(candidate) && e.previous == d.previous && e.staging == Some(expected)
    case Committed =>
      e.target == Some(candidate) && e.previous == Some(expected) && (e.staging.Some? ==> env.fails(Remove))
    }
  }

  class Store {
    var dir: Dir

    constructor (d: Dir)
      ensures dir == d
    {
      dir := d;
    }

    method Interfere(env: Env, p: Point)
      requires DirOk(dir)
      modifies this
      ensures dir == WrittenAll(old(dir), env.writer(p))
      ensures Interfered(old(dir), dir, env.writer(p) != [])
    {
      var sources := env.writer(p);
      for i := 0 to |sources|
        invariant dir == WrittenAll(old(dir), sources[..i])
      {
        assert sources[..i + 1][..i] == sources[..i];
        dir := Written(dir, sources[i]);
      }
      assert sources[..|sources|] == sources;
      WriterInterferes(old(dir), sources);
    }

    method Exchange(m: Name, n: Name, fails: bool) returns (ok: bool)
      requires DirOk(dir) && m != n
      modifies this
      ensures ok <==> !fails && At(old(dir), m).Some? && At(old(dir), n).Some?
      ensures dir == if ok then Exchanged(old(dir), m, n) else old(dir)
      ensures DirOk(dir) && (AllLinked(old(dir)) ==> AllLinked(dir))
    {
      ok := !fails && At(dir, m).Some? && At(dir, n).Some?;
      if ok {
        dir := Exchanged(dir, m, n);
      }
    }

    method Rename(m: Name, n: Name, fails: bool) returns (ok: bool)
      requires DirOk(dir) && m != n
      modifies this
      ensures ok <==> !fails && At(old(dir), m).Some? && At(old(dir), n).None?
      ensures dir == if ok then Moved(old(dir), m, n) else old(dir)
      ensures DirOk(dir) && (AllLinked(old(dir)) ==> AllLinked(dir))
    {
      ok := !fails && At(dir, m).Some? && At(dir, n).None?;
      if ok {
        dir := Moved(dir, m, n);
      }
    }

    /** `cleanup`, and the drop of a staging file that is not preserved. */
    method RemoveStaging(env: Env)
      requires DirOk(dir)
      modifies this
      ensures dir == if env.fails(Remove) then old(dir) else old(dir).(staging := None)
      ensures DirOk(dir)
      ensures AllLinked(old(dir)) ==>
                (AllLinked(dir) <==> env.fails(Remove) || !IsForeign(old(dir), old(dir).staging))
    {
      if !env.fails(Remove) {
        dir := dir.(staging := None);
        assert old(IsForeign(dir, dir.staging)) ==> !Linked(dir, old(dir).staging.value);
      }
    }

    /** `rollback_or_preserve`, then the drop of the staging file: true when the exchange was undone. */
    method Undo(candidate: nat, env: Env) returns (undone: bool)
      requires DirOk(dir) && AllLinked(dir) && dir.staging.Some? && dir.target.Some? && candidate !in dir.foreign
      requires candidate < dir.next
      modifies this
      ensures DirOk(dir) && Kept(old(dir), dir)
      ensures AllLinked(dir) <==> !LostInWindow(env, if undone then RolledBack else Preserved)
      ensures undone <==> !env.fails(InspectTarget) && !env.fails(RollBack) && old(dir).target == Some(candidate)
      ensures dir.previous == old(dir).previous
      ensures undone ==> dir.target == old(dir).staging
      ensures !undone ==> dir.staging == old(dir).staging
      ensures env.writer(RollbackWindow) == [] && undone ==>
                dir.foreign == old(dir).foreign && (dir.staging.Some? <==> env.fails(Remove))
      ensures env.writer(RollbackWindow) == [] && !undone ==> dir == old(dir)
    {
      if env.fails(InspectTarget) || dir.target != Some(candidate) {
        return false;
      }
      Interfere(env, RollbackWindow);
      undone := Exchange(Staging, Target, env.fails(RollBack));
      if undone {
        RemoveStaging(env);
      }
    }

    /** `TemporaryPolicy::create` and the inspection of the staged file. */
    method Stage(candidate: string, env: Env) returns (staged: bool, ghost end: Ending)
      requires DirOk(dir) && AllLinked(dir) && dir.staging == None
      modifies this
      ensures DirOk(dir) && AllLinked(dir) && dir.foreign == old(dir).foreign && Kept(old(dir), dir)
      ensures staged <==> env.fault == NoFault && !env.fails(InspectStaged)
      ensures staged ==> dir == Created(old(dir), candidate)
      ensures !staged ==> end == if env.fault == SecureFailed then LeftStaging else Untouched
      ensures dir.target == old(dir).target && dir.previous == old(dir).previous
      ensures !staged && dir.staging.Some? ==> end == LeftStaging || env.fails(Remove)
    {
      staged, end := false, Untouched;
      if env.fault == CannotCreate {
        return;
      }
      dir := Created(dir, if env.fault == NoFault then candidate else "");
      if env.fault == SecureFailed {
        end := LeftStaging;
        return;
      }
      if env.fault == WriteFailed || env.fails(InspectStaged) {
        RemoveStaging(env);
        return;
      }
      staged := true;
    }

    /** Make the displaced policy the recovery policy; any older recovery policy takes its staging name. */
    method KeepDisplaced(hadPrevious: bool, env: Env) returns (ok: bool)
      requires DirOk(dir) && dir.staging.Some? && (hadPrevious <==> dir.previous.Some?)
      modifies this
      ensures ok <==> !env.fails(Retain)
      ensures dir == if ok then Exchanged(old(dir), Staging, Previous) else old(dir)
      ensures DirOk(dir) && (AllLinked(old(dir)) ==> AllLinked(dir))
    {
      if hadPrevious {
        ok := Exchange(Staging, Previous, env.fails(Retain));
      } else {
        ok := Rename(Staging, Previous, env.fails(Retain));
      }
    }

    /** What is left to do once the new policy is in place. */
    method Conclude(env: Env) returns (r: Result)
      requires DirOk(dir) && AllLinked(dir)
      modifies this
      ensures Interfered(old(dir), dir, env.writer(Finishing) != [] && !env.fails(SecureRecovery))
      ensures r == if env.fails(SecureRecovery) || env.fails(SyncDirectory) || env.fails(ReadBack) then Refused
                   else match ReadAt(dir, Target, env.valid) case None => Refused case Some(s) => Replaced(s)
    {
      if env.fails(SecureRecovery) {
        return Refused;
      }
      Interfere(env, Finishing);
      if env.fails(SyncDirectory) || env.fails(ReadBack) {
        return Refused;
      }
      var read := ReadAt(dir, Target, env.valid);
      r := if read.Some? then Replaced(read.value) else Refused;
    }

    /** Retain the displaced policy as the recovery policy and finish. */
    method Finish(expected: Snapshot, candidate: nat, hadPrevious: bool, env: Env) returns (r: Result, ghost end: Ending)
      requires DirOk(dir) && AllLinked(dir) && dir.target.Some? && dir.staging == Some(expected.inode)
      requires !IsForeign(dir, dir.staging) && !IsForeign(dir, dir.previous)
      requires candidate !in dir.foreign && candidate < dir.next && (hadPrevious <==> dir.previous.Some?)
      modifies this
      ensures DirOk(dir) && Kept(old(dir), dir)
      ensures end == FinishEnd(env, old(dir).target == Some(candidate))
      ensures AllLinked(dir) <==> !LostInWindow(env, end)
      ensures end == Committed ==> dir.previous == Some(expected.inode)
      ensures r.Replaced? ==> end == Committed && ReadAt(dir, Target, env.valid) == Some(r.snapshot)
      ensures Quiet(env) && old(dir).target == Some(candidate) ==>
                Transacted(old(dir).(target := Some(expected.inode)), dir, expected.inode, candidate, env, end)
      ensures Quiet(env) && Reliable(env) && ReadAt(old(dir), Target, env.valid).Some? ==> r.Replaced?
    {
      Interfere(env, Checked);
      var retained := KeepDisplaced(hadPrevious, env);
      if !retained {
        ghost var undone := Undo(candidate, env);
        return Refused, if undone then RolledBack else Preserved;
      }
      RemoveStaging(env);
      r := Conclude(env);
      end := Committed;
    }

    /** Look at what came out of the exchange: go on only with exactly the expected policy. */
    method Inspect(expected: Snapshot, candidate: nat, hadPrevious: bool, env: Env) returns (r: Result, ghost end: Ending)
      requires DirOk(dir) && AllLinked(dir) && dir.target == Some(candidate) && dir.staging.Some?
      requires candidate !in dir.foreign && expected.inode !in dir.foreign && !IsForeign(dir, dir.previous)
      requires expected.inode < dir.next && (hadPrevious <==> dir.previous.Some?)
      modifies this
      ensures DirOk(dir) && Kept(old(dir), dir)
      ensures end == InspectEnd(env, ReadAt(old(dir), Staging, env.valid) == Some(expected))
      ensures AllLinked(dir) <==> !LostInWindow(env, end)
      ensures end == Committed ==> dir.previous == Some(expected.inode)
      ensures r.Replaced? ==> end == Committed && ReadAt(dir, Target, env.valid) == Some(r.snapshot)
      ensures Quiet(env) && old(dir).staging == Some(expected.inode) ==>
                Transacted(old(dir).(target := old(dir).staging), dir, expected.inode, candidate, env, end)
      ensures && Quiet(env) && Reliable(env) && ReadAt(old(dir), Staging, env.valid) == Some(expected)
              && ReadAt(old(dir), Target, env.valid).Some?
              ==> r.Replaced?
    {
      Interfere(env, Installed);
      var displaced := if env.fails(ReadDisplaced) then None else ReadAt(dir, Staging, env.valid);
      if displaced != Some(expected) {
        ghost var undone := Undo(candidate, env);
        return Refused, if undone then RolledBack else Preserved;
      }
      r, end := Finish(expected, candidate, hadPrevious, env);
    }

    /** Exchange the staged candidate into place. */
    method InstallStaged(expected: Snapshot, candidate: nat, hadPrevious: bool, env: Env) returns (r: Result, ghost end: Ending)
      requires DirOk(dir) && AllLinked(dir) && dir.target.Some? && dir.staging == Some(candidate)
      requires candidate !in dir.foreign && expected.inode !in dir.foreign && !IsForeign(dir, dir.previous)
      requires expected.inode < dir.next && (hadPrevious <==> dir.previous.Some?)
      modifies this
      ensures DirOk(dir) && Kept(old(dir), dir)
      ensures ReadAt(old(dir), Target, env.valid) == Some(expected) ==> end == InstallEnd(env)
      ensures AllLinked(dir) <==> !LostInWindow(env, end)
      ensures end == Committed ==> dir.previous == Some(expected.inode)
      ensures r.Replaced? ==> end == Committed && ReadAt(dir, Target, env.valid) == Some(r.snapshot)
      ensures Quiet(env) && old(dir).target == Some(expected.inode) ==>
                Transacted(old(dir), dir, expected.inode, candidate, env, end)
      ensures && Quiet(env) && Reliable(env) && ReadAt(old(dir), Target, env.valid) == Some(expected)
              && ReadAt(old(dir), Staging, env.valid).Some?
              ==> r.Replaced?
    {
      Interfere(env, Staged);
      var installed := Exchange(Staging, Target, env.fails(Install));
      if !installed {
        RemoveStaging(env);
        return Refused, Untouched;
      }
      r, end := Inspect(expected, candidate, hadPrevious, env);
    }

    /** `replace_policy`, from a snapshot taken before the call. */
    method ReplacePolicy(expected: Snapshot, candidate: string, env: Env) returns (r: Result, ghost end: Ending)
      requires DirOk(dir) && dir.foreign == {} && dir.staging == None && expected.inode < dir.next
      modifies this
      ensures DirOk(dir) && Kept(old(dir), dir)
      ensures end == EndOf(old(dir), expected, candidate, env)
      ensures end == RolledBack <==> RollsBack(old(dir), expected, candidate, env)
      // a version the other writer put in place is lost exactly when it lands in the window of a rollback
      ensures AllLinked(dir) <==>
                !(RollsBack(old(dir), expected, candidate, env) && env.writer(RollbackWindow) != [] && !env.fails(Remove))
      // whoever interferes, a commit retains exactly the expected version, and the reply is what is installed
      ensures end == Committed ==> dir.previous == Some(expected.inode) && Holds(dir, Previous, expected.source)
      ensures r.Replaced? ==>
                && ReadAt(dir, Target, env.valid) == Some(r.snapshot)
                && (end == Committed || (end == Untouched && r.snapshot == expected && candidate == expected.source))
      ensures r.Replaced? && end == Untouched ==> dir.previous == old(dir).previous
      // undisturbed, the call is all or nothing
      ensures Quiet(env) ==> Transacted(old(dir), dir, expected.inode, old(dir).next, env, end)
      ensures Quiet(env) && (end == Committed || end == Preserved) ==> Holds(dir, Target, candidate)
      ensures Quiet(env) && Reliable(env) && env.valid(candidate) && ReadAt(old(dir), Target, env.valid) == Some(expected) ==>
                && r.Replaced? && (end == Committed <==> candidate != expected.source)
    {
      RollsBackExactly(dir, expected, candidate, env);
      r, end := Refused, Untouched;
      if !env.valid(candidate) || env.fails(Lock) {
        return;
      }
      Interfere(env, Start);
      var current := if env.fails(ReadCurrent) then None else ReadAt(dir, Target, env.valid);
      if current != Some(expected) {
        return;
      }
      if candidate == expected.source {
        return Replaced(expected), Untouched;
      }
      if env.fails(CheckRecovery) {
        return;
      }
      var hadPrevious, inode := dir.previous.Some?, dir.next;
      var staged;
      staged, end := Stage(candidate, env);
      if !staged {
        return Refused, end;
      }
      r, end := InstallStaged(expected, inode, hadPrevious, env);
    }
  }

  /** The other program writes while the candidate is staged, and again inside the rollback window. */
  function WindowEnv(): Env {
    Env(_ => true, _ => false, NoFault,
        p => if p == Staged then ["theirs"] else if p == RollbackWindow then ["late"] else [])
  }

  /**
   The window is real: every operation of this call succeeds, the first foreign version is put back
   as the target, and the second one is unlinked.
   */
  method WindowLosesAVersion() returns (s: Store, r: Result)
    ensures r == Refused && exists i :: i in s.dir.foreign && !Linked(s.dir, i)
  {
    var d := Dir(Some(0), None, None, map[0 := "old"], 1, {});
    s := new Store(d);
    var env := WindowEnv();
    ghost var end;
    assert Proceeds(d, Snapshot(0, "old"), "new", env) && env.writer(Staged) == ["theirs"];
    r, end := s.ReplacePolicy(Snapshot(0, "old"), "new", env);
    assert !AllLinked(s.dir);
  }

  /** An undisturbed directory whose two policies both parse, as the settings program sees it. */
  ghost predicate Settled(d: Dir, shown: Snapshot, env: Env) {
    && DirOk(d) && d.foreign == {} && d.staging == None
    && Quiet(env) && Reliable(env) && ReadAt(d, Target, env.valid) == Some(shown)
  }

  /** The settings program: the policy it shows, over the directory it is saved in. */
  class Settings {
    const store: Store
    var snapshot: Snapshot

    constructor (s: Store, shown: Snapshot)
      ensures store == s && snapshot == shown
    {
      store, snapshot := s, shown;
    }

    /** `save`, with the draft already rendered. */
    method Save(candidate: string, env: Env) returns (ok: bool)
      requires DirOk(store.dir) && store.dir.foreign == {} && store.dir.staging == None
      requires snapshot.inode < store.dir.next
      modifies this, store
      ensures DirOk(store.dir) && (!ok ==> snapshot == old(snapshot))
      ensures ok ==> ReadAt(store.dir, Target, env.valid) == Some(snapshot)
      ensures ok && candidate != old(snapshot).source ==> Holds(store.dir, Previous, old(snapshot).source)
      ensures Quiet(env) && ok ==> snapshot.source == candidate
      ensures Settled(old(store.dir), old(snapshot), env) && env.valid(candidate) && candidate != old(snapshot).source ==>
                ok && Settled(store.dir, snapshot, env)
    {
      var r;
      ghost var end;
      r, end := store.ReplacePolicy(snapshot, candidate, env);
      ok := r.Replaced?;
      if ok {
        snapshot := r.snapshot;
      }
    }

    /** `restore_previous`. */
    method RestorePrevious(env: Env) returns (ok: bool)
      requires DirOk(store.dir) && store.dir.foreign == {} && store.dir.staging == None
      requires snapshot.inode < store.dir.next
      modifies this, store
      ensures DirOk(store.dir) && (!ok ==> snapshot == old(snapshot))
      ensures ok ==> ReadAt(store.dir, Target, env.valid) == Some(snapshot)
      ensures ok ==> ReadAt(old(store.dir), Previous, env.valid).Some? && Holds(store.dir, Previous, old(snapshot).source)
      ensures Settled(old(store.dir), old(snapshot), env) && ReadAt(old(store.dir), Previous, env.valid).Some? ==>
                && ok && Settled(store.dir, snapshot, env)
                && snapshot.source == ReadAt(old(store.dir), Previous, env.valid).value.source
    {
      var recovery := if env.fails(ReadRecovery) then None else ReadAt(store.dir, Previous, env.valid);
      if recovery.None? {
        return false;
      }
      var r;
      ghost var end;
      r, end := store.ReplacePolicy(snapshot, recovery.value.source, env);
      ok := r.Replaced?;
      if ok {
        snapshot := r.snapshot;
      }
    }

    /** Undoing the undo: both files are back to their contents. */
    method RestoreTwice(env: Env) returns (ok: bool)
      requires Settled(store.dir, snapshot, env) && ReadAt(store.dir, Previous, env.valid).Some?
      modifies this, store
      ensures ok && snapshot.source == old(snapshot).source
      ensures Holds(store.dir, Target, old(snapshot).source)
      ensures Holds(store.dir, Previous, old(store.dir.data[store.dir.previous.value]))
    {
      ok := RestorePrevious(env);
      ok := RestorePrevious(env);
    }

    /** A restore after a save undoes it and keeps what was saved as the recovery policy. */
    method SaveThenRestore(candidate: string, env: Env) returns (ok: bool)
      requires Settled(store.dir, snapshot, env) && env.valid(candidate) && candidate != snapshot.source
      modifies this, store
      ensures ok && Holds(store.dir, Target, old(snapshot).source) && Holds(store.dir, Previous, candidate)
    {
      ok := Save(candidate, env);
      ok := RestorePrevious(env);
    }
  }
}
