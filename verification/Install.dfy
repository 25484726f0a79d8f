/**
 Installing a rendered bundle into two directories: stage every file under a temporary name,
 publish by renaming without replacing, and undo everything on any failure.
 */
module Install {
  import opened Prelude

  /** A place is a directory, the unit one or the enrollment one, and a name in it. */
  datatype Place = Place(directory: nat, name: string)

  type Files = map<Place, string>

  datatype RenderedFile = RenderedFile(name: string, contents: string)

  /** `contents` is what has been written to the file so far. */
  datatype Entry = Entry(directory: nat, temporary: string, target: string, published: bool, contents: string)

  datatype Op = Inspect(file: nat) | Open(file: nat) | Write(file: nat) | Publish(file: nat) | Sync(directory: nat)
              | Unlink(file: nat)

  /** Which operations fail, what an unfinished write leaves behind, and the staging names. */
  datatype Env = Env(fails: Op -> bool, partial: nat -> string, temporary: nat -> string)

  ghost predicate UnlinksWork(env: Env) {
    forall i: nat :: !env.fails(Unlink(i))
  }

  function Held(e: Entry): Place {
    Place(e.directory, if e.published then e.target else e.temporary)
  }

  predicate EndsWith(s: string, suffix: string) {
    |s| >= |suffix| && s[|s| - |suffix|..] == suffix
  }

  function DirectoryOf(name: string): nat {
    if EndsWith(name, ".service") || EndsWith(name, ".socket") then 0 else 1
  }

  function TargetOf(f: RenderedFile): Place {
    Place(DirectoryOf(f.name), f.name)
  }

  // ----- the directories with the transaction's files in them -----

  /** The original files and those of the transaction. */
  function Merged(original: Files, entries: seq<Entry>): Files {
    if entries == [] then original
    else
      var n := |entries| - 1;
      Merged(original, entries[..n])[Held(entries[n]) := entries[n].contents]
  }

  /** No place of the transaction was taken when it got there. */
  ghost predicate Disjoint(original: Files, entries: seq<Entry>) {
    entries == [] ||
    (var n := |entries| - 1;
     Disjoint(original, entries[..n]) && Held(entries[n]) !in Merged(original, entries[..n]))
  }

  lemma {:induction false} MergedHas(original: Files, entries: seq<Entry>, k: nat)
    requires Disjoint(original, entries) && k < |entries|
    ensures Held(entries[k]) !in original && Held(entries[k]) in Merged(original, entries)
    ensures Merged(original, entries)[Held(entries[k])] == entries[k].contents
    decreases |entries|
  {
    var n := |entries| - 1;
    if k < n {
      MergedHas(original, entries[..n], k);
    } else {
      MergedKeeps(original, entries[..n]);
    }
  }

  lemma {:induction false} MergedKeeps(original: Files, entries: seq<Entry>)
    requires Disjoint(original, entries)
    ensures Kept(Merged(original, entries), original)
  {
    if entries != [] {
      MergedKeeps(original, entries[..|entries| - 1]);
    }
  }

  lemma {:induction false} MergedFrom(original: Files, entries: seq<Entry>, p: Place) returns (k: nat)
    requires p in Merged(original, entries) && p !in original
    ensures k < |entries| && Held(entries[k]) == p
    decreases |entries|
  {
    var n := |entries| - 1;
    if Held(entries[n]) == p {
      k := n;
    } else {
      k := MergedFrom(original, entries[..n], p);
    }
  }

  lemma AppendEntry(original: Files, entries: seq<Entry>, e: Entry)
    requires Disjoint(original, entries) && Held(e) !in Merged(original, entries)
    ensures Disjoint(original, entries + [e])
    ensures Merged(original, entries + [e]) == Merged(original, entries)[Held(e) := e.contents]
  {
    assert (entries + [e])[..|entries|] == entries;
  }

  lemma Commute(files: Files, a: Place, b: Place, c: Place, x: string, y: string)
    requires c != a && c != b
    ensures (files - {a})[b := x][c := y] == (files[c := y] - {a})[b := x]
  {
  }

  lemma {:induction false} MoveEntry(original: Files, entries: seq<Entry>, k: nat, e: Entry)
    requires Disjoint(original, entries) && k < |entries| && Held(e) !in Merged(original, entries)
    ensures Disjoint(original, entries[k := e])
    ensures Merged(original, entries[k := e])
            == (Merged(original, entries) - {Held(entries[k])})[Held(e) := e.contents]
    decreases |entries|
  {
    var n, moved := |entries| - 1, entries[k := e];
    if k == n {
      assert moved[..n] == entries[..n];
    } else {
      MoveEntry(original, entries[..n], k, e);
      MergedHas(original, entries[..n], k);
      assert moved[..n] == entries[..n][k := e];
      Commute(Merged(original, entries[..n]), Held(entries[k]), Held(e), Held(entries[n]), e.contents, entries[n].contents);
    }
  }

  ghost predicate Kept(files: Files, original: Files) {
    forall p :: p in original ==> p in files && files[p] == original[p]
  }

  /** The entries of the first `n` files of a bundle, `published` of them under their final names. */
  function Staged(bundle: seq<RenderedFile>, env: Env, n: nat, published: nat): (entries: seq<Entry>)
    requires n <= |bundle|
    ensures |entries| == n
  {
    seq(n, i requires 0 <= i < n =>
          Entry(DirectoryOf(bundle[i].name), env.temporary(i), bundle[i].name, i < published, bundle[i].contents))
  }

  /** The original files and the whole bundle: every target new, no two the same, and nothing more. */
  ghost predicate Installed(files: Files, original: Files, bundle: seq<RenderedFile>) {
    && Kept(files, original)
    && (forall i :: 0 <= i < |bundle| ==> TargetOf(bundle[i]) !in original)
    && (forall i, j :: 0 <= i < j < |bundle| ==> TargetOf(bundle[i]) != TargetOf(bundle[j]))
    && (forall i :: 0 <= i < |bundle| ==>
          TargetOf(bundle[i]) in files && files[TargetOf(bundle[i])] == bundle[i].contents)
    && (forall p :: p in files ==> p in original || exists i :: 0 <= i < |bundle| && TargetOf(bundle[i]) == p)
  }

  lemma {:induction false} HeldApart(original: Files, entries: seq<Entry>, i: nat, j: nat)
    requires Disjoint(original, entries) && i < j < |entries|
    ensures Held(entries[i]) != Held(entries[j])
    decreases |entries|
  {
    var n := |entries| - 1;
    if j < n {
      HeldApart(original, entries[..n], i, j);
    } else {
      MergedHas(original, entries[..n], i);
    }
  }

  lemma AllPublished(original: Files, bundle: seq<RenderedFile>, env: Env)
    requires Disjoint(original, Staged(bundle, env, |bundle|, |bundle|))
    ensures Installed(Merged(original, Staged(bundle, env, |bundle|, |bundle|)), original, bundle)
  {
    var entries := Staged(bundle, env, |bundle|, |bundle|);
    var files := Merged(original, entries);
    MergedKeeps(original, entries);
    forall i | 0 <= i < |bundle|
      ensures var p := TargetOf(bundle[i]); p !in original && p in files && files[p] == bundle[i].contents
    {
      MergedHas(original, entries, i);
    }
    forall i, j | 0 <= i < j < |bundle| ensures TargetOf(bundle[i]) != TargetOf(bundle[j]) {
      HeldApart(original, entries, i, j);
    }
    forall p | p in files && p !in original ensures exists i :: 0 <= i < |bundle| && TargetOf(bundle[i]) == p {
      var i := MergedFrom(original, entries, p);
      assert TargetOf(bundle[i]) == p;
    }
  }

  /** What lets an installation through. */
  ghost predicate Clear(files: Files, bundle: seq<RenderedFile>, env: Env) {
    && (forall op :: !env.fails(op))
    && (forall i :: 0 <= i < |bundle| ==> TargetOf(bundle[i]) !in files)
    && (forall i, j :: 0 <= i < j < |bundle| ==> TargetOf(bundle[i]) != TargetOf(bundle[j]))
    && (forall i, d: nat :: 0 <= i < |bundle| ==> Place(d, env.temporary(i)) !in files)
    && (forall i, j :: 0 <= i < j < |bundle| ==> env.temporary(i) != env.temporary(j))
    && (forall i, j :: 0 <= i < |bundle| && 0 <= j < |bundle| ==> env.temporary(i) != bundle[j].name)
  }

  lemma PublishedNext(bundle: seq<RenderedFile>, env: Env, i: nat)
    requires i < |bundle|
    ensures var staged := Staged(bundle, env, |bundle|, i);
            && Held(staged[i].(published := true)) == TargetOf(bundle[i]) && !staged[i].published
            && staged[i := staged[i].(published := true)] == Staged(bundle, env, |bundle|, i + 1)
  {
  }

  lemma TargetFree(original: Files, bundle: seq<RenderedFile>, env: Env, i: nat)
    requires Clear(original, bundle, env) && i < |bundle|
    ensures TargetOf(bundle[i]) !in Merged(original, Staged(bundle, env, |bundle|, i)) && !env.fails(Publish(i))
  {
    var p := TargetOf(bundle[i]);
    if p in Merged(original, Staged(bundle, env, |bundle|, i)) {
      var j := MergedFrom(original, Staged(bundle, env, |bundle|, i), p);
      assert false;
    }
  }

  lemma StagingFree(original: Files, bundle: seq<RenderedFile>, env: Env, n: nat, p: Place)
    requires Clear(original, bundle, env) && n < |bundle|
    requires p == TargetOf(bundle[n]) || p == Place(DirectoryOf(bundle[n].name), env.temporary(n))
    ensures p !in Merged(original, Staged(bundle, env, n, 0))
  {
    if p in Merged(original, Staged(bundle, env, n, 0)) {
      var j := MergedFrom(original, Staged(bundle, env, n, 0), p);
      assert false;
    }
  }

  class Transaction {
    var files: Files
    var entries: seq<Entry>
    var finished: bool

    constructor (present: Files)
      ensures files == present && entries == [] && !finished
    {
      files, entries, finished := present, [], false;
    }

    method Stage(index: nat, f: RenderedFile, env: Env, ghost original: Files) returns (ok: bool)
      requires files == Merged(original, entries) && Disjoint(original, entries) && !finished
      modifies this
      ensures files == Merged(original, entries) && Disjoint(original, entries) && !finished
      ensures ok ==>
                entries == old(entries) + [Entry(DirectoryOf(f.name), env.temporary(index), f.name, false, f.contents)]
      ensures ok <==> !env.fails(Open(index)) && !env.fails(Write(index))
                      && Place(DirectoryOf(f.name), env.temporary(index)) !in old(files)
    {
      var place := Place(DirectoryOf(f.name), env.temporary(index));
      if env.fails(Open(index)) || place in files {
        return false;
      }
      ok := !env.fails(Write(index));
      var contents := if ok then f.contents else env.partial(index);
      var e := Entry(place.directory, place.name, f.name, false, contents);
      AppendEntry(original, entries, e);
      files := files[place := contents];
      entries := entries + [e];
    }

    /** One rename of `publish`. */
    method PublishOne(i: nat, env: Env, ghost original: Files) returns (ok: bool)
      requires files == Merged(original, entries) && Disjoint(original, entries) && i < |entries| && !entries[i].published
      modifies this`files, this`entries
      ensures files == Merged(original, entries) && Disjoint(original, entries)
      ensures ok <==> !env.fails(Publish(i)) && Held(old(entries[i]).(published := true)) !in old(files)
      ensures entries == if ok then old(entries)[i := old(entries[i]).(published := true)] else old(entries)
    {
      var e := entries[i];
      MergedHas(original, entries, i);
      var target := Place(e.directory, e.target);
      if env.fails(Publish(i)) || target in files {
        return false;
      }
      MoveEntry(original, entries, i, e.(published := true));
      files := (files - {Held(e)})[target := files[Held(e)]];
      entries := entries[i := e.(published := true)];
      ok := true;
    }

    /** The renames of `publish`. */
    method PublishEach(env: Env, ghost original: Files, ghost bundle: seq<RenderedFile>) returns (ok: bool)
      requires entries == Staged(bundle, env, |bundle|, 0)
      requires files == Merged(original, entries) && Disjoint(original, entries)
      modifies this`files, this`entries
      ensures files == Merged(original, entries) && Disjoint(original, entries)
      ensures ok ==> entries == Staged(bundle, env, |bundle|, |bundle|)
      ensures Clear(original, bundle, env) ==> ok
    {
      for i := 0 to |entries|
        invariant entries == Staged(bundle, env, |bundle|, i)
        invariant files == Merged(original, entries) && Disjoint(original, entries)
      {
        if Clear(original, bundle, env) { TargetFree(original, bundle, env, i); }
        PublishedNext(bundle, env, i);
        ok := PublishOne(i, env, original);
        if !ok {
          return;
        }
      }
      ok := true;
    }

    /** `publish`. */
    method PublishAll(env: Env, ghost original: Files, ghost bundle: seq<RenderedFile>) returns (ok: bool)
      requires entries == Staged(bundle, env, |bundle|, 0) && !finished
      requires files == Merged(original, entries) && Disjoint(original, entries)
      modifies this
      ensures files == Merged(original, entries) && Disjoint(original, entries) && (finished <==> ok)
      ensures ok ==> Installed(files, original, bundle)
      ensures Clear(original, bundle, env) ==> ok
    {
      ok := PublishEach(env, original, bundle);
      if ok {
        AllPublished(original, bundle, env);
        ok := !env.fails(Sync(0)) && !env.fails(Sync(1));
        finished := ok;
      }
    }

    /** The drop of a transaction: newest first, whatever name each file has by now. */
    method Drop(env: Env, ghost original: Files)
      requires files == Merged(original, entries) && Disjoint(original, entries)
      modifies this`files
      ensures finished ==> files == old(files)
      ensures Kept(files, original)
      ensures !finished && UnlinksWork(env) ==> files == original
    {
      MergedKeeps(original, entries);
      if finished {
        return;
      }
      var n := |entries|;
      assert entries[..n] == entries;
      while n > 0
        invariant 0 <= n <= |entries| && Kept(files, original)
        invariant UnlinksWork(env) ==>
                    files == Merged(original, entries[..n]) && Disjoint(original, entries[..n])
      {
        n := n - 1;
        if !env.fails(Unlink(n)) {
          MergedHas(original, entries, n);
          if UnlinksWork(env) { RemoveLast(original, entries[..n + 1]); }
          assert entries[..n + 1][..n] == entries[..n];
          files := files - {Held(entries[n])};
        }
      }
    }
  }

  lemma RemoveLast(original: Files, entries: seq<Entry>)
    requires Disjoint(original, entries) && entries != []
    ensures var n := |entries| - 1;
            && Merged(original, entries) - {Held(entries[n])} == Merged(original, entries[..n])
            && Disjoint(original, entries[..n])
  {
  }

  /**
   `install_rendered_bundle`, with the drop of the transaction at its end. Names need not be distinct
   or harmless: whatever the bundle, either all of it is added beside what was there, or nothing is.
   */
  method InstallBundle(bundle: seq<RenderedFile>, present: Files, env: Env) returns (ok: bool, files: Files)
    ensures Kept(files, present)
    ensures ok ==> Installed(files, present, bundle)
    ensures !ok && UnlinksWork(env) ==> files == present
    ensures Clear(present, bundle, env) ==> ok
  {
    var t := new Transaction(present);
    ok := StageAll(t, bundle, env, present);
    if ok {
      ok := t.PublishAll(env, present, bundle);
    }
    t.Drop(env, present);
    files := t.files;
  }

  method StageAll(t: Transaction, bundle: seq<RenderedFile>, env: Env, ghost present: Files) returns (ok: bool)
    requires t.files == present && t.entries == [] && !t.finished
    modifies t
    ensures t.files == Merged(present, t.entries) && Disjoint(present, t.entries) && !t.finished
    ensures ok ==> t.entries == Staged(bundle, env, |bundle|, 0)
    ensures Clear(present, bundle, env) ==> ok
  {
    for i := 0 to |bundle|
      invariant t.files == Merged(present, t.entries) && Disjoint(present, t.entries) && !t.finished
      invariant t.entries == Staged(bundle, env, i, 0)
    {
      var staging := Place(DirectoryOf(bundle[i].name), env.temporary(i));
      if Clear(present, bundle, env) {
        StagingFree(present, bundle, env, i, TargetOf(bundle[i]));
        StagingFree(present, bundle, env, i, staging);
      }
      if env.fails(Inspect(i)) || TargetOf(bundle[i]) in t.files {
        return false;
      }
      ok := t.Stage(i, bundle[i], env, present);
      if !ok {
        return;
      }
    }
    ok := true;
  }
}
