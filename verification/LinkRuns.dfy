/** Link counts over whole runs, and what a new entry in an unlinked directory does to
    them. */
module LinkRuns {
  import opened LinkCount

  // New entries in directories that are no longer linked.

  /** create: an inode whose count is one although no linked directory names it. */
  lemma CreateMiscounts(fs: Fs, d: int, name: string, i: int)
    requires DirsOk(fs) && i !in fs && i != 0 && IsDir(fs, d) && !LinkedDir(fs, d) && Create(fs, d, name, i).Done?
    ensures !Counted(Create(fs, d, name, i).fs)
  {
    hide Refs, WithEntry, Lookup;
    var fs' := Create(fs, d, name, i).fs;
    forall r
      ensures !Names(fs', r, i)
    {
      assert r.d != d && r.d != i && LinkedDir(fs', r.d) ==> fs'[r.d] == fs[r.d] && DirOk(fs, r.d);
    }
    NoRefs(fs', i);
    assert i in fs' && fs'[i].nlink == 1;
  }

  /** link: a count that grows although no linked directory gains an entry. */
  lemma LinkMiscounts(fs: Fs, i: int, d: int, name: string)
    requires Counted(fs) && i in fs && IsDir(fs, d) && !LinkedDir(fs, d) && Link(fs, i, d, name).Done?
    ensures !Counted(Link(fs, i, d, name).fs)
  {
    hide Refs, WithEntry, Lookup;
    var fs' := Link(fs, i, d, name).fs;
    forall r
      ensures Names(fs', r, i) <==> Names(fs, r, i)
    {
      assert r.d != d ==> (LinkedDir(fs', r.d) <==> LinkedDir(fs, r.d));
    }
    SameRefs(fs, fs', i);
    assert i in fs' && fs'[i].nlink == fs[i].nlink + 1;
  }

  /** mkdir: the new directory's ".." gives the unlinked directory a link again, so it
      counts as linked, but no entry leads down to it. */
  lemma MkdirBreaksTree(fs: Fs, d: int, name: string, i: int)
    requires Inv(fs) && i !in fs && i != 0 && IsDir(fs, d) && !LinkedDir(fs, d) && Mkdir(fs, d, name, i).Done?
    ensures !Inv(Mkdir(fs, d, name, i).fs)
  {
    hide Counted, BareOk, WithEntry, Lookup, Refs;
    var fs' := Mkdir(fs, d, name, i).fs;
    UnlinkedHasNoNames(fs, d);
    assert fs'[d].nlink == 1 && fs'[i].entries == [Entry(i, "."), Entry(d, "..")];
    if DirsOk(fs') && TreeOk(fs') {
      assert LinkedDir(fs', d) && d != ROOT;
      var h := TreeHome(fs', d);
      if h.d == d {
        OwnEntry(fs, fs', d, name, i, h.k);
      }
    }
  }

  lemma UnlinkedHasNoNames(fs: Fs, d: int)
    requires Counted(fs) && d in fs && fs[d].nlink <= 0
    ensures fs[d].nlink == 0 && forall r :: !Names(fs, r, d)
  {
    hide Names, Refs;
    forall r
      ensures !Names(fs, r, d)
    {
      RefsIs(fs, d, r);
    }
  }

  /** In a sound directory that was bare before, no entry beyond the first two names the
      directory itself. */
  lemma OwnEntry(fs: Fs, fs': Fs, d: int, name: string, i: int, k: int)
    requires BareOk(fs) && IsDir(fs, d) && !LinkedDir(fs, d) && i != d && d != 0
    requires DirsOk(fs') && LinkedDir(fs', d) && fs'[d].entries == WithEntry(fs[d].entries, Entry(i, name))
    requires 2 <= k < |fs'[d].entries|
    ensures fs'[d].entries[k].inum != d
  {
    hide WithEntry, DirsOk;
    WithEntryAt(fs[d].entries, Entry(i, name));
    if fs'[d].entries[k].inum == d {
      EntryFacts(fs', d, k);
    }
  }

  /** create, link and mkdir keep the invariant if and only if the directory that gets
      the new entry is still linked; create and link break the counts themselves. */
  lemma CreateCountsIff(fs: Fs, d: int, name: string, i: int)
    requires Inv(fs) && i !in fs && i != 0 && IsDir(fs, d) && Create(fs, d, name, i).Done?
    ensures Counted(Create(fs, d, name, i).fs) <==> LinkedDir(fs, d)
    ensures Inv(Create(fs, d, name, i).fs) <==> LinkedDir(fs, d)
  {
    hide Counted, TreeOk, DirsOk, BareOk, Create, Refs;
    if LinkedDir(fs, d) {
      CreateKeepsInv(fs, d, name, i);
    } else {
      CreateMiscounts(fs, d, name, i);
    }
  }

  lemma LinkCountsIff(fs: Fs, i: int, d: int, name: string)
    requires Inv(fs) && i in fs && IsDir(fs, d) && Link(fs, i, d, name).Done?
    ensures Counted(Link(fs, i, d, name).fs) <==> LinkedDir(fs, d)
    ensures Inv(Link(fs, i, d, name).fs) <==> LinkedDir(fs, d)
  {
    hide Counted, TreeOk, DirsOk, BareOk, Link, Refs;
    if LinkedDir(fs, d) {
      LinkKeepsInv(fs, i, d, name);
    } else {
      LinkMiscounts(fs, i, d, name);
    }
  }

  lemma MkdirSoundIff(fs: Fs, d: int, name: string, i: int)
    requires Inv(fs) && i !in fs && i != 0 && IsDir(fs, d) && Mkdir(fs, d, name, i).Done?
    ensures Inv(Mkdir(fs, d, name, i).fs) <==> LinkedDir(fs, d)
  {
    hide Inv, Mkdir;
    if LinkedDir(fs, d) {
      MkdirKeepsInv(fs, d, name, i);
    } else {
      MkdirBreaksTree(fs, d, name, i);
    }
  }

  // Whole runs.

  datatype Call =
    | LinkCall(i: int, d: int, name: string)
    | UnlinkCall(d: int, name: string)
    | CreateCall(d: int, name: string, i: int)
    | MkdirCall(d: int, name: string, i: int)
    | IputCall(i: int)

  predicate Enabled(fs: Fs, t: Call) {
    match t
    case LinkCall(i, d, _) => i in fs && IsDir(fs, d)
    case UnlinkCall(d, _) => IsDir(fs, d)
    case CreateCall(d, _, i) => IsDir(fs, d) && i !in fs && i != 0
    case MkdirCall(d, _, i) => IsDir(fs, d) && i !in fs && i != 0
    case IputCall(i) => i in fs
  }

  function After(fs: Fs, r: Result): Fs {
    if r.Done? then r.fs else fs
  }

  function Apply(fs: Fs, t: Call): Fs
    requires Enabled(fs, t)
  {
    match t
    case LinkCall(i, d, name) => After(fs, Link(fs, i, d, name))
    case UnlinkCall(d, name) => After(fs, Unlink(fs, d, name))
    case CreateCall(d, name, i) => After(fs, Create(fs, d, name, i))
    case MkdirCall(d, name, i) => After(fs, Mkdir(fs, d, name, i))
    case IputCall(i) => Iput(fs, i)
  }

  ghost predicate Run(fs: Fs, calls: seq<Call>, fs': Fs)
    decreases |calls|
  {
    if calls == [] then fs == fs'
    else Enabled(fs, calls[0]) && Run(Apply(fs, calls[0]), calls[1..], fs')
  }

  /** A call that makes no entry in an unlinked directory. */
  predicate Proper(fs: Fs, t: Call)
    requires Enabled(fs, t)
  {
    match t
    case LinkCall(i, d, name) => Link(fs, i, d, name).Done? ==> LinkedDir(fs, d)
    case CreateCall(d, name, i) => Create(fs, d, name, i).Done? ==> LinkedDir(fs, d)
    case MkdirCall(d, name, i) => Mkdir(fs, d, name, i).Done? ==> LinkedDir(fs, d)
    case _ => true
  }

  /** A call keeps the invariant if and only if it makes no entry in an unlinked
      directory. */
  lemma CallSoundIff(fs: Fs, t: Call)
    requires Inv(fs) && Enabled(fs, t)
    ensures Inv(Apply(fs, t)) <==> Proper(fs, t)
  {
    hide Inv, Link, Unlink, Create, Mkdir, Iput, LinkedDir;
    match t
    case LinkCall(i, d, name) =>
      if Link(fs, i, d, name).Done? {
        LinkCountsIff(fs, i, d, name);
      }
    case UnlinkCall(d, name) =>
      if Unlink(fs, d, name).Done? {
        UnlinkKeepsInv(fs, d, name);
      }
    case CreateCall(d, name, i) =>
      if Create(fs, d, name, i).Done? {
        CreateCountsIff(fs, d, name, i);
      }
    case MkdirCall(d, name, i) =>
      if Mkdir(fs, d, name, i).Done? {
        MkdirSoundIff(fs, d, name, i);
      }
    case IputCall(i) => IputKeepsInv(fs, i);
  }

  /** Every call of the run is proper. */
  ghost predicate AllProper(fs: Fs, calls: seq<Call>)
    decreases |calls|
  {
    calls == [] || (Enabled(fs, calls[0]) && Proper(fs, calls[0]) && AllProper(Apply(fs, calls[0]), calls[1..]))
  }

  /** Every state of the run is sound. */
  ghost predicate AllSound(fs: Fs, calls: seq<Call>)
    decreases |calls|
  {
    Inv(fs) && (calls == [] || (Enabled(fs, calls[0]) && AllSound(Apply(fs, calls[0]), calls[1..])))
  }

  lemma {:induction false} RunSoundIff(fs: Fs, calls: seq<Call>, fs': Fs)
    requires Inv(fs) && Run(fs, calls, fs')
    ensures AllSound(fs, calls) <==> AllProper(fs, calls)
    ensures AllProper(fs, calls) ==> Inv(fs')
    decreases |calls|
  {
    hide Inv, Enabled, Apply, Proper;
    if calls != [] {
      CallSoundIff(fs, calls[0]);
      var next := Apply(fs, calls[0]);
      if Inv(next) {
        RunSoundIff(next, calls[1..], fs');
      } else {
        NotSound(next, calls[1..]);
      }
    }
  }

  lemma NotSound(fs: Fs, calls: seq<Call>)
    requires !Inv(fs)
    ensures !AllSound(fs, calls)
  {
    hide Inv;
  }

  /** Throughout a run counts, names and tree are sound if and only if no call makes an
      entry in a directory that has been unlinked. In that case, after the run, every
      link count is the number of entries other than "." that name the inode in linked
      directories, and names within a linked directory are unique. */
  lemma LinksAreCounted(calls: seq<Call>, fs: Fs)
    requires Run(Fresh(), calls, fs)
    ensures AllSound(Fresh(), calls) <==> AllProper(Fresh(), calls)
    ensures AllProper(Fresh(), calls) ==>
              && (forall i :: i in fs ==> fs[i].nlink == |Refs(fs, i)|)
              && (forall d :: LinkedDir(fs, d) ==> UniqueNames(fs[d].entries))
  {
    hide Fresh, Run, Refs, TreeOk, BareOk, UniqueNames, AllProper, AllSound;
    FreshInv();
    RunSoundIff(Fresh(), calls, fs);
    if AllProper(Fresh(), calls) {
      forall d | LinkedDir(fs, d)
        ensures UniqueNames(fs[d].entries)
      {
        assert DirOk(fs, d);
      }
    }
  }

  /** It happens: make a directory, remove it while a process still stands in it, and
      create a file there. */
  lemma MiscountReachable() returns (calls: seq<Call>, fs: Fs)
    ensures Run(Fresh(), calls, fs) && !AllProper(Fresh(), calls)
    ensures exists i :: i in fs && fs[i].nlink != |Refs(fs, i)|
  {
    hide Refs;
    var dots := [Entry(ROOT, "."), Entry(ROOT, "..")];
    var c1, c2, c3 := MkdirCall(ROOT, "a", 2), UnlinkCall(ROOT, "a"), CreateCall(2, "f", 3);
    var f0 := Fresh();
    assert Lookup(dots, "a", 0) == 2 && FreeSlot(dots, 0) == 2;
    var f1 := Apply(f0, c1);
    assert f1[ROOT] == Inode(Dir, 2, dots + [Entry(2, "a")]);
    assert f1[2] == Inode(Dir, 1, [Entry(2, "."), Entry(ROOT, "..")]);
    assert Lookup(dots + [Entry(2, "a")], "a", 2) == 2;
    assert Lookup(dots + [Entry(2, "a")], "a", 0) == 2;
    var f2 := Apply(f1, c2);
    assert f2[2] == Inode(Dir, 0, [Entry(2, "."), Entry(ROOT, "..")]) && 3 !in f2;
    assert Lookup(f2[2].entries, "f", 0) == 2;
    fs := Apply(f2, c3);
    FreshInv();
    CallSoundIff(f0, c1);
    CallSoundIff(f1, c2);
    CreateMiscounts(f2, 2, "f", 3);
    calls := [c1, c2, c3];
    assert Run(f2, [c3], fs);
    assert [c2, c3][1..] == [c3] && calls[1..] == [c2, c3];
    assert Run(f1, [c2, c3], fs);
    assert !AllProper(f2, [c3]) && !AllProper(f1, [c2, c3]);
  }
}
