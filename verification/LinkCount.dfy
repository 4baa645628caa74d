/** Directories and link counts: link, unlink, mkdir, create and the freeing of an
    inode, each as one whole call (sysfile.c over dirlookup and dirlink). */
module LinkCount {

  const ROOT := 1

  datatype Kind = File | Dir

  /** inum 0 is a free slot. */
  datatype Entry = Entry(inum: int, name: string)

  /** A directory's first two entries are "." and "..". */
  datatype Inode = Inode(kind: Kind, nlink: int, entries: seq<Entry>)

  type Fs = map<int, Inode>

  /** Slot k of directory d. */
  datatype Ref = Ref(d: int, k: int)

  datatype Result = Failed | Done(fs: Fs)

  predicate IsDir(fs: Fs, d: int) {
    d in fs && fs[d].kind == Dir
  }

  /** A directory that some entry still names. */
  predicate LinkedDir(fs: Fs, d: int) {
    IsDir(fs, d) && fs[d].nlink > 0
  }

  predicate InUse(e: Entry, name: string) {
    e.inum != 0 && e.name == name
  }

  // dirlookup and dirlink.

  /** The slot of a name, from slot k on; the length if there is none. */
  function Lookup(es: seq<Entry>, name: string, k: nat): (r: nat)
    requires k <= |es|
    ensures k <= r <= |es| && (r < |es| ==> InUse(es[r], name)) && forall j :: k <= j < r ==> !InUse(es[j], name)
    decreases |es| - k
  {
    if k == |es| || InUse(es[k], name) then k else Lookup(es, name, k + 1)
  }

  function FreeSlot(es: seq<Entry>, k: nat): (r: nat)
    requires k <= |es|
    ensures k <= r <= |es| && (r < |es| ==> es[r].inum == 0) && forall j :: k <= j < r ==> es[j].inum != 0
    decreases |es| - k
  {
    if k == |es| || es[k].inum == 0 then k else FreeSlot(es, k + 1)
  }

  function WithEntry(es: seq<Entry>, e: Entry): seq<Entry> {
    var k := FreeSlot(es, 0);
    if k < |es| then es[k := e] else es + [e]
  }

  predicate Present(fs: Fs, d: int, name: string)
    requires d in fs
  {
    Lookup(fs[d].entries, name, 0) < |fs[d].entries|
  }

  function Dirlink(fs: Fs, d: int, name: string, i: int): Fs
    requires d in fs
  {
    fs[d := fs[d].(entries := WithEntry(fs[d].entries, Entry(i, name)))]
  }

  function AddLink(fs: Fs, i: int, n: int): Fs
    requires i in fs
  {
    fs[i := fs[i].(nlink := fs[i].nlink + n)]
  }

  // The calls.

  /** sys_link: i is the old file, d the new name's directory. */
  function Link(fs: Fs, i: int, d: int, name: string): Result
    requires i in fs && IsDir(fs, d)
  {
    if fs[i].kind == Dir || Present(fs, d, name) then Failed
    else Done(Dirlink(AddLink(fs, i, 1), d, name, i))
  }

  predicate IsEmpty(es: seq<Entry>) {
    forall k :: 2 <= k < |es| ==> es[k].inum == 0
  }

  /** sys_unlink. */
  function Unlink(fs: Fs, d: int, name: string): Result
    requires IsDir(fs, d)
  {
    if name == "." || name == ".." || !Present(fs, d, name) then Failed
    else
      var k := Lookup(fs[d].entries, name, 0);
      var i := fs[d].entries[k].inum;
      if i !in fs || (fs[i].kind == Dir && !IsEmpty(fs[i].entries)) then Failed
      else
        var fs1 := fs[d := fs[d].(entries := fs[d].entries[k := Entry(0, "")])];
        var fs2 := if fs[i].kind == Dir then AddLink(fs1, d, -1) else fs1;
        Done(AddLink(fs2, i, -1))
  }

  /** create of a file, with the inode number that ialloc chose. */
  function Create(fs: Fs, d: int, name: string, i: int): Result
    requires IsDir(fs, d) && i !in fs
  {
    if Present(fs, d, name) then Failed
    else Done(Dirlink(fs[i := Inode(File, 1, [])], d, name, i))
  }

  /** create of a directory. */
  function Mkdir(fs: Fs, d: int, name: string, i: int): Result
    requires IsDir(fs, d) && i !in fs
  {
    if Present(fs, d, name) then Failed
    else
      var fs1 := AddLink(fs[i := Inode(Dir, 1, [Entry(i, "."), Entry(d, "..")])], d, 1);
      Done(Dirlink(fs1, d, name, i))
  }

  /** iput of the last reference to an inode: freed when its link count is 0. */
  function Iput(fs: Fs, i: int): Fs
    requires i in fs
  {
    if fs[i].nlink == 0 then fs - {i} else fs
  }

  // What the counts mean.

  predicate Names(fs: Fs, r: Ref, i: int) {
    && LinkedDir(fs, r.d) && 0 <= r.k < |fs[r.d].entries|
    && fs[r.d].entries[r.k].inum == i && fs[r.d].entries[r.k].name != "."
  }

  /** The entries other than "." that name i in linked directories. */
  ghost function Refs(fs: Fs, i: int): set<Ref> {
    set d, k | d in fs && 0 <= k < |fs[d].entries| && Names(fs, Ref(d, k), i) :: Ref(d, k)
  }

  lemma RefsIs(fs: Fs, i: int, r: Ref)
    ensures r in Refs(fs, i) <==> Names(fs, r, i)
  {
    assert r == Ref(r.d, r.k);
  }

  ghost predicate Counted(fs: Fs) {
    forall i :: i in fs ==> fs[i].nlink == |Refs(fs, i)|
  }

  ghost predicate UniqueNames(es: seq<Entry>) {
    forall j, k :: 0 <= j < k < |es| && es[j].inum != 0 && es[k].inum != 0 ==> es[j].name != es[k].name
  }

  function Parent(fs: Fs, d: int): int
    requires d in fs
  {
    if |fs[d].entries| > 1 then fs[d].entries[1].inum else 0
  }

  /** A linked directory starts with "." and ".."; its parent is linked; its names are
      unique and lead to inodes. */
  ghost predicate DirOk(fs: Fs, d: int)
    requires d in fs
  {
    var es := fs[d].entries;
    && |es| >= 2 && es[0] == Entry(d, ".") && es[1].name == ".." && LinkedDir(fs, es[1].inum)
    && UniqueNames(es)
    && (forall k :: 0 <= k < |es| && es[k].inum != 0 ==> es[k].inum in fs)
  }

  ghost predicate DirsOk(fs: Fs) {
    && LinkedDir(fs, ROOT) && Parent(fs, ROOT) == ROOT && 0 !in fs
    && forall d {:trigger DirOk(fs, d)} :: LinkedDir(fs, d) ==> DirOk(fs, d)
  }

  ghost predicate HasHome(fs: Fs, c: int) {
    exists r: Ref :: r.k >= 2 && Names(fs, r, c)
  }

  /** An entry beyond the first two that names a directory: that directory's ".."
      leads back, and no other such entry names it. */
  ghost predicate TreeOk(fs: Fs) {
    && (forall r: Ref, c: int :: r.k >= 2 && Names(fs, r, c) && IsDir(fs, c) ==> LinkedDir(fs, c) && Parent(fs, c) == r.d && c != ROOT)
    && (forall r: Ref, q: Ref, c: int :: r.k >= 2 && q.k >= 2 && Names(fs, r, c) && Names(fs, q, c) && IsDir(fs, c) ==> r == q)
    && (forall c {:trigger HasHome(fs, c)} :: LinkedDir(fs, c) && c != ROOT ==> HasHome(fs, c))
  }

  /** A directory that is no longer linked holds "." and ".." at most. */
  ghost predicate BareOk(fs: Fs) {
    forall d :: IsDir(fs, d) && !LinkedDir(fs, d) ==>
      forall k :: 0 <= k < |fs[d].entries| && fs[d].entries[k].inum != 0 ==>
        fs[d].entries[k].name == "." || fs[d].entries[k].name == ".."
  }

  ghost predicate Inv(fs: Fs) {
    Counted(fs) && DirsOk(fs) && TreeOk(fs) && BareOk(fs)
  }

  // Counting.

  lemma SameRefs(fs: Fs, fs': Fs, i: int)
    requires forall r :: Names(fs', r, i) <==> Names(fs, r, i)
    ensures |Refs(fs', i)| == |Refs(fs, i)|
  {
    hide Names, Refs;
    forall r
      ensures r in Refs(fs', i) <==> r in Refs(fs, i)
    {
      RefsIs(fs, i, r);
      RefsIs(fs', i, r);
    }
    assert Refs(fs', i) == Refs(fs, i);
  }

  lemma OneMore(fs: Fs, fs': Fs, i: int, r0: Ref)
    requires !Names(fs, r0, i) && forall r :: Names(fs', r, i) <==> Names(fs, r, i) || r == r0
    ensures |Refs(fs', i)| == |Refs(fs, i)| + 1
  {
    hide Names, Refs;
    forall r
      ensures r in Refs(fs', i) <==> r in Refs(fs, i) || r == r0
    {
      RefsIs(fs, i, r);
      RefsIs(fs', i, r);
    }
    RefsIs(fs, i, r0);
    assert Refs(fs', i) == Refs(fs, i) + {r0};
  }

  lemma NoRefs(fs: Fs, i: int)
    requires forall r :: !Names(fs, r, i)
    ensures |Refs(fs, i)| == 0
  {
    hide Names, Refs;
    forall r
      ensures r !in Refs(fs, i)
    {
      RefsIs(fs, i, r);
    }
    assert Refs(fs, i) == {};
  }

  /** The slot that dirlink fills. */
  function SlotFor(fs: Fs, d: int): Ref
    requires d in fs
  {
    Ref(d, FreeSlot(fs[d].entries, 0))
  }

  lemma WithEntryAt(es: seq<Entry>, e: Entry)
    ensures var k := FreeSlot(es, 0);
            && |WithEntry(es, e)| == (if k < |es| then |es| else |es| + 1) && WithEntry(es, e)[k] == e
            && (forall j :: 0 <= j < |es| && j != k ==> WithEntry(es, e)[j] == es[j])
            && (k < |es| ==> es[k].inum == 0)
  {
  }

  /** A new entry in a linked directory, and nothing else new: the names are the old
      ones and that entry. */
  lemma NewEntry(fs: Fs, fs': Fs, d: int, name: string, i: int, r: Ref, c: int)
    requires LinkedDir(fs, d) && name != "." && i != 0 && c != 0
    requires d in fs' && fs'[d].entries == WithEntry(fs[d].entries, Entry(i, name))
    requires forall x :: x != d && LinkedDir(fs, x) ==> x in fs' && fs'[x].entries == fs[x].entries
    requires forall x :: LinkedDir(fs', x) <==> LinkedDir(fs, x)
    ensures Names(fs', r, c) <==> Names(fs, r, c) || (r == SlotFor(fs, d) && c == i)
  {
    WithEntryAt(fs[d].entries, Entry(i, name));
    assert r == Ref(r.d, r.k);
  }

  lemma DirHasDots(fs: Fs, d: int)
    requires DirsOk(fs) && LinkedDir(fs, d)
    ensures |fs[d].entries| >= 2 && Present(fs, d, ".") && Present(fs, d, "..") && SlotFor(fs, d).k >= 2 && d != 0
  {
    assert DirOk(fs, d);
    var es := fs[d].entries;
    assert InUse(es[0], ".") && InUse(es[1], "..");
    assert es[0].inum != 0 && es[1].inum != 0;
  }

  lemma DirFacts(fs: Fs, d: int)
    requires DirsOk(fs) && LinkedDir(fs, d)
    ensures |fs[d].entries| >= 2 && fs[d].entries[0] == Entry(d, ".") && fs[d].entries[1].name == ".."
    ensures Parent(fs, d) == fs[d].entries[1].inum && LinkedDir(fs, Parent(fs, d)) && d != 0 && 0 !in fs
    ensures Parent(fs, ROOT) == ROOT && LinkedDir(fs, ROOT)
  {
    assert DirOk(fs, d);
  }

  lemma EntryFacts(fs: Fs, d: int, k: int)
    requires DirsOk(fs) && LinkedDir(fs, d) && 0 <= k < |fs[d].entries| && fs[d].entries[k].inum != 0
    ensures fs[d].entries[k].inum in fs
    ensures k >= 2 ==> fs[d].entries[k].name != "." && fs[d].entries[k].name != ".."
  {
    assert DirOk(fs, d);
    assert fs[d].entries[0].inum != 0 && fs[d].entries[1].inum != 0;
  }

  lemma TreeDown(fs: Fs, r: Ref, c: int)
    requires TreeOk(fs) && r.k >= 2 && Names(fs, r, c) && IsDir(fs, c)
    ensures LinkedDir(fs, c) && Parent(fs, c) == r.d && c != ROOT
  {
  }

  lemma TreeUnique(fs: Fs, r: Ref, q: Ref, c: int)
    requires TreeOk(fs) && r.k >= 2 && q.k >= 2 && Names(fs, r, c) && Names(fs, q, c) && IsDir(fs, c)
    ensures r == q
  {
  }

  lemma TreeHome(fs: Fs, c: int) returns (h: Ref)
    requires TreeOk(fs) && LinkedDir(fs, c) && c != ROOT
    ensures h.k >= 2 && Names(fs, h, c) && Parent(fs, c) == h.d
  {
    assert HasHome(fs, c);
    h :| h.k >= 2 && Names(fs, h, c);
    TreeDown(fs, h, c);
  }

  lemma NewDirOk(fs: Fs, fs': Fs, d: int, name: string, i: int)
    requires DirsOk(fs) && LinkedDir(fs, d) && !Present(fs, d, name) && i in fs'
    requires d in fs' && fs'[d].entries == WithEntry(fs[d].entries, Entry(i, name))
    requires forall x :: x in fs ==> x in fs'
    requires forall x :: LinkedDir(fs, x) ==> LinkedDir(fs', x)
    ensures DirOk(fs', d) && |fs[d].entries| >= 2 && fs'[d].entries[..2] == fs[d].entries[..2]
  {
    DirHasDots(fs, d);
    assert DirOk(fs, d);
    WithEntryAt(fs[d].entries, Entry(i, name));
    var es := fs[d].entries;
    var es' := fs'[d].entries;
    forall j, k | 0 <= j < k < |es'| && es'[j].inum != 0 && es'[k].inum != 0
      ensures es'[j].name != es'[k].name
    {
      assert j < |es| && es[j].inum != 0 ==> !InUse(es[j], name);
      assert k < |es| && es[k].inum != 0 ==> !InUse(es[k], name);
    }
  }

  lemma OldDirOk(fs: Fs, fs': Fs, d: int)
    requires DirsOk(fs) && LinkedDir(fs, d) && d in fs' && fs'[d].entries == fs[d].entries
    requires forall x :: x in fs ==> x in fs'
    requires forall x :: LinkedDir(fs, x) ==> LinkedDir(fs', x)
    ensures DirOk(fs', d)
  {
    assert DirOk(fs, d);
  }

  /** The tree is as it was: directories are named by the entries that named them. */
  lemma SameTree(fs: Fs, fs': Fs, i: int, r0: Ref)
    requires TreeOk(fs) && DirsOk(fs) && !IsDir(fs', i)
    requires forall r, c :: c != 0 ==> (Names(fs', r, c) <==> Names(fs, r, c) || (r == r0 && c == i))
    requires forall c :: (IsDir(fs', c) <==> IsDir(fs, c)) && (LinkedDir(fs', c) <==> LinkedDir(fs, c))
    requires forall c :: LinkedDir(fs, c) ==> c in fs' && Parent(fs', c) == Parent(fs, c)
    requires 0 !in fs'
    ensures TreeOk(fs')
  {
    hide Names;
    forall r: Ref, c: int | r.k >= 2 && Names(fs', r, c) && IsDir(fs', c)
      ensures Names(fs, r, c)
    {
    }
    forall c | LinkedDir(fs', c) && c != ROOT
      ensures HasHome(fs', c)
    {
      assert HasHome(fs, c);
      var r: Ref :| r.k >= 2 && Names(fs, r, c);
      assert Names(fs', r, c);
    }
  }

  // link and create.

  /** fs' is fs with one more entry, in a linked directory, for the file i. */
  ghost predicate FileAdded(fs: Fs, fs': Fs, d: int, name: string, i: int) {
    && LinkedDir(fs, d) && !Present(fs, d, name) && i != 0 && i != d && (i in fs ==> fs[i].kind == File)
    && fs'.Keys == fs.Keys + {i} && fs'[i].kind == File && fs'[i].nlink == |Refs(fs, i)| + 1
    && fs'[d] == fs[d].(entries := WithEntry(fs[d].entries, Entry(i, name)))
    && forall c :: c in fs && c != i && c != d ==> fs'[c] == fs[c]
  }

  lemma AddedDirs(fs: Fs, fs': Fs, d: int, name: string, i: int)
    requires FileAdded(fs, fs', d, name, i)
    ensures forall c :: (IsDir(fs', c) <==> IsDir(fs, c)) && (LinkedDir(fs', c) <==> LinkedDir(fs, c))
    ensures forall c :: IsDir(fs, c) && c != d ==> fs'[c] == fs[c]
  {
  }

  lemma AddedNames(fs: Fs, fs': Fs, d: int, name: string, i: int)
    requires FileAdded(fs, fs', d, name, i) && DirsOk(fs)
    ensures forall r, c :: c != 0 ==> (Names(fs', r, c) <==> Names(fs, r, c) || (r == SlotFor(fs, d) && c == i))
    ensures !Names(fs, SlotFor(fs, d), i)
  {
    AddedDirs(fs, fs', d, name, i);
    DirHasDots(fs, d);
    forall r, c | c != 0
      ensures Names(fs', r, c) <==> Names(fs, r, c) || (r == SlotFor(fs, d) && c == i)
    {
      NewEntry(fs, fs', d, name, i, r, c);
    }
  }

  lemma AddedCounts(fs: Fs, fs': Fs, d: int, name: string, i: int)
    requires FileAdded(fs, fs', d, name, i) && Counted(fs) && DirsOk(fs)
    ensures Counted(fs')
  {
    hide Names, Refs, DirOk, TreeOk;
    AddedNames(fs, fs', d, name, i);
    forall c | c in fs'
      ensures fs'[c].nlink == |Refs(fs', c)|
    {
      if c == i {
        OneMore(fs, fs', c, SlotFor(fs, d));
      } else {
        SameRefs(fs, fs', c);
      }
    }
  }

  lemma AddedKeepsInv(fs: Fs, fs': Fs, d: int, name: string, i: int)
    requires FileAdded(fs, fs', d, name, i) && Inv(fs)
    ensures Inv(fs')
  {
    hide Names, Refs, DirOk, TreeOk, Counted, BareOk;
    AddedDirs(fs, fs', d, name, i);
    AddedNames(fs, fs', d, name, i);
    AddedCounts(fs, fs', d, name, i);
    NewDirOk(fs, fs', d, name, i);
    forall x | LinkedDir(fs', x)
      ensures DirOk(fs', x) && Parent(fs', x) == Parent(fs, x)
    {
      AddedParents(fs, fs', d, name, i, x);
    }
    SameTree(fs, fs', i, SlotFor(fs, d));
    AddedBare(fs, fs', d, name, i);
  }

  lemma AddedParents(fs: Fs, fs': Fs, d: int, name: string, i: int, x: int)
    requires FileAdded(fs, fs', d, name, i) && DirsOk(fs) && LinkedDir(fs, x) && DirOk(fs', d)
    requires |fs[d].entries| >= 2 && |fs'[d].entries| >= 2 && fs'[d].entries[..2] == fs[d].entries[..2]
    requires forall c :: LinkedDir(fs, c) ==> LinkedDir(fs', c)
    ensures DirOk(fs', x) && Parent(fs', x) == Parent(fs, x) && x in fs && x in fs'
  {
    if x != d {
      OldDirOk(fs, fs', x);
    } else {
      assert DirOk(fs, d);
      assert fs'[d].entries[1] == fs'[d].entries[..2][1] == fs[d].entries[..2][1];
    }
  }

  lemma AddedBare(fs: Fs, fs': Fs, d: int, name: string, i: int)
    requires FileAdded(fs, fs', d, name, i) && BareOk(fs)
    ensures BareOk(fs')
  {
    AddedDirs(fs, fs', d, name, i);
  }

  /** A free inode number has no names. */
  lemma FreshUnnamed(fs: Fs, i: int)
    requires DirsOk(fs) && i !in fs && i != 0
    ensures |Refs(fs, i)| == 0
  {
    forall r
      ensures !Names(fs, r, i)
    {
      assert LinkedDir(fs, r.d) ==> DirOk(fs, r.d);
    }
    NoRefs(fs, i);
  }

  lemma LinkAdds(fs: Fs, i: int, d: int, name: string)
    requires Counted(fs) && 0 !in fs && i in fs && LinkedDir(fs, d) && Link(fs, i, d, name).Done?
    ensures FileAdded(fs, Link(fs, i, d, name).fs, d, name, i)
  {
    hide Refs, Lookup, WithEntry;
  }

  lemma LinkKeepsInv(fs: Fs, i: int, d: int, name: string)
    requires Inv(fs) && i in fs && LinkedDir(fs, d) && Link(fs, i, d, name).Done?
    ensures Inv(Link(fs, i, d, name).fs)
  {
    hide Refs, Counted, TreeOk, DirOk, BareOk, FileAdded, Link;
    LinkAdds(fs, i, d, name);
    AddedKeepsInv(fs, Link(fs, i, d, name).fs, d, name, i);
  }

  lemma CreateKeepsInv(fs: Fs, d: int, name: string, i: int)
    requires Inv(fs) && i !in fs && i != 0 && LinkedDir(fs, d) && Create(fs, d, name, i).Done?
    ensures Inv(Create(fs, d, name, i).fs)
  {
    hide Refs, Counted, TreeOk, DirOk, BareOk;
    FreshUnnamed(fs, i);
    AddedKeepsInv(fs, Create(fs, d, name, i).fs, d, name, i);
  }

  // mkdir.

  ghost predicate DirAdded(fs: Fs, fs': Fs, d: int, name: string, i: int) {
    && LinkedDir(fs, d) && !Present(fs, d, name) && i != 0 && i !in fs
    && fs'.Keys == fs.Keys + {i} && fs'[i] == Inode(Dir, 1, [Entry(i, "."), Entry(d, "..")])
    && fs'[d] == Inode(Dir, fs[d].nlink + 1, WithEntry(fs[d].entries, Entry(i, name)))
    && forall c :: c in fs && c != d ==> fs'[c] == fs[c]
  }

  lemma MkdirAdds(fs: Fs, d: int, name: string, i: int)
    requires LinkedDir(fs, d) && i !in fs && i != 0 && Mkdir(fs, d, name, i).Done?
    ensures DirAdded(fs, Mkdir(fs, d, name, i).fs, d, name, i)
  {
    hide Lookup, WithEntry;
  }

  lemma MkdirDirs(fs: Fs, fs': Fs, d: int, name: string, i: int)
    requires DirAdded(fs, fs', d, name, i)
    ensures forall c :: (IsDir(fs', c) <==> IsDir(fs, c) || c == i) && (LinkedDir(fs', c) <==> LinkedDir(fs, c) || c == i)
  {
  }

  lemma MkdirNames(fs: Fs, fs': Fs, d: int, name: string, i: int, r: Ref, c: int)
    requires DirAdded(fs, fs', d, name, i) && DirsOk(fs) && c != 0
    ensures Names(fs', r, c) <==>
              Names(fs, r, c) || (r == SlotFor(fs, d) && c == i) || (r == Ref(i, 1) && c == d)
    ensures !Names(fs, r, i) && !Names(fs, Ref(i, 1), c)
  {
    hide DirsOk, WithEntry;
    DirHasDots(fs, d);
    WithEntryAt(fs[d].entries, Entry(i, name));
    assert r == Ref(r.d, r.k);
    if Names(fs, r, i) {
      EntryFacts(fs, r.d, r.k);
    }
    assert name != ".";
    assert r.d == i ==> (LinkedDir(fs', i) && fs'[i].entries == [Entry(i, "."), Entry(d, "..")]);
  }

  lemma MkdirCounts(fs: Fs, fs': Fs, d: int, name: string, i: int)
    requires DirAdded(fs, fs', d, name, i) && DirsOk(fs) && Counted(fs)
    ensures Counted(fs')
  {
    hide Names, Refs, DirOk;
    forall c | c in fs'
      ensures fs'[c].nlink == |Refs(fs', c)|
    {
      assert c != 0;
      forall r
        ensures Names(fs', r, c) <==>
                  Names(fs, r, c) || (r == SlotFor(fs, d) && c == i) || (r == Ref(i, 1) && c == d)
      {
        MkdirNames(fs, fs', d, name, i, r, c);
      }
      if c == i {
        FreshUnnamed(fs, i);
        MkdirNames(fs, fs', d, name, i, SlotFor(fs, d), i);
        OneMore(fs, fs', i, SlotFor(fs, d));
      } else if c == d {
        MkdirNames(fs, fs', d, name, i, Ref(i, 1), d);
        OneMore(fs, fs', d, Ref(i, 1));
      } else {
        SameRefs(fs, fs', c);
      }
    }
  }

  lemma MkdirDirsOk(fs: Fs, fs': Fs, d: int, name: string, i: int)
    requires DirAdded(fs, fs', d, name, i) && DirsOk(fs)
    ensures DirsOk(fs') && forall c :: LinkedDir(fs, c) ==> Parent(fs', c) == Parent(fs, c)
  {
    hide DirOk, WithEntry;
    MkdirDirs(fs, fs', d, name, i);
    NewDirOk(fs, fs', d, name, i);
    forall c | LinkedDir(fs, c)
      ensures DirOk(fs', c) && Parent(fs', c) == Parent(fs, c)
    {
      if c != d {
        OldDirOk(fs, fs', c);
      } else {
        DirHasDots(fs, d);
        WithEntryAt(fs[d].entries, Entry(i, name));
      }
    }
    NewDirIsOk(fs', i, d);
  }

  lemma NewDirIsOk(fs: Fs, i: int, d: int)
    requires LinkedDir(fs, d) && i in fs && i != 0 && d != 0 && fs[i].entries == [Entry(i, "."), Entry(d, "..")]
    ensures DirOk(fs, i)
  {
  }

  lemma MkdirDown(fs: Fs, fs': Fs, d: int, name: string, i: int, r: Ref, c: int)
    requires DirAdded(fs, fs', d, name, i) && DirsOk(fs) && TreeOk(fs)
    requires forall x :: LinkedDir(fs, x) ==> Parent(fs', x) == Parent(fs, x)
    requires r.k >= 2 && Names(fs', r, c) && IsDir(fs', c)
    ensures LinkedDir(fs', c) && Parent(fs', c) == r.d && c != ROOT
    ensures if c == i then r == SlotFor(fs, d) else Names(fs, r, c) && IsDir(fs, c)
  {
    hide Names, DirOk, WithEntry, Lookup, FreeSlot, TreeOk;
    assert c != 0;
    MkdirNames(fs, fs', d, name, i, r, c);
    MkdirDirs(fs, fs', d, name, i);
    if c != i {
      TreeDown(fs, r, c);
    }
  }

  lemma MkdirHome(fs: Fs, fs': Fs, d: int, name: string, i: int, c: int)
    requires DirAdded(fs, fs', d, name, i) && DirsOk(fs) && TreeOk(fs) && LinkedDir(fs', c) && c != ROOT
    ensures HasHome(fs', c)
  {
    hide Names, DirOk, WithEntry, Lookup, FreeSlot, TreeOk;
    assert c != 0;
    MkdirDirs(fs, fs', d, name, i);
    DirHasDots(fs, d);
    var r := SlotFor(fs, d);
    if c != i {
      r := TreeHome(fs, c);
    }
    MkdirNames(fs, fs', d, name, i, r, c);
  }

  lemma MkdirTree(fs: Fs, fs': Fs, d: int, name: string, i: int)
    requires DirAdded(fs, fs', d, name, i) && DirsOk(fs) && TreeOk(fs)
    requires forall c :: LinkedDir(fs, c) ==> Parent(fs', c) == Parent(fs, c)
    ensures TreeOk(fs')
  {
    hide Names, DirsOk, DirAdded, HasHome, SlotFor;
    forall r: Ref, c: int | r.k >= 2 && Names(fs', r, c) && IsDir(fs', c)
      ensures LinkedDir(fs', c) && Parent(fs', c) == r.d && c != ROOT
    {
      MkdirDown(fs, fs', d, name, i, r, c);
    }
    forall r: Ref, q: Ref, c: int | r.k >= 2 && q.k >= 2 && Names(fs', r, c) && Names(fs', q, c) && IsDir(fs', c)
      ensures r == q
    {
      MkdirDown(fs, fs', d, name, i, r, c);
      MkdirDown(fs, fs', d, name, i, q, c);
    }
    forall c | LinkedDir(fs', c) && c != ROOT
      ensures HasHome(fs', c)
    {
      MkdirHome(fs, fs', d, name, i, c);
    }
  }

  lemma MkdirKeepsInv(fs: Fs, d: int, name: string, i: int)
    requires Inv(fs) && LinkedDir(fs, d) && i !in fs && i != 0 && Mkdir(fs, d, name, i).Done?
    ensures Inv(Mkdir(fs, d, name, i).fs)
  {
    hide Counted, DirsOk, TreeOk, Mkdir, WithEntry;
    var fs' := Mkdir(fs, d, name, i).fs;
    MkdirAdds(fs, d, name, i);
    MkdirCounts(fs, fs', d, name, i);
    MkdirDirsOk(fs, fs', d, name, i);
    MkdirTree(fs, fs', d, name, i);
    MkdirDirs(fs, fs', d, name, i);
  }

  // unlink.

  /** fs' is fs without entry r0 of a linked directory, which named i; i and, for a
      directory, r0.d have one link less. */
  ghost predicate EntryGone(fs: Fs, fs': Fs, r0: Ref, i: int) {
    && LinkedDir(fs, r0.d) && r0.k >= 2 && Names(fs, r0, i) && i in fs && i != r0.d
    && (fs[i].kind == Dir ==> IsEmpty(fs[i].entries))
    && fs'.Keys == fs.Keys
    && fs'[r0.d] == Inode(Dir, fs[r0.d].nlink - (if fs[i].kind == Dir then 1 else 0),
                          fs[r0.d].entries[r0.k := Entry(0, "")])
    && fs'[i] == fs[i].(nlink := fs[i].nlink - 1)
    && forall c :: c in fs && c != r0.d && c != i ==> fs'[c] == fs[c]
  }

  /** A name other than "." and ".." is found in linked directories only, beyond the
      first two entries. */
  lemma FoundFacts(fs: Fs, d: int, name: string)
    requires Inv(fs) && IsDir(fs, d) && Present(fs, d, name) && name != "." && name != ".."
    ensures var k := Lookup(fs[d].entries, name, 0);
            LinkedDir(fs, d) && k >= 2 && Names(fs, Ref(d, k), fs[d].entries[k].inum) && fs[d].entries[k].inum in fs
  {
    hide Counted, TreeOk, DirsOk;
    var k := Lookup(fs[d].entries, name, 0);
    assert InUse(fs[d].entries[k], name);
    if LinkedDir(fs, d) {
      DirFacts(fs, d);
      EntryFacts(fs, d, k);
    }
  }

  /** unlink takes out one entry beyond the first two. */
  lemma UnlinkRemoves(fs: Fs, d: int, name: string)
    requires Inv(fs) && IsDir(fs, d) && Unlink(fs, d, name).Done?
    ensures Present(fs, d, name)
    ensures var k := Lookup(fs[d].entries, name, 0);
            EntryGone(fs, Unlink(fs, d, name).fs, Ref(d, k), fs[d].entries[k].inum)
  {
    hide Inv, Lookup;
    FoundFacts(fs, d, name);
  }

  /** Nothing leads up to an empty directory, and one entry leads down to it. */
  lemma EmptyDirRefs(fs: Fs, r0: Ref, i: int, r: Ref)
    requires DirsOk(fs) && TreeOk(fs) && r0.k >= 2 && Names(fs, r0, i) && IsDir(fs, i) && IsEmpty(fs[i].entries)
    requires Names(fs, r, i)
    ensures r == r0
  {
    hide DirsOk, TreeOk;
    DirFacts(fs, r.d);
    if r.k >= 2 {
      TreeUnique(fs, r, r0, i);
    } else {
      TreeDown(fs, r0, i);
      var h := TreeHome(fs, r.d);
    }
  }

  lemma EmptyDirParent(fs: Fs, r0: Ref, i: int, x: int)
    requires DirsOk(fs) && TreeOk(fs) && r0.k >= 2 && Names(fs, r0, i) && IsDir(fs, i) && IsEmpty(fs[i].entries)
    requires LinkedDir(fs, x)
    ensures Parent(fs, x) != i
  {
    hide DirsOk, TreeOk;
    DirFacts(fs, x);
    if Parent(fs, x) == i {
      EmptyDirRefs(fs, r0, i, Ref(x, 1));
    }
  }

  lemma EmptyDirCount(fs: Fs, r0: Ref, i: int)
    requires Inv(fs) && r0.k >= 2 && Names(fs, r0, i) && IsDir(fs, i) && IsEmpty(fs[i].entries)
    ensures fs[i].nlink == 1
  {
    hide Names, TreeOk, DirsOk, BareOk, Refs;
    RefsIs(fs, i, r0);
    forall r
      ensures r in Refs(fs, i) <==> r == r0
    {
      RefsIs(fs, i, r);
      if Names(fs, r, i) {
        EmptyDirRefs(fs, r0, i, r);
      }
    }
    assert Refs(fs, i) == {r0};
  }

  /** A directory that holds another one has two links at least. */
  lemma ParentCount(fs: Fs, i: int)
    requires Inv(fs) && LinkedDir(fs, i) && i != ROOT && Parent(fs, i) != i
    ensures LinkedDir(fs, Parent(fs, i)) && fs[Parent(fs, i)].nlink >= 2
  {
    hide BareOk, DirsOk, TreeOk, Refs;
    DirFacts(fs, i);
    var d := Parent(fs, i);
    DirFacts(fs, d);
    var h := Ref(ROOT, 1);
    if d != ROOT {
      h := TreeHome(fs, d);
    }
    TwoRefs(fs, d, Ref(i, 1), h);
  }

  lemma TwoRefs(fs: Fs, d: int, a: Ref, b: Ref)
    requires Names(fs, a, d) && Names(fs, b, d) && a != b
    ensures |Refs(fs, d)| >= 2
  {
    hide Names, Refs;
    RefsIs(fs, d, a);
    RefsIs(fs, d, b);
    assert {a, b} <= Refs(fs, d);
    AtLeast(Refs(fs, d), {a, b});
  }

  lemma AtLeast(s: set<Ref>, t: set<Ref>)
    requires t <= s
    ensures |t| <= |s|
  {
    assert s == t + (s - t);
  }

  lemma GoneFacts(fs: Fs, fs': Fs, r0: Ref, i: int)
    requires EntryGone(fs, fs', r0, i) && Inv(fs)
    ensures fs[i].kind == Dir ==>
              && LinkedDir(fs, i) && i != ROOT && fs[i].nlink == 1 && Parent(fs, i) == r0.d
              && fs[r0.d].nlink >= 2
    ensures r0.d in fs && |fs[r0.d].entries| > r0.k
  {
    hide Counted, DirsOk, TreeOk, BareOk;
    if fs[i].kind == Dir {
      TreeDown(fs, r0, i);
      EmptyDirCount(fs, r0, i);
      ParentCount(fs, i);
    }
  }

  lemma GoneDirs(fs: Fs, fs': Fs, r0: Ref, i: int)
    requires EntryGone(fs, fs', r0, i) && Inv(fs)
    ensures forall c :: (IsDir(fs', c) <==> IsDir(fs, c)) && (LinkedDir(fs', c) <==> LinkedDir(fs, c) && c != i)
    ensures forall c :: LinkedDir(fs', c) && c != r0.d ==> fs'[c] == fs[c]
  {
    hide Inv;
    GoneFacts(fs, fs', r0, i);
  }

  /** The names that are left: without r0, and without those of a directory that is no
      longer linked. */
  lemma GoneNames(fs: Fs, fs': Fs, r0: Ref, i: int, r: Ref, c: int)
    requires EntryGone(fs, fs', r0, i) && Inv(fs) && c != 0
    ensures Names(fs', r, c) <==> Names(fs, r, c) && r != r0 && r.d != i
  {
    hide Inv;
    GoneDirs(fs, fs', r0, i);
    assert r == Ref(r.d, r.k);
    if r.d == r0.d && LinkedDir(fs', r.d) && 0 <= r.k < |fs'[r.d].entries| {
      assert fs'[r.d].entries[r.k] == if r.k == r0.k then Entry(0, "") else fs[r.d].entries[r.k];
    }
  }

  /** What an empty directory itself names: its parent, by "..". */
  lemma EmptyDirNames(fs: Fs, fs': Fs, r0: Ref, i: int, r: Ref, c: int)
    requires EntryGone(fs, fs', r0, i) && Inv(fs) && c != 0 && r.d == i
    ensures Names(fs, r, c) <==> fs[i].kind == Dir && r == Ref(i, 1) && c == r0.d
  {
    hide Counted, DirsOk, TreeOk, BareOk;
    GoneFacts(fs, fs', r0, i);
    assert r == Ref(r.d, r.k);
    if fs[i].kind == Dir {
      DirFacts(fs, i);
    }
  }

  lemma OneLess(fs: Fs, fs': Fs, i: int, r0: Ref)
    requires Names(fs, r0, i) && forall r :: Names(fs', r, i) <==> Names(fs, r, i) && r != r0
    ensures |Refs(fs', i)| == |Refs(fs, i)| - 1
  {
    hide Names, Refs;
    OneMore(fs', fs, i, r0);
  }

  lemma GoneCount(fs: Fs, fs': Fs, r0: Ref, i: int, c: int)
    requires EntryGone(fs, fs', r0, i) && Inv(fs) && c in fs && c != 0
    ensures fs'[c].nlink == |Refs(fs', c)|
  {
    hide Names, Refs, DirsOk, TreeOk, BareOk;
    GoneFacts(fs, fs', r0, i);
    forall r
      ensures Names(fs', r, c) <==> Names(fs, r, c) && r != r0 && r.d != i
      ensures r.d == i ==> (Names(fs, r, c) <==> fs[i].kind == Dir && r == Ref(i, 1) && c == r0.d)
      ensures Names(fs, r, c) && r == r0 ==> c == i
    {
      GoneNames(fs, fs', r0, i, r, c);
      if r.d == i {
        EmptyDirNames(fs, fs', r0, i, r, c);
      }
      NamesOne(fs, r0, i, c);
    }
    assert Names(fs, r0, i);
    if c == i {
      OneLess(fs, fs', c, r0);
    } else if c == r0.d && fs[i].kind == Dir {
      OneLess(fs, fs', c, Ref(i, 1));
    } else {
      SameRefs(fs, fs', c);
    }
  }

  lemma NamesOne(fs: Fs, r: Ref, i: int, c: int)
    requires Names(fs, r, i)
    ensures Names(fs, r, c) ==> c == i
  {
  }

  lemma GoneDirOk(fs: Fs, fs': Fs, r0: Ref, i: int, x: int)
    requires EntryGone(fs, fs', r0, i) && Inv(fs) && LinkedDir(fs', x)
    ensures LinkedDir(fs, x) && DirOk(fs', x) && Parent(fs', x) == Parent(fs, x)
  {
    hide Counted, TreeOk, BareOk;
    GoneFacts(fs, fs', r0, i);
    GoneDirs(fs, fs', r0, i);
    assert DirOk(fs, x);
    if fs[i].kind == Dir {
      EmptyDirParent(fs, r0, i, x);
    }
  }

  lemma GoneTree(fs: Fs, fs': Fs, r0: Ref, i: int)
    requires EntryGone(fs, fs', r0, i) && Inv(fs)
    requires forall x :: LinkedDir(fs', x) ==> Parent(fs', x) == Parent(fs, x)
    requires 0 !in fs'
    ensures TreeOk(fs')
  {
    hide Names, Counted, DirsOk, BareOk;
    GoneDirs(fs, fs', r0, i);
    forall r: Ref, c: int | c != 0
      ensures Names(fs', r, c) <==> Names(fs, r, c) && r != r0 && r.d != i
    {
      GoneNames(fs, fs', r0, i, r, c);
    }
    forall c | LinkedDir(fs', c) && c != ROOT
      ensures HasHome(fs', c)
    {
      assert HasHome(fs, c);
      var r: Ref :| r.k >= 2 && Names(fs, r, c);
      NotGone(fs, fs', r0, i, r, c);
      assert Names(fs', r, c);
    }
  }

  lemma NotGone(fs: Fs, fs': Fs, r0: Ref, i: int, r: Ref, c: int)
    requires EntryGone(fs, fs', r0, i) && Inv(fs) && r.k >= 2 && Names(fs, r, c) && c != i && c != 0
    ensures r != r0 && r.d != i
  {
    hide Inv, Names;
    assert Names(fs, r0, i);
    NamesOne(fs, r, c, i);
    if r.d == i {
      EmptyDirNames(fs, fs', r0, i, r, c);
    }
  }

  lemma GoneBare(fs: Fs, fs': Fs, r0: Ref, i: int)
    requires EntryGone(fs, fs', r0, i) && Inv(fs)
    ensures BareOk(fs')
  {
    hide Counted, DirsOk, TreeOk;
    GoneFacts(fs, fs', r0, i);
    GoneDirs(fs, fs', r0, i);
    if fs[i].kind == Dir {
      DirFacts(fs, i);
    }
  }

  lemma UnlinkKeepsInv(fs: Fs, d: int, name: string)
    requires Inv(fs) && IsDir(fs, d) && Unlink(fs, d, name).Done?
    ensures Inv(Unlink(fs, d, name).fs)
  {
    hide Names, Refs, TreeOk, BareOk, DirOk, EntryGone, Unlink;
    var fs' := Unlink(fs, d, name).fs;
    UnlinkRemoves(fs, d, name);
    var k := Lookup(fs[d].entries, name, 0);
    var r0, i := Ref(d, k), fs[d].entries[k].inum;
    GoneKeys(fs, fs', r0, i);
    forall c | c in fs'
      ensures fs'[c].nlink == |Refs(fs', c)|
    {
      GoneCount(fs, fs', r0, i, c);
    }
    GoneDirs(fs, fs', r0, i);
    forall x | LinkedDir(fs', x)
      ensures DirOk(fs', x) && Parent(fs', x) == Parent(fs, x)
    {
      GoneDirOk(fs, fs', r0, i, x);
    }
    GoneTree(fs, fs', r0, i);
    GoneBare(fs, fs', r0, i);
  }

  lemma GoneKeys(fs: Fs, fs': Fs, r0: Ref, i: int)
    requires EntryGone(fs, fs', r0, i) && Inv(fs)
    ensures fs'.Keys == fs.Keys && 0 !in fs && i != ROOT
  {
    hide Counted, TreeOk, BareOk;
    if i == ROOT {
      GoneFacts(fs, fs', r0, i);
    }
  }

  // iput.

  /** An inode is freed only when no entry of a linked directory names it. */
  lemma FreedUnnamed(fs: Fs, i: int)
    requires Inv(fs) && i in fs && i !in Iput(fs, i)
    ensures forall r :: !Names(fs, r, i)
  {
    hide Names, Refs;
    forall r
      ensures !Names(fs, r, i)
    {
      RefsIs(fs, i, r);
    }
  }

  lemma IputNames(fs: Fs, i: int, r: Ref, c: int)
    requires i in fs && fs[i].nlink == 0
    ensures Names(fs - {i}, r, c) <==> Names(fs, r, c)
  {
  }

  lemma IputKeepsInv(fs: Fs, i: int)
    requires Inv(fs) && i in fs
    ensures Inv(Iput(fs, i))
  {
    hide Names, Refs, TreeOk;
    if fs[i].nlink == 0 {
      var fs' := Iput(fs, i);
      FreedUnnamed(fs, i);
      forall r, c
        ensures Names(fs', r, c) <==> Names(fs, r, c)
      {
        IputNames(fs, i, r, c);
      }
      forall c | c in fs'
        ensures fs'[c].nlink == |Refs(fs', c)|
      {
        SameRefs(fs, fs', c);
      }
      forall x | LinkedDir(fs', x)
        ensures DirOk(fs', x)
      {
        IputDirOk(fs, i, x);
      }
      IputTree(fs, i);
    }
  }

  lemma IputDirOk(fs: Fs, i: int, x: int)
    requires DirsOk(fs) && i in fs && fs[i].nlink == 0 && (forall r :: !Names(fs, r, i)) && LinkedDir(fs, x)
    ensures DirOk(fs - {i}, x)
  {
    assert DirOk(fs, x);
    var es := fs[x].entries;
    forall k | 0 <= k < |es| && es[k].inum != 0
      ensures es[k].inum in fs - {i}
    {
      assert !Names(fs, Ref(x, k), i);
    }
  }

  lemma IputTree(fs: Fs, i: int)
    requires TreeOk(fs) && i in fs && fs[i].nlink == 0
    requires forall r, c :: Names(fs - {i}, r, c) <==> Names(fs, r, c)
    ensures TreeOk(fs - {i})
  {
    hide Names;
    var fs' := fs - {i};
    forall c | LinkedDir(fs', c) && c != ROOT
      ensures HasHome(fs', c)
    {
      assert HasHome(fs, c);
      var r: Ref :| r.k >= 2 && Names(fs, r, c);
      assert Names(fs', r, c);
    }
  }

  /** The panic in unlink for a count below one cannot happen. */
  lemma UnlinkFindsLinks(fs: Fs, d: int, name: string, k: int)
    requires Inv(fs) && IsDir(fs, d) && name != "." && name != ".." && k == Lookup(fs[d].entries, name, 0)
    requires k < |fs[d].entries|
    ensures fs[d].entries[k].inum in fs && fs[fs[d].entries[k].inum].nlink >= 1
  {
    hide TreeOk, DirsOk, BareOk, Refs;
    FoundFacts(fs, d, name);
    var i := fs[d].entries[k].inum;
    RefsIs(fs, i, Ref(d, k));
    assert Refs(fs, i) != {};
  }

  /** A file system with the root directory only, as mkfs starts it. */
  function Fresh(): Fs {
    map[ROOT := Inode(Dir, 1, [Entry(ROOT, "."), Entry(ROOT, "..")])]
  }

  lemma FreshInv()
    ensures Inv(Fresh())
  {
    var fs := Fresh();
    forall r, i
      ensures Names(fs, r, i) <==> r == Ref(ROOT, 1) && i == ROOT
    {
      assert r == Ref(r.d, r.k);
    }
    forall r
      ensures r in Refs(fs, ROOT) <==> r == Ref(ROOT, 1)
    {
      RefsIs(fs, ROOT, r);
    }
    assert Refs(fs, ROOT) == {Ref(ROOT, 1)};
  }
}
