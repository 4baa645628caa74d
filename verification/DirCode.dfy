/** The loops over a directory's entries. */
module DirCode {
  import opened LinkCount

  /** dirlookup: the first entry in use with the name. */
  method Dirlookup(es: seq<Entry>, name: string) returns (found: bool, k: nat)
    ensures k == Lookup(es, name, 0) && (found <==> k < |es|)
  {
    k := 0;
    while k < |es|
      invariant 0 <= k <= |es| && Lookup(es, name, k) == Lookup(es, name, 0)
    {
      if es[k].inum != 0 && es[k].name == name {
        return true, k;
      }
      k := k + 1;
    }
    found := false;
  }

  /** dirlink: into the first free slot, or at the end. */
  method Dirlink(es: seq<Entry>, name: string, i: int) returns (ok: bool, r: seq<Entry>)
    ensures ok <==> forall k :: 0 <= k < |es| ==> !InUse(es[k], name)
    ensures r == if ok then WithEntry(es, Entry(i, name)) else es
  {
    var found, k := Dirlookup(es, name);
    if found {
      return false, es;
    }
    k := 0;
    while k < |es| && es[k].inum != 0
      invariant 0 <= k <= |es| && FreeSlot(es, k) == FreeSlot(es, 0)
    {
      k := k + 1;
    }
    ok := true;
    r := if k < |es| then es[k := Entry(i, name)] else es + [Entry(i, name)];
  }

  /** isdirempty: it skips the first two entries. */
  method Isdirempty(es: seq<Entry>) returns (empty: bool)
    ensures empty <==> IsEmpty(es)
  {
    var k := 2;
    while k < |es|
      invariant 2 <= k && forall j :: 2 <= j < k && j < |es| ==> es[j].inum == 0
    {
      if es[k].inum != 0 {
        return false;
      }
      k := k + 1;
    }
    empty := true;
  }
}
