/** On-disk layout of the redo log (log.c): the disk and the header block. */
module LogLayout {

  const BLOCK_WORDS := 128  // BSIZE / sizeof(int)
  const MAXOPBLOCKS := 10
  const LOGSIZE := 30       // MAXOPBLOCKS * 3

  /** A disk block, as the array of ints that struct logheader overlays on it.
      Real blocks hold BLOCK_WORDS of them. */
  datatype Block = Block(words: seq<int>)

  type Disk = seq<Block>

  /** Where the log lies: block `start` is the header, `size - 1` log blocks follow. */
  datatype Geometry = Geometry(start: nat, size: nat, blocks: nat)

  ghost predicate ValidGeometry(g: Geometry) {
    2 <= g.size && g.start + g.size <= g.blocks
  }

  /** A home block is any block of the disk outside the log area. */
  predicate Home(g: Geometry, b: int) {
    0 <= b < g.blocks && !(g.start <= b < g.start + g.size)
  }

  /** log_write refuses to let the in-memory header grow past this. */
  function Capacity(g: Geometry): nat
    requires 2 <= g.size
  {
    if LOGSIZE <= g.size - 1 then LOGSIZE else g.size - 1
  }

  /** The header block as write_head leaves it: n, then the block numbers; the
      words after them keep whatever the buffer held. */
  function EncodeHeader(prior: Block, lh: seq<int>): (r: Block)
    ensures |prior.words| == BLOCK_WORDS && |lh| < BLOCK_WORDS ==> |r.words| == BLOCK_WORDS
  {
    var kept := if 1 + |lh| <= |prior.words| then prior.words[1 + |lh|..] else [];
    Block([|lh|] + lh + kept)
  }

  /** What read_head makes of a header block. A count outside the log is not
      something mkfs or write_head can leave there; it reads as empty. */
  function DecodeHeader(b: Block): (lh: seq<int>) {
    if |b.words| > 0 && 0 <= b.words[0] <= LOGSIZE && b.words[0] < |b.words|
    then b.words[1..1 + b.words[0]] else []
  }

  lemma HeaderRoundTrip(prior: Block, lh: seq<int>)
    requires |lh| <= LOGSIZE
    ensures DecodeHeader(EncodeHeader(prior, lh)) == lh
  {
    var b := EncodeHeader(prior, lh);
    assert b.words[0] == |lh|;
    assert b.words[1..1 + |lh|] == lh;
  }

  ghost predicate Distinct(lh: seq<int>) {
    forall i, j :: 0 <= i < j < |lh| ==> lh[i] != lh[j]
  }

  /** A list of block numbers that a transaction may hold. */
  ghost predicate GoodHeader(g: Geometry, lh: seq<int>)
    requires ValidGeometry(g)
  {
    && |lh| <= Capacity(g)
    && Distinct(lh)
    && forall i {:trigger lh[i]} :: 0 <= i < |lh| ==> Home(g, lh[i])
  }

  /** The log blocks and the listed blocks are on the disk. */
  predicate Fits(g: Geometry, d: Disk, lh: seq<int>) {
    g.start + 1 + |lh| <= |d| && forall i :: 0 <= i < |lh| ==> 0 <= lh[i] < |d|
  }

  /** The disk after install_trans has copied log blocks i, i+1, ... home. */
  function InstallFrom(g: Geometry, d: Disk, lh: seq<int>, i: nat): (r: Disk)
    requires Fits(g, d, lh) && i <= |lh|
    ensures |r| == |d|
    decreases |lh| - i
  {
    if i == |lh| then d else InstallFrom(g, d[lh[i] := d[g.start + 1 + i]], lh, i + 1)
  }

  /** The disk after an undisturbed recover_from_log(). */
  function Recover(g: Geometry, d: Disk): (r: Disk)
    requires g.start < |d| && Fits(g, d, DecodeHeader(d[g.start]))
    ensures |r| == |d|
  {
    var e := InstallFrom(g, d, DecodeHeader(d[g.start]), 0);
    e[g.start := EncodeHeader(e[g.start], [])]
  }
}
