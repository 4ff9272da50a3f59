/** The on-disk redo log of kernel/log.c: a header block that names the home
    blocks of the transaction, followed by their logged copies. */
module LogFormat {
  const LOGSIZE: nat := 30       // include/param.h: MAXOPBLOCKS*3
  const MAXOPBLOCKS: nat := 10
  const NBUF: nat := 30
  const BWORDS: nat := 128       // BSIZE / sizeof(int)

  /** A disk block, seen as 32-bit words. */
  type Block = b: seq<nat> | |b| == BWORDS witness seq(BWORDS, _ => 0)

  /** The log region is [start, start + size): one header block and size - 1 log blocks. */
  datatype Layout = Layout(start: nat, size: nat)

  predicate ValidLayout(lay: Layout) { lay.size >= 1 }

  predicate Distinct(h: seq<nat>) {
    forall i, j | 0 <= i < j < |h| :: h[i] != h[j]
  }

  /** The struct logheader stored in a block: word 0 is n, words 1..n are block numbers. */
  function HeaderOf(b: Block): (h: seq<nat>)
    ensures |h| <= LOGSIZE
  {
    if b[0] <= LOGSIZE then b[1..1 + b[0]] else []
  }

  /** write_head() overwrites n and the first n block numbers and leaves the other words. */
  function WithHeader(b: Block, h: seq<nat>): (r: Block)
    requires |h| <= LOGSIZE
    ensures HeaderOf(r) == h && r[0] == |h|
    ensures r[1 + |h|..] == b[1 + |h|..]
  {
    var r := [|h|] + h + b[1 + |h|..];
    assert r[1..1 + |h|] == h;
    assert r[1 + |h|..] == b[1 + |h|..];
    r
  }

  /** A header that install_trans() can follow: distinct home blocks, outside the log
      region, that fit into the log region. */
  predicate GoodHeader(lay: Layout, h: seq<nat>) {
    && |h| <= LOGSIZE
    && |h| < lay.size
    && Distinct(h)
    && forall i | 0 <= i < |h| :: h[i] < lay.start
  }

  /** A file-system image: the header block on it is good. */
  predicate ValidDisk(lay: Layout, disk: seq<Block>) {
    && ValidLayout(lay)
    && |disk| == lay.start + lay.size
    && disk[lay.start][0] <= LOGSIZE
    && GoodHeader(lay, HeaderOf(disk[lay.start]))
  }

  /** What home block b is worth on a disk: its logged copy when the on-disk header
      names it, else the home block itself. */
  ghost function MeaningAt(lay: Layout, disk: seq<Block>, b: nat): Block
    requires ValidDisk(lay, disk) && b < lay.start
  {
    var h := HeaderOf(disk[lay.start]);
    if b in h then
      var i :| 0 <= i < |h| && h[i] == b;
      disk[lay.start + 1 + i]
    else disk[b]
  }

  /** The home blocks a completed recovery leaves on the disk. */
  ghost function Meaning(lay: Layout, disk: seq<Block>): (m: seq<Block>)
    requires ValidDisk(lay, disk)
    ensures |m| == lay.start
  {
    seq(lay.start, b requires 0 <= b < lay.start => MeaningAt(lay, disk, b))
  }

  /** The same meaning said entry by entry. */
  predicate Means(lay: Layout, disk: seq<Block>, m: seq<Block>)
    requires ValidDisk(lay, disk)
  {
    var h := HeaderOf(disk[lay.start]);
    && |m| == lay.start
    && (forall b | 0 <= b < lay.start && b !in h :: disk[b] == m[b])
    && (forall i | 0 <= i < |h| :: disk[lay.start + 1 + i] == m[h[i]])
  }

  lemma MeansIsMeaning(lay: Layout, disk: seq<Block>, m: seq<Block>)
    requires ValidDisk(lay, disk)
    ensures Means(lay, disk, m) <==> m == Meaning(lay, disk)
  {
    var h := HeaderOf(disk[lay.start]);
    if Means(lay, disk, m) {
      forall b | 0 <= b < lay.start ensures m[b] == Meaning(lay, disk)[b] {
        if b in h { }
      }
    }
    if m == Meaning(lay, disk) {
      forall i | 0 <= i < |h| ensures disk[lay.start + 1 + i] == m[h[i]] {
        assert m[h[i]] == MeaningAt(lay, disk, h[i]);
      }
    }
  }
}
