/** tools/mkfs.c: the free map and the root directory of a new image. */
module Mkfs {
  import opened Basics
  import opened Bytes
  import opened FsFormat
  import opened FsOwner
  import opened FsContent
  import opened FileStore

  /** Exactly the bits below used are set. */
  ghost predicate BitsBelow(buf: Block, used: nat) {
    forall b: nat | b < BPB :: HasBit(buf, ByteNo(b), BitNo(b)) <==> b < used
  }

  /** balloc(): the bitmap block of an image whose first blocks are in use; None is a failed assertion. */
  method Balloc(used: nat) returns (r: Option<Block>)
    ensures r.Some? <==> used < BPB
    ensures r.Some? ==> BitsBelow(r.value, used)
  {
    if used >= BPB { return None; }
    var buf: Block := ZEROS;
    NoBits();
    for i := 0 to used
      invariant BitsBelow(buf, i)
    {
      BitAdded(buf, i);
      buf := WithBit(buf, ByteNo(i), BitNo(i), true);
    }
    return Some(buf);
  }

  lemma NoBits()
    ensures BitsBelow(ZEROS, 0)
  {
    forall b: nat | b < BPB ensures !HasBit(ZEROS, ByteNo(b), BitNo(b)) {
      NoBit(BitNo(b));
    }
  }

  lemma NoBit(k: nat)
    requires k < 8
    ensures !Bit(0, k)
  { }

  lemma BitAdded(buf: Block, i: nat)
    requires i < BPB && BitsBelow(buf, i)
    ensures BitsBelow(WithBit(buf, ByteNo(i), BitNo(i), true), i + 1)
  {
    hide HasBit, WithBit;
    forall b: nat | b < BPB
      ensures HasBit(WithBit(buf, ByteNo(i), BitNo(i), true), ByteNo(b), BitNo(b)) <==> b < i + 1
    {
      WithBitHas(buf, ByteNo(i), BitNo(i), true, ByteNo(b), BitNo(b));
      BlockParts(i);
      BlockParts(b);
    }
  }

  /** The bitmap blocks of an image whose blocks below used are in use. */
  ghost predicate MadeMap(sb: Super, img: seq<Block>, used: nat) {
    forall b: nat | b < sb.size :: MapBlock(sb, b) < |img| && (Used(sb, img, b) <==> b < used)
  }

  lemma SamePlace(sb: Super, b: nat)
    ensures ByteNo(b) == ByteNo(b % BPB) && BitNo(b) == BitNo(b % BPB)
    ensures b < BPB ==> MapBlock(sb, b) == MapBlock(sb, 0)
  {
    var r := b % BPB;
    assert r % BPB == r;
    EightsApart(r, 512 * (b / BPB));
  }

  lemma EightsApart(r: nat, n: nat)
    ensures (8 * n + r) % 8 == r % 8
  { }

  /** One bitmap block is written, the others are zero. */
  lemma MapMade(sb: Super, img: seq<Block>, used: nat)
    requires ValidSuper(sb) && |img| == sb.size && used < BPB && BitsBelow(img[MapBlock(sb, 0)], used)
    requires forall b: nat | BPB <= b < sb.size :: MapBlock(sb, b) < |img| && img[MapBlock(sb, b)] == ZEROS
    ensures MadeMap(sb, img, used)
  {
    forall b: nat | b < sb.size ensures MapBlock(sb, b) < |img| && (Used(sb, img, b) <==> b < used) {
      hide HasBit, MapBlock, ByteNo, BitNo;
      MapBlockRange(sb, b);
      SamePlace(sb, b);
      if b < BPB {
        assert HasBit(img[MapBlock(sb, 0)], ByteNo(b), BitNo(b)) <==> b < used;
      } else {
        NoBits();
        assert !HasBit(ZEROS, ByteNo(b % BPB), BitNo(b % BPB));
      }
    }
  }

  /** The free map of a new image is what the kernel counts on, and the bits of the log region are clear:
      the first allocation on a full disk gets a block of the log. */
  lemma MkfsMapped(sb: Super, img: seq<Block>, owner: map<nat, Slot>, freeblock: nat)
    requires ValidSuper(sb) && |img| == sb.size && MadeMap(sb, img, freeblock) && FirstData(sb) <= freeblock
    requires forall b :: b in owner <==> FirstData(sb) <= b < freeblock
    ensures Mapped(sb, img, owner, {})
    ensures sb.nlog > 0 && freeblock <= FirstData(sb) + sb.nblocks ==> LogBitClear(sb, img)
  {
    hide Used, MapBlock;
    if sb.nlog > 0 && freeblock <= FirstData(sb) + sb.nblocks {
      var b := FirstData(sb) + sb.nblocks;
      assert IsLog(sb, b) && MapBlock(sb, b) < |img| && !Used(sb, img, b);
    }
  }

  /** The size of the root directory is rounded up past its last entry. */
  function RootSize(off: nat): nat {
    (off / BSIZE + 1) * BSIZE
  }

  /** The root directory keeps all its blocks exactly if its entries did not fill the last one. */
  lemma RootHasHole(img: seq<Block>, ip: Inode)
    requires InodeOk(img, ip) && NoHoles(img, ip)
    ensures NoHoles(img, ip.(size := RootSize(ip.size))) <==> ip.size % BSIZE != 0
  {
    var n, ip' := Blocks(ip.size), ip.(size := RootSize(ip.size));
    assert forall i: nat | i < MAXFILE :: BlockAt(img, ip', i) == BlockAt(img, ip, i);
    if ip.size % BSIZE != 0 {
      assert Blocks(ip'.size) == n && ip'.size <= MAXFILE * BSIZE;
    } else if ip'.size <= MAXFILE * BSIZE {
      assert Blocks(ip'.size) == n + 1 <= MAXFILE;
      assert BlockAt(img, ip', n) == 0;
    }
  }

  /** A new image whose files fill the data blocks: the next block that balloc() of the kernel hands out is one of
      the log. */
  lemma FullImage(sb: Super, img: seq<Block>, owner: map<nat, Slot>)
    requires ValidSuper(sb) && |img| == sb.size && sb.nlog > 0 && MadeMap(sb, img, FirstData(sb) + sb.nblocks)
    requires forall b :: b in owner <==> IsData(sb, b)
    ensures Mapped(sb, img, owner, {}) && DiskFull(sb, owner) && LogBitClear(sb, img)
  {
    MkfsMapped(sb, img, owner, FirstData(sb) + sb.nblocks);
  }

  /** On a new image the kernel goes on with the blocks of the log as if they were data blocks: until the next
      commit, which writes its header and its copies over them, FileStore with Wide(sb) is what it does. */
  lemma KernelView(sb: Super, img: seq<Block>, ino: seq<Inode>, owner: map<nat, Slot>, freeblock: nat)
    requires Shape(sb, img, ino) && Owned(sb, img, ino, owner) && MadeMap(sb, img, freeblock)
    requires FirstData(sb) <= freeblock <= FirstData(sb) + sb.nblocks
    requires forall b :: b in owner <==> FirstData(sb) <= b < freeblock
    ensures Ownership(sb, img, ino, owner, {}) && Ownership(Wide(sb), img, ino, owner, {})
  {
    hide Ref, Used, MapBlock, Owned;
    MkfsMapped(sb, img, owner, freeblock);
    hide Mapped;
    WideOwnership(sb, img, ino, owner, {});
  }

  /** The block it takes next is one of the log exactly if no data block is free. */
  lemma KernelTakes(sb: Super, img: seq<Block>, ino: seq<Inode>, owner: map<nat, Slot>, inHand: set<nat>, b: nat)
    requires ValidSuper(sb) && Ownership(Wide(sb), img, ino, owner, inHand) && Lowest(Wide(sb), img, b)
    ensures FirstData(sb) <= b && (IsLog(sb, b) <==> AllTaken(sb, owner, inHand))
  {
    hide Ref, HasBit, ByteNo, BitNo, Owned;
    assert MarkOk(Wide(sb), img, owner, inHand, b);
    if IsLog(sb, b) {
      forall c | IsData(sb, c) ensures c in owner || c in inHand {
        assert MarkOk(Wide(sb), img, owner, inHand, c);
      }
    }
  }

  /** The first block of the log that it takes is the one that every commit writes its header to. */
  lemma HeaderTaken(sb: Super, img: seq<Block>, ino: seq<Inode>, owner: map<nat, Slot>, inHand: set<nat>, b: nat)
    requires Ownership(sb, img, ino, owner, inHand) && AllTaken(sb, owner, inHand) && sb.nlog > 0
    requires forall c: nat | IsLog(sb, c) :: MapBlock(sb, c) < |img| && !Used(sb, img, c)
    requires Lowest(Wide(sb), img, b)
    ensures b == sb.size - sb.nlog
  {
    hide Ref, HasBit, ByteNo, BitNo, Owned;
    var first := sb.size - sb.nlog;
    assert IsLog(sb, first) && !Used(sb, img, first);
    forall c: nat | c < first ensures MapBlock(sb, c) < |img| && Used(sb, img, c) {
      assert MarkOk(sb, img, owner, inHand, c);
      assert IsData(sb, c) ==> c in owner || c in inHand;
    }
    assert forall c: nat | c <= first :: Used(Wide(sb), img, c) <==> Used(sb, img, c);
    OneLowest(Wide(sb), img, b, first);
  }

  lemma OneLowest(sb: Super, img: seq<Block>, b: nat, c: nat)
    requires Lowest(sb, img, b) && Lowest(sb, img, c)
    ensures b == c
  {
    hide Used, MapBlock;
    assert MapBlock(sb, b) < |img| && !Used(sb, img, b);
    assert MapBlock(sb, c) < |img| && !Used(sb, img, c);
  }

  /** One data block, which file 0 has, and one block of log. */
  function Tiny(): Super {
    Super(7, 1, 8, 1)
  }

  function TinyInodes(): seq<Inode> {
    [Inode(File, 1, [5, 0, 0, 0, 0, 0, 0, 0, 0, 0, 0])]
  }

  function TinyOwner(): map<nat, Slot> {
    map[5 := Slot(0, 0)]
  }

  lemma LogBlockExample(img: seq<Block>)
    requires |img| == 7 && BitsBelow(img[4], 6)
    ensures Ownership(Tiny(), img, TinyInodes(), TinyOwner(), {}) && DiskFull(Tiny(), TinyOwner())
    ensures LogBitClear(Tiny(), img)
  {
    assert FirstData(Tiny()) == 5 && MapBlock(Tiny(), 0) == 4;
    MapMade(Tiny(), img, 6);
    FullImage(Tiny(), img, TinyOwner());
    TinyOwned(img);
  }

  lemma TinyOwned(img: seq<Block>)
    requires |img| == 7
    ensures Shape(Tiny(), img, TinyInodes()) && Owned(Tiny(), img, TinyInodes(), TinyOwner())
  {
    forall x | 0 <= x < NSLOT ensures Ref(img, TinyInodes()[0], x) == if x == 0 then 5 else 0 { }
  }
}
