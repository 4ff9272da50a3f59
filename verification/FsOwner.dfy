/** Who owns which disk block: the free map against the block lists of all inodes. */
module FsOwner {
  import opened Basics
  import opened Bytes
  import opened FsFormat

  datatype Super = Super(size: nat, nblocks: nat, ninodes: nat, nlog: nat)
  datatype FileType = Free | Dir | File | Dev
  /** addrs[..NDIRECT] are data blocks, addrs[NDIRECT] is the indirect block; 0 is none. */
  datatype Inode = Inode(typ: FileType, size: nat, addrs: seq<nat>)

  /** A place that names a block: 0..NDIRECT are the words of addrs, NDIRECT+1+k is word k of
      the indirect block. */
  datatype Slot = Slot(inum: nat, idx: nat)

  const NSLOT: nat := NDIRECT + 1 + NINDIRECT

  function FirstData(sb: Super): nat { 4 + sb.ninodes / IPB + sb.size / BPB }

  predicate ValidSuper(sb: Super) {
    FirstData(sb) + sb.nblocks + sb.nlog == sb.size < UINT
  }

  /** valid_data_block() */
  predicate IsData(sb: Super, b: nat) { FirstData(sb) <= b < FirstData(sb) + sb.nblocks }

  /** The log region, at the end of the disk. */
  predicate IsLog(sb: Super, b: nat) { FirstData(sb) + sb.nblocks <= b < sb.size }

  /** BBLOCK(b, ninodes) */
  function MapBlock(sb: Super, b: nat): nat { b / BPB + sb.ninodes / IPB + 3 }

  /** IBLOCK(inum) */
  function InodeBlock(inum: nat): nat { inum / IPB + 2 }

  predicate Used(sb: Super, img: seq<Block>, b: nat)
    requires MapBlock(sb, b) < |img|
  {
    HasBit(img[MapBlock(sb, b)], ByteNo(b), BitNo(b))
  }

  /** Where the bit of block b is in its bitmap block. */
  function ByteNo(b: nat): (x: nat)
    ensures x < BSIZE
  {
    (b % BPB) / 8
  }

  function BitNo(b: nat): (k: nat)
    ensures k < 8
  {
    b % 8
  }

  predicate HasBit(bits: Block, x: nat, k: nat)
    requires x < BSIZE && k < 8
  {
    Bit(bits[x], k)
  }

  function WithBit(bits: Block, x: nat, k: nat, used: bool): Block
    requires x < BSIZE && k < 8
  {
    bits[x := SetBit(bits[x], k, used)]
  }

  lemma WithBitHas(bits: Block, x: nat, k: nat, used: bool, y: nat, j: nat)
    requires x < BSIZE && k < 8 && y < BSIZE && j < 8
    ensures HasBit(WithBit(bits, x, k, used), y, j) == if x == y && k == j then used else HasBit(bits, y, j)
  {
    hide Bit, SetBit;
    if x == y { BitOfSetBit(bits[x], k, used, j); }
  }

  function Marked(sb: Super, img: seq<Block>, b: nat, used: bool): (r: seq<Block>)
    requires MapBlock(sb, b) < |img|
    ensures |r| == |img|
  {
    var m := MapBlock(sb, b);
    img[m := WithBit(img[m], ByteNo(b), BitNo(b), used)]
  }

  /** Setting or clearing the bit of b changes that bit and nothing else. */
  lemma MarkedUsed(sb: Super, img: seq<Block>, b: nat, used: bool, c: nat)
    requires MapBlock(sb, b) < |img| && MapBlock(sb, c) < |img|
    ensures Used(sb, Marked(sb, img, b, used), c) == if c == b then used else Used(sb, img, c)
  {
    hide HasBit, WithBit, ByteNo, BitNo, MapBlock;
    WithBitHas(img[MapBlock(sb, b)], ByteNo(b), BitNo(b), used, ByteNo(c), BitNo(c));
    if MapBlock(sb, b) == MapBlock(sb, c) && ByteNo(b) == ByteNo(c) && BitNo(b) == BitNo(c) { SameBit(sb, b, c); }
  }

  lemma SameBit(sb: Super, b: nat, c: nat)
    requires MapBlock(sb, b) == MapBlock(sb, c) && ByteNo(b) == ByteNo(c) && BitNo(b) == BitNo(c)
    ensures b == c
  {
    BlockParts(b);
    BlockParts(c);
    hide ByteNo, BitNo;
  }

  lemma BlockParts(b: nat)
    ensures b == b / BPB * BPB + ByteNo(b) * 8 + BitNo(b)
  {
    assert b == b / BPB * BPB + b % BPB;
  }

  lemma MapBlockRange(sb: Super, b: nat)
    requires ValidSuper(sb) && b < sb.size
    ensures MapBlock(sb, b) < FirstData(sb) <= sb.size
  {
    assert b / BPB <= sb.size / BPB;
  }

  predicate InodeOk(img: seq<Block>, ip: Inode) {
    |ip.addrs| == NDIRECT + 1 && ip.addrs[NDIRECT] < |img|
  }

  function Ref(img: seq<Block>, ip: Inode, idx: nat): (b: nat)
    requires InodeOk(img, ip) && idx < NSLOT
  {
    if idx <= NDIRECT then ip.addrs[idx]
    else if ip.addrs[NDIRECT] == 0 then 0
    else Word(img[ip.addrs[NDIRECT]], idx - NDIRECT - 1)
  }

  ghost predicate Shape(sb: Super, img: seq<Block>, ino: seq<Inode>) {
    && ValidSuper(sb) && |img| == sb.size
    && forall i | 0 <= i < |ino| :: InodeOk(img, ino[i])
  }

  /** Every block an inode names is owned by exactly that place, and every owned block is a
      data block named by its owner. */
  ghost predicate Owned(sb: Super, img: seq<Block>, ino: seq<Inode>, owner: map<nat, Slot>)
    requires Shape(sb, img, ino)
  {
    && (forall i, x | 0 <= i < |ino| && 0 <= x < NSLOT && Ref(img, ino[i], x) != 0 ::
          Ref(img, ino[i], x) in owner && owner[Ref(img, ino[i], x)] == Slot(i, x))
    && (forall b | b in owner :: IsData(sb, b) && owner[b].inum < |ino| && owner[b].idx < NSLOT
          && Ref(img, ino[owner[b].inum], owner[b].idx) == b)
  }

  /** The free map: metadata blocks are marked, and a data block is marked exactly when some inode owns it or
      it is in hand (allocated, not yet linked or freed). Nothing is said of the bits of the log region:
      mkfs leaves them clear. */
  ghost predicate Mapped(sb: Super, img: seq<Block>, owner: map<nat, Slot>, inHand: set<nat>)
    requires ValidSuper(sb) && |img| == sb.size
  {
    && (forall b | 0 <= b < sb.size :: MapBlock(sb, b) < |img| && MarkOk(sb, img, owner, inHand, b))
    && (forall b | b in inHand :: IsData(sb, b) && b !in owner)
  }

  ghost predicate MarkOk(sb: Super, img: seq<Block>, owner: map<nat, Slot>, inHand: set<nat>, b: nat)
    requires MapBlock(sb, b) < |img|
  {
    && (b < FirstData(sb) ==> Used(sb, img, b))
    && (IsData(sb, b) ==> (Used(sb, img, b) <==> b in owner || b in inHand))
  }

  ghost predicate Ownership(sb: Super, img: seq<Block>, ino: seq<Inode>, owner: map<nat, Slot>, inHand: set<nat>) {
    Shape(sb, img, ino) && Owned(sb, img, ino, owner) && Mapped(sb, img, owner, inHand)
  }

  /** Place x of inode i names block b. */
  ghost predicate NamedBy(img: seq<Block>, ino: seq<Inode>, b: nat, i: nat, x: nat) {
    i < |ino| && x < NSLOT && InodeOk(img, ino[i]) && Ref(img, ino[i], x) == b
  }

  /** The bitmap says of a data block whether some inode names it, and no two places name the same. */
  lemma BitmapExact(sb: Super, img: seq<Block>, ino: seq<Inode>, owner: map<nat, Slot>, b: nat)
    requires Ownership(sb, img, ino, owner, {}) && IsData(sb, b) && b < sb.size && b != 0
    ensures MapBlock(sb, b) < |img| && (Used(sb, img, b) <==> exists i: nat, x: nat :: NamedBy(img, ino, b, i, x))
    ensures forall i: nat, x: nat, j: nat, y: nat | NamedBy(img, ino, b, i, x) && NamedBy(img, ino, b, j, y) ::
      i == j && x == y
  {
    hide Ref, HasBit, MapBlock;
    if Used(sb, img, b) {
      assert b in owner;
      assert NamedBy(img, ino, b, owner[b].inum, owner[b].idx);
    }
    forall i: nat, x: nat | NamedBy(img, ino, b, i, x) ensures b in owner && owner[b] == Slot(i, x) {
      assert Ref(img, ino[i], x) in owner;
    }
  }

  // ------------------------------------------------- the log region as data blocks

  /** The disk as balloc() of the kernel sees it: it looks at the bits of all blocks, and the log region is what
      comes after the data blocks. */
  function Wide(sb: Super): Super {
    sb.(nblocks := sb.nblocks + sb.nlog, nlog := 0)
  }

  /** With the bits of the log region clear, its blocks are free data blocks to the kernel. */
  lemma WideOwnership(sb: Super, img: seq<Block>, ino: seq<Inode>, owner: map<nat, Slot>, inHand: set<nat>)
    requires Ownership(sb, img, ino, owner, inHand)
    requires forall b: nat | IsLog(sb, b) :: MapBlock(sb, b) < |img| && !Used(sb, img, b)
    ensures Ownership(Wide(sb), img, ino, owner, inHand)
  {
    hide Ref, HasBit, ByteNo, BitNo;
    forall b: nat | b < sb.size ensures MapBlock(Wide(sb), b) < |img| && MarkOk(Wide(sb), img, owner, inHand, b) {
      assert MarkOk(sb, img, owner, inHand, b);
    }
  }

  // ------------------------------------------------- what keeps the references

  /** Two images that agree on all owned blocks name the same blocks. */
  lemma SameRefs(sb: Super, img: seq<Block>, img': seq<Block>, ino: seq<Inode>, owner: map<nat, Slot>)
    requires Shape(sb, img, ino) && Owned(sb, img, ino, owner) && |img'| == |img|
    requires forall b | b in owner :: img'[b] == img[b]
    ensures Shape(sb, img', ino) && Owned(sb, img', ino, owner)
    ensures forall i, x | 0 <= i < |ino| && 0 <= x < NSLOT :: Ref(img', ino[i], x) == Ref(img, ino[i], x)
  {
    assert forall i | 0 <= i < |ino| :: InodeOk(img', ino[i]);
    forall i, x | 0 <= i < |ino| && 0 <= x < NSLOT ensures Ref(img', ino[i], x) == Ref(img, ino[i], x) {
      assert Ref(img, ino[i], NDIRECT) == ino[i].addrs[NDIRECT];
    }
  }

  /** balloc() marks b and clears it. */
  lemma Taken(sb: Super, img: seq<Block>, ino: seq<Inode>, owner: map<nat, Slot>, inHand: set<nat>, b: nat)
    requires Ownership(sb, img, ino, owner, inHand) && IsData(sb, b) && !Used(sb, img, b)
    ensures var img' := Marked(sb, img, b, true)[b := ZEROS];
      && Ownership(sb, img', ino, owner, inHand + {b})
      && (forall x | x in owner || x in inHand :: img'[x] == img[x])
  {
    hide Ref, HasBit, WithBit, ByteNo, BitNo, MapBlock, FirstData;
    MapBlockRange(sb, b);
    var img' := Marked(sb, img, b, true)[b := ZEROS];
    assert MarkOk(sb, img, owner, inHand, b) && b !in owner && b !in inHand;
    SameRefs(sb, img, img', ino, owner);
    forall c | 0 <= c < sb.size
      ensures MapBlock(sb, c) < |img'| && MarkOk(sb, img', owner, inHand + {b}, c)
    {
      MapBlockRange(sb, c);
      MarkedUsed(sb, img, b, true, c);
      assert MarkOk(sb, img, owner, inHand, c);
      assert img'[MapBlock(sb, c)] == Marked(sb, img, b, true)[MapBlock(sb, c)];
    }
  }

  /** balloc() marks and clears a block of the log region, which nobody owns. */
  lemma LogTaken(sb: Super, img: seq<Block>, ino: seq<Inode>, owner: map<nat, Slot>, inHand: set<nat>, b: nat)
    requires Ownership(sb, img, ino, owner, inHand) && IsLog(sb, b)
    ensures MapBlock(sb, b) < |img|
    ensures var img' := Marked(sb, img, b, true)[b := ZEROS];
      && Ownership(sb, img', ino, owner, inHand)
      && (forall x | x in owner || x in inHand :: img'[x] == img[x])
  {
    MapBlockRange(sb, b);
    var img' := Marked(sb, img, b, true)[b := ZEROS];
    SameRefs(sb, img, img', ino, owner);
    forall c | 0 <= c < sb.size ensures MapBlock(sb, c) < |img'| && MarkOk(sb, img', owner, inHand, c) {
      MapBlockRange(sb, c);
      MarkedUsed(sb, img, b, true, c);
      assert MarkOk(sb, img, owner, inHand, c);
      assert img'[MapBlock(sb, c)] == Marked(sb, img, b, true)[MapBlock(sb, c)];
    }
  }

  /** bfree() unmarks a block in hand. */
  lemma Freed(sb: Super, img: seq<Block>, ino: seq<Inode>, owner: map<nat, Slot>, inHand: set<nat>, b: nat)
    requires Ownership(sb, img, ino, owner, inHand) && b in inHand
    ensures Used(sb, img, b)
    ensures var img' := Marked(sb, img, b, false);
      && Ownership(sb, img', ino, owner, inHand - {b})
      && (forall x | 0 <= x < |img| && IsData(sb, x) :: img'[x] == img[x])
  {
    var img' := Marked(sb, img, b, false);
    MapBlockRange(sb, b);
    SameRefs(sb, img, img', ino, owner);
    forall c | 0 <= c < sb.size
      ensures MapBlock(sb, c) < |img'| && MarkOk(sb, img', owner, inHand - {b}, c)
    {
      MapBlockRange(sb, c);
      MarkedUsed(sb, img, b, false, c);
    }
  }

  // ------------------------------------------------- linking and unlinking

  /** All places but one name the same blocks as before. */
  ghost predicate SameRefsBut(img: seq<Block>, ino: seq<Inode>, img': seq<Block>, ino': seq<Inode>, inum: nat, idx: nat)
    requires forall i | 0 <= i < |ino| :: InodeOk(img, ino[i])
    requires forall i | 0 <= i < |ino'| :: InodeOk(img', ino'[i])
  {
    && |ino'| == |ino|
    && forall i, x | 0 <= i < |ino| && 0 <= x < NSLOT && !(i == inum && x == idx) ::
       Ref(img', ino'[i], x) == Ref(img, ino[i], x)
  }

  lemma OwnedGains(sb: Super, img: seq<Block>, ino: seq<Inode>, img': seq<Block>, ino': seq<Inode>,
      owner: map<nat, Slot>, inum: nat, idx: nat, b: nat)
    requires Shape(sb, img, ino) && Shape(sb, img', ino') && Owned(sb, img, ino, owner) && inum < |ino| && idx < NSLOT
    requires SameRefsBut(img, ino, img', ino', inum, idx) && b !in owner && IsData(sb, b)
    requires Ref(img, ino[inum], idx) == 0 && Ref(img', ino'[inum], idx) == b
    ensures Owned(sb, img', ino', owner[b := Slot(inum, idx)])
  {
    hide Ref;
  }

  lemma OwnedLoses(sb: Super, img: seq<Block>, ino: seq<Inode>, img': seq<Block>, ino': seq<Inode>,
      owner: map<nat, Slot>, inum: nat, idx: nat, b: nat)
    requires Shape(sb, img, ino) && Shape(sb, img', ino') && Owned(sb, img, ino, owner) && inum < |ino| && idx < NSLOT
    requires SameRefsBut(img, ino, img', ino', inum, idx)
    requires Ref(img, ino[inum], idx) == b != 0 && Ref(img', ino'[inum], idx) == 0
    ensures b in owner && Owned(sb, img', ino', owner - {b})
  {
    hide Ref;
    assert owner[b] == Slot(inum, idx);
  }

  /** Writing a data block leaves the free map alone. */
  lemma SameMap(sb: Super, img: seq<Block>, ind: nat, data: Block, owner: map<nat, Slot>, inHand: set<nat>)
    requires ValidSuper(sb) && |img| == sb.size && Mapped(sb, img, owner, inHand) && IsData(sb, ind)
    ensures Mapped(sb, img[ind := data], owner, inHand)
  {
    forall c | 0 <= c < sb.size ensures Used(sb, img[ind := data], c) == Used(sb, img, c) {
      MapBlockRange(sb, c);
    }
  }

  lemma MapGains(sb: Super, img: seq<Block>, owner: map<nat, Slot>, inHand: set<nat>, b: nat, slot: Slot)
    requires ValidSuper(sb) && |img| == sb.size && Mapped(sb, img, owner, inHand) && b in inHand
    ensures Mapped(sb, img, owner[b := slot], inHand - {b})
  { }

  lemma MapLoses(sb: Super, img: seq<Block>, owner: map<nat, Slot>, inHand: set<nat>, b: nat)
    requires ValidSuper(sb) && |img| == sb.size && Mapped(sb, img, owner, inHand) && b in owner && IsData(sb, b)
    ensures Mapped(sb, img, owner - {b}, inHand + {b})
  { }

  function WithAddr(ip: Inode, idx: nat, b: nat): Inode
    requires idx < |ip.addrs|
  {
    ip.(addrs := ip.addrs[idx := b])
  }

  /** A changed word of addrs; for the indirect word, both the old and the new block list no entries. */
  lemma AddrChanged(img: seq<Block>, ino: seq<Inode>, inum: nat, idx: nat, b: nat)
    requires (forall i | 0 <= i < |ino| :: InodeOk(img, ino[i])) && inum < |ino| && InodeOk(img, ino[inum])
      && idx <= NDIRECT && b < |img|
    requires idx == NDIRECT ==> forall x | NDIRECT < x < NSLOT :: Ref(img, ino[inum], x) == 0
    requires idx == NDIRECT && b != 0 ==> img[b] == ZEROS
    ensures var ino' := ino[inum := WithAddr(ino[inum], idx, b)];
      && (forall i | 0 <= i < |ino'| :: InodeOk(img, ino'[i]))
      && SameRefsBut(img, ino, img, ino', inum, idx) && Ref(img, ino'[inum], idx) == b
  {
    forall k | 0 <= k < NINDIRECT ensures Word(ZEROS, k) == 0 { WordOfZeros(k); }
  }

  /** addrs[idx] = b for a block in hand; an indirect block comes zeroed. */
  lemma Linked(sb: Super, img: seq<Block>, ino: seq<Inode>, owner: map<nat, Slot>, inHand: set<nat>, inum: nat,
      idx: nat, b: nat)
    requires Ownership(sb, img, ino, owner, inHand) && b in inHand && inum < |ino| && idx <= NDIRECT
    requires ino[inum].addrs[idx] == 0 && (idx == NDIRECT ==> img[b] == ZEROS)
    ensures var ino' := ino[inum := WithAddr(ino[inum], idx, b)];
      && Ownership(sb, img, ino', owner[b := Slot(inum, idx)], inHand - {b})
      && SameRefsBut(img, ino, img, ino', inum, idx)
  {
    AddrChanged(img, ino, inum, idx, b);
    OwnedGains(sb, img, ino, img, ino[inum := WithAddr(ino[inum], idx, b)], owner, inum, idx, b);
    MapGains(sb, img, owner, inHand, b, Slot(inum, idx));
  }

  /** addrs[idx] = 0: the block is in hand again. An indirect block goes last. */
  lemma Unlinked(sb: Super, img: seq<Block>, ino: seq<Inode>, owner: map<nat, Slot>, inHand: set<nat>, inum: nat,
      idx: nat)
    requires Ownership(sb, img, ino, owner, inHand) && inum < |ino| && idx <= NDIRECT && ino[inum].addrs[idx] != 0
    requires idx == NDIRECT ==> forall x | NDIRECT < x < NSLOT :: Ref(img, ino[inum], x) == 0
    ensures var b, ino' := ino[inum].addrs[idx], ino[inum := WithAddr(ino[inum], idx, 0)];
      && Ownership(sb, img, ino', owner - {b}, inHand + {b})
      && SameRefsBut(img, ino, img, ino', inum, idx)
  {
    var b := ino[inum].addrs[idx];
    assert Ref(img, ino[inum], idx) == b;
    AddrChanged(img, ino, inum, idx, 0);
    OwnedLoses(sb, img, ino, img, ino[inum := WithAddr(ino[inum], idx, 0)], owner, inum, idx, b);
    MapLoses(sb, img, owner, inHand, b);
  }

  /** Writing word k of the indirect block of inum changes that reference only. */
  lemma EntryChanged(sb: Super, img: seq<Block>, ino: seq<Inode>, owner: map<nat, Slot>, inum: nat, k: nat, b: nat)
    requires Shape(sb, img, ino) && Owned(sb, img, ino, owner) && inum < |ino| && k < NINDIRECT && b < UINT
    requires ino[inum].addrs[NDIRECT] != 0
    ensures var ind := ino[inum].addrs[NDIRECT];
      var img' := img[ind := SetWord(img[ind], k, b)];
      && IsData(sb, ind) && Shape(sb, img', ino)
      && SameRefsBut(img, ino, img', ino, inum, NDIRECT + 1 + k) && Ref(img', ino[inum], NDIRECT + 1 + k) == b
  {
    hide SetWord, Digits;
    var ind := ino[inum].addrs[NDIRECT];
    assert Ref(img, ino[inum], NDIRECT) == ind;
    var img' := img[ind := SetWord(img[ind], k, b)];
    forall i, x | 0 <= i < |ino| && 0 <= x < NSLOT
      ensures Ref(img', ino[i], x) == if i == inum && x == NDIRECT + 1 + k then b else Ref(img, ino[i], x)
    {
      assert Ref(img, ino[i], NDIRECT) == ino[i].addrs[NDIRECT];
      if x > NDIRECT && ino[i].addrs[NDIRECT] == ind { WordOfSet(img[ind], k, b, x - NDIRECT - 1); }
    }
  }

  /** a[k] = b in the indirect block, for a block in hand. */
  lemma EntryLinked(sb: Super, img: seq<Block>, ino: seq<Inode>, owner: map<nat, Slot>, inHand: set<nat>, inum: nat,
      k: nat, b: nat)
    requires Ownership(sb, img, ino, owner, inHand) && b in inHand && inum < |ino| && k < NINDIRECT
    requires ino[inum].addrs[NDIRECT] != 0 && Ref(img, ino[inum], NDIRECT + 1 + k) == 0
    ensures var ind := ino[inum].addrs[NDIRECT];
      var img' := img[ind := SetWord(img[ind], k, b)];
      && Ownership(sb, img', ino, owner[b := Slot(inum, NDIRECT + 1 + k)], inHand - {b})
      && SameRefsBut(img, ino, img', ino, inum, NDIRECT + 1 + k)
  {
    hide Mapped, SetWord, Word;
    InHandIsData(sb, img, owner, inHand, b);
    EntryChanged(sb, img, ino, owner, inum, k, b);
    var ind := ino[inum].addrs[NDIRECT];
    var img' := img[ind := SetWord(img[ind], k, b)];
    OwnedGains(sb, img, ino, img', ino, owner, inum, NDIRECT + 1 + k, b);
    SameMap(sb, img, ind, SetWord(img[ind], k, b), owner, inHand);
    MapGains(sb, img', owner, inHand, b, Slot(inum, NDIRECT + 1 + k));
  }

  lemma InHandIsData(sb: Super, img: seq<Block>, owner: map<nat, Slot>, inHand: set<nat>, b: nat)
    requires ValidSuper(sb) && |img| == sb.size && Mapped(sb, img, owner, inHand) && b in inHand
    ensures IsData(sb, b) && b !in owner && b < sb.size
  { }

  /** a[k] = 0 in the indirect block: the block is in hand again. */
  lemma EntryUnlinked(sb: Super, img: seq<Block>, ino: seq<Inode>, owner: map<nat, Slot>, inHand: set<nat>, inum: nat,
      k: nat)
    requires Ownership(sb, img, ino, owner, inHand) && inum < |ino| && k < NINDIRECT
    requires Ref(img, ino[inum], NDIRECT + 1 + k) != 0
    ensures var ind, b := ino[inum].addrs[NDIRECT], Ref(img, ino[inum], NDIRECT + 1 + k);
      var img' := img[ind := SetWord(img[ind], k, 0)];
      && Ownership(sb, img', ino, owner - {b}, inHand + {b})
      && SameRefsBut(img, ino, img', ino, inum, NDIRECT + 1 + k)
  {
    hide Mapped, SetWord, Word;
    var ind, b := ino[inum].addrs[NDIRECT], Ref(img, ino[inum], NDIRECT + 1 + k);
    EntryChanged(sb, img, ino, owner, inum, k, 0);
    var img' := img[ind := SetWord(img[ind], k, 0)];
    OwnedLoses(sb, img, ino, img', ino, owner, inum, NDIRECT + 1 + k, b);
    SameMap(sb, img, ind, SetWord(img[ind], k, 0), owner, inHand);
    MapLoses(sb, img', owner, inHand, b);
  }

  /** The indirect block and the blocks it lists. */
  ghost function Tree(img: seq<Block>, ip: Inode): set<nat>
    requires InodeOk(img, ip)
  {
    set x: nat | NDIRECT <= x < NSLOT && Ref(img, ip, x) != 0 :: Ref(img, ip, x)
  }

  /** addrs[NDIRECT] = 0 with entries still listed: the whole tree is in hand. */
  lemma TreeUnlinked(sb: Super, img: seq<Block>, ino: seq<Inode>, owner: map<nat, Slot>, inHand: set<nat>, inum: nat)
    requires Ownership(sb, img, ino, owner, inHand) && inum < |ino| && InodeOk(img, ino[inum])
    ensures var ino' := ino[inum := WithAddr(ino[inum], NDIRECT, 0)];
      && Ownership(sb, img, ino', owner - Tree(img, ino[inum]), inHand + Tree(img, ino[inum]))
      && (forall x | NDIRECT <= x < NSLOT :: Ref(img, ino'[inum], x) == 0)
      && (forall x | 0 <= x < NDIRECT :: Ref(img, ino'[inum], x) == Ref(img, ino[inum], x))
  {
    var tree, ino' := Tree(img, ino[inum]), ino[inum := WithAddr(ino[inum], NDIRECT, 0)];
    var owner' := owner - tree;
    assert Shape(sb, img, ino');
    forall b | b in tree ensures b in owner && owner[b].inum == inum && owner[b].idx >= NDIRECT && IsData(sb, b) { }
    forall i, x | 0 <= i < |ino'| && 0 <= x < NSLOT && Ref(img, ino'[i], x) != 0
      ensures Ref(img, ino'[i], x) in owner' && owner'[Ref(img, ino'[i], x)] == Slot(i, x)
    {
      assert Ref(img, ino'[i], x) == Ref(img, ino[i], x);
    }
    forall b | b in owner' ensures Ref(img, ino'[owner'[b].inum], owner'[b].idx) == b {
      var s := owner[b];
      assert Ref(img, ino[s.inum], s.idx) == b;
      assert !(s.inum == inum && s.idx >= NDIRECT);
    }
  }
}
