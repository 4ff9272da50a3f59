/** What a file holds: its block list read as a byte sequence. */
module FsContent {
  import opened Bytes
  import opened FsFormat
  import opened FsOwner

  /** The place that names file block i. */
  function Idx(i: nat): nat { if i < NDIRECT then i else i + 1 }

  function BlockAt(img: seq<Block>, ip: Inode, i: nat): nat
    requires InodeOk(img, ip) && i < MAXFILE
  {
    Ref(img, ip, Idx(i))
  }

  /** Exactly the first n file blocks are allocated, and the indirect block when they need it. */
  ghost predicate Allocated(img: seq<Block>, ip: Inode, n: nat)
    requires InodeOk(img, ip)
  {
    && n <= MAXFILE
    && (forall i | 0 <= i < MAXFILE :: BlockAt(img, ip, i) != 0 <==> i < n)
    && (forall i | 0 <= i < MAXFILE :: BlockAt(img, ip, i) < |img|)
    && (ip.addrs[NDIRECT] != 0 <==> n > NDIRECT)
  }

  /** A file without holes: block i is allocated if and only if it holds some byte of the file. */
  ghost predicate NoHoles(img: seq<Block>, ip: Inode)
    requires InodeOk(img, ip)
  {
    ip.size <= MAXFILE * BSIZE && Allocated(img, ip, Blocks(ip.size))
  }

  /** Byte k of the blocks of a file. */
  function ByteAt(img: seq<Block>, ip: Inode, k: nat): Byte
    requires InodeOk(img, ip) && k / BSIZE < MAXFILE && BlockAt(img, ip, k / BSIZE) < |img|
  {
    img[BlockAt(img, ip, k / BSIZE)][k % BSIZE]
  }

  ghost function Content(img: seq<Block>, ip: Inode): (c: seq<Byte>)
    requires InodeOk(img, ip) && NoHoles(img, ip)
    ensures |c| == ip.size
  {
    seq(ip.size, k requires 0 <= k < ip.size => ByteAt(img, ip, k))
  }

  /** Every allocated block of every file stays where it is and keeps its data. */
  ghost predicate KeepsBlocks(img: seq<Block>, ino: seq<Inode>, img': seq<Block>, ino': seq<Inode>)
    requires forall i | 0 <= i < |ino| :: InodeOk(img, ino[i])
    requires forall i | 0 <= i < |ino'| :: InodeOk(img', ino'[i])
  {
    && |ino'| == |ino| && |img'| == |img|
    && forall i, k | 0 <= i < |ino| && 0 <= k < MAXFILE && BlockAt(img, ino[i], k) != 0
    && BlockAt(img, ino[i], k) < |img| ::
         && BlockAt(img', ino'[i], k) == BlockAt(img, ino[i], k)
         && img'[BlockAt(img, ino[i], k)] == img[BlockAt(img, ino[i], k)]
  }

  /** New links and a rewritten indirect block leave all file blocks alone. */
  lemma LinkKeepsBlocks(sb: Super, img: seq<Block>, ino: seq<Inode>, img': seq<Block>, ino': seq<Inode>,
      owner: map<nat, Slot>, inum: nat, idx: nat, ind: nat)
    requires Shape(sb, img, ino) && Shape(sb, img', ino') && Owned(sb, img, ino, owner) && inum < |ino| && idx < NSLOT
    requires SameRefsBut(img, ino, img', ino', inum, idx) && Ref(img, ino[inum], idx) == 0
    requires ind in owner ==> owner[ind].idx == NDIRECT
    requires forall b | b in owner && b != ind :: img'[b] == img[b]
    ensures KeepsBlocks(img, ino, img', ino')
  { }

  /** bmap() after balloc() gave b: word k of the indirect block names it. */
  lemma EntryAllocated(sb: Super, img0: seq<Block>, img: seq<Block>, ino: seq<Inode>, owner: map<nat, Slot>,
      inum: nat, k: nat, b: nat)
    requires Shape(sb, img0, ino) && Owned(sb, img0, ino, owner) && Ownership(sb, img, ino, owner, {b})
      && inum < |ino| && k < NINDIRECT
    requires forall x | x in owner :: img[x] == img0[x]
    requires b !in owner && b < |img| && ino[inum].addrs[NDIRECT] != 0 && Ref(img0, ino[inum], NDIRECT + 1 + k) == 0
    ensures var ind := ino[inum].addrs[NDIRECT];
      var img' := img[ind := SetWord(img[ind], k, b)];
      && ind != b
      && Ownership(sb, img', ino, owner[b := Slot(inum, NDIRECT + 1 + k)], {})
      && Ref(img', ino[inum], NDIRECT + 1 + k) == b
      && SameRefsBut(img0, ino, img', ino, inum, NDIRECT + 1 + k)
      && KeepsBlocks(img0, ino, img', ino)
  {
    hide Mapped, SetWord, Word;
    SameRefs(sb, img0, img, ino, owner);
    var ind := ino[inum].addrs[NDIRECT];
    assert Ref(img, ino[inum], NDIRECT) == ind;
    EntryLinked(sb, img, ino, owner, {b}, inum, k, b);
    EntryChanged(sb, img, ino, owner, inum, k, b);
    assert {b} - {b} == {};
    LinkKeepsBlocks(sb, img0, ino, img[ind := SetWord(img[ind], k, b)], ino, owner, inum, NDIRECT + 1 + k, ind);
  }

  lemma SameBlocks(img: seq<Block>, ino: seq<Inode>)
    requires forall i | 0 <= i < |ino| :: InodeOk(img, ino[i])
    ensures KeepsBlocks(img, ino, img, ino)
  { }

  /** Writing blocks that no inode names leaves all files alone. */
  lemma UnownedWritten(sb: Super, img: seq<Block>, ino: seq<Inode>, owner: map<nat, Slot>, img': seq<Block>,
      inum: nat, idx: nat)
    requires Shape(sb, img, ino) && Owned(sb, img, ino, owner) && |img'| == |img|
    requires forall b | b in owner :: img'[b] == img[b]
    ensures Shape(sb, img', ino) && KeepsBlocks(img, ino, img', ino) && SameRefsBut(img, ino, img', ino, inum, idx)
  {
    SameRefs(sb, img, img', ino, owner);
  }

  lemma KeepsBlocksTrans(a: seq<Block>, i: seq<Inode>, b: seq<Block>, j: seq<Inode>, c: seq<Block>, k: seq<Inode>)
    requires (forall x | 0 <= x < |i| :: InodeOk(a, i[x])) && (forall x | 0 <= x < |j| :: InodeOk(b, j[x]))
      && (forall x | 0 <= x < |k| :: InodeOk(c, k[x]))
    requires KeepsBlocks(a, i, b, j) && KeepsBlocks(b, j, c, k)
    ensures KeepsBlocks(a, i, c, k)
  { }

  /** m is one of the bitmap blocks. */
  predicate IsMap(sb: Super, m: nat) { MapBlock(sb, 0) <= m <= MapBlock(sb, sb.size) }

  lemma MapBlockIsMap(sb: Super, b: nat)
    requires b < sb.size
    ensures IsMap(sb, MapBlock(sb, b))
  {
    assert b / BPB <= sb.size / BPB;
  }

  /** Exactly file block bn of inode inum is new. */
  ghost predicate OnlyNew(img: seq<Block>, ino: seq<Inode>, img': seq<Block>, ino': seq<Inode>, inum: nat, bn: nat)
    requires forall i | 0 <= i < |ino| :: InodeOk(img, ino[i])
    requires forall i | 0 <= i < |ino'| :: InodeOk(img', ino'[i])
  {
    && |ino'| == |ino|
    && forall i, k | 0 <= i < |ino| && 0 <= k < MAXFILE && !(i == inum && k == bn) ::
       BlockAt(img', ino'[i], k) == BlockAt(img, ino[i], k)
  }

  lemma OnlyNewTrans(a: seq<Block>, i: seq<Inode>, b: seq<Block>, j: seq<Inode>, c: seq<Block>, k: seq<Inode>,
      inum: nat, bn: nat)
    requires (forall x | 0 <= x < |i| :: InodeOk(a, i[x])) && (forall x | 0 <= x < |j| :: InodeOk(b, j[x]))
      && (forall x | 0 <= x < |k| :: InodeOk(c, k[x]))
    requires OnlyNew(a, i, b, j, inum, bn) && OnlyNew(b, j, c, k, inum, bn)
    ensures OnlyNew(a, i, c, k, inum, bn)
  {
    hide Ref;
  }

  lemma NothingNew(img: seq<Block>, ino: seq<Inode>, inum: nat, bn: nat)
    requires forall i | 0 <= i < |ino| :: InodeOk(img, ino[i])
    ensures KeepsBlocks(img, ino, img, ino) && OnlyNew(img, ino, img, ino, inum, bn)
  { }

  lemma RefInRange(sb: Super, img: seq<Block>, ino: seq<Inode>, owner: map<nat, Slot>, inum: nat, idx: nat)
    requires Ownership(sb, img, ino, owner, {}) && inum < |ino| && InodeOk(img, ino[inum]) && idx < NSLOT
    ensures Ref(img, ino[inum], idx) < |img|
  { }

  lemma OnlyNewOfRefs(img: seq<Block>, ino: seq<Inode>, img': seq<Block>, ino': seq<Inode>, inum: nat, bn: nat,
      idx: nat)
    requires (forall i | 0 <= i < |ino| :: InodeOk(img, ino[i]))
      && (forall i | 0 <= i < |ino'| :: InodeOk(img', ino'[i]))
    requires bn < MAXFILE && SameRefsBut(img, ino, img', ino', inum, idx) && (idx == NDIRECT || idx == Idx(bn))
    ensures OnlyNew(img, ino, img', ino', inum, bn)
  { }

  lemma AllocatedGrows(img: seq<Block>, ino: seq<Inode>, img': seq<Block>, ino': seq<Inode>, inum: nat, bn: nat)
    requires (forall i | 0 <= i < |ino| :: InodeOk(img, ino[i]))
      && (forall i | 0 <= i < |ino'| :: InodeOk(img', ino'[i]))
    requires OnlyNew(img, ino, img', ino', inum, bn) && inum < |ino| && bn < MAXFILE && |img'| == |img|
    requires Allocated(img, ino[inum], bn) && 0 < BlockAt(img', ino'[inum], bn) < |img'|
    requires bn < NDIRECT ==> ino'[inum].addrs[NDIRECT] == ino[inum].addrs[NDIRECT]
    requires bn >= NDIRECT ==> ino'[inum].addrs[NDIRECT] != 0
    ensures Allocated(img', ino'[inum], bn + 1)
  {
    forall k | 0 <= k < MAXFILE
      ensures (BlockAt(img', ino'[inum], k) != 0 <==> k < bn + 1) && BlockAt(img', ino'[inum], k) < |img'|
    {
      if k != bn { assert BlockAt(img', ino'[inum], k) == BlockAt(img, ino[inum], k); }
    }
  }

  lemma AllocatedKept(img: seq<Block>, ino: seq<Inode>, img': seq<Block>, ino': seq<Inode>, inum: nat, bn: nat,
      j: nat, n: nat)
    requires (forall i | 0 <= i < |ino| :: InodeOk(img, ino[i]))
      && (forall i | 0 <= i < |ino'| :: InodeOk(img', ino'[i]))
    requires OnlyNew(img, ino, img', ino', inum, bn) && j < |ino| && j != inum && ino'[j] == ino[j] && |img'| == |img|
    requires Allocated(img, ino[j], n)
    ensures Allocated(img', ino'[j], n)
  {
    forall k | 0 <= k < MAXFILE ensures BlockAt(img', ino'[j], k) == BlockAt(img, ino[j], k) { }
  }

  // ------------------------------------------------- reading and writing file blocks

  /** Writing a file block changes no reference, and the bytes of no other file block. */
  lemma DataWritten(sb: Super, img: seq<Block>, ino: seq<Inode>, owner: map<nat, Slot>, inum: nat, bn: nat, data: Block)
    requires Ownership(sb, img, ino, owner, {}) && inum < |ino| && InodeOk(img, ino[inum]) && bn < MAXFILE
      && BlockAt(img, ino[inum], bn) != 0
    ensures var b := BlockAt(img, ino[inum], bn);
      && IsData(sb, b) && b < |img| && Ownership(sb, img[b := data], ino, owner, {})
      && (forall i, x | 0 <= i < |ino| && 0 <= x < NSLOT :: Ref(img[b := data], ino[i], x) == Ref(img, ino[i], x))
      && (forall i, k | 0 <= i < |ino| && 0 <= k < MAXFILE && !(i == inum && k == bn) :: BlockAt(img, ino[i], k) != b)
  {
    hide Word;
    var b := BlockAt(img, ino[inum], bn);
    var img' := img[b := data];
    assert owner[b] == Slot(inum, Idx(bn));
    forall i, x | 0 <= i < |ino| && 0 <= x < NSLOT ensures Ref(img', ino[i], x) == Ref(img, ino[i], x) {
      assert Ref(img, ino[i], NDIRECT) == ino[i].addrs[NDIRECT];
    }
    assert Owned(sb, img', ino, owner);
    SameMap(sb, img, b, data, owner, {});
  }

  lemma SameAllocated(img: seq<Block>, img': seq<Block>, ip: Inode, n: nat)
    requires |img| == |img'| && InodeOk(img, ip) && InodeOk(img', ip) && Allocated(img, ip, n)
    requires forall x | 0 <= x < NSLOT :: Ref(img', ip, x) == Ref(img, ip, x)
    ensures Allocated(img', ip, n)
  {
    forall k | 0 <= k < MAXFILE ensures BlockAt(img', ip, k) == BlockAt(img, ip, k) { }
  }

  /** The bytes of a block list, as far as it is allocated. */
  ghost predicate SameBytes(img: seq<Block>, ip: Inode, img': seq<Block>, ip': Inode, upTo: nat)
    requires InodeOk(img, ip) && InodeOk(img', ip')
  {
    forall k | 0 <= k < upTo :: SameByte(img, ip, img', ip', k)
  }

  ghost predicate SameByte(img: seq<Block>, ip: Inode, img': seq<Block>, ip': Inode, k: nat)
    requires InodeOk(img, ip) && InodeOk(img', ip')
  {
    && k / BSIZE < MAXFILE && BlockAt(img, ip, k / BSIZE) < |img| && BlockAt(img', ip', k / BSIZE) < |img'|
    && ByteAt(img', ip', k) == ByteAt(img, ip, k)
  }

  lemma SameContent(img: seq<Block>, ip: Inode, img': seq<Block>, ip': Inode)
    requires InodeOk(img, ip) && InodeOk(img', ip') && NoHoles(img, ip) && NoHoles(img', ip') && ip.size == ip'.size
    requires SameBytes(img, ip, img', ip', ip.size)
    ensures Content(img', ip') == Content(img, ip)
  {
    forall k | 0 <= k < ip.size ensures Content(img', ip')[k] == Content(img, ip)[k] {
      assert SameByte(img, ip, img', ip', k);
    }
  }

  lemma InBlocks(k: nat, size: nat)
    requires k < size
    ensures k / BSIZE < Blocks(size)
  { }

  /** File blocks that stay put keep the bytes. */
  lemma KeptBytes(img: seq<Block>, ino: seq<Inode>, img': seq<Block>, ino': seq<Inode>, i: nat, n: nat, upTo: nat)
    requires (forall x | 0 <= x < |ino| :: InodeOk(img, ino[x]))
      && (forall x | 0 <= x < |ino'| :: InodeOk(img', ino'[x]))
    requires KeepsBlocks(img, ino, img', ino') && i < |ino| && Allocated(img, ino[i], n) && upTo <= n * BSIZE
    ensures SameBytes(img, ino[i], img', ino'[i], upTo)
  {
    forall k | 0 <= k < upTo ensures SameByte(img, ino[i], img', ino'[i], k) {
      assert k / BSIZE < n;
    }
  }
}
