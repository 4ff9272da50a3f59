/** One round of the copy loop of writei() and iwrite(), and what the rounds add up to. */
module FsWrite {
  import opened Basics
  import opened Bytes
  import opened FsFormat
  import opened FsOwner
  import opened FsContent

  /** src written over c at off; the file grows when the end lies beyond it. */
  function WriteAt(c: seq<Byte>, off: nat, src: seq<Byte>): (r: seq<Byte>)
    requires off <= |c|
  {
    c[..off] + src + (if off + |src| <= |c| then c[off + |src|..] else [])
  }

  ghost predicate InodesOk(img: seq<Block>, ino: seq<Inode>) {
    forall i | 0 <= i < |ino| :: InodeOk(img, ino[i])
  }

  ghost predicate Files(img: seq<Block>, ino: seq<Inode>) {
    InodesOk(img, ino) && forall i | 0 <= i < |ino| :: NoHoles(img, ino[i])
  }

  /** Every file but inum has its inode and its bytes. */
  ghost predicate OthersKept(img0: seq<Block>, ino0: seq<Inode>, img: seq<Block>, ino: seq<Inode>, inum: nat)
    requires InodesOk(img0, ino0) && InodesOk(img, ino)
  {
    && |ino| == |ino0|
    && forall j | 0 <= j < |ino| && j != inum ::
         ino[j] == ino0[j] && NoHoles(img, ino[j]) && SameBytes(img0, ino0[j], img, ino[j], ino[j].size)
  }

  /** n blocks are allocated, bytes off..cur of the file are those of src, the rest are as before. */
  ghost predicate Progress(img0: seq<Block>, ip0: Inode, img: seq<Block>, ip: Inode, off: nat, cur: nat,
      src: seq<Byte>, n: nat)
    requires InodeOk(img0, ip0) && InodeOk(img, ip)
  {
    && NoHoles(img0, ip0) && off <= ip0.size && off <= cur <= off + |src| && off + |src| <= MAXFILE * BSIZE
    && ip == ip0.(addrs := ip.addrs)
    && Allocated(img, ip, n) && Max(ip0.size, cur) <= n * BSIZE
    && forall k | 0 <= k < Max(ip0.size, cur) :: ByteIs(img0, ip0, img, ip, off, cur, src, k)
  }

  ghost predicate ByteIs(img0: seq<Block>, ip0: Inode, img: seq<Block>, ip: Inode, off: nat, cur: nat, src: seq<Byte>,
      k: nat)
    requires InodeOk(img0, ip0) && InodeOk(img, ip) && off <= cur <= off + |src|
  {
    && k / BSIZE < MAXFILE && BlockAt(img, ip, k / BSIZE) < |img|
    && if off <= k < cur then ByteAt(img, ip, k) == src[k - off]
       else BlockAt(img0, ip0, k / BSIZE) < |img0| && ByteAt(img, ip, k) == ByteAt(img0, ip0, k)
  }

  ghost predicate Writing(sb: Super, img0: seq<Block>, ino0: seq<Inode>, img: seq<Block>, ino: seq<Inode>,
      owner: map<nat, Slot>, inum: nat, off: nat, cur: nat, src: seq<Byte>, n: nat) {
    && Ownership(sb, img, ino, owner, {}) && Files(img0, ino0) && inum < |ino0| && |img| == |img0|
    && OthersKept(img0, ino0, img, ino, inum)
    && Progress(img0, ino0[inum], img, ino[inum], off, cur, src, n)
    && (n == Blocks(ino0[inum].size) ==> ino == ino0)
  }

  /** Bytes lo..lo+m of a block replaced. */
  function Patch(b: Block, lo: nat, src: seq<Byte>): (r: Block)
    requires lo + |src| <= BSIZE
    ensures forall k | 0 <= k < BSIZE :: r[k] == if lo <= k < lo + |src| then src[k - lo] else b[k]
  {
    b[..lo] + src + b[lo + |src|..]
  }

  lemma BlockArith(cur: nat, m: nat, size: nat)
    requires 0 < m <= BSIZE - cur % BSIZE
    ensures cur / BSIZE <= Blocks(Max(size, cur))
    ensures cur / BSIZE < Blocks(Max(size, cur)) ==> Blocks(Max(size, cur + m)) == Blocks(Max(size, cur))
    ensures cur / BSIZE == Blocks(Max(size, cur)) ==>
      size <= cur && cur % BSIZE == 0 && Blocks(Max(size, cur + m)) == cur / BSIZE + 1
  { }

  lemma OthersKeptByAlloc(sb: Super, img0: seq<Block>, ino0: seq<Inode>, img: seq<Block>, ino: seq<Inode>,
      img': seq<Block>, ino': seq<Inode>, inum: nat, bn: nat)
    requires InodesOk(img0, ino0) && InodesOk(img, ino) && InodesOk(img', ino') && |img'| == |img| && inum < |ino|
    requires OthersKept(img0, ino0, img, ino, inum) && KeepsBlocks(img, ino, img', ino')
      && OnlyNew(img, ino, img', ino', inum, bn)
    requires ino' == ino[inum := ino'[inum]]
    ensures OthersKept(img0, ino0, img', ino', inum)
  {
    forall j | 0 <= j < |ino| && j != inum
      ensures ino'[j] == ino0[j] && NoHoles(img', ino'[j]) && SameBytes(img0, ino0[j], img', ino'[j], ino'[j].size)
    {
      AllocatedKept(img, ino, img', ino', inum, bn, j, Blocks(ino[j].size));
      KeptBytes(img, ino, img', ino', j, Blocks(ino[j].size), ino[j].size);
      SameBytesTrans(img0, ino0[j], img, ino[j], img', ino'[j], ino[j].size);
    }
  }

  lemma SameBytesTrans(a: seq<Block>, i: Inode, b: seq<Block>, j: Inode, c: seq<Block>, k: Inode, upTo: nat)
    requires InodeOk(a, i) && InodeOk(b, j) && InodeOk(c, k) && SameBytes(a, i, b, j, upTo)
      && SameBytes(b, j, c, k, upTo)
    ensures SameBytes(a, i, c, k, upTo)
  {
    forall x | 0 <= x < upTo ensures SameByte(a, i, c, k, x) {
      assert SameByte(a, i, b, j, x) && SameByte(b, j, c, k, x);
    }
  }

  /** bmap() gave file block n of the file a fresh disk block. */
  lemma ProgressByAlloc(img0: seq<Block>, ip0: Inode, img: seq<Block>, ino: seq<Inode>, img': seq<Block>,
      ino': seq<Inode>, inum: nat, off: nat, cur: nat, src: seq<Byte>, n: nat)
    requires InodeOk(img0, ip0) && InodesOk(img, ino) && InodesOk(img', ino') && |img'| == |img| && inum < |ino|
      && n < MAXFILE
    requires Progress(img0, ip0, img, ino[inum], off, cur, src, n)
    requires KeepsBlocks(img, ino, img', ino') && OnlyNew(img, ino, img', ino', inum, n)
    requires ino' == ino[inum := ino[inum].(addrs := ino'[inum].addrs)]
    requires 0 < BlockAt(img', ino'[inum], n) < |img'|
    requires n < NDIRECT ==> ino'[inum].addrs[NDIRECT] == ino[inum].addrs[NDIRECT]
    requires n >= NDIRECT ==> ino'[inum].addrs[NDIRECT] != 0
    ensures Progress(img0, ip0, img', ino'[inum], off, cur, src, n + 1)
  {
    AllocatedGrows(img, ino, img', ino', inum, n);
    var upTo := Max(ip0.size, cur);
    KeptBytes(img, ino, img', ino', inum, n, upTo);
    forall k | 0 <= k < upTo ensures ByteIs(img0, ip0, img', ino'[inum], off, cur, src, k) {
      assert ByteIs(img0, ip0, img, ino[inum], off, cur, src, k);
      assert SameByte(img, ino[inum], img', ino'[inum], k);
    }
  }

  lemma OthersKeptByData(sb: Super, img0: seq<Block>, ino0: seq<Inode>, img: seq<Block>, ino: seq<Inode>,
      owner: map<nat, Slot>, inum: nat, bn: nat, data: Block)
    requires Ownership(sb, img, ino, owner, {}) && InodesOk(img0, ino0) && inum < |ino| && bn < MAXFILE
    requires OthersKept(img0, ino0, img, ino, inum) && 0 < BlockAt(img, ino[inum], bn) < |img|
    ensures var img' := img[BlockAt(img, ino[inum], bn) := data];
      InodesOk(img', ino) && OthersKept(img0, ino0, img', ino, inum)
  {
    var b := BlockAt(img, ino[inum], bn);
    var img' := img[b := data];
    DataWritten(sb, img, ino, owner, inum, bn, data);
    hide Ref, Owned, Mapped, NoHoles, SameBytes;
    forall j | 0 <= j < |ino| && j != inum
      ensures NoHoles(img', ino[j]) && SameBytes(img0, ino0[j], img', ino[j], ino[j].size)
    {
      OtherKept(img0, ino0[j], img, ino[j], b, data);
    }
  }

  /** A write to a block that is none of the file's. */
  lemma OtherKept(img0: seq<Block>, ip0: Inode, img: seq<Block>, ip: Inode, b: nat, data: Block)
    requires InodeOk(img0, ip0) && InodeOk(img, ip) && b < |img| && NoHoles(img, ip)
      && SameBytes(img0, ip0, img, ip, ip.size)
    requires forall x | 0 <= x < NSLOT :: Ref(img[b := data], ip, x) == Ref(img, ip, x)
    requires forall k | 0 <= k < MAXFILE :: BlockAt(img, ip, k) != b
    ensures NoHoles(img[b := data], ip) && SameBytes(img0, ip0, img[b := data], ip, ip.size)
  {
    hide Ref;
    var img' := img[b := data];
    SameAllocated(img, img', ip, Blocks(ip.size));
    hide Allocated;
    forall k | 0 <= k < ip.size ensures SameByte(img0, ip0, img', ip, k) {
      assert SameByte(img0, ip0, img, ip, k);
      assert BlockAt(img', ip, k / BSIZE) == BlockAt(img, ip, k / BSIZE) != b;
    }
  }

  /** memmove of m bytes of src into the mapped block. */
  lemma ProgressByCopy(img0: seq<Block>, ip0: Inode, img: seq<Block>, ip: Inode, off: nat, cur: nat, src: seq<Byte>,
      n: nat, m: nat, data: Block)
    requires InodeOk(img0, ip0) && InodeOk(img, ip) && Progress(img0, ip0, img, ip, off, cur, src, n)
    requires 0 < m <= off + |src| - cur && m <= BSIZE - cur % BSIZE && cur / BSIZE < n
    requires var b := BlockAt(img, ip, cur / BSIZE);
      && data == Patch(img[b], cur % BSIZE, src[cur - off..cur - off + m])
      && InodeOk(img[b := data], ip)
      && (forall x | 0 <= x < NSLOT :: Ref(img[b := data], ip, x) == Ref(img, ip, x))
      && (forall k | 0 <= k < MAXFILE && k != cur / BSIZE :: BlockAt(img, ip, k) != b)
    ensures Progress(img0, ip0, img[BlockAt(img, ip, cur / BSIZE) := data], ip, off, cur + m, src, n)
  {
    var b := BlockAt(img, ip, cur / BSIZE);
    var img' := img[b := data];
    SameAllocated(img, img', ip, n);
    var end := cur + m;
    CopyEnd(cur, m, n);
    hide Ref, ByteIs, Patch, NoHoles;
    forall k | 0 <= k < Max(ip0.size, end) ensures ByteIs(img0, ip0, img', ip, off, end, src, k) {
      BelowBlocks(k, n);
      if !(cur <= k < end) { assert ByteIs(img0, ip0, img, ip, off, cur, src, k); }
      ByteCopied(img0, ip0, img, ip, off, cur, src, m, data, k);
    }
  }

  lemma BelowBlocks(k: nat, n: nat)
    requires k < n * BSIZE
    ensures k / BSIZE < n
  { }

  lemma CopyEnd(cur: nat, m: nat, n: nat)
    requires m <= BSIZE - cur % BSIZE && cur / BSIZE < n
    ensures cur + m <= n * BSIZE
  {
    assert cur + m <= (cur / BSIZE + 1) * BSIZE;
  }

  lemma ByteCopied(img0: seq<Block>, ip0: Inode, img: seq<Block>, ip: Inode, off: nat, cur: nat, src: seq<Byte>,
      m: nat, data: Block, k: nat)
    requires InodeOk(img0, ip0) && InodeOk(img, ip) && off <= cur && 0 < m <= off + |src| - cur
      && m <= BSIZE - cur % BSIZE && cur / BSIZE < MAXFILE
    requires k / BSIZE < MAXFILE && (cur <= k < cur + m || ByteIs(img0, ip0, img, ip, off, cur, src, k))
    requires var b := BlockAt(img, ip, cur / BSIZE);
      && b < |img| && data == Patch(img[b], cur % BSIZE, src[cur - off..cur - off + m])
      && InodeOk(img[b := data], ip) && BlockAt(img[b := data], ip, k / BSIZE) == BlockAt(img, ip, k / BSIZE)
      && (k / BSIZE != cur / BSIZE ==> BlockAt(img, ip, k / BSIZE) != b)
    ensures ByteIs(img0, ip0, img[BlockAt(img, ip, cur / BSIZE) := data], ip, off, cur + m, src, k)
  {
    hide Ref;
    CopyPosition(cur, m, k);
  }

  /** Positions of the block being written that the copy covers are cur..cur+m. */
  lemma CopyPosition(cur: nat, m: nat, k: nat)
    requires 0 < m <= BSIZE - cur % BSIZE
    ensures k / BSIZE == cur / BSIZE ==>
      (cur % BSIZE <= k % BSIZE < cur % BSIZE + m <==> cur <= k < cur + m)
      && (k >= cur ==> k % BSIZE - cur % BSIZE == k - cur)
    ensures k / BSIZE != cur / BSIZE ==> !(cur <= k < cur + m)
  { }

  lemma WritingStarts(sb: Super, img: seq<Block>, ino: seq<Inode>, owner: map<nat, Slot>, inum: nat, off: nat,
      src: seq<Byte>)
    requires Ownership(sb, img, ino, owner, {}) && Files(img, ino) && inum < |ino| && off <= ino[inum].size
      && off + |src| <= MAXFILE * BSIZE
    ensures Writing(sb, img, ino, img, ino, owner, inum, off, off, src, Blocks(ino[inum].size))
  {
    forall j | 0 <= j < |ino| ensures SameBytes(img, ino[j], img, ino[j], ino[j].size) {
      KeptBytes(img, ino, img, ino, j, Blocks(ino[j].size), ino[j].size);
    }
    forall k | 0 <= k < Max(ino[inum].size, off) ensures ByteIs(img, ino[inum], img, ino[inum], off, off, src, k) {
      InBlocks(k, ino[inum].size);
    }
  }

  /** The loop is done and the size is set: the file holds src at off. */
  lemma WritingEnds(sb: Super, img0: seq<Block>, ino0: seq<Inode>, img: seq<Block>, ino: seq<Inode>,
      owner: map<nat, Slot>, inum: nat, off: nat, src: seq<Byte>, ino': seq<Inode>)
    requires inum < |ino0|
      && Writing(sb, img0, ino0, img, ino, owner, inum, off, off + |src|, src,
      Blocks(Max(ino0[inum].size, off + |src|)))
    requires ino' == ino[inum := ino[inum].(size := Max(ino0[inum].size, off + |src|))]
    ensures Ownership(sb, img, ino', owner, {}) && Files(img, ino') && |ino'| == |ino0|
    ensures Content(img, ino'[inum]) == WriteAt(Content(img0, ino0[inum]), off, src)
    ensures forall j | 0 <= j < |ino'| && j != inum ::
      ino'[j] == ino0[j] && Content(img, ino'[j]) == Content(img0, ino0[j])
  {
    hide Owned, Mapped;
    SizeChanged(sb, img, ino, owner, inum, ino'[inum].size);
    SameAllocatedSize(img, ino[inum], ino'[inum], Blocks(ino'[inum].size));
    forall j | 0 <= j < |ino'| && j != inum
      ensures NoHoles(img, ino'[j]) && ino'[j] == ino0[j] && Content(img, ino'[j]) == Content(img0, ino0[j])
    {
      SameContent(img0, ino0[j], img, ino'[j]);
    }
    WrittenContent(img0, ino0[inum], img, ino[inum], off, src, ino'[inum]);
  }

  lemma SameAllocatedSize(img: seq<Block>, ip: Inode, ip': Inode, n: nat)
    requires InodeOk(img, ip) && Allocated(img, ip, n) && ip'.addrs == ip.addrs
    ensures Allocated(img, ip', n)
  {
    assert forall k | 0 <= k < MAXFILE :: BlockAt(img, ip', k) == BlockAt(img, ip, k);
  }

  lemma WrittenContent(img0: seq<Block>, ip0: Inode, img: seq<Block>, ip: Inode, off: nat, src: seq<Byte>, ip': Inode)
    requires InodeOk(img0, ip0) && InodeOk(img, ip)
      && Progress(img0, ip0, img, ip, off, off + |src|, src, Blocks(Max(ip0.size, off + |src|)))
    requires ip' == ip.(size := Max(ip0.size, off + |src|)) && NoHoles(img, ip')
    ensures Content(img, ip') == WriteAt(Content(img0, ip0), off, src)
  {
    var c, c0 := Content(img, ip'), Content(img0, ip0);
    forall k | 0 <= k < |c| ensures c[k] == WriteAt(c0, off, src)[k] {
      WrittenByte(img0, ip0, img, ip, off, src, ip', k);
    }
  }

  lemma WrittenByte(img0: seq<Block>, ip0: Inode, img: seq<Block>, ip: Inode, off: nat, src: seq<Byte>, ip': Inode,
      k: nat)
    requires InodeOk(img0, ip0) && InodeOk(img, ip)
      && Progress(img0, ip0, img, ip, off, off + |src|, src, Blocks(Max(ip0.size, off + |src|)))
    requires ip' == ip.(size := Max(ip0.size, off + |src|)) && NoHoles(img, ip') && k < ip'.size
    ensures Content(img, ip')[k] == WriteAt(Content(img0, ip0), off, src)[k]
  {
    SameList(img, ip, ip', k / BSIZE);
    hide Ref;
    assert ByteIs(img0, ip0, img, ip, off, off + |src|, src, k);
  }

  lemma SameList(img: seq<Block>, ip: Inode, ip': Inode, i: nat)
    requires InodeOk(img, ip) && ip'.addrs == ip.addrs
    ensures i < MAXFILE ==> BlockAt(img, ip', i) == BlockAt(img, ip, i)
  { }

  /** ip->size is no part of the block lists. */
  lemma SizeChanged(sb: Super, img: seq<Block>, ino: seq<Inode>, owner: map<nat, Slot>, inum: nat, size: nat)
    requires Ownership(sb, img, ino, owner, {}) && inum < |ino|
    ensures var ino' := ino[inum := ino[inum].(size := size)];
      && Ownership(sb, img, ino', owner, {})
      && forall x | 0 <= x < NSLOT :: Ref(img, ino'[inum], x) == Ref(img, ino[inum], x)
  {
    var ino' := ino[inum := ino[inum].(size := size)];
    assert Shape(sb, img, ino');
    assert forall i, x | 0 <= i < |ino| && 0 <= x < NSLOT :: Ref(img, ino'[i], x) == Ref(img, ino[i], x);
    assert Owned(sb, img, ino', owner);
  }

  /** A whole round: bmap() left (img, ino, owner) with bn mapped, then memmove. */
  lemma WritingCopies(sb: Super, img0: seq<Block>, ino0: seq<Inode>, img: seq<Block>, ino: seq<Inode>,
      owner: map<nat, Slot>, inum: nat, off: nat, cur: nat, src: seq<Byte>, n: nat, m: nat, data: Block)
    requires Writing(sb, img0, ino0, img, ino, owner, inum, off, cur, src, n) && inum < |ino|
    requires 0 < m <= off + |src| - cur && m <= BSIZE - cur % BSIZE && cur / BSIZE < n
    requires data == Patch(img[BlockAt(img, ino[inum], cur / BSIZE)], cur % BSIZE, src[cur - off..cur - off + m])
    ensures Writing(sb, img0, ino0, img[BlockAt(img, ino[inum], cur / BSIZE) := data], ino, owner, inum, off, cur + m,
      src, n)
  {
    DataWritten(sb, img, ino, owner, inum, cur / BSIZE, data);
    OthersKeptByData(sb, img0, ino0, img, ino, owner, inum, cur / BSIZE, data);
    hide Ownership, OthersKept;
    ProgressByCopy(img0, ino0[inum], img, ino[inum], off, cur, src, n, m, data);
  }

  lemma WritingAllocates(sb: Super, img0: seq<Block>, ino0: seq<Inode>, img: seq<Block>, ino: seq<Inode>,
      owner: map<nat, Slot>, img': seq<Block>, ino': seq<Inode>, owner': map<nat, Slot>, inum: nat, off: nat,
      cur: nat, src: seq<Byte>, n: nat)
    requires Writing(sb, img0, ino0, img, ino, owner, inum, off, cur, src, n) && inum < |ino| && n < MAXFILE
    requires Ownership(sb, img', ino', owner', {}) && KeepsBlocks(img, ino, img', ino')
      && OnlyNew(img, ino, img', ino', inum, n)
    requires ino' == ino[inum := ino[inum].(addrs := ino'[inum].addrs)]
    requires 0 < BlockAt(img', ino'[inum], n) < |img'|
    requires n < NDIRECT ==> ino'[inum].addrs[NDIRECT] == ino[inum].addrs[NDIRECT]
    requires n >= NDIRECT ==> ino'[inum].addrs[NDIRECT] != 0
    ensures Writing(sb, img0, ino0, img', ino', owner', inum, off, cur, src, n + 1)
  {
    assert InodesOk(img, ino) && InodesOk(img', ino');
    hide Ownership, OthersKept, Progress;
    OthersKeptByAlloc(sb, img0, ino0, img, ino, img', ino', inum, n);
    ProgressByAlloc(img0, ino0[inum], img, ino, img', ino', inum, off, cur, src, n);
    ProgressCount(img0, ino0[inum], img, ino[inum], off, cur, src, n);
  }

  lemma ProgressCount(img0: seq<Block>, ip0: Inode, img: seq<Block>, ip: Inode, off: nat, cur: nat, src: seq<Byte>,
      n: nat)
    requires InodeOk(img0, ip0) && InodeOk(img, ip) && Progress(img0, ip0, img, ip, off, cur, src, n)
    ensures n >= Blocks(ip0.size)
  { }

  /** Writing two pieces one after the other is writing them at once. */
  lemma WriteAtInPieces(c: seq<Byte>, off: nat, a: seq<Byte>, b: seq<Byte>)
    requires off <= |c|
    ensures off + |a| <= |WriteAt(c, off, a)|
    ensures WriteAt(WriteAt(c, off, a), off + |a|, b) == WriteAt(c, off, a + b)
  {
    var w := WriteAt(c, off, a);
    var x, y := WriteAt(w, off + |a|, b), WriteAt(c, off, a + b);
    assert |x| == |y|;
    assert w[..off + |a|] == c[..off] + a;
  }

  /** A chunk of filewrite() spans at most 14 blocks. */
  lemma ChunkBlocks(off: nat, n: nat)
    requires n <= 13 * BSIZE
    ensures Blocks(off + n) - off / BSIZE <= 14
  { }

  /** With one bitmap block a transaction of d data blocks logs at most d + 3. */
  lemma TransactionSize(sb: Super, logged: set<nat>, data: set<nat>, ind: nat, inodeBlock: nat)
    requires sb.size < BPB
    requires forall m | m in logged :: m == inodeBlock || m in data || IsMap(sb, m) || m == ind
    ensures |logged| <= |data| + 3
  {
    var few := {inodeBlock, MapBlock(sb, 0), ind};
    assert logged <= data + few;
    Subset(logged, data + few);
    assert |data + few| <= |data| + |few|;
    FewElements(inodeBlock, MapBlock(sb, 0), ind);
  }

  lemma FewElements(a: nat, b: nat, c: nat)
    ensures |{a, b, c}| <= 3
  {
    assert {a, b, c} == {a} + {b} + {c};
  }

  lemma {:induction false} Subset(s: set<nat>, t: set<nat>)
    requires s <= t
    ensures |s| <= |t|
  {
    if s != {} {
      var x :| x in s;
      Subset(s - {x}, t - {x});
    }
  }

  /** s was written to file inum at off, and no other file changed. */
  ghost predicate Wrote(img0: seq<Block>, ino0: seq<Inode>, img: seq<Block>, ino: seq<Inode>, inum: nat, off: nat,
      s: seq<Byte>) {
    && Files(img0, ino0) && Files(img, ino) && |ino| == |ino0| && inum < |ino| && ino[inum].typ == ino0[inum].typ
    && (if s == [] then img == img0 && ino == ino0
        else off <= ino0[inum].size && Content(img, ino[inum]) == WriteAt(Content(img0, ino0[inum]), off, s))
    && (forall j | 0 <= j < |ino| && j != inum :: ino[j] == ino0[j] && Content(img, ino[j]) == Content(img0, ino0[j]))
  }

  lemma WroteMore(img0: seq<Block>, ino0: seq<Inode>, img1: seq<Block>, ino1: seq<Inode>, img: seq<Block>,
      ino: seq<Inode>, inum: nat, off: nat, a: seq<Byte>, b: seq<Byte>)
    requires Wrote(img0, ino0, img1, ino1, inum, off, a) && Wrote(img1, ino1, img, ino, inum, off + |a|, b) && b != []
    ensures Wrote(img0, ino0, img, ino, inum, off, a + b)
  {
    hide NoHoles, Content, WriteAt;
    if a == [] {
      assert a + b == b;
    } else {
      WriteAtInPieces(Content(img0, ino0[inum]), off, a, b);
    }
    forall j | 0 <= j < |ino| && j != inum ensures ino[j] == ino0[j] && Content(img, ino[j]) == Content(img0, ino0[j]) {
      assert ino1[j] == ino0[j] && Content(img1, ino1[j]) == Content(img0, ino0[j]);
    }
  }
}
