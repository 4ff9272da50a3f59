/** Giving blocks back: itrunc() of the kernel and itruncate() of the tools. */
module FsTrunc {
  import opened Basics
  import opened FsFormat
  import opened FsOwner
  import opened FsContent
  import opened FsWrite

  /** The places in gone of inode inum are cleared and their blocks free; all else is as it was. */
  ghost predicate Shrunk(sb: Super, img0: seq<Block>, ino0: seq<Inode>, owner0: map<nat, Slot>, img: seq<Block>,
      ino: seq<Inode>, owner: map<nat, Slot>, inum: nat, gone: set<nat>) {
    && Ownership(sb, img0, ino0, owner0, {}) && Ownership(sb, img, ino, owner, {}) && inum < |ino0| && |ino| == |ino0|
    && ino == ino0[inum := ino0[inum].(addrs := ino[inum].addrs)]
    && ShrunkRefs(img0, ino0, img, ino, inum, gone)
    && ShrunkOwner(img0, owner0, img, owner, inum, gone)
  }

  ghost predicate ShrunkRefs(img0: seq<Block>, ino0: seq<Inode>, img: seq<Block>, ino: seq<Inode>, inum: nat,
      gone: set<nat>)
    requires InodesOk(img0, ino0) && InodesOk(img, ino) && |ino| == |ino0|
  {
    forall i, x {:trigger Ref(img, ino[i], x)} {:trigger Ref(img0, ino0[i], x)} | 0 <= i < |ino| && 0 <= x < NSLOT ::
      Ref(img, ino[i], x) == if i == inum && x in gone then 0 else Ref(img0, ino0[i], x)
  }

  ghost predicate ShrunkOwner(img0: seq<Block>, owner0: map<nat, Slot>, img: seq<Block>, owner: map<nat, Slot>,
      inum: nat, gone: set<nat>) {
    && |img| == |img0|
    && (forall b | b in owner0 :: b in owner <==> !(owner0[b].inum == inum && owner0[b].idx in gone))
    && (forall b | b in owner :: b in owner0 && owner[b] == owner0[b] && b < |img|)
    && (forall b | b in owner && owner[b].idx != NDIRECT :: img[b] == img0[b])
  }

  lemma NothingShrunk(sb: Super, img: seq<Block>, ino: seq<Inode>, owner: map<nat, Slot>, inum: nat)
    requires Ownership(sb, img, ino, owner, {}) && inum < |ino|
    ensures Shrunk(sb, img, ino, owner, img, ino, owner, inum, {})
  { }

  /** A step that clears one place, keeps all file blocks and drops one owner. */
  lemma ShrunkMore(sb: Super, img0: seq<Block>, ino0: seq<Inode>, owner0: map<nat, Slot>, img: seq<Block>,
      ino: seq<Inode>, owner: map<nat, Slot>, img': seq<Block>, ino': seq<Inode>, inum: nat, gone: set<nat>, idx: nat,
      b: nat)
    requires Shrunk(sb, img0, ino0, owner0, img, ino, owner, inum, gone) && idx < NSLOT
    requires Ownership(sb, img', ino', owner - {b}, {}) && b in owner && owner[b] == Slot(inum, idx)
    requires SameRefsBut(img, ino, img', ino', inum, idx) && Ref(img', ino'[inum], idx) == 0
    requires ino' == ino[inum := ino[inum].(addrs := ino'[inum].addrs)]
    requires forall x | x in owner && owner[x].idx != NDIRECT :: x < |img'| && img'[x] == img[x]
    ensures Shrunk(sb, img0, ino0, owner0, img', ino', owner - {b}, inum, gone + {idx})
  {
    hide Owned, Mapped, ShrunkOwner, ShrunkRefs, SameRefsBut;
    ShrunkOwnerHas(img0, owner0, img, owner, inum, gone, b);
    OneOwner(sb, img0, ino0, owner0, inum, idx, b);
    ShrunkRefsMore(img0, ino0, img, ino, img', ino', inum, gone, idx);
    ShrunkOwnerMore(img0, owner0, img, owner, img', inum, gone, idx, b);
  }

  lemma ShrunkOwnerHas(img0: seq<Block>, owner0: map<nat, Slot>, img: seq<Block>, owner: map<nat, Slot>, inum: nat,
      gone: set<nat>, b: nat)
    requires ShrunkOwner(img0, owner0, img, owner, inum, gone) && b in owner
    ensures b in owner0 && owner0[b] == owner[b]
  { }

  lemma ShrunkRefsMore(img0: seq<Block>, ino0: seq<Inode>, img: seq<Block>, ino: seq<Inode>, img': seq<Block>,
      ino': seq<Inode>, inum: nat, gone: set<nat>, idx: nat)
    requires InodesOk(img0, ino0) && InodesOk(img, ino) && InodesOk(img', ino') && |ino| == |ino0| && inum < |ino|
    requires ShrunkRefs(img0, ino0, img, ino, inum, gone) && SameRefsBut(img, ino, img', ino', inum, idx)
      && idx < NSLOT && Ref(img', ino'[inum], idx) == 0
    ensures ShrunkRefs(img0, ino0, img', ino', inum, gone + {idx})
  { }

  lemma OneOwner(sb: Super, img: seq<Block>, ino: seq<Inode>, owner: map<nat, Slot>, inum: nat, idx: nat, b: nat)
    requires Ownership(sb, img, ino, owner, {}) && b in owner && owner[b] == Slot(inum, idx)
    ensures forall x | x in owner && owner[x] == Slot(inum, idx) :: x == b
  {
    forall x | x in owner && owner[x] == Slot(inum, idx) ensures x == b {
      assert Ref(img, ino[inum], idx) == x && Ref(img, ino[inum], idx) == b;
    }
  }

  lemma ShrunkOwnerMore(img0: seq<Block>, owner0: map<nat, Slot>, img: seq<Block>, owner: map<nat, Slot>,
      img': seq<Block>, inum: nat, gone: set<nat>, idx: nat, b: nat)
    requires ShrunkOwner(img0, owner0, img, owner, inum, gone) && |img'| == |img| && b in owner
      && owner[b] == Slot(inum, idx)
    requires forall x | x in owner0 && owner0[x] == Slot(inum, idx) :: x == b
    requires forall x | x in owner && owner[x].idx != NDIRECT :: img'[x] == img[x]
    ensures ShrunkOwner(img0, owner0, img', owner - {b}, inum, gone + {idx})
  {
    forall x | x in owner0 ensures x in owner - {b} <==> !(owner0[x].inum == inum && owner0[x].idx in gone + {idx}) {
      if owner0[x].inum == inum && owner0[x].idx == idx { assert owner0[x] == Slot(inum, idx); }
    }
  }

  /** bfree(addrs[idx]); addrs[idx] = 0. */
  lemma AddrFreed(sb: Super, img: seq<Block>, ino: seq<Inode>, owner: map<nat, Slot>, inum: nat, idx: nat)
    requires Ownership(sb, img, ino, owner, {}) && inum < |ino| && idx <= NDIRECT && ino[inum].addrs[idx] != 0
    requires idx == NDIRECT ==> forall x | NDIRECT < x < NSLOT :: Ref(img, ino[inum], x) == 0
    ensures var b, ino' := ino[inum].addrs[idx], ino[inum := WithAddr(ino[inum], idx, 0)];
      && b < sb.size && MapBlock(sb, b) < |img| && Used(sb, img, b)
      && Ownership(sb, Marked(sb, img, b, false), ino', owner - {b}, {})
      && SameRefsBut(img, ino, Marked(sb, img, b, false), ino', inum, idx)
      && b in owner && owner[b] == Slot(inum, idx)
      && (forall x | x in owner :: x < |img| && Marked(sb, img, b, false)[x] == img[x])
  {
    hide Word, WithBit, Mapped;
    var b, ino' := ino[inum].addrs[idx], ino[inum := WithAddr(ino[inum], idx, 0)];
    assert Ref(img, ino[inum], idx) == b;
    RefIsData(sb, img, ino, owner, inum, idx);
    MapBlockRange(sb, b);
    Unlinked(sb, img, ino, owner, {}, inum, idx);
    Freed(sb, img, ino', owner - {b}, {} + {b}, b);
    assert {} + {b} - {b} == {};
    SameRefs(sb, img, Marked(sb, img, b, false), ino', owner - {b});
  }

  /** The bitmap and the indirect block are different blocks. */
  lemma MarkedElsewhere(sb: Super, img: seq<Block>, b: nat, ind: nat, data: Block)
    requires ValidSuper(sb) && |img| == sb.size && b < sb.size && IsData(sb, ind)
    ensures MapBlock(sb, b) < |img| && Marked(sb, img, b, false)[ind] == img[ind]
    ensures Marked(sb, img[ind := data], b, false) == Marked(sb, img, b, false)[ind := data]
    ensures Used(sb, img[ind := data], b) == Used(sb, img, b)
  {
    MapBlockRange(sb, b);
  }

  /** The same step for word k of the indirect block: bfree(a[k]); a[k] = 0. */
  lemma EntryFreed(sb: Super, img: seq<Block>, ino: seq<Inode>, owner: map<nat, Slot>, inum: nat, k: nat)
    requires Ownership(sb, img, ino, owner, {}) && inum < |ino| && k < NINDIRECT
      && Ref(img, ino[inum], NDIRECT + 1 + k) != 0
    ensures var b, ind := Ref(img, ino[inum], NDIRECT + 1 + k), ino[inum].addrs[NDIRECT];
      && b < sb.size && MapBlock(sb, b) < |img| && Used(sb, img, b)
      && Marked(sb, img, b, false)[ind] == img[ind]
      && var img' := Marked(sb, img, b, false)[ind := SetWord(img[ind], k, 0)];
        && Ownership(sb, img', ino, owner - {b}, {})
        && SameRefsBut(img, ino, img', ino, inum, NDIRECT + 1 + k) && Ref(img', ino[inum], NDIRECT + 1 + k) == 0
  {
    var b, ind := Ref(img, ino[inum], NDIRECT + 1 + k), ino[inum].addrs[NDIRECT];
    RefIsData(sb, img, ino, owner, inum, NDIRECT + 1 + k);
    hide Ownership, Owned, Mapped, Word, SetWord, WithBit, Used;
    var img1 := img[ind := SetWord(img[ind], k, 0)];
    EntryChanged(sb, img, ino, owner, inum, k, 0);
    EntryUnlinked(sb, img, ino, owner, {}, inum, k);
    MarkedElsewhere(sb, img, b, ind, SetWord(img[ind], k, 0));
    assert {} + {b} - {b} == {};
    FreedRefs(sb, img1, ino, owner - {b}, {} + {b}, b);
  }

  lemma RefIsData(sb: Super, img: seq<Block>, ino: seq<Inode>, owner: map<nat, Slot>, inum: nat, idx: nat)
    requires Ownership(sb, img, ino, owner, {}) && inum < |ino| && idx < NSLOT && Ref(img, ino[inum], idx) != 0
    ensures Shape(sb, img, ino) && Owned(sb, img, ino, owner)
    ensures Ref(img, ino[inum], idx) in owner && IsData(sb, Ref(img, ino[inum], idx))
      && Ref(img, ino[inum], idx) < sb.size
  { }

  /** bfree() of a block in hand changes no reference. */
  lemma FreedRefs(sb: Super, img: seq<Block>, ino: seq<Inode>, owner: map<nat, Slot>, inHand: set<nat>, b: nat)
    requires Ownership(sb, img, ino, owner, inHand) && b in inHand
    ensures b < sb.size && MapBlock(sb, b) < |img| && Used(sb, img, b)
      && Ownership(sb, Marked(sb, img, b, false), ino, owner, inHand - {b})
    ensures forall i, x | 0 <= i < |ino| && 0 <= x < NSLOT ::
      Ref(Marked(sb, img, b, false), ino[i], x) == Ref(img, ino[i], x)
  {
    InHandIsData(sb, img, owner, inHand, b);
    MapBlockRange(sb, b);
    Freed(sb, img, ino, owner, inHand, b);
    OwnedAreData(sb, img, ino, owner);
    SameRefs(sb, img, Marked(sb, img, b, false), ino, owner);
  }

  lemma OwnedAreData(sb: Super, img: seq<Block>, ino: seq<Inode>, owner: map<nat, Slot>)
    requires Shape(sb, img, ino) && Owned(sb, img, ino, owner)
    ensures forall b | b in owner :: IsData(sb, b)
  { }

  /** What it leaves of the file blocks. */
  lemma EntryFreedFrame(sb: Super, img: seq<Block>, ino: seq<Inode>, owner: map<nat, Slot>, inum: nat, k: nat,
      img': seq<Block>)
    requires Ownership(sb, img, ino, owner, {}) && inum < |ino| && k < NINDIRECT
      && Ref(img, ino[inum], NDIRECT + 1 + k) != 0
    requires var b, ind := Ref(img, ino[inum], NDIRECT + 1 + k), ino[inum].addrs[NDIRECT];
      b < sb.size && MapBlock(sb, b) < |img| && img' == Marked(sb, img, b, false)[ind := SetWord(img[ind], k, 0)]
    ensures var b := Ref(img, ino[inum], NDIRECT + 1 + k); b in owner && owner[b] == Slot(inum, NDIRECT + 1 + k)
    ensures forall x | x in owner && owner[x].idx != NDIRECT :: x < |img'| && img'[x] == img[x]
  {
    hide Mapped, Word, SetWord, WithBit, MapBlock;
    var b, ind := Ref(img, ino[inum], NDIRECT + 1 + k), ino[inum].addrs[NDIRECT];
    assert Ref(img, ino[inum], NDIRECT) == ind;
    MapBlockRange(sb, b);
    DataAbove(sb, MapBlock(sb, b));
  }

  lemma DataAbove(sb: Super, m: nat)
    requires m < FirstData(sb)
    ensures !IsData(sb, m)
  { }

  lemma EmptyPlace(sb: Super, img: seq<Block>, ino: seq<Inode>, owner: map<nat, Slot>, inum: nat, idx: nat)
    requires Ownership(sb, img, ino, owner, {}) && inum < |ino| && idx < NSLOT && Ref(img, ino[inum], idx) == 0
    ensures forall b | b in owner :: owner[b] != Slot(inum, idx)
  { }

  /** An empty place may count as cleared. */
  lemma ShrunkSkips(sb: Super, img0: seq<Block>, ino0: seq<Inode>, owner0: map<nat, Slot>, img: seq<Block>,
      ino: seq<Inode>, owner: map<nat, Slot>, inum: nat, gone: set<nat>, idx: nat)
    requires Shrunk(sb, img0, ino0, owner0, img, ino, owner, inum, gone) && idx < NSLOT && Ref(img, ino[inum], idx) == 0
    ensures Shrunk(sb, img0, ino0, owner0, img, ino, owner, inum, gone + {idx})
  {
    hide Owned, Mapped;
    EmptyPlace(sb, img, ino, owner, inum, idx);
    hide Ownership;
    assert ShrunkOwner(img0, owner0, img, owner, inum, gone + {idx}) by {
      forall b | b in owner0 && owner0[b].inum == inum && owner0[b].idx == idx ensures b !in owner {
        assert owner0[b] == Slot(inum, idx);
      }
    }
    ShrunkRefsMore(img0, ino0, img, ino, img, ino, inum, gone, idx);
  }

  /** The cleared places are those of file blocks k..n and, when only direct blocks remain, of
      the indirect block. */
  ghost predicate Beyond(gone: set<nat>, k: nat, n: nat) {
    && (forall i | 0 <= i < MAXFILE :: (i < k ==> Idx(i) !in gone) && (k <= i < n ==> Idx(i) in gone))
    && (k > NDIRECT ==> NDIRECT !in gone) && (k <= NDIRECT < n ==> NDIRECT in gone)
  }

  lemma ShrunkAllocated(sb: Super, img0: seq<Block>, ino0: seq<Inode>, owner0: map<nat, Slot>, img: seq<Block>,
      ino: seq<Inode>, owner: map<nat, Slot>, inum: nat, gone: set<nat>, k: nat, n: nat)
    requires Shrunk(sb, img0, ino0, owner0, img, ino, owner, inum, gone) && Beyond(gone, k, n) && k <= n
      && Allocated(img0, ino0[inum], n)
    ensures Allocated(img, ino[inum], k)
  {
    hide Owned, Mapped;
    forall i | 0 <= i < MAXFILE
      ensures BlockAt(img, ino[inum], i) == if k <= i < n then 0 else BlockAt(img0, ino0[inum], i)
    {
      assert Ref(img, ino[inum], Idx(i)) == if Idx(i) in gone then 0 else Ref(img0, ino0[inum], Idx(i));
      assert BlockAt(img0, ino0[inum], i) != 0 <==> i < n;
    }
    assert Ref(img, ino[inum], NDIRECT) == if NDIRECT in gone then 0 else Ref(img0, ino0[inum], NDIRECT);
    assert ino[inum].addrs[NDIRECT] == Ref(img, ino[inum], NDIRECT)
      && ino0[inum].addrs[NDIRECT] == Ref(img0, ino0[inum], NDIRECT);
    forall i | 0 <= i < MAXFILE
      ensures BlockAt(img, ino[inum], i) != 0 <==> i < k { assert BlockAt(img0, ino0[inum], i) != 0 <==> i < n; }
  }

  /** What is left of a file keeps its bytes. */
  lemma ShrunkBytes(sb: Super, img0: seq<Block>, ino0: seq<Inode>, owner0: map<nat, Slot>, img: seq<Block>,
      ino: seq<Inode>, owner: map<nat, Slot>, inum: nat, gone: set<nat>, j: nat, k: nat, n: nat, upTo: nat)
    requires Shrunk(sb, img0, ino0, owner0, img, ino, owner, inum, gone) && j < |ino| && k <= n && upTo <= k * BSIZE
    requires Allocated(img0, ino0[j], n) && (j == inum ==> forall i | 0 <= i < k :: Idx(i) !in gone)
    ensures SameBytes(img0, ino0[j], img, ino[j], upTo)
  {
    hide Owned, Mapped, ShrunkRefs, ShrunkOwner, Ref;
    forall x | 0 <= x < upTo ensures SameByte(img0, ino0[j], img, ino[j], x) {
      var i := x / BSIZE;
      assert i < k;
      ShrunkBlock(sb, img0, ino0, owner0, img, ino, owner, inum, gone, j, i, n);
    }
  }

  /** A file block that stays is where it was and holds what it held. */
  lemma ShrunkBlock(sb: Super, img0: seq<Block>, ino0: seq<Inode>, owner0: map<nat, Slot>, img: seq<Block>,
      ino: seq<Inode>, owner: map<nat, Slot>, inum: nat, gone: set<nat>, j: nat, i: nat, n: nat)
    requires Shrunk(sb, img0, ino0, owner0, img, ino, owner, inum, gone) && j < |ino| && i < n
    requires Allocated(img0, ino0[j], n) && (j == inum ==> Idx(i) !in gone)
    ensures var b := BlockAt(img0, ino0[j], i);
      BlockAt(img, ino[j], i) == b && b < |img0| && b < |img| && img[b] == img0[b]
  {
    hide Mapped, Ref;
    var b := BlockAt(img0, ino0[j], i);
    assert b != 0;
    assert Ref(img0, ino0[j], Idx(i)) == b;
    assert owner0[b] == Slot(j, Idx(i));
  }

  lemma ShrunkOther(sb: Super, img0: seq<Block>, ino0: seq<Inode>, owner0: map<nat, Slot>, img: seq<Block>,
      ino: seq<Inode>, owner: map<nat, Slot>, inum: nat, gone: set<nat>, j: nat)
    requires Shrunk(sb, img0, ino0, owner0, img, ino, owner, inum, gone) && Files(img0, ino0) && j < |ino| && j != inum
    ensures ino[j] == ino0[j] && NoHoles(img, ino[j]) && Content(img, ino[j]) == Content(img0, ino0[j])
  {
    var n := Blocks(ino[j].size);
    assert NoHoles(img, ino[j]) by {
      hide Owned, Mapped;
      assert forall x | 0 <= x < NSLOT :: Ref(img, ino[j], x) == Ref(img0, ino0[j], x);
      SameAllocated(img0, img, ino0[j], n);
    }
    hide Owned, Mapped;
    ShrunkBytes(sb, img0, ino0, owner0, img, ino, owner, inum, gone, j, n, n, ino[j].size);
    SameContent(img0, ino0[j], img, ino[j]);
  }

  /** Truncation: the file is its first size bytes, every other file is as it was. */
  lemma ShrunkFiles(sb: Super, img0: seq<Block>, ino0: seq<Inode>, owner0: map<nat, Slot>, img: seq<Block>,
      ino: seq<Inode>, owner: map<nat, Slot>, inum: nat, gone: set<nat>, size: nat, ino': seq<Inode>)
    requires Shrunk(sb, img0, ino0, owner0, img, ino, owner, inum, gone) && Files(img0, ino0) && size <= ino0[inum].size
    requires Beyond(gone, Blocks(size), Blocks(ino0[inum].size)) && ino' == ino[inum := ino[inum].(size := size)]
    ensures Ownership(sb, img, ino', owner, {}) && Files(img, ino') && |ino'| == |ino0|
    ensures Content(img, ino'[inum]) == Content(img0, ino0[inum])[..size]
    ensures forall j | 0 <= j < |ino'| && j != inum ::
      ino'[j] == ino0[j] && Content(img, ino'[j]) == Content(img0, ino0[j])
  {
    hide Owned, Mapped;
    var k, n := Blocks(size), Blocks(ino0[inum].size);
    ShrunkAllocated(sb, img0, ino0, owner0, img, ino, owner, inum, gone, k, n);
    ShrunkBytes(sb, img0, ino0, owner0, img, ino, owner, inum, gone, inum, k, n, size);
    SizeChanged(sb, img, ino, owner, inum, size);
    SameAllocatedSize(img, ino[inum], ino'[inum], k);
    forall j | 0 <= j < |ino'| && j != inum
      ensures NoHoles(img, ino'[j]) && ino'[j] == ino0[j] && Content(img, ino'[j]) == Content(img0, ino0[j])
    {
      ShrunkOther(sb, img0, ino0, owner0, img, ino, owner, inum, gone, j);
    }
    var c, c0 := Content(img, ino'[inum]), Content(img0, ino0[inum]);
    forall x | 0 <= x < size ensures c[x] == c0[x] {
      assert SameByte(img0, ino0[inum], img, ino[inum], x);
      assert BlockAt(img, ino'[inum], x / BSIZE) == BlockAt(img, ino[inum], x / BSIZE);
    }
  }

  function Range(lo: nat, hi: nat): (r: set<nat>)
    ensures forall x :: x in r <==> lo <= x < hi
    decreases hi
  {
    if lo >= hi then {} else Range(lo, hi - 1) + {hi - 1}
  }

  /** The places itruncate() clears to go from n to k blocks. */
  function Cleared(k: nat, n: nat): set<nat> {
    Range(Min(k, NDIRECT), Min(n, NDIRECT))
    + (if n > NDIRECT then Range(NDIRECT + 1 + EntriesKept(k), n + 1) + (if k <= NDIRECT then {NDIRECT} else {})
      else {})
  }

  function EntriesKept(k: nat): nat { if k > NDIRECT then k - NDIRECT else 0 }

  lemma ClearedIsBeyond(k: nat, n: nat)
    requires k <= n <= MAXFILE
    ensures Beyond(Cleared(k, n), k, n)
  { }

  /** Places not cleared keep their references. */
  lemma ShrunkAt(sb: Super, img0: seq<Block>, ino0: seq<Inode>, owner0: map<nat, Slot>, img: seq<Block>,
      ino: seq<Inode>, owner: map<nat, Slot>, inum: nat, gone: set<nat>, x: nat)
    requires Shrunk(sb, img0, ino0, owner0, img, ino, owner, inum, gone) && x < NSLOT
    ensures Ref(img, ino[inum], x) == if x in gone then 0 else Ref(img0, ino0[inum], x)
  { }

  // ------------------------------------------------- the kernel's itrunc()

  /** Blocks of the tree that are still in hand when entries below j are freed. */
  ghost function TreeFrom(img: seq<Block>, ip: Inode, j: nat): set<nat>
    requires InodeOk(img, ip)
  {
    {ip.addrs[NDIRECT]} + set x: nat | NDIRECT + 1 + j <= x < NSLOT && Ref(img, ip, x) != 0 :: Ref(img, ip, x)
  }

  lemma TreeFromStart(img: seq<Block>, ip: Inode)
    requires InodeOk(img, ip) && ip.addrs[NDIRECT] != 0
    ensures TreeFrom(img, ip, 0) == Tree(img, ip)
  {
    assert Ref(img, ip, NDIRECT) == ip.addrs[NDIRECT];
    assert ip.addrs[NDIRECT] in Tree(img, ip);
  }

  /** Freeing entry j takes exactly one block out of what is in hand. */
  lemma TreeFromNext(sb: Super, img: seq<Block>, ino: seq<Inode>, owner: map<nat, Slot>, inum: nat, j: nat)
    requires Shape(sb, img, ino) && Owned(sb, img, ino, owner) && inum < |ino| && ino[inum].addrs[NDIRECT] != 0
      && j < NINDIRECT
    ensures var b := Ref(img, ino[inum], NDIRECT + 1 + j);
      && TreeFrom(img, ino[inum], j + 1) == TreeFrom(img, ino[inum], j) - {b}
      && (b != 0 ==> b in TreeFrom(img, ino[inum], j))
  {
    hide Word;
    var ip, k := ino[inum], NDIRECT + 1 + j;
    var b := Ref(img, ip, k);
    assert Ref(img, ip, NDIRECT) == ip.addrs[NDIRECT];
    forall x | NDIRECT <= x < NSLOT && x != k && Ref(img, ip, x) != 0 ensures Ref(img, ip, x) != b { }
    hide Owned, Ref;
  }

  /** The whole indirect tree gone at once. */
  lemma ShrunkTree(sb: Super, img0: seq<Block>, ino0: seq<Inode>, owner0: map<nat, Slot>, img: seq<Block>,
      ino: seq<Inode>, owner: map<nat, Slot>, img': seq<Block>, ino': seq<Inode>, inum: nat, gone: set<nat>)
    requires Shrunk(sb, img0, ino0, owner0, img, ino, owner, inum, gone)
    requires Ownership(sb, img', ino', owner - Tree(img, ino[inum]), {})
      && ino' == ino[inum := WithAddr(ino[inum], NDIRECT, 0)]
    requires |img'| == |img| && forall x | 0 <= x < |img| && IsData(sb, x) :: img'[x] == img[x]
    ensures Shrunk(sb, img0, ino0, owner0, img', ino', owner - Tree(img, ino[inum]), inum, gone + Range(NDIRECT, NSLOT))
  {
    hide Owned, Mapped, ShrunkRefs, ShrunkOwner;
    TreeOwner(sb, img, ino, owner, inum);
    TreeRefs(sb, img, ino, owner, img', ino', inum);
    TreeShrunkOwner(sb, img0, owner0, img, owner, img', inum, gone, Tree(img, ino[inum]));
    TreeShrunkRefs(img0, ino0, img, ino, img', ino', inum, gone);
  }

  lemma TreeShrunkOwner(sb: Super, img0: seq<Block>, owner0: map<nat, Slot>, img: seq<Block>, owner: map<nat, Slot>,
      img': seq<Block>, inum: nat, gone: set<nat>, tree: set<nat>)
    requires ShrunkOwner(img0, owner0, img, owner, inum, gone) && |img'| == |img| && |img| == sb.size
    requires forall x | 0 <= x < |img| && IsData(sb, x) :: img'[x] == img[x]
    requires forall b | b in owner ::
      IsData(sb, b) && owner[b].idx < NSLOT && (b in tree <==> owner[b].inum == inum && owner[b].idx >= NDIRECT)
    ensures ShrunkOwner(img0, owner0, img', owner - tree, inum, gone + Range(NDIRECT, NSLOT))
  {
    forall b | b in owner0
      ensures b in owner - tree <==> !(owner0[b].inum == inum && owner0[b].idx in gone + Range(NDIRECT, NSLOT))
    {
      if b in owner { assert owner[b] == owner0[b]; }
    }
  }

  lemma TreeShrunkRefs(img0: seq<Block>, ino0: seq<Inode>, img: seq<Block>, ino: seq<Inode>, img': seq<Block>,
      ino': seq<Inode>, inum: nat, gone: set<nat>)
    requires InodesOk(img0, ino0) && InodesOk(img, ino) && InodesOk(img', ino') && |ino| == |ino0| == |ino'|
      && inum < |ino|
    requires ShrunkRefs(img0, ino0, img, ino, inum, gone)
    requires forall i, x | 0 <= i < |ino| && 0 <= x < NSLOT ::
      Ref(img', ino'[i], x) == if i == inum && x >= NDIRECT then 0 else Ref(img, ino[i], x)
    ensures ShrunkRefs(img0, ino0, img', ino', inum, gone + Range(NDIRECT, NSLOT))
  {
    hide Ref;
  }

  lemma TreeOwner(sb: Super, img: seq<Block>, ino: seq<Inode>, owner: map<nat, Slot>, inum: nat)
    requires Ownership(sb, img, ino, owner, {}) && inum < |ino| && InodeOk(img, ino[inum])
    ensures forall b | b in owner ::
      IsData(sb, b) && owner[b].idx < NSLOT
        && (b in Tree(img, ino[inum]) <==> owner[b].inum == inum && owner[b].idx >= NDIRECT)
  {
    forall b | b in owner && owner[b].inum == inum && owner[b].idx >= NDIRECT ensures b in Tree(img, ino[inum]) {
      assert Ref(img, ino[inum], owner[b].idx) == b;
    }
  }

  lemma TreeRefs(sb: Super, img: seq<Block>, ino: seq<Inode>, owner: map<nat, Slot>, img': seq<Block>,
      ino': seq<Inode>, inum: nat)
    requires Ownership(sb, img, ino, owner, {}) && inum < |ino| && Shape(sb, img', ino')
      && ino' == ino[inum := WithAddr(ino[inum], NDIRECT, 0)]
    requires |img'| == |img| && forall x | 0 <= x < |img| && IsData(sb, x) :: img'[x] == img[x]
    ensures forall i, x | 0 <= i < |ino| && 0 <= x < NSLOT ::
      Ref(img', ino'[i], x) == if i == inum && x >= NDIRECT then 0 else Ref(img, ino[i], x)
  {
    forall i, x | 0 <= i < |ino| && 0 <= x < NSLOT
      ensures Ref(img', ino'[i], x) == if i == inum && x >= NDIRECT then 0 else Ref(img, ino[i], x)
    {
      assert Ref(img, ino[i], NDIRECT) == ino[i].addrs[NDIRECT];
    }
  }

  lemma AllGone(n: nat)
    ensures Beyond(Range(0, NSLOT), 0, n)
  { }
}
