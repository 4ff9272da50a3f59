/** kernel/fs.c and tools/libfs.c: block allocation, block maps and file contents. */
module FileStore {
  import opened Basics
  import opened Bytes
  import opened FsFormat
  import opened FsOwner
  import opened FsContent
  import opened FsWrite
  import opened FsTrunc

  /** Device: the call goes to devsw. Error: the call returns -1. Full: balloc found no data block. */
  datatype IoResult = Device | Error | Full | Done(n: nat)

  /** What balloc() comes to. The scan covers the log region too: LogBlock is a block of the log handed out as a
      data block, NoBlocks the panic. */
  datatype Allocation = Got(b: nat) | LogBlock(b: nat) | NoBlocks

  /** Every data block belongs to some file. */
  ghost predicate DiskFull(sb: Super, owner: map<nat, Slot>) {
    AllTaken(sb, owner, {})
  }

  ghost predicate AllTaken(sb: Super, owner: map<nat, Slot>, inHand: set<nat>) {
    forall b | IsData(sb, b) :: b in owner || b in inHand
  }

  ghost predicate LogBitClear(sb: Super, img: seq<Block>) {
    exists b | IsLog(sb, b) :: MapBlock(sb, b) < |img| && !Used(sb, img, b)
  }

  /** The first block whose bit is clear. */
  ghost predicate Lowest(sb: Super, img: seq<Block>, b: nat) {
    b < sb.size && forall c | 0 <= c <= b :: MapBlock(sb, c) < |img| && (Used(sb, img, c) <==> c < b)
  }

  class FileStore {
    const sb: Super
    var img: seq<Block>
    /** In-memory inodes, and their copies in the inode blocks. */
    var ino: seq<Inode>
    var dino: seq<Inode>
    ghost var owner: map<nat, Slot>
    /** Blocks handed to log_write since the operation began. */
    ghost var logged: set<nat>

    /** The scan of balloc(): bitmap block by bitmap block, bit by bit. */
    method FindFree() returns (r: Option<nat>)
      requires ValidSuper(sb) && |img| == sb.size
      requires forall b | 0 <= b < sb.size :: MapBlock(sb, b) < |img|
      ensures r.Some? ==> r.value < sb.size && !Used(sb, img, r.value) && forall c | 0 <= c < r.value ::
        Used(sb, img, c)
      ensures r.None? ==> forall c | 0 <= c < sb.size :: Used(sb, img, c)
    {
      hide HasBit, Mask, MapBlock, ByteNo, BitNo, Used;
      var b := 0;
      while b < sb.size
        invariant b % BPB == 0
        invariant forall c | 0 <= c < b && c < sb.size :: Used(sb, img, c)
        decreases sb.size - b
      {
        var bp := img[MapBlock(sb, b)];
        var bi := 0;
        while bi < BPB && b + bi < sb.size
          invariant 0 <= bi <= BPB && bp == img[MapBlock(sb, b)]
          invariant forall c | 0 <= c < b + bi && c < sb.size :: Used(sb, img, c)
        {
          ScanBit(sb, img, b, bi);
          if bp[bi / 8] & Mask(bi % 8) == 0 {
            return Some(b + bi);
          }
          bi := bi + 1;
        }
        b := b + BPB;
      }
      return None;
    }

    /** balloc(): the first free block, marked and cleared. It is a block of the log exactly when no data block
        is free and the bit of a log block is clear. */
    method Balloc(ghost inHand: set<nat>) returns (r: Allocation)
      requires Ownership(sb, img, ino, owner, inHand)
      modifies this`img, this`logged
      ensures r.Got? <==> !AllTaken(sb, owner, inHand)
      ensures r.LogBlock? <==> AllTaken(sb, owner, inHand) && LogBitClear(sb, old(img))
      ensures r.Got? ==>
        && IsData(sb, r.b) && r.b !in owner && r.b !in inHand
        && |img| == |old(img)| && img[r.b] == ZEROS
        && Ownership(sb, img, ino, owner, inHand + {r.b})
        && (forall x | x in owner || x in inHand :: x < |img| && img[x] == old(img)[x])
        && logged == old(logged) + {MapBlock(sb, r.b), r.b}
      ensures r.LogBlock? ==>
        && IsLog(sb, r.b) && |img| == |old(img)| && img[r.b] == ZEROS && Ownership(sb, img, ino, owner, inHand)
        && (forall x | x in owner || x in inHand :: x < |img| && img[x] == old(img)[x])
      ensures r.NoBlocks? ==> img == old(img) && logged == old(logged)
      ensures !r.NoBlocks? ==> Lowest(sb, old(img), r.b)
    {
      hide HasBit, MapBlock;
      var f := FindFree();
      if f.None? {
        NoneFree(sb, img, ino, owner, inHand);
        return NoBlocks;
      }
      var b := f.value;
      FirstFree(sb, img, ino, owner, inHand, b);
      if IsData(sb, b) {
        Taken(sb, img, ino, owner, inHand, b);
      } else {
        LogTaken(sb, img, ino, owner, inHand, b);
      }
      hide Owned, Mapped;
      img := Marked(sb, img, b, true);
      logged := logged + {MapBlock(sb, b)};
      img := img[b := ZEROS];
      logged := logged + {b};
      return if IsData(sb, b) then Got(b) else LogBlock(b);
    }

    /** bfree(): false is the panic "freeing free block". */
    method Bfree(b: nat) returns (ok: bool)
      requires ValidSuper(sb) && |img| == sb.size && b < sb.size && MapBlock(sb, b) < |img|
      modifies this`img, this`logged
      ensures ok == old(Used(sb, img, b))
      ensures ok ==> img == Marked(sb, old(img), b, false) && logged == old(logged) + {MapBlock(sb, b)}
      ensures !ok ==> img == old(img) && logged == old(logged)
    {
      hide HasBit, WithBit, Mask, MapBlock, ByteNo, BitNo, ValidSuper;
      BitPlace(b);
      var m, bi := MapBlock(sb, b), b % BPB;
      var x, k := bi / 8, bi % 8;
      BitTest(img[m], x, k);
      if img[m][x] & Mask(k) == 0 {
        return false;
      }
      img := img[m := img[m][x := img[m][x] & !Mask(k)]];
      logged := logged + {m};
      return true;
    }

    /** Allocate a block for addrs[idx] of an inode. */
    method AllocAddr(inum: nat, idx: nat) returns (r: Option<nat>)
      requires Ownership(sb, img, ino, owner, {}) && inum < |ino| && idx <= NDIRECT && InodeOk(img, ino[inum])
        && ino[inum].addrs[idx] == 0
      modifies this`img, this`ino, this`owner, this`logged
      ensures Ownership(sb, img, ino, owner, {}) && KeepsBlocks(old(img), old(ino), img, ino)
      ensures SameRefsBut(old(img), old(ino), img, ino, inum, idx)
      ensures r.None? ==> ino == old(ino) && DiskFull(sb, owner)
      ensures r.Some? ==>
        && r.value != 0 && r.value < |img| && img[r.value] == ZEROS && r.value !in old(owner)
        && ino == old(ino)[inum := WithAddr(old(ino)[inum], idx, r.value)]
        && (forall m | m in logged :: m in old(logged) || IsMap(sb, m) || m == r.value)
    {
      hide Mapped;
      var a := Balloc({});
      UnownedWritten(sb, old(img), ino, owner, img, inum, idx);
      r := None;
      if a.Got? {
        var b := a.b;
        r := Some(b);
        MapBlockIsMap(sb, b);
        SameRefs(sb, old(img), img, ino, owner);
        Linked(sb, img, ino, owner, {} + {b}, inum, idx, b);
        ino := ino[inum := WithAddr(ino[inum], idx, b)];
        owner := owner[b := Slot(inum, idx)];
        assert {} + {b} - {b} == {};
        LinkKeepsBlocks(sb, old(img), old(ino), img, ino, old(owner), inum, idx, 0);
      }
    }

    /** Allocate a block for word k of the indirect block of an inode. */
    method AllocEntry(inum: nat, k: nat) returns (r: Option<nat>)
      requires Ownership(sb, img, ino, owner, {}) && inum < |ino| && k < NINDIRECT && InodeOk(img, ino[inum])
      requires ino[inum].addrs[NDIRECT] != 0 && Ref(img, ino[inum], NDIRECT + 1 + k) == 0
      modifies this`img, this`owner, this`logged
      ensures Ownership(sb, img, ino, owner, {}) && KeepsBlocks(old(img), ino, img, ino)
      ensures SameRefsBut(old(img), ino, img, ino, inum, NDIRECT + 1 + k) && (r.None? ==> DiskFull(sb, owner))
      ensures r.Some? ==>
        && r.value != 0 && r.value < |img| && img[r.value] == ZEROS
        && Ref(img, ino[inum], NDIRECT + 1 + k) == r.value
        && (forall m | m in logged :: m in old(logged) || IsMap(sb, m) || m == r.value || m == ino[inum].addrs[NDIRECT])
    {
      hide Mapped, Owned, KeepsBlocks, SetWord, Word;
      var a := Balloc({});
      UnownedWritten(sb, old(img), ino, owner, img, inum, NDIRECT + 1 + k);
      r := None;
      if a.Got? {
        var b := a.b;
        r := Some(b);
        MapBlockIsMap(sb, b);
        assert {} + {b} == {b};
        EntryAllocated(sb, old(img), img, ino, owner, inum, k, b);
        var ind := ino[inum].addrs[NDIRECT];
        img := img[ind := SetWord(img[ind], k, b)];
        owner := owner[b := Slot(inum, NDIRECT + 1 + k)];
        logged := logged + {ind};
      }
    }

    /** bmap() on the indirect part of the file. */
    method BmapIndirect(inum: nat, k: nat) returns (r: Option<nat>)
      requires Ownership(sb, img, ino, owner, {}) && inum < |ino| && InodeOk(img, ino[inum]) && k < NINDIRECT
      modifies this`img, this`ino, this`owner, this`logged
      ensures Ownership(sb, img, ino, owner, {}) && KeepsBlocks(old(img), old(ino), img, ino)
      ensures OnlyNew(old(img), old(ino), img, ino, inum, NDIRECT + k)
      ensures |ino| == |old(ino)| && ino == old(ino)[inum := old(ino)[inum].(addrs := ino[inum].addrs)]
      ensures r.Some? ==>
        InodeOk(img, ino[inum]) && r.value == BlockAt(img, ino[inum], NDIRECT + k) != 0 && ino[inum].addrs[NDIRECT] != 0
      ensures var was := old(BlockAt(img, ino[inum], NDIRECT + k));
        if was != 0 then r == Some(was) && img == old(img) && ino == old(ino) && logged == old(logged)
        else if r.Some? then r.value < |img| && img[r.value] == ZEROS
        else DiskFull(sb, owner)
      ensures r.Some? ==> forall m | m in logged ::
        m in old(logged) || IsMap(sb, m) || m == r.value || m == ino[inum].addrs[NDIRECT]
      ensures old(ino)[inum].addrs[NDIRECT] != 0 ==> ino[inum].addrs[NDIRECT] == old(ino)[inum].addrs[NDIRECT]
    {
      hide Mapped, Owned, KeepsBlocks, OnlyNew, Word, DiskFull;
      SameBlocks(img, ino);
      NothingNew(img, ino, inum, NDIRECT + k);
      var ind := ino[inum].addrs[NDIRECT];
      if ind == 0 {
        var a := AllocAddr(inum, NDIRECT);
        OnlyNewOfRefs(old(img), old(ino), img, ino, inum, NDIRECT + k, NDIRECT);
        if a.None? { return None; }
        ind := a.value;
        WordOfZeros(k);
      }
      var addr := Word(img[ind], k);
      if addr == 0 {
        ghost var img1, ino1 := img, ino;
        r := AllocEntry(inum, k);
        OnlyNewOfRefs(img1, ino1, img, ino, inum, NDIRECT + k, NDIRECT + 1 + k);
        OnlyNewTrans(old(img), old(ino), img1, ino1, img, ino, inum, NDIRECT + k);
        KeepsBlocksTrans(old(img), old(ino), img1, ino1, img, ino);
        return;
      }
      return Some(addr);
    }

    /** bmap(): the disk block of file block bn, allocated if there is none; None is the panic beyond MAXFILE, or a full
        disk. */
    method Bmap(inum: nat, bn: nat) returns (r: Option<nat>)
      requires Ownership(sb, img, ino, owner, {}) && inum < |ino| && InodeOk(img, ino[inum])
      modifies this`img, this`ino, this`owner, this`logged
      ensures Ownership(sb, img, ino, owner, {}) && KeepsBlocks(old(img), old(ino), img, ino)
      ensures OnlyNew(old(img), old(ino), img, ino, inum, bn)
      ensures |ino| == |old(ino)| && ino == old(ino)[inum := old(ino)[inum].(addrs := ino[inum].addrs)]
      ensures bn >= MAXFILE ==> r.None?
      ensures r.Some? ==> InodeOk(img, ino[inum]) && 0 < r.value == BlockAt(img, ino[inum], bn) < |img|
      ensures bn < MAXFILE ==> var was := old(BlockAt(img, ino[inum], bn));
        if was != 0 then r == Some(was) && img == old(img) && ino == old(ino) && logged == old(logged)
        else if r.Some? then img[r.value] == ZEROS
        else DiskFull(sb, owner)
      ensures r.Some? && bn >= NDIRECT ==> ino[inum].addrs[NDIRECT] != 0
      ensures r.Some? && bn < NDIRECT ==> ino[inum].addrs[NDIRECT] == old(ino)[inum].addrs[NDIRECT]
      ensures old(ino)[inum].addrs[NDIRECT] != 0 ==> ino[inum].addrs[NDIRECT] == old(ino)[inum].addrs[NDIRECT]
      ensures r.Some? ==> forall m | m in logged ::
        m in old(logged) || IsMap(sb, m) || m == r.value || (m != 0 && m == ino[inum].addrs[NDIRECT])
    {
      hide Mapped, Owned, KeepsBlocks, OnlyNew, DiskFull, Word, IsMap, SameRefsBut;
      NothingNew(img, ino, inum, bn);
      if bn < NDIRECT {
        RefInRange(sb, img, ino, owner, inum, bn);
        var addr := ino[inum].addrs[bn];
        if addr == 0 {
          r := AllocAddr(inum, bn);
          OnlyNewOfRefs(old(img), old(ino), img, ino, inum, bn, bn);
          return;
        }
        return Some(addr);
      }
      if bn - NDIRECT >= NINDIRECT { return None; }
      r := BmapIndirect(inum, bn - NDIRECT);
      if r.Some? { RefInRange(sb, img, ino, owner, inum, bn + 1); }
    }

    ghost predicate Valid()
      reads this
    {
      Ownership(sb, img, ino, owner, {}) && Files(img, ino) && dino == ino
    }

    /** iupdate(): the inode goes to its inode block. */
    method Iupdate(inum: nat)
      requires inum < |ino| == |dino|
      modifies this`dino, this`logged
      ensures dino == old(dino)[inum := ino[inum]] && logged == old(logged) + {InodeBlock(inum)}
    {
      dino := dino[inum := ino[inum]];
      logged := logged + {InodeBlock(inum)};
    }

    /** One round of the copy loop: map the block, copy up to its end. */
    method WriteRound(inum: nat, cur: nat, chunk: seq<Byte>, ghost img0: seq<Block>, ghost ino0: seq<Inode>,
        ghost off: nat, ghost src: seq<Byte>)
      returns (ok: bool, ghost b: nat)
      requires inum < |ino0|
        && Writing(sb, img0, ino0, img, ino, owner, inum, off, cur, src, Blocks(Max(ino0[inum].size, cur)))
      requires 0 < |chunk| <= off + |src| - cur && |chunk| <= BSIZE - cur % BSIZE
        && chunk == src[cur - off..cur - off + |chunk|]
      modifies this`img, this`ino, this`owner, this`logged
      ensures ok ==>
        Writing(sb, img0, ino0, img, ino, owner, inum, off, cur + |chunk|, src,
        Blocks(Max(ino0[inum].size, cur + |chunk|)))
      ensures Ownership(sb, img, ino, owner, {}) && (!ok ==> DiskFull(sb, owner))
      ensures ok ==> forall m | m in logged ::
        m in old(logged) || IsMap(sb, m) || m == b || (m != 0 && m == ino[inum].addrs[NDIRECT])
      ensures ok && old(ino)[inum].addrs[NDIRECT] != 0 ==> ino[inum].addrs[NDIRECT] == old(ino)[inum].addrs[NDIRECT]
    {
      hide Ownership, OthersKept, Progress, KeepsBlocks, OnlyNew, Blocks, Word, DiskFull;
      var bn := cur / BSIZE;
      ghost var n := Blocks(Max(ino0[inum].size, cur));
      BlockArith(cur, |chunk|, ino0[inum].size);
      WritingMaps(sb, img0, ino0, img, ino, owner, inum, off, cur, src, n);
      var r := Bmap(inum, bn);
      b := 0;
      if r.None? { return false, 0; }
      b := r.value;
      if bn == n {
        WritingAllocates(sb, img0, ino0, old(img), old(ino), old(owner), img, ino, owner, inum, off, cur, src, n);
        n := n + 1;
      }
      var data := Patch(img[r.value], cur % BSIZE, chunk);
      WritingCopies(sb, img0, ino0, img, ino, owner, inum, off, cur, src, n, |chunk|, data);
      img := img[r.value := data];
      logged := logged + {r.value};
      return true, b;
    }

    /** What log_write was given: the data blocks, bitmap blocks, the indirect block. */
    ghost predicate LoggedOnly(was: set<nat>, data: set<nat>, inum: nat)
      reads this
    {
      && inum < |ino| && |ino[inum].addrs| == NDIRECT + 1
      && forall m | m in logged :: m in was || m in data || IsMap(sb, m) || (m != 0 && m == ino[inum].addrs[NDIRECT])
    }

    /** The copy loop of writei(); false is a full disk. */
    method WriteLoop(inum: nat, src: seq<Byte>, off: nat) returns (ok: bool, ghost data: set<nat>)
      requires Ownership(sb, img, ino, owner, {}) && Files(img, ino) && inum < |ino| && off <= ino[inum].size
        && off + |src| <= MAXFILE * BSIZE
      modifies this`img, this`ino, this`owner, this`logged
      ensures ok ==>
        Writing(sb, old(img), old(ino), img, ino, owner, inum, off, off + |src|, src,
        Blocks(Max(old(ino)[inum].size, off + |src|)))
      ensures ok ==> |data| <= Blocks(off + |src|) - off / BSIZE && LoggedOnly(old(logged), data, inum)
      ensures Ownership(sb, img, ino, owner, {}) && (!ok ==> DiskFull(sb, owner))
    {
      hide Ownership, OthersKept, Progress, NoHoles, Files, Blocks, Writing, LoggedOnly, DiskFull;
      data := {};
      ghost var size := ino[inum].size;
      WritingStarts(sb, img, ino, owner, inum, off, src);
      WritingShape(sb, img, ino, img, ino, owner, inum, off, off, src, Blocks(size));
      LoggedNothing(inum);
      FirstRound(off);
      var tot, cur := 0, off;
      while tot < |src|
        invariant 0 <= tot <= |src| && cur == off + tot
        invariant Writing(sb, old(img), old(ino), img, ino, owner, inum, off, cur, src, Blocks(Max(size, cur)))
        invariant cur == off || cur % BSIZE == 0 || tot == |src|
        invariant |data| <= Blocks(cur) - off / BSIZE && (cur == off ==> data == {})
        invariant LoggedOnly(old(logged), data, inum)
      {
        WritingShape(sb, old(img), old(ino), img, ino, owner, inum, off, cur, src, Blocks(Max(size, cur)));
        LoggedShape(old(logged), data, inum);
        var m := Min(|src| - tot, BSIZE - cur % BSIZE);
        RoundArith(off, cur, m);
        ghost var b;
        ghost var was, ind := logged, ino[inum].addrs[NDIRECT];
        ok, b := WriteRound(inum, cur, src[tot..tot + m], old(img), old(ino), off, src);
        if !ok { return; }
        WritingShape(sb, old(img), old(ino), img, ino, owner, inum, off, cur + m, src, Blocks(Max(size, cur + m)));
        LoggedMore(old(logged), was, data, b, ind, inum);
        data := data + {b};
        tot := tot + m;
        cur := cur + m;
      }
      WritingOwns(sb, old(img), old(ino), img, ino, owner, inum, off, cur, src, Blocks(Max(size, cur)));
      return true, data;
    }

    lemma LoggedNothing(inum: nat)
      requires inum < |ino| && |ino[inum].addrs| == NDIRECT + 1
      ensures LoggedOnly(logged, {}, inum)
    { }

    lemma LoggedShape(was: set<nat>, data: set<nat>, inum: nat)
      requires LoggedOnly(was, data, inum)
      ensures inum < |ino| && |ino[inum].addrs| == NDIRECT + 1
      ensures forall m | m in logged ::
        m in was || m in data || IsMap(sb, m) || (m != 0 && m == ino[inum].addrs[NDIRECT])
    { }

    /** The round added its data block, bitmap blocks and the indirect block. */
    lemma LoggedMore(was: set<nat>, before: set<nat>, data: set<nat>, b: nat, ind: nat, inum: nat)
      requires inum < |ino| && |ino[inum].addrs| == NDIRECT + 1
      requires forall m | m in before :: m in was || m in data || IsMap(sb, m) || (m != 0 && m == ind)
      requires forall m | m in logged ::
        m in before || IsMap(sb, m) || m == b || (m != 0 && m == ino[inum].addrs[NDIRECT])
      requires ind != 0 ==> ino[inum].addrs[NDIRECT] == ind
      ensures LoggedOnly(was, data + {b}, inum)
    { }

    /** writei(). */
    method Writei(inum: nat, src: seq<Byte>, off: nat) returns (r: IoResult, ghost data: set<nat>)
      requires Valid() && inum < |ino| && off < UINT && |src| < UINT
      modifies this`img, this`ino, this`dino, this`owner, this`logged
      ensures r.Device? <==> old(ino)[inum].typ.Dev?
      ensures r.Error? <==>
        !old(ino)[inum].typ.Dev? && (off > old(ino)[inum].size || off + |src| >= UINT || off + |src| > MAXFILE * BSIZE)
      ensures r.Device? || r.Error? ==>
        img == old(img) && ino == old(ino) && dino == old(dino) && owner == old(owner) && logged == old(logged)
      ensures r.Done? ==>
        && r.n == |src| && Valid() && |ino| == |old(ino)| && ino[inum].typ == old(ino)[inum].typ
        && Content(img, ino[inum]) == WriteAt(old(Content(img, ino[inum])), off, src)
        && (forall j | 0 <= j < |ino| && j != inum ::
           ino[j] == old(ino)[j] && Content(img, ino[j]) == Content(old(img), old(ino)[j]))
      ensures r.Done? ==>
        |data| <= Blocks(off + |src|) - off / BSIZE && LoggedOnly(old(logged) + {InodeBlock(inum)}, data, inum)
      ensures Ownership(sb, img, ino, owner, {}) && (r.Full? ==> DiskFull(sb, owner))
    {
      hide Ownership, OthersKept, Progress, NoHoles, DiskFull;
      var n := |src|;
      data := {};
      if ino[inum].typ.Dev? { return Device, data; }
      if off > ino[inum].size || (off + n) % UINT < off { return Error, data; }
      if off + n > MAXFILE * BSIZE { return Error, data; }
      ghost var size := ino[inum].size;
      var ok;
      ok, data := WriteLoop(inum, src, off);
      if !ok { return Full, data; }
      WritingShape(sb, old(img), old(ino), img, ino, owner, inum, off, off + n, src, Blocks(Max(size, off + n)));
      WritingEnds(sb, old(img), old(ino), img, ino, owner, inum, off, src,
        ino[inum := ino[inum].(size := Max(size, off + n))]);
      if n > 0 && off + n > ino[inum].size {
        ino := ino[inum := ino[inum].(size := off + n)];
        Iupdate(inum);
      } else {
        assert ino[inum := ino[inum].(size := Max(size, off + n))] == ino;
      }
      return Done(n), data;
    }

    /** readi(): the bytes asked for, as far as the file goes; nothing changes. */
    method Readi(inum: nat, off: nat, count: nat) returns (r: IoResult, dst: seq<Byte>)
      requires Valid() && inum < |ino| && off < UINT && count < UINT
      modifies this`img, this`ino, this`owner, this`logged
      ensures Valid() && img == old(img) && ino == old(ino) && logged == old(logged)
      ensures r.Device? <==> ino[inum].typ.Dev?
      ensures r.Error? <==> !ino[inum].typ.Dev? && (off > ino[inum].size || off + count >= UINT)
      ensures !r.Full?
      ensures r.Done? ==> r.n == Min(count, ino[inum].size - off) && dst == Content(img, ino[inum])[off..off + r.n]
    {
      hide Ownership, NoHoles, KeepsBlocks, OnlyNew, Content, Ref, Files;
      FilesAt(img, ino, inum);
      dst := [];
      if ino[inum].typ.Dev? { return Device, dst; }
      if off > ino[inum].size || (off + count) % UINT < off { return Error, dst; }
      var n := count;
      if off + n > ino[inum].size {
        n := ino[inum].size - off;
      }
      var tot, cur := 0, off;
      assert Content(img, ino[inum])[off..off] == [];
      while tot < n
        invariant 0 <= tot <= n && cur == off + tot && |ino| == |old(ino)| && off + n <= ino[inum].size
        invariant Valid() && img == old(img) && ino == old(ino) && logged == old(logged)
        invariant dst == Content(img, ino[inum])[off..cur]
      {
        var m := Min(n - tot, BSIZE - cur % BSIZE);
        ReadChunk(img, ino[inum], cur, m);
        var b := Bmap(inum, cur / BSIZE);
        ContentSlices(Content(img, ino[inum]), off, cur, cur + m);
        dst := dst + img[b.value][cur % BSIZE..cur % BSIZE + m];
        tot := tot + m;
        cur := cur + m;
      }
      return Done(n), dst;
    }

    /** One transaction of filewrite(): a chunk of at most 13 blocks' worth of bytes. */
    method WriteChunk(inum: nat, off: nat, chunk: seq<Byte>) returns (r: IoResult)
      requires Valid() && inum < |ino| && off < UINT && 0 < |chunk| <= 13 * BSIZE
      modifies this`img, this`ino, this`dino, this`owner, this`logged
      ensures r.Done? ==> r.n == |chunk| && Valid() && Wrote(old(img), old(ino), img, ino, inum, off, chunk)
      ensures r.Done? && sb.size < BPB ==> |logged| <= 17
      ensures r.Error? || r.Device? ==> Valid() && img == old(img) && ino == old(ino)
      ensures r.Error? ==> off > ino[inum].size || off + |chunk| > MAXFILE * BSIZE
      ensures (r.Device? <==> old(ino)[inum].typ.Dev?) && (r.Full? ==> DiskFull(sb, owner))
    {
      hide Ownership, NoHoles, DiskFull;
      logged := {};   // begin_op
      ghost var data;
      r, data := Writei(inum, chunk, off);
      if r.Done? {
        ChunkBlocks(off, |chunk|);
        if sb.size < BPB { TransactionSize(sb, logged, data, ino[inum].addrs[NDIRECT], InodeBlock(inum)); }
      }
    }

    /** filewrite() on an inode: chunk after chunk, each in a transaction of its own. i is how
        much was written, fileOff the new file offset, txs the sizes of the transactions. */
    method Filewrite(inum: nat, off: nat, addr: seq<Byte>)
      returns (r: IoResult, fileOff: nat, ghost i: nat, ghost txs: seq<nat>)
      requires Valid() && inum < |ino| && off < UINT && |addr| < 0x8000_0000
      modifies this`img, this`ino, this`dino, this`owner, this`logged
      ensures !r.Full? ==>
        i <= |addr| && fileOff == off + i && Valid() && Wrote(old(img), old(ino), img, ino, inum, off, addr[..i])
      ensures r.Done? ==> r.n == |addr| == i
      ensures r.Error? ==>
        i < |addr| && (off + i > ino[inum].size || off + i + Min(|addr| - i, 13 * BSIZE) > MAXFILE * BSIZE)
      ensures r.Device? ==> old(ino)[inum].typ.Dev?
      ensures r.Full? ==> DiskFull(sb, owner)
      ensures sb.size < BPB ==> forall k | 0 <= k < |txs| :: txs[k] <= 17
      ensures r.Done? ==>
        |addr| == Min(|txs| * (13 * BSIZE), |addr|) && (txs != [] ==> (|txs| - 1) * (13 * BSIZE) < |addr|)
    {
      hide Ownership, NoHoles, Content, Wrote, DiskFull;
      var k := 0;
      i, txs, fileOff := 0, [], off;
      WroteNothing(img, ino, inum, off);
      while k < |addr|
        invariant 0 <= k <= |addr| && i == k && fileOff == off + k && Valid() && off + k < UINT && inum < |ino|
        invariant Wrote(old(img), old(ino), img, ino, inum, off, addr[..k])
        invariant sb.size < BPB ==> forall x | 0 <= x < |txs| :: txs[x] <= 17
        invariant k == Min(|txs| * (13 * BSIZE), |addr|) && (txs != [] ==> (|txs| - 1) * (13 * BSIZE) < |addr|)
      {
        ghost var img1, ino1 := img, ino;
        var n1 := |addr| - k;
        if n1 > 13 * BSIZE {
          n1 := 13 * BSIZE;
        }
        r := WriteChunk(inum, fileOff, addr[k..k + n1]);
        if !r.Done? {
          WroteType(old(img), old(ino), img1, ino1, inum, off, addr[..k]);
          return;
        }
        txs := txs + [|logged|];
        WroteMore(old(img), old(ino), img1, ino1, img, ino, inum, off, addr[..k], addr[k..k + n1]);
        assert addr[..k] + addr[k..k + n1] == addr[..k + n1];
        WroteInBounds(img1, ino1, img, ino, inum, off + k, addr[k..k + n1]);
        fileOff := fileOff + r.n;
        k := k + r.n;
        i := k;
      }
      r := Done(|addr|);
    }

    /** bfree(addrs[idx]); addrs[idx] = 0. */
    method DropAddr(inum: nat, idx: nat, ghost img0: seq<Block>, ghost ino0: seq<Inode>, ghost owner0: map<nat, Slot>,
        ghost gone: set<nat>)
      returns (ok: bool)
      requires Shrunk(sb, img0, ino0, owner0, img, ino, owner, inum, gone) && idx <= NDIRECT
        && ino[inum].addrs[idx] != 0
      requires idx == NDIRECT ==> forall x | NDIRECT < x < NSLOT :: Ref(img, ino[inum], x) == 0
      modifies this`img, this`ino, this`owner, this`logged
      ensures ok && Shrunk(sb, img0, ino0, owner0, img, ino, owner, inum, gone + {idx})
    {
      hide Owned, Mapped, ShrunkRefs, ShrunkOwner;
      AddrFreed(sb, img, ino, owner, inum, idx);
      var b := ino[inum].addrs[idx];
      ok := Bfree(b);
      ino := ino[inum := WithAddr(ino[inum], idx, 0)];
      owner := owner - {b};
      ShrunkMore(sb, img0, ino0, owner0, old(img), old(ino), old(owner), img, ino, inum, gone, idx, b);
    }

    /** bfree(a[k]); a[k] = 0 in the indirect block. */
    method DropEntry(inum: nat, k: nat, ghost img0: seq<Block>, ghost ino0: seq<Inode>, ghost owner0: map<nat, Slot>,
        ghost gone: set<nat>)
      returns (ok: bool)
      requires inum < |ino| && InodeOk(img, ino[inum]) && k < NINDIRECT && Ref(img, ino[inum], NDIRECT + 1 + k) != 0
      requires Shrunk(sb, img0, ino0, owner0, img, ino, owner, inum, gone)
      modifies this`img, this`owner, this`logged
      ensures ok && Shrunk(sb, img0, ino0, owner0, img, ino, owner, inum, gone + {NDIRECT + 1 + k})
    {
      hide Owned, Mapped, ShrunkRefs, ShrunkOwner, SetWord, Word;
      EntryFreed(sb, img, ino, owner, inum, k);
      var ind := ino[inum].addrs[NDIRECT];
      var b := Word(img[ind], k);
      ok := Bfree(b);
      img := img[ind := SetWord(img[ind], k, 0)];
      EntryFreedFrame(sb, old(img), ino, owner, inum, k, img);
      owner := owner - {b};
      ShrunkMore(sb, img0, ino0, owner0, old(img), ino, old(owner), img, ino, inum, gone, NDIRECT + 1 + k, b);
    }

    /** itruncate(): free the direct blocks from kd on. */
    method ShrinkDirect(inum: nat, kd: nat, nd: nat)
      requires Ownership(sb, img, ino, owner, {}) && inum < |ino| && kd <= nd <= NDIRECT
      requires forall i | kd <= i < nd :: Ref(img, ino[inum], i) != 0
      modifies this`img, this`ino, this`owner, this`logged
      ensures Shrunk(sb, old(img), old(ino), old(owner), img, ino, owner, inum, Range(kd, nd))
    {
      hide Owned, Mapped, ShrunkOwner, ShrunkRefs;
      NothingShrunk(sb, img, ino, owner, inum);
      assert Range(kd, kd) == {};
      var i := kd;
      while i < nd
        invariant kd <= i <= nd && Shrunk(sb, old(img), old(ino), old(owner), img, ino, owner, inum, Range(kd, i))
      {
        ShrunkAt(sb, old(img), old(ino), old(owner), img, ino, owner, inum, Range(kd, i), i);
        var ok := DropAddr(inum, i, old(img), old(ino), old(owner), Range(kd, i));
        assert Range(kd, i) + {i} == Range(kd, i + 1);
        i := i + 1;
      }
    }

    /** itruncate(): free the entries ki..ni of the indirect block, and that block with the last. */
    method ShrinkIndirect(inum: nat, ki: nat, ni: nat, ghost img0: seq<Block>, ghost ino0: seq<Inode>,
        ghost owner0: map<nat, Slot>, ghost gone: set<nat>)
      requires Shrunk(sb, img0, ino0, owner0, img, ino, owner, inum, gone) && ki < ni <= NINDIRECT
        && (forall x | x in gone :: x < NDIRECT)
      requires forall x | NDIRECT < x < NSLOT :: Ref(img0, ino0[inum], x) != 0 <==> x < NDIRECT + 1 + ni
      modifies this`img, this`ino, this`owner, this`logged
      ensures Shrunk(sb, img0, ino0, owner0, img, ino, owner, inum,
                gone + (Range(NDIRECT + 1 + ki, NDIRECT + 1 + ni) + (if ki == 0 then {NDIRECT} else {})))
    {
      hide Owned, Mapped, ShrunkOwner, ShrunkRefs, Word, Range;
      ghost var first := NDIRECT + 1 + ki;
      var i := ki;
      GoneNone(gone, first);
      while i < ni
        invariant ki <= i <= ni
          && Shrunk(sb, img0, ino0, owner0, img, ino, owner, inum, gone + Range(first, NDIRECT + 1 + i))
      {
        ShrunkAt(sb, img0, ino0, owner0, img, ino, owner, inum, gone + Range(first, NDIRECT + 1 + i), NDIRECT + 1 + i);
        var ok := DropEntry(inum, i, img0, ino0, owner0, gone + Range(first, NDIRECT + 1 + i));
        GoneMore(gone, first, NDIRECT + 1 + i);
        i := i + 1;
      }
      ghost var all := gone + Range(first, NDIRECT + 1 + ni);
      if ki == 0 {
        ListsNothing(sb, img0, ino0, owner0, img, ino, owner, inum, all, ni);
        var ok := DropAddr(inum, NDIRECT, img0, ino0, owner0, all);
        assert all + {NDIRECT} == gone + (Range(first, NDIRECT + 1 + ni) + {NDIRECT});
      } else {
        assert all == gone + (Range(first, NDIRECT + 1 + ni) + {});
      }
    }

    /** itruncate() of the tools: cut to size, or extend with zeros. */
    method Itruncate(inum: nat, size: nat) returns (r: IoResult)
      requires Valid() && inum < |ino|
      modifies this`img, this`ino, this`dino, this`owner, this`logged
      ensures r.Error? <==> old(ino)[inum].typ.Dev? || size > MAXFILE * BSIZE
      ensures r.Error? ==> img == old(img) && ino == old(ino) && dino == old(dino) && owner == old(owner)
      ensures !r.Device? && (r.Full? ==> size >= old(ino)[inum].size && DiskFull(sb, owner))
      ensures r.Done? ==>
        && Valid() && |ino| == |old(ino)| && ino[inum].typ == old(ino)[inum].typ
        && Content(img, ino[inum]) == Truncated(old(Content(img, ino[inum])), size)
        && (forall j | 0 <= j < |ino| && j != inum ::
           ino[j] == old(ino)[j] && Content(img, ino[j]) == Content(old(img), old(ino)[j]))
      ensures r.Done? && size < old(ino)[inum].size ==>
        forall b | b in old(owner) ::
          b in owner <==>
          !(old(owner)[b].inum == inum && old(owner)[b].idx in Cleared(Blocks(size), Blocks(old(ino)[inum].size)))
    {
      hide Owned, Mapped, NoHoles, OthersKept, Progress, ShrunkRefs, ShrunkOwner, Content, DiskFull;
      if ino[inum].typ.Dev? { return Error; }
      if size > MAXFILE * BSIZE { return Error; }
      ghost var size0, c0 := ino[inum].size, Content(img, ino[inum]);
      if size < ino[inum].size {
        Shrink(inum, size);
      } else {
        var ok, data := WriteLoop(inum, seq(size - ino[inum].size, _ => 0), ino[inum].size);
        if !ok { return Full; }
        WritingShape(sb, old(img), old(ino), img, ino, owner, inum, size0, size, seq(size - size0, _ => 0),
          Blocks(Max(size0, size)));
        WritingEnds(sb, old(img), old(ino), img, ino, owner, inum, size0, seq(size - size0, _ => 0),
          ino[inum := ino[inum].(size := Max(size0, size))]);
        ino := ino[inum := ino[inum].(size := size)];
        ZerosAppended(c0, size);
      }
      dino := dino[inum := ino[inum]];
      return Done(0);
    }

    /** The shrinking branch of itruncate(). */
    method Shrink(inum: nat, size: nat)
      requires Ownership(sb, img, ino, owner, {}) && Files(img, ino) && inum < |ino| && size < ino[inum].size
      modifies this`img, this`ino, this`owner, this`logged
      ensures Ownership(sb, img, ino, owner, {}) && Files(img, ino) && |ino| == |old(ino)|
        && ino[inum].typ == old(ino)[inum].typ
      ensures ino[inum].size == size && Content(img, ino[inum]) == old(Content(img, ino[inum]))[..size]
      ensures forall j | 0 <= j < |ino| && j != inum ::
        ino[j] == old(ino)[j] && Content(img, ino[j]) == Content(old(img), old(ino)[j])
      ensures forall b | b in old(owner) ::
        b in owner <==>
          !(old(owner)[b].inum == inum && old(owner)[b].idx in Cleared(Blocks(size), Blocks(old(ino)[inum].size)))
    {
      hide Owned, Mapped, NoHoles, ShrunkRefs, ShrunkOwner, Content, Word, Range, Blocks, Beyond;
      var n, k := Blocks(ino[inum].size), Blocks(size);
      FewerBlocks(size, ino[inum].size);
      var nd, kd := Min(n, NDIRECT), Min(k, NDIRECT);
      AllocatedRefs(img, ino, inum);
      ClearedIsBeyond(k, n);
      ShrinkDirect(inum, kd, nd);
      if n > NDIRECT && EntriesKept(k) < n - NDIRECT {
        ShrinkIndirect(inum, EntriesKept(k), n - NDIRECT, old(img), old(ino), old(owner), Range(kd, nd));
      } else {
        SameGone(k, n);
      }
      ShrunkFiles(sb, old(img), old(ino), old(owner), img, ino, owner, inum, Cleared(k, n), size,
        ino[inum := ino[inum].(size := size)]);
      ShrunkFrees(sb, old(img), old(ino), old(owner), img, ino, owner, inum, Cleared(k, n));
      ino := ino[inum := ino[inum].(size := size)];
    }

    /** itrunc(): free an indirect block and every block it lists; the entries are not cleared. */
    method FreeTree(inum: nat, ghost img0: seq<Block>, ghost ino0: seq<Inode>, ghost owner0: map<nat, Slot>,
        ghost gone: set<nat>)
      returns (ok: bool)
      requires Shrunk(sb, img0, ino0, owner0, img, ino, owner, inum, gone) && ino[inum].addrs[NDIRECT] != 0
      modifies this`img, this`ino, this`owner, this`logged
      ensures ok && Shrunk(sb, img0, ino0, owner0, img, ino, owner, inum, gone + Range(NDIRECT, NSLOT))
    {
      hide Owned, Mapped, ShrunkRefs, ShrunkOwner, TreeFrom, Tree;
      var ind := ino[inum].addrs[NDIRECT];
      var a := img[ind];
      ok := true;
      TreeUnlinked(sb, img, ino, owner, {}, inum);
      TreeFromStart(img, ino[inum]);
      ghost var tree := Tree(img, ino[inum]);
      ghost var after := ino[inum := WithAddr(ino[inum], NDIRECT, 0)];
      assert {} + tree == tree;
      for j := 0 to NINDIRECT
        invariant ok && ino == old(ino) && owner == old(owner)
        invariant Ownership(sb, img, after, old(owner) - tree, TreeFrom(old(img), old(ino)[inum], j))
        invariant |img| == |old(img)| && forall x | 0 <= x < |img| && IsData(sb, x) :: img[x] == old(img)[x]
      {
        TreeFromNext(sb, old(img), ino, old(owner), inum, j);
        var b := Word(a, j);
        assert b == Ref(old(img), ino[inum], NDIRECT + 1 + j);
        if b != 0 {
          ok := FreeInHand(b, after, old(owner) - tree, TreeFrom(old(img), ino[inum], j));
        } else {
          NotInTree(old(img), ino[inum], j);
        }
      }
      TreeFromEnd(old(img), ino[inum]);
      ok := FreeInHand(ind, after, old(owner) - tree, {ind});
      assert {ind} - {ind} == {};
      ino := ino[inum := WithAddr(ino[inum], NDIRECT, 0)];
      owner := owner - tree;
      ShrunkTree(sb, img0, ino0, owner0, old(img), old(ino), old(owner), img, ino, inum, gone);
    }

    /** bfree() of a block that is in hand never meets a free block. */
    method FreeInHand(b: nat, ghost after: seq<Inode>, ghost own: map<nat, Slot>,
        ghost inHand: set<nat>) returns (ok: bool)
      requires Ownership(sb, img, after, own, inHand) && b in inHand
      modifies this`img, this`logged
      ensures ok && Ownership(sb, img, after, own, inHand - {b}) && |img| == |old(img)|
      ensures forall x | 0 <= x < |img| && IsData(sb, x) :: img[x] == old(img)[x]
    {
      hide Owned, Mapped;
      InHandIsData(sb, img, own, inHand, b);
      MapBlockRange(sb, b);
      Freed(sb, img, after, own, inHand, b);
      ok := Bfree(b);
    }

    /** itrunc(): clear every place of the inode. */
    method FreeAll(inum: nat)
      requires Ownership(sb, img, ino, owner, {}) && inum < |ino|
      modifies this`img, this`ino, this`owner, this`logged
      ensures Shrunk(sb, old(img), old(ino), old(owner), img, ino, owner, inum, Range(0, NSLOT))
    {
      hide Owned, Mapped, ShrunkRefs, ShrunkOwner;
      NothingShrunk(sb, img, ino, owner, inum);
      assert Range(0, 0) == {};
      for i := 0 to NDIRECT
        invariant Shrunk(sb, old(img), old(ino), old(owner), img, ino, owner, inum, Range(0, i))
      {
        if ino[inum].addrs[i] != 0 {
          var ok := DropAddr(inum, i, old(img), old(ino), old(owner), Range(0, i));
        } else {
          ShrunkSkips(sb, old(img), old(ino), old(owner), img, ino, owner, inum, Range(0, i), i);
        }
        assert Range(0, i) + {i} == Range(0, i + 1);
      }
      if ino[inum].addrs[NDIRECT] != 0 {
        var ok := FreeTree(inum, old(img), old(ino), old(owner), Range(0, NDIRECT));
      } else {
        NoTree(sb, old(img), old(ino), old(owner), img, ino, owner, inum, NSLOT);
      }
      assert Range(0, NDIRECT) + Range(NDIRECT, NSLOT) == Range(0, NSLOT);
    }

    /** itrunc() of the kernel: the file becomes empty and gives back exactly its own blocks. */
    method Itrunc(inum: nat)
      requires Valid() && inum < |ino|
      modifies this`img, this`ino, this`dino, this`owner, this`logged
      ensures Valid() && |ino| == |old(ino)| && Content(img, ino[inum]) == [] && ino[inum].typ == old(ino)[inum].typ
      ensures forall x | 0 <= x <= NDIRECT :: ino[inum].addrs[x] == 0
      ensures forall j | 0 <= j < |ino| && j != inum ::
        ino[j] == old(ino)[j] && Content(img, ino[j]) == Content(old(img), old(ino)[j])
      ensures forall b | b in old(owner) :: b in owner <==> old(owner)[b].inum != inum
      ensures forall b | b in owner :: b in old(owner) && owner[b] == old(owner)[b]
    {
      hide Owned, Mapped, NoHoles, ShrunkRefs, ShrunkOwner, Content, Range;
      FreeAll(inum);
      AllGone(Blocks(old(ino)[inum].size));
      ShrunkFiles(sb, old(img), old(ino), old(owner), img, ino, owner, inum, Range(0, NSLOT), 0,
        ino[inum := ino[inum].(size := 0)]);
      ShrunkToNothing(sb, old(img), old(ino), old(owner), img, ino, owner, inum);
      ino := ino[inum := ino[inum].(size := 0)];
      dino := dino[inum := ino[inum]];
    }
  }

  lemma NotInTree(img: seq<Block>, ip: Inode, j: nat)
    requires InodeOk(img, ip) && ip.addrs[NDIRECT] != 0 && j < NINDIRECT && Ref(img, ip, NDIRECT + 1 + j) == 0
    ensures TreeFrom(img, ip, j) - {0} == TreeFrom(img, ip, j)
  { }

  lemma TreeFromEnd(img: seq<Block>, ip: Inode)
    requires InodeOk(img, ip)
    ensures TreeFrom(img, ip, NINDIRECT) == {ip.addrs[NDIRECT]}
  { }

  /** Without an indirect block all the places above are empty already. */
  lemma NoTree(sb: Super, img0: seq<Block>, ino0: seq<Inode>, owner0: map<nat, Slot>, img: seq<Block>,
      ino: seq<Inode>, owner: map<nat, Slot>, inum: nat, n: nat)
    requires Shrunk(sb, img0, ino0, owner0, img, ino, owner, inum, Range(0, NDIRECT)) && ino[inum].addrs[NDIRECT] == 0
      && NDIRECT <= n <= NSLOT
    ensures Shrunk(sb, img0, ino0, owner0, img, ino, owner, inum, Range(0, NDIRECT) + Range(NDIRECT, n))
    decreases n
  {
    hide Owned, Mapped, ShrunkRefs, ShrunkOwner;
    if n == NDIRECT {
      assert Range(0, NDIRECT) + Range(NDIRECT, n) == Range(0, NDIRECT);
    } else {
      NoTree(sb, img0, ino0, owner0, img, ino, owner, inum, n - 1);
      ShrunkSkips(sb, img0, ino0, owner0, img, ino, owner, inum, Range(0, NDIRECT) + Range(NDIRECT, n - 1), n - 1);
      assert Range(0, NDIRECT) + Range(NDIRECT, n - 1) + {n - 1} == Range(0, NDIRECT) + Range(NDIRECT, n);
    }
  }

  lemma ShrunkToNothing(sb: Super, img0: seq<Block>, ino0: seq<Inode>, owner0: map<nat, Slot>, img: seq<Block>,
      ino: seq<Inode>, owner: map<nat, Slot>, inum: nat)
    requires Shrunk(sb, img0, ino0, owner0, img, ino, owner, inum, Range(0, NSLOT))
    ensures forall x | 0 <= x <= NDIRECT :: ino[inum].addrs[x] == 0
    ensures forall b | b in owner0 :: b in owner <==> owner0[b].inum != inum
    ensures forall b | b in owner :: b in owner0 && owner[b] == owner0[b]
  {
    forall x: nat | x <= NDIRECT ensures ino[inum].addrs[x] == 0 {
      assert Ref(img, ino[inum], x) == 0;
    }
  }

  function Truncated(c: seq<Byte>, size: nat): seq<Byte> {
    if size <= |c| then c[..size] else c + seq(size - |c|, _ => 0)
  }

  lemma ZerosAppended(c: seq<Byte>, size: nat)
    requires |c| <= size
    ensures WriteAt(c, |c|, seq(size - |c|, _ => 0)) == Truncated(c, size)
  { }

  lemma AllocatedRefs(img: seq<Block>, ino: seq<Inode>, inum: nat)
    requires Files(img, ino) && inum < |ino|
    ensures var n := Blocks(ino[inum].size);
      && n <= MAXFILE
      && (forall i | 0 <= i < Min(n, NDIRECT) :: Ref(img, ino[inum], i) != 0)
      && (forall x | NDIRECT < x < NSLOT :: Ref(img, ino[inum], x) != 0 <==> x < n + 1)
  {
    var n := Blocks(ino[inum].size);
    forall i | 0 <= i < Min(n, NDIRECT) ensures Ref(img, ino[inum], i) != 0 { assert BlockAt(img, ino[inum], i) != 0; }
    forall x | NDIRECT < x < NSLOT
      ensures Ref(img, ino[inum], x) != 0 <==>
      x < n + 1 { assert BlockAt(img, ino[inum], x - 1) == Ref(img, ino[inum], x); }
  }

  lemma SameGone(k: nat, n: nat)
    requires k <= n && !(n > NDIRECT && EntriesKept(k) < n - NDIRECT)
    ensures Cleared(k, n) == Range(Min(k, NDIRECT), Min(n, NDIRECT))
  { }

  lemma ShrunkFrees(sb: Super, img0: seq<Block>, ino0: seq<Inode>, owner0: map<nat, Slot>, img: seq<Block>,
      ino: seq<Inode>, owner: map<nat, Slot>, inum: nat, gone: set<nat>)
    requires Shrunk(sb, img0, ino0, owner0, img, ino, owner, inum, gone)
    ensures forall b | b in owner0 :: b in owner <==> !(owner0[b].inum == inum && owner0[b].idx in gone)
  { }

  /** With all its entries cleared, the indirect block is there and lists nothing. */
  lemma ListsNothing(sb: Super, img0: seq<Block>, ino0: seq<Inode>, owner0: map<nat, Slot>, img: seq<Block>,
      ino: seq<Inode>, owner: map<nat, Slot>, inum: nat, gone: set<nat>, ni: nat)
    requires Shrunk(sb, img0, ino0, owner0, img, ino, owner, inum, gone) && 0 < ni <= NINDIRECT && NDIRECT !in gone
    requires forall x | NDIRECT < x < NSLOT :: Ref(img0, ino0[inum], x) != 0 <==> x < NDIRECT + 1 + ni
    requires forall x | NDIRECT < x < NDIRECT + 1 + ni :: x in gone
    ensures ino[inum].addrs[NDIRECT] != 0 && forall x | NDIRECT < x < NSLOT :: Ref(img, ino[inum], x) == 0
  {
    hide Owned, Mapped, ShrunkOwner, ShrunkRefs;
    assert Ref(img0, ino0[inum], NDIRECT + 1) != 0;
    ShrunkAt(sb, img0, ino0, owner0, img, ino, owner, inum, gone, NDIRECT);
    forall x | NDIRECT < x < NSLOT ensures Ref(img, ino[inum], x) == 0 {
      ShrunkAt(sb, img0, ino0, owner0, img, ino, owner, inum, gone, x);
    }
  }

  lemma WroteNothing(img: seq<Block>, ino: seq<Inode>, inum: nat, off: nat)
    requires Files(img, ino) && inum < |ino|
    ensures Wrote(img, ino, img, ino, inum, off, [])
  { }

  lemma WroteType(img0: seq<Block>, ino0: seq<Inode>, img: seq<Block>, ino: seq<Inode>, inum: nat, off: nat,
      s: seq<Byte>)
    requires Wrote(img0, ino0, img, ino, inum, off, s)
    ensures inum < |ino| == |ino0| && ino[inum].typ == ino0[inum].typ
  { }

  lemma WroteInBounds(img0: seq<Block>, ino0: seq<Inode>, img: seq<Block>, ino: seq<Inode>, inum: nat, off: nat,
      s: seq<Byte>)
    requires Wrote(img0, ino0, img, ino, inum, off, s) && s != []
    ensures inum < |ino| && off + |s| <= ino[inum].size <= MAXFILE * BSIZE
  {
    assert |Content(img, ino[inum])| >= off + |s|;
  }

  /** Part of one mapped block is that part of the file. */
  lemma ReadChunk(img: seq<Block>, ip: Inode, cur: nat, m: nat)
    requires InodeOk(img, ip) && NoHoles(img, ip) && cur + m <= ip.size && 0 < m <= BSIZE - cur % BSIZE
    ensures cur / BSIZE < MAXFILE && 0 < BlockAt(img, ip, cur / BSIZE) < |img|
    ensures img[BlockAt(img, ip, cur / BSIZE)][cur % BSIZE..cur % BSIZE + m] == Content(img, ip)[cur..cur + m]
  {
    InBlocks(cur, ip.size);
    var chunk := img[BlockAt(img, ip, cur / BSIZE)][cur % BSIZE..cur % BSIZE + m];
    forall k | 0 <= k < m ensures chunk[k] == Content(img, ip)[cur..cur + m][k] {
      CopyPosition(cur, m, cur + k);
    }
  }

  lemma FilesAt(img: seq<Block>, ino: seq<Inode>, inum: nat)
    requires Files(img, ino) && inum < |ino|
    ensures InodeOk(img, ino[inum]) && NoHoles(img, ino[inum])
  { }

  lemma ContentSlices(c: seq<Byte>, a: nat, b: nat, e: nat)
    requires a <= b <= e <= |c|
    ensures c[a..b] + c[b..e] == c[a..e]
  { }

  lemma WritingShape(sb: Super, img0: seq<Block>, ino0: seq<Inode>, img: seq<Block>, ino: seq<Inode>,
      owner: map<nat, Slot>, inum: nat, off: nat, cur: nat, src: seq<Byte>, n: nat)
    requires Writing(sb, img0, ino0, img, ino, owner, inum, off, cur, src, n)
    ensures |ino| == |ino0| && inum < |ino| && |ino[inum].addrs| == NDIRECT + 1 && ino[inum].size == ino0[inum].size
      && ino[inum].typ == ino0[inum].typ
  { }

  lemma FewerBlocks(a: nat, b: nat)
    requires a <= b
    ensures Blocks(a) <= Blocks(b)
  { }

  lemma GoneNone(gone: set<nat>, first: nat)
    ensures gone + Range(first, first) == gone
  { }

  lemma GoneMore(gone: set<nat>, first: nat, i: nat)
    requires first <= i
    ensures gone + Range(first, i) + {i} == gone + Range(first, i + 1)
  { }

  lemma WritingOwns(sb: Super, img0: seq<Block>, ino0: seq<Inode>, img: seq<Block>, ino: seq<Inode>,
      owner: map<nat, Slot>, inum: nat, off: nat, cur: nat, src: seq<Byte>, n: nat)
    requires Writing(sb, img0, ino0, img, ino, owner, inum, off, cur, src, n)
    ensures Ownership(sb, img, ino, owner, {})
  { }

  lemma FirstRound(off: nat)
    ensures off / BSIZE <= Blocks(off)
  { }

  /** A round ends at a block boundary or with the data, and covers one more block. */
  lemma RoundArith(off: nat, cur: nat, m: nat)
    requires off <= cur && (cur == off || cur % BSIZE == 0) && 0 < m <= BSIZE - cur % BSIZE
    ensures Blocks(cur + m) - off / BSIZE >= 1 && (cur != off ==> Blocks(cur + m) >= Blocks(cur) + 1)
    ensures m == BSIZE - cur % BSIZE ==> (cur + m) % BSIZE == 0
  { }

  /** The next block to write is mapped, or is the first unmapped one. */
  lemma WritingMaps(sb: Super, img0: seq<Block>, ino0: seq<Inode>, img: seq<Block>, ino: seq<Inode>,
      owner: map<nat, Slot>, inum: nat, off: nat, cur: nat, src: seq<Byte>, n: nat)
    requires Writing(sb, img0, ino0, img, ino, owner, inum, off, cur, src, n) && cur < off + |src|
    ensures inum < |ino| && |img| == |img0| && InodeOk(img, ino[inum]) && cur / BSIZE < MAXFILE
    ensures cur / BSIZE < n <==> BlockAt(img, ino[inum], cur / BSIZE) != 0
  { }

  lemma BitPlace(b: nat)
    ensures (b % BPB) / 8 == ByteNo(b) && (b % BPB) % 8 == BitNo(b)
  { }

  lemma BitTest(bits: Block, x: nat, k: nat)
    requires x < BSIZE && k < 8
    ensures HasBit(bits, x, k) <==> bits[x] & Mask(k) != 0
    ensures bits[x := bits[x] & !Mask(k)] == WithBit(bits, x, k, false)
  { }

  lemma ScanPosition(sb: Super, b: nat, bi: nat)
    requires b % BPB == 0 && bi < BPB
    ensures bi / 8 < BSIZE && ByteNo(b + bi) == bi / 8 && BitNo(b + bi) == bi % 8
      && MapBlock(sb, b + bi) == MapBlock(sb, b)
  {
    var q := b / BPB;
    assert b == q * BPB;
    SamePage(q, bi);
    assert ByteNo(b + bi) == bi / 8;
    EighthOf(q, bi);
  }

  lemma NoneFree(sb: Super, img: seq<Block>, ino: seq<Inode>, owner: map<nat, Slot>, inHand: set<nat>)
    requires Ownership(sb, img, ino, owner, inHand) && forall c | 0 <= c < sb.size :: Used(sb, img, c)
    ensures AllTaken(sb, owner, inHand) && !LogBitClear(sb, img)
  {
    hide Used, Owned;
    forall c | IsData(sb, c) ensures c in owner || c in inHand { assert MarkOk(sb, img, owner, inHand, c); }
  }

  /** The first free block is a data block, or a block of the log when all data blocks are taken. */
  lemma FirstFree(sb: Super, img: seq<Block>, ino: seq<Inode>, owner: map<nat, Slot>, inHand: set<nat>, b: nat)
    requires Ownership(sb, img, ino, owner, inHand) && b < sb.size && MapBlock(sb, b) < |img| && !Used(sb, img, b)
    requires forall c | 0 <= c < b :: Used(sb, img, c)
    ensures IsData(sb, b) || IsLog(sb, b)
    ensures IsData(sb, b) <==> !AllTaken(sb, owner, inHand)
    ensures IsLog(sb, b) ==> LogBitClear(sb, img)
  {
    hide Used, Owned;
    assert MarkOk(sb, img, owner, inHand, b);
    if IsLog(sb, b) {
      forall c | IsData(sb, c) ensures c in owner || c in inHand { assert MarkOk(sb, img, owner, inHand, c); }
    }
  }

  lemma ScanBit(sb: Super, img: seq<Block>, b: nat, bi: nat)
    requires b % BPB == 0 && bi < BPB && MapBlock(sb, b) < |img| && MapBlock(sb, b + bi) < |img|
    ensures bi / 8 < BSIZE && (Used(sb, img, b + bi) <==> img[MapBlock(sb, b)][bi / 8] & Mask(bi % 8) != 0)
  {
    hide HasBit, Mask, MapBlock, ByteNo, BitNo;
    ScanPosition(sb, b, bi);
    BitTest(img[MapBlock(sb, b)], bi / 8, bi % 8);
  }

  lemma SamePage(q: nat, bi: nat)
    requires bi < BPB
    ensures (q * BPB + bi) / BPB == q && (q * BPB + bi) % BPB == bi
  { }

  lemma EighthOf(q: nat, bi: nat)
    ensures (q * BPB + bi) % 8 == bi % 8
  {
    assert q * BPB + bi == 8 * (q * 512) + bi;
  }
}
