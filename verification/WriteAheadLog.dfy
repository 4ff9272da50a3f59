/** kernel/log.c as code: the loops of commit() and recover_from_log() over the buffer
    cache, with every disk write recorded. */
module WriteAheadLog {
  import opened LogFormat
  import opened BufferCache

  function Elements(h: seq<nat>): set<nat> { set x | x in h }

  /** Every write since was made leaves a disk worth m. */
  ghost predicate Extends(lay: Layout, was: seq<seq<Block>>, writes: seq<seq<Block>>, m: seq<Block>) {
    && was <= writes
    && forall k | |was| <= k < |writes| :: ValidDisk(lay, writes[k]) && Means(lay, writes[k], m)
  }

  lemma ExtendsNothing(lay: Layout, was: seq<seq<Block>>, m: seq<Block>)
    ensures Extends(lay, was, was, m)
  { }

  lemma ExtendsByOne(lay: Layout, was: seq<seq<Block>>, writes: seq<seq<Block>>, disk: seq<Block>, m: seq<Block>)
    requires Extends(lay, was, writes, m) && ValidDisk(lay, disk) && Means(lay, disk, m)
    ensures Extends(lay, was, writes + [disk], m)
  { }

  /** Every write since was made leaves an empty header. */
  ghost predicate NoHeader(lay: Layout, was: seq<seq<Block>>, writes: seq<seq<Block>>) {
    && was <= writes
    && forall k | |was| <= k < |writes| :: ValidDisk(lay, writes[k]) && HeaderOf(writes[k][lay.start]) == []
  }

  /** The header h is on disk, the disk is worth m, and the first i entries are in place. */
  ghost predicate Installing(lay: Layout, disk: seq<Block>, h: seq<nat>, m: seq<Block>, i: nat) {
    && ValidDisk(lay, disk) && HeaderOf(disk[lay.start]) == h && Means(lay, disk, m)
    && i <= |h|
    && forall j | 0 <= j < i :: disk[h[j]] == m[h[j]]
  }

  /** A busy, valid buffer of that block. */
  predicate Reads(f: Buf, b: nat) {
    f.dev == ROOTDEV && f.blockno == b && f.busy && f.valid
  }

  class Log {
    const lay: Layout
    const bc: Bcache
    var n: nat             // log.lh.n
    var block: seq<nat>    // log.lh.block

    constructor (lay: Layout, bc: Bcache)
      requires bc.Coherent() && bc.pinned == {} && ValidLayout(lay) && |bc.disk| == lay.start + lay.size
      ensures this.lay == lay && this.bc == bc && n == 0 && |block| == LOGSIZE
    {
      this.lay := lay;
      this.bc := bc;
      n := 0;
      block := seq(LOGSIZE, _ => 0);
    }

    ghost predicate Wf()
      reads this, bc
    {
      && bc.Coherent() && ValidLayout(lay) && |bc.disk| == lay.start + lay.size
      && |block| == LOGSIZE && n <= LOGSIZE
      && (forall b | b in bc.pinned :: b < lay.start)
    }

    /** Between commits: the on-disk header is empty and the pinned blocks are the logged ones. */
    ghost predicate Valid()
      reads this, bc
    {
      && Wf() && GoodHeader(lay, block[..n])
      && ValidDisk(lay, bc.disk) && HeaderOf(bc.disk[lay.start]) == []
      && bc.pinned == Elements(block[..n])
    }

    /** write_head(). */
    method WriteHead() returns (ok: bool)
      requires Wf()
      modifies bc
      ensures Wf() && bc.pinned == old(bc.pinned)
      ensures ok ==>
        |bc.disk| == |old(bc.disk)| && HeaderOf(bc.disk[lay.start]) == block[..n] && bc.disk[lay.start][0] == n
      ensures ok ==> bc.disk == old(bc.disk)[lay.start := bc.disk[lay.start]] && bc.writes == old(bc.writes) + [bc.disk]
      ensures ok ==> bc.view == old(bc.view)[lay.start := bc.disk[lay.start]]
      ensures !ok ==> bc.disk == old(bc.disk) && bc.view == old(bc.view) && bc.writes == old(bc.writes)
      ensures old(Quiet(bc.buf)) ==> ok && Quiet(bc.buf)
    {
      hide CoherentParts, Ring, Permutes, Unique;
      var r := bc.Bread(lay.start);
      if !r.Got? { return false; }
      var hb := bc.buf[r.i].data;
      hb := hb[0 := n];
      var i := 0;
      while i < n
        invariant 0 <= i <= n && |hb| == BWORDS && hb[0] == n && forall j | 0 <= j < i :: hb[1 + j] == block[j]
      {
        hb := hb[1 + i := block[i]];
        i := i + 1;
      }
      assert hb[1..1 + n] == block[..n];
      bc.Bwrite(r.i, hb);
      bc.Release(r.i);
      if old(Quiet(bc.buf)) { QuietAgain(old(bc.buf), bc.buf); }
      return true;
    }

    /** read_head(). */
    method ReadHead() returns (ok: bool)
      requires Wf() && ValidDisk(lay, bc.disk) && bc.pinned == {}
      modifies this, bc
      ensures Wf() && bc.disk == old(bc.disk) && bc.view == old(bc.view) && bc.pinned == {}
        && bc.writes == old(bc.writes)
      ensures ok ==> block[..n] == HeaderOf(bc.disk[lay.start])
      ensures old(Quiet(bc.buf)) ==> ok && Quiet(bc.buf)
    {
      hide Ring, Permutes, Unique;
      var r := bc.Bread(lay.start);
      if !r.Got? { return false; }
      var lh := bc.buf[r.i].data;
      assert lh == bc.disk[lay.start];
      label read:
      n := lh[0];
      var i := 0;
      while i < n
        invariant 0 <= i <= n == lh[0] && |block| == LOGSIZE && forall j | 0 <= j < i :: block[j] == lh[1 + j]
        invariant unchanged@read(bc)
      {
        block := block[i := lh[1 + i]];
        i := i + 1;
      }
      assert block[..n] == lh[1..1 + n];
      bc.Release(r.i);
      if old(Quiet(bc.buf)) { QuietAgain(old(bc.buf), bc.buf); }
      return true;
    }

    /** bread() of two blocks. */
    method ReadBoth(first: nat, second: nat) returns (ok: bool, i: nat, j: nat)
      requires Wf() && first < |bc.disk| && second < |bc.disk| && first != second
      modifies bc
      ensures Wf() && bc.disk == old(bc.disk) && bc.view == old(bc.view) && bc.pinned == old(bc.pinned)
        && bc.writes == old(bc.writes)
      ensures ok ==> i < NBUF && j < NBUF && i != j && |bc.buf| == |old(bc.buf)| == NBUF && |bc.view| == |bc.disk|
      ensures ok ==>
        bc.buf == old(bc.buf)[i := bc.buf[i]][j := bc.buf[j]] && Reads(bc.buf[i], first) && Reads(bc.buf[j], second)
      ensures ok ==>
        (Recyclable(old(bc.buf)[i]) ==> !bc.buf[i].dirty) && (Recyclable(old(bc.buf)[j]) ==> !bc.buf[j].dirty)
      ensures ok ==> bc.buf[i].data == bc.view[first] && bc.buf[j].data == bc.view[second]
      ensures old(Quiet(bc.buf)) ==> ok
    {
      assert |bc.view| == |bc.disk|;
      hide Ring, Permutes, Unique, CoherentParts;
      i, j := 0, 0;
      var a := bc.Bread(first);
      if !a.Got? { return false, 0, 0; }
      if old(Quiet(bc.buf)) { QuietReads(old(bc.buf), bc.buf, a.i); }
      hide Quiet;
      var b := bc.Bread(second);
      if !b.Got? { return false, 0, 0; }
      return true, a.i, b.i;
    }

    /** One round of install_trans(): log block over home block. */
    method InstallOne(tail: nat) returns (ok: bool)
      requires Wf() && tail < n && tail + 1 < lay.size && block[tail] < lay.start
      modifies bc
      ensures Wf()
      ensures ok ==>
        bc.disk == old(bc.disk[block[tail] := bc.disk[lay.start + 1 + tail]]) && bc.writes == old(bc.writes) + [bc.disk]
      ensures ok ==> bc.pinned == old(bc.pinned) - {block[tail]}
      ensures !ok ==> bc.disk == old(bc.disk) && bc.writes == old(bc.writes) && bc.pinned == old(bc.pinned)
      ensures old(Quiet(bc.buf)) ==> ok && Quiet(bc.buf)
    {
      hide Ring, Permutes, Unique, CoherentParts, Quiet;
      NotPinned(bc, lay.start + tail + 1);
      var l, d;
      ok, l, d := ReadBoth(lay.start + tail + 1, block[tail]);
      if !ok { return; }
      bc.Bwrite(d, bc.buf[l].data);
      bc.Release(l);
      bc.Release(d);
      if old(Quiet(bc.buf)) { QuietAfterTwo(old(bc.buf), bc.buf, l, d); }
    }

    /** install_trans(): wherever the loop is stopped, the disk is worth the same. */
    method InstallTrans(ghost m: seq<Block>) returns (ok: bool)
      requires Wf() && Installing(lay, bc.disk, block[..n], m, 0)
      modifies bc
      ensures Wf() && Installing(lay, bc.disk, block[..n], m, if ok then n else 0)
      ensures Extends(lay, old(bc.writes), bc.writes, m)
      ensures ok ==> bc.pinned == old(bc.pinned) - Elements(block[..n])
      ensures old(Quiet(bc.buf)) ==> ok && Quiet(bc.buf)
    {
      hide Ring, Permutes, Unique, CoherentParts, Extends, Means, Quiet;
      var tail := 0;
      ExtendsNothing(lay, bc.writes, m);
      while tail < n
        invariant 0 <= tail <= n && Wf()
        invariant Installing(lay, bc.disk, block[..n], m, tail)
        invariant Extends(lay, old(bc.writes), bc.writes, m)
        invariant bc.pinned == old(bc.pinned) - Elements(block[..tail])
        invariant old(Quiet(bc.buf)) ==> Quiet(bc.buf)
      {
        ghost var disk, writes := bc.disk, bc.writes;
        ok := InstallOne(tail);
        if !ok { return; }
        InstallStep(lay, disk, block[..n], m, tail);
        ExtendsByOne(lay, old(bc.writes), writes, bc.disk, m);
        assert block[..tail + 1] == block[..tail] + [block[tail]];
        tail := tail + 1;
      }
      return true;
    }

    /** One round of write_log(): cached home block into the log. */
    method WriteLogOne(tail: nat) returns (ok: bool)
      requires Wf() && tail < n && tail + 1 < lay.size && block[tail] < lay.start
      modifies bc
      ensures Wf() && bc.pinned == old(bc.pinned)
      ensures ok ==>
        bc.disk == old(bc.disk[lay.start + 1 + tail := bc.view[block[tail]]]) && bc.writes == old(bc.writes) + [bc.disk]
      ensures ok ==> bc.view == old(bc.view[lay.start + 1 + tail := bc.view[block[tail]]])
      ensures !ok ==> bc.disk == old(bc.disk) && bc.writes == old(bc.writes) && bc.view == old(bc.view)
      ensures old(Quiet(bc.buf)) ==> ok && Quiet(bc.buf)
    {
      hide Ring, Permutes, Unique, CoherentParts, Quiet;
      NotPinned(bc, lay.start + tail + 1);
      var to, from;
      ok, to, from := ReadBoth(lay.start + tail + 1, block[tail]);
      if !ok { return; }
      bc.Bwrite(to, bc.buf[from].data);
      bc.Release(from);
      bc.Release(to);
      if old(Quiet(bc.buf)) { QuietAfterTwo(old(bc.buf), bc.buf, from, to); }
    }

    /** write_log(): the log fills up while the disk stays worth what it was. */
    method WriteLog(ghost m: seq<Block>) returns (ok: bool)
      requires Wf() && GoodHeader(lay, block[..n]) && |bc.view| == |bc.disk|
      requires Logging(lay, bc.disk, block[..n], bc.view[..lay.start], m, 0)
      modifies bc
      ensures Wf() && bc.pinned == old(bc.pinned) && |bc.view| == |bc.disk|
        && bc.view[..lay.start] == old(bc.view[..lay.start])
      ensures Extends(lay, old(bc.writes), bc.writes, m) && NoHeader(lay, old(bc.writes), bc.writes)
      ensures Logging(lay, bc.disk, block[..n], bc.view[..lay.start], m, if ok then n else 0)
      ensures old(Quiet(bc.buf)) ==> ok && Quiet(bc.buf)
    {
      hide Ring, Permutes, Unique, CoherentParts, Extends, Means, Quiet;
      var tail := 0;
      ExtendsNothing(lay, bc.writes, m);
      while tail < n
        invariant 0 <= tail <= n && Wf() && bc.pinned == old(bc.pinned)
        invariant |bc.view| == |bc.disk| && bc.view[..lay.start] == old(bc.view[..lay.start])
        invariant Extends(lay, old(bc.writes), bc.writes, m) && NoHeader(lay, old(bc.writes), bc.writes)
        invariant Logging(lay, bc.disk, block[..n], bc.view[..lay.start], m, tail)
        invariant old(Quiet(bc.buf)) ==> Quiet(bc.buf)
      {
        ghost var disk, writes, v := bc.disk, bc.writes, bc.view[..lay.start];
        ok := WriteLogOne(tail);
        if !ok { return; }
        LogStep(lay, disk, block[..n], v, m, tail);
        ExtendsByOne(lay, old(bc.writes), writes, bc.disk, m);
        assert bc.view[..lay.start] == v;
        tail := tail + 1;
      }
      return true;
    }

    /** commit(). Wherever it is stopped, the disk is worth the old contents up to the header
        write and the new contents from there on. */
    method Commit() returns (ok: bool)
      requires Valid()
      modifies this, bc
      ensures Switches(lay, old(bc.writes), bc.writes, old(bc.disk[..lay.start]), old(bc.view[..lay.start]))
      ensures ok ==> Valid() && n == 0 && bc.disk[..lay.start] == old(bc.view[..lay.start])
      ensures old(Quiet(bc.buf)) ==> ok && Quiet(bc.buf)
    {
      hide Ring, Permutes, Unique, CoherentParts, Extends, Means, Switches, NoHeader, Logging, Installing, Quiet,
        HeaderOf;
      CommitStarts(this);
      ghost var m, v, h, was := bc.disk[..lay.start], bc.view[..lay.start], block[..n], bc.writes;
      ExtendsNothing(lay, was, m);
      SwitchesOld(lay, was, was, m, v);
      if n == 0 { return true; }
      ok := WriteLog(m);
      SwitchesOld(lay, was, bc.writes, m, v);
      if !ok { return; }
      ghost var mid, disk := bc.writes, bc.disk;
      ok := WriteHead();
      if !ok { return; }
      CommitPoint(lay, disk, h, v, m, bc.disk[lay.start]);
      ExtendsNothing(lay, mid, v);
      ExtendsByOne(lay, mid, mid, bc.disk, v);
      SwitchesNew(lay, was, mid, mid + [bc.disk], bc.writes, m, v);
      ghost var committed := bc.writes;
      ok := InstallTrans(v);
      SwitchesNew(lay, was, mid, committed, bc.writes, m, v);
      if !ok { return; }
      ghost var installed := bc.writes;
      disk := bc.disk;
      ExtendsNothing(lay, installed, v);
      n := 0;
      ok := WriteHead();
      if !ok { return; }
      ClearPoint(lay, disk, h, v, bc.disk[lay.start]);
      ExtendsByOne(lay, installed, installed, bc.disk, v);
      SwitchesNew(lay, was, mid, installed, bc.writes, m, v);
    }

    /** recover_from_log(). Wherever it is stopped, the disk is worth what it was; complete, it
        leaves that on the home blocks and an empty log. */
    method RecoverFromLog() returns (ok: bool)
      requires Wf() && bc.pinned == {} && ValidDisk(lay, bc.disk)
      modifies this, bc
      ensures Extends(lay, old(bc.writes), bc.writes, old(Meaning(lay, bc.disk)))
      ensures ok ==> Valid() && n == 0 && bc.disk[..lay.start] == old(Meaning(lay, bc.disk))
      ensures old(Quiet(bc.buf)) ==> ok && Quiet(bc.buf)
    {
      ghost var m := Meaning(lay, bc.disk);
      MeansIsMeaning(lay, bc.disk, m);
      hide Ring, Permutes, Unique, CoherentParts, Extends, Means, Meaning, Quiet;
      ghost var was := bc.writes;
      ExtendsNothing(lay, was, m);
      ok := ReadHead();
      if !ok { return; }
      ghost var h := block[..n];
      ok := InstallTrans(m);
      if !ok { return; }
      ghost var disk, writes := bc.disk, bc.writes;
      n := 0;
      ok := WriteHead();
      if !ok { return; }
      ClearPoint(lay, disk, h, m, bc.disk[lay.start]);
      ExtendsByOne(lay, was, writes, bc.disk, m);
    }

    /** log_write(): pin the changed buffer and name its block in the header once. */
    method LogWrite(i: nat, data: Block, outstanding: int) returns (ok: bool)
      requires Valid() && i < NBUF && bc.buf[i].busy && bc.buf[i].valid && bc.buf[i].dev == ROOTDEV
        && bc.buf[i].blockno < lay.start
      modifies this, bc
      ensures ok <==> !(old(n) >= LOGSIZE || old(n) >= lay.size - 1 || outstanding < 1)
      ensures ok ==> Valid() && bc.disk == old(bc.disk)
      ensures ok ==> var b := old(bc.buf[i].blockno);
        && b < |old(bc.view)| && bc.view == old(bc.view)[b := data]
        && block[..n] == if b in old(block[..n]) then old(block[..n]) else old(block[..n]) + [b]
      ensures !ok ==> unchanged(this) && unchanged(bc)
    {
      hide Ring, Permutes, Unique, CoherentParts;
      if n >= LOGSIZE || n >= lay.size - 1 { return false; }
      if outstanding < 1 { return false; }
      var b := bc.buf[i].blockno;
      bc.Pin(i, data);
      var k := 0;
      while k < n && block[k] != b
        invariant 0 <= k <= n && b !in block[..k]
      {
        k := k + 1;
      }
      block := block[k := b];
      if k == n {
        n := n + 1;
      }
      Absorbed(old(block), old(n), k, b);
      return true;
    }
  }

  /** Writing b at the place where the scan stopped adds it once. */
  lemma Absorbed(block: seq<nat>, n: nat, k: nat, b: nat)
    requires n < |block| && k <= n && b !in block[..k] && (k < n ==> block[k] == b)
    ensures var h := block[k := b][..if k == n then n + 1 else n];
      && h == (if b in block[..n] then block[..n] else block[..n] + [b])
      && Elements(h) == Elements(block[..n]) + {b}
      && (Distinct(block[..n]) ==> Distinct(h))
  {
    if k < n {
      assert block[..n][k] == b;
      assert block[k := b] == block;
    } else {
      assert block[k := b][..n + 1] == block[..n] + [b];
    }
  }

  lemma NotPinned(bc: Bcache, b: nat)
    requires bc.Coherent() && b < |bc.disk| && b !in bc.pinned
    ensures |bc.view| == |bc.disk| && bc.view[b] == bc.disk[b]
  { }

  lemma InstallStep(lay: Layout, disk: seq<Block>, h: seq<nat>, m: seq<Block>, i: nat)
    requires Installing(lay, disk, h, m, i) && i < |h|
    ensures Installing(lay, disk[h[i] := disk[lay.start + 1 + i]], h, m, i + 1)
  { }

  /** The log is being filled: the header is empty, the home blocks are m, and the first i
      logged blocks are copies of the view v. */
  ghost predicate Logging(lay: Layout, disk: seq<Block>, h: seq<nat>, v: seq<Block>, m: seq<Block>, i: nat) {
    && ValidDisk(lay, disk) && HeaderOf(disk[lay.start]) == [] && disk[..lay.start] == m
    && GoodHeader(lay, h) && |v| == lay.start && i <= |h|
    && forall j | 0 <= j < i :: disk[lay.start + 1 + j] == v[h[j]]
  }

  lemma LogStep(lay: Layout, disk: seq<Block>, h: seq<nat>, v: seq<Block>, m: seq<Block>, i: nat)
    requires Logging(lay, disk, h, v, m, i) && i < |h|
    ensures Logging(lay, disk[lay.start + 1 + i := v[h[i]]], h, v, m, i + 1)
    ensures Means(lay, disk[lay.start + 1 + i := v[h[i]]], m)
  {
    var d := disk[lay.start + 1 + i := v[h[i]]];
    assert d[..lay.start] == disk[..lay.start];
    forall b | 0 <= b < lay.start ensures d[b] == m[b] {
      assert d[..lay.start][b] == m[b];
    }
  }

  /** Up to the write that puts a header on disk the disk is worth m, from then on m'. */
  ghost predicate Switches(lay: Layout, was: seq<seq<Block>>, writes: seq<seq<Block>>, m: seq<Block>, m': seq<Block>) {
    exists mid :: SwitchesAt(lay, was, mid, writes, m, m')
  }

  ghost predicate SwitchesAt(lay: Layout, was: seq<seq<Block>>, mid: seq<seq<Block>>, writes: seq<seq<Block>>,
      m: seq<Block>, m': seq<Block>) {
    && Extends(lay, was, mid, m) && NoHeader(lay, was, mid) && Extends(lay, mid, writes, m')
    && (|mid| < |writes| ==> HeaderOf(writes[|mid|][lay.start]) != [])
  }

  lemma SwitchesOld(lay: Layout, was: seq<seq<Block>>, writes: seq<seq<Block>>, m: seq<Block>, m': seq<Block>)
    requires Extends(lay, was, writes, m) && NoHeader(lay, was, writes)
    ensures Switches(lay, was, writes, m, m')
  {
    ExtendsNothing(lay, writes, m');
    assert SwitchesAt(lay, was, writes, writes, m, m');
  }

  lemma SwitchesNew(lay: Layout, was: seq<seq<Block>>, mid: seq<seq<Block>>, some: seq<seq<Block>>,
      writes: seq<seq<Block>>, m: seq<Block>, m': seq<Block>)
    requires Extends(lay, was, mid, m) && NoHeader(lay, was, mid) && Extends(lay, mid, some, m')
      && Extends(lay, some, writes, m')
    requires |mid| < |some| && HeaderOf(some[|mid|][lay.start]) != []
    ensures Extends(lay, mid, writes, m') && Switches(lay, was, writes, m, m')
    ensures |mid| < |writes| && writes[|mid|] == some[|mid|]
  {
    assert SwitchesAt(lay, was, mid, writes, m, m');
  }

  lemma CommitStarts(log: Log)
    requires log.Valid()
    ensures |log.bc.view| == |log.bc.disk|
    ensures Logging(log.lay, log.bc.disk, log.block[..log.n], log.bc.view[..log.lay.start],
      log.bc.disk[..log.lay.start], 0)
    ensures forall b | 0 <= b < log.lay.start && b !in log.block[..log.n] :: log.bc.disk[b] == log.bc.view[b]
    ensures log.n == 0 ==> log.bc.disk[..log.lay.start] == log.bc.view[..log.lay.start]
  { }

  lemma CommitPoint(lay: Layout, disk: seq<Block>, h: seq<nat>, v: seq<Block>, m: seq<Block>, d: Block)
    requires Logging(lay, disk, h, v, m, |h|) && HeaderOf(d) == h && d[0] <= LOGSIZE
    requires forall b | 0 <= b < lay.start && b !in h :: m[b] == v[b]
    ensures Installing(lay, disk[lay.start := d], h, v, 0) && ValidDisk(lay, disk[lay.start := d])
      && Means(lay, disk[lay.start := d], v)
  {
    var d' := disk[lay.start := d];
    forall b | 0 <= b < lay.start && b !in h ensures d'[b] == v[b] {
      assert disk[..lay.start][b] == m[b];
    }
  }

  lemma ClearPoint(lay: Layout, disk: seq<Block>, h: seq<nat>, v: seq<Block>, d: Block)
    requires Installing(lay, disk, h, v, |h|) && HeaderOf(d) == [] && d[0] <= LOGSIZE
    ensures var d' := disk[lay.start := d]; ValidDisk(lay, d') && Means(lay, d', v) && d'[..lay.start] == v
  {
    var d' := disk[lay.start := d];
    forall b | 0 <= b < lay.start ensures d'[b] == v[b] {
      if b in h { }
    }
  }
}
