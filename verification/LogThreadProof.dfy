/** Every step of commit() and of recover_from_log() keeps the invariant. */
module LogThreadProof {
  import opened Basics
  import opened LogFormat
  import opened LogSystem
  import opened LogSystemProof

  /** A step that leaves everything but cache, disk and the program counter. */
  ghost predicate SameBooks(s: State, s': State) {
    s' == s.(cache := s'.cache, disk := s'.disk, pc := s'.pc)
  }

  lemma BooksKept(s: State, s': State)
    requires Books(s) && SameBooks(s, s') && s.pc.Run? && s'.pc.Run? && Before(s.pc) == Before(s'.pc)
    ensures Books(s')
  { }

  /** The two program counters describe the same progress. */
  ghost predicate SameProgress(n: nat, pc: Pc, pc': Pc) {
    && PhaseOk(pc', n)
    && Installed(pc) == Installed(pc')
    && Recovering(pc) == Recovering(pc')
    && Copied(pc, n) == Copied(pc', n)
    && Head(pc) == Head(pc')
    && Before(pc) == Before(pc')
    && (pc'.Run? && pc'.phase.ReadHead? ==> pc.Run? && pc.phase.ReadHead?)
    && (pc.Run? && pc.phase.ReadHead? && !(pc'.Run? && pc'.phase.ReadHead?) ==> Head(pc).Full?)
  }

  lemma BreadProgress(lay: Layout, pc: Pc, lh: seq<nat>, b: nat, next: Phase)
    requires GoodHeader(lay, lh) && PhaseOk(pc, |lh|) && pc.Run? && Code(lay, pc.phase, lh) == Bread(b, next)
    ensures b < lay.start + lay.size && SameProgress(|lh|, pc, Run(pc.recovering, next))
    ensures Held(lay, Run(pc.recovering, next), lh) == Held(lay, pc, lh) + {b}
  { }

  lemma PutProgress(lay: Layout, pc: Pc, lh: seq<nat>, b: nat, next: Phase)
    requires GoodHeader(lay, lh) && PhaseOk(pc, |lh|) && pc.Run? && Code(lay, pc.phase, lh) == Put(b, next)
    ensures b in Held(lay, pc, lh) && SameProgress(|lh|, pc, Run(pc.recovering, next))
    ensures Held(lay, Run(pc.recovering, next), lh) == Held(lay, pc, lh) - {b}
  { }

  /** Moving the program counter without progress keeps everything but the held buffers. */
  lemma MoveStorage(lay: Layout, s: State, s': State)
    requires Storage(lay, s) && s' == s.(cache := s'.cache, pc := s'.pc) && SameProgress(|s.lh|, s.pc, s'.pc)
    requires CacheWf(s.disk, s'.cache) && HeldOk(s'.cache, Held(lay, s'.pc, s.lh))
    requires CacheOk(s.disk, s'.cache, s.view, s.ops.Keys, Pinned(lay, s.disk, s.pc, s.lh),
      Stale(lay, s.disk, s.pc, s.lh))
    ensures Storage(lay, s')
  {
    hide CacheOk, DiskOk, HeldOk, Means;
    assert s.lh[0..] == s.lh;
    assert Unsettled(lay, s.disk, s.pc, s.lh) == Unsettled(lay, s.disk, s'.pc, s.lh);
  }

  lemma BreadStorage(lay: Layout, s: State, b: nat, next: Phase, victim: Option<nat>, junk: Block, s': State)
    requires Storage(lay, s) && s.pc.Run? && Code(lay, s.pc.phase, s.lh) == Bread(b, next)
    requires RunBread(s, b, next, victim, junk) == Some(s')
    ensures Storage(lay, s') && Before(s.pc) == Before(s'.pc)
  {
    BreadProgress(lay, s.pc, s.lh, b, next);
    BgetGets(s.cache, b, LogThread, victim, junk, s'.cache);
    GotKeeps(s.disk, s.cache, s.view, s.ops.Keys, Pinned(lay, s.disk, s.pc, s.lh), Stale(lay, s.disk, s.pc, s.lh),
             Held(lay, s.pc, s.lh), b, LogThread, s'.cache);
    MoveStorage(lay, s, s');
  }

  lemma PutStorage(lay: Layout, s: State, b: nat, next: Phase, s': State)
    requires Storage(lay, s) && s.pc.Run? && Code(lay, s.pc.phase, s.lh) == Put(b, next)
    requires b in s.cache && s' == Go(s.(cache := Brelse(s.cache, b)), next)
    ensures Storage(lay, s') && Before(s.pc) == Before(s'.pc)
  {
    PutProgress(lay, s.pc, s.lh, b, next);
    NotTouched(lay, s, b);
    BrelseKeeps(s.disk, s.cache, s.view, s.ops.Keys, Pinned(lay, s.disk, s.pc, s.lh), Stale(lay, s.disk, s.pc, s.lh),
                Held(lay, s.pc, s.lh), b);
    MoveStorage(lay, s, s');
  }

  lemma JumpStorage(lay: Layout, s: State, next: Phase, s': State)
    requires Storage(lay, s) && s.pc.Run? && Code(lay, s.pc.phase, s.lh) == Jump(next) && s' == Go(s, next)
    ensures Storage(lay, s') && Before(s.pc) == Before(s'.pc)
  {
    MoveStorage(lay, s, s');
  }

  lemma BwriteFrame(disk: seq<Block>, cache: map<nat, Buf>, held: set<nat>, b: nat, data: Block, c: map<nat, Buf>)
    requires CacheWf(disk, cache) && HeldOk(cache, held) && b in cache
    requires c == cache[b := cache[b].(valid := true, dirty := false, touched := false, data := data)]
    ensures CacheWf(disk[b := data], c) && HeldOk(c, held) && c.Keys == cache.Keys
  { }

  lemma BwriteCache(disk: seq<Block>, cache: map<nat, Buf>, view: seq<Block>, ops: set<Pid>, pinned: set<nat>,
      stale: set<nat>, b: nat, data: Block, c: map<nat, Buf>)
    requires CacheWf(disk, cache) && CacheOk(disk, cache, view, ops, pinned, stale)
    requires b in cache && (b < |view| ==> data == view[b])
    requires c == cache[b := cache[b].(valid := true, dirty := false, touched := false, data := data)]
    requires forall x | x in c :: x < |disk[b := data]|
    ensures CacheOk(disk[b := data], c, view, ops, pinned - {b}, stale - {b})
  {
    var d := disk[b := data];
    assert forall x | x in c && x != b :: x in cache && c[x] == cache[x] && d[x] == disk[x];
    assert TouchOk(b, c[b], |view|, ops);
  }

  /** The log thread's own buffers are never changed by processes. */
  lemma NotTouched(lay: Layout, s: State, b: nat)
    requires Storage(lay, s) && b in Held(lay, s.pc, s.lh)
    ensures b in s.cache && s.cache[b].holder == Some(LogThread) && !s.cache[b].touched
  {
    assert TouchOk(b, s.cache[b], |s.view|, s.ops.Keys);
  }

  lemma {:induction false} TailSplit(h: seq<nat>, i: nat)
    requires Distinct(h) && i < |h|
    ensures Elements(h[i + 1..]) == Elements(h[i..]) - {h[i]}
    ensures h[i] in Elements(h[i..])
  {
    assert h[i..] == [h[i]] + h[i + 1..];
  }

  // ------------------------------------------------- the actions that make progress

  lemma LoadHeadKeeps(lay: Layout, s: State, s': State)
    requires Inv(lay, s) && s.pc == Run(true, ReadHead(1))
      && Exec(lay, s, LoadHead(ReadHead(2)), None, s.disk[0]) == Some(s')
    ensures Inv(lay, s')
  {
    assert |s.disk| > 0;
    hide Storage, Books;
    LoadHeadStorage(lay, s, s');
    LoadHeadBooks(lay, s, s');
  }

  lemma LoadHeadStorage(lay: Layout, s: State, s': State)
    requires Storage(lay, s) && s.pc == Run(true, ReadHead(1)) && |s.disk| > 0
      && Exec(lay, s, LoadHead(ReadHead(2)), None, s.disk[0]) == Some(s')
    ensures Storage(lay, s')
  {
    HeadRead(lay, s);
    hide HeaderOf, Means, DiskOk, CacheOk, HeldOk;
  }

  /** The header block in the buffer is the one on disk. */
  lemma HeadRead(lay: Layout, s: State)
    requires Storage(lay, s) && s.pc == Run(true, ReadHead(1)) && HoldsValid(s, lay.start, LogThread)
    ensures lay.start < |s.disk| && s.cache[lay.start].data == s.disk[lay.start]
  {
    hide HeaderOf, Means, LogOk;
  }

  lemma LoadHeadBooks(lay: Layout, s: State, s': State)
    requires Books(s) && s.pc == Run(true, ReadHead(1)) && |s.disk| > 0
      && Exec(lay, s, LoadHead(ReadHead(2)), None, s.disk[0]) == Some(s')
    ensures Books(s')
  { }

  lemma DropHeadKeeps(lay: Layout, s: State, s': State)
    requires Inv(lay, s) && s.pc.Run? && s.pc.phase.Install? && s.pc.phase.tail >= |s.lh|
      && s' == Go(s.(lh := []), Clear(0))
    ensures Inv(lay, s')
  {
    hide Storage, Books;
    DropHeadStorage(lay, s, s');
    DropHeadBooks(lay, s, s');
  }

  lemma DropHeadStorage(lay: Layout, s: State, s': State)
    requires Inv(lay, s) && s.pc.Run? && s.pc.phase.Install? && s.pc.phase.tail >= |s.lh|
      && s' == Go(s.(lh := []), Clear(0))
    ensures Storage(lay, s')
  {
    hide Books, Means;
  }

  lemma DropHeadBooks(lay: Layout, s: State, s': State)
    requires Inv(lay, s) && s.pc.Run? && s.pc.phase.Install? && s.pc.phase.tail >= |s.lh|
      && s' == Go(s.(lh := []), Clear(0))
    ensures Books(s')
  {
    hide Storage;
  }

  /** What bwrite() by the log thread leaves of the cache invariant. */
  lemma BwriteStorage(lay: Layout, s: State, b: nat, data: Block, w: State)
    requires Storage(lay, s) && b in s.cache && (b < lay.start ==> data == s.view[b]) && w == Bwrite(s, b, data)
    ensures CacheWf(w.disk, w.cache) && HeldOk(w.cache, Held(lay, s.pc, s.lh))
    ensures CacheOk(w.disk, w.cache, s.view, s.ops.Keys, Pinned(lay, s.disk, s.pc, s.lh) - {b},
      Stale(lay, s.disk, s.pc, s.lh) - {b})
  {
    hide DiskOk, Means, CacheOk, HeldOk;
    BwriteFrame(s.disk, s.cache, Held(lay, s.pc, s.lh), b, data, w.cache);
    BwriteCache(s.disk, s.cache, s.view, s.ops.Keys, Pinned(lay, s.disk, s.pc, s.lh), Stale(lay, s.disk, s.pc, s.lh),
      b, data, w.cache);
  }

  /** A filled buffer of the log thread holds the logical home block, or the disk's log block. */
  lemma HeldData(lay: Layout, s: State, b: nat)
    requires Storage(lay, s) && b in Held(lay, s.pc, s.lh) && b in s.cache && s.cache[b].valid
    ensures b < lay.start && !Recovering(s.pc) ==> s.cache[b].data == s.view[b]
    ensures b >= lay.start ==> s.cache[b].data == s.disk[b]
  {
    NotTouched(lay, s, b);
  }

  lemma LogAreaWrite(lay: Layout, disk: seq<Block>, view: seq<Block>, durable: seq<Block>, lh: seq<nat>,
      unsettled: set<nat>, i: nat, data: Block)
    requires ValidDisk(lay, disk) && GoodHeader(lay, lh) && |view| == lay.start && i < |lh| && data == view[lh[i]]
    requires LogOk(lay, disk, view, lh, i, Empty) && Means(lay, disk, durable) && DiskOk(disk, view, unsettled)
    ensures ValidDisk(lay, disk[LogBlock(lay, i) := data])
    ensures LogOk(lay, disk[LogBlock(lay, i) := data], view, lh, i + 1, Empty)
    ensures Means(lay, disk[LogBlock(lay, i) := data], durable)
    ensures DiskOk(disk[LogBlock(lay, i) := data], view, unsettled)
  { }

  /** write_log() copies the pinned buffer into the log. */
  lemma CopyToLogStorage(lay: Layout, s: State, i: nat, s': State)
    requires Storage(lay, s) && s.pc == Run(false, WriteLog(i, 2)) && i < |s.lh| && LogBlock(lay, i) in s.cache
      && HoldsValid(s, s.lh[i], LogThread)
    requires s' == Go(Bwrite(s, LogBlock(lay, i), s.cache[s.lh[i]].data), WriteLog(i, 3))
    ensures Storage(lay, s')
  {
    hide DiskOk, Means, CacheOk, HeldOk, LogOk, HeaderOf;
    var to, from := LogBlock(lay, i), s.lh[i];
    HeldData(lay, s, from);
    BwriteStorage(lay, s, to, s.cache[from].data, Bwrite(s, to, s.cache[from].data));
    LogAreaWrite(lay, s.disk, s.view, s.durable, s.lh, Unsettled(lay, s.disk, s.pc, s.lh), i, s.cache[from].data);
    var pinned := Pinned(lay, s.disk, s.pc, s.lh);
    assert pinned - {to} == pinned;
    assert Stale(lay, s.disk, s.pc, s.lh) - {to} == {};
  }

  lemma HomeWrite(lay: Layout, disk: seq<Block>, view: seq<Block>, lh: seq<nat>, unsettled: set<nat>, i: nat)
    requires ValidDisk(lay, disk) && GoodHeader(lay, lh) && |view| == lay.start && i < |lh|
    requires LogOk(lay, disk, view, lh, 0, Full) && Means(lay, disk, view) && DiskOk(disk, view, unsettled)
    ensures disk[LogBlock(lay, i)] == view[lh[i]]
    ensures ValidDisk(lay, disk[lh[i] := view[lh[i]]])
    ensures LogOk(lay, disk[lh[i] := view[lh[i]]], view, lh, 0, Full)
    ensures Means(lay, disk[lh[i] := view[lh[i]]], view)
    ensures DiskOk(disk[lh[i] := view[lh[i]]], view, unsettled - {lh[i]})
  { }

  /** install_trans() copies the log block over the home block. */
  lemma CopyHomeStorage(lay: Layout, s: State, i: nat, s': State)
    requires Storage(lay, s) && s.pc.Run? && s.pc.phase == Install(i, 2) && i < |s.lh| && s.lh[i] in s.cache
      && HoldsValid(s, LogBlock(lay, i), LogThread)
    requires s' == Go(Bwrite(s, s.lh[i], s.cache[LogBlock(lay, i)].data), Install(i, 3))
    ensures Storage(lay, s')
  {
    hide DiskOk, Means, CacheOk, HeldOk, LogOk, HeaderOf;
    var from, to := LogBlock(lay, i), s.lh[i];
    HeldData(lay, s, from);
    TailSplit(s.lh, i);
    HomeWrite(lay, s.disk, s.view, s.lh, Unsettled(lay, s.disk, s.pc, s.lh), i);
    BwriteStorage(lay, s, to, s.view[to], Bwrite(s, to, s.view[to]));
    assert Pinned(lay, s'.disk, s'.pc, s.lh) == Pinned(lay, s.disk, s.pc, s.lh) - {to};
    assert Stale(lay, s'.disk, s'.pc, s.lh) == Stale(lay, s.disk, s.pc, s.lh) - {to};
  }

  lemma HeadBlockWrite(lay: Layout, disk: seq<Block>, view: seq<Block>, h: seq<nat>, unsettled: set<nat>,
      was: HeadState, data: Block)
    requires ValidDisk(lay, disk) && GoodHeader(lay, h) && |view| == lay.start && HeaderOf(data) == h
      && data[0] <= LOGSIZE
    requires DiskOk(disk, view, unsettled) && unsettled == Elements(h) && LogOk(lay, disk, view, h, |h|, was)
    ensures ValidDisk(lay, disk[lay.start := data]) && LogOk(lay, disk[lay.start := data], view, h, 0, Full)
    ensures Means(lay, disk[lay.start := data], view) && DiskOk(disk[lay.start := data], view, unsettled)
    ensures h == [] ==> LogOk(lay, disk[lay.start := data], view, h, 0, Empty)
  { }

  /** The commit point: the disk is now worth what the operations wrote. */
  lemma CommitStorage(lay: Layout, s: State, s': State)
    requires Storage(lay, s) && s.pc == Run(false, WriteHead(1))
      && RunStoreHead(lay, s, s.lh, WriteHead(2)) == Some(s') && |s.lh| > 0
    ensures Storage(lay, s')
  {
    hide DiskOk, Means, CacheOk, HeldOk, LogOk, HeaderOf;
    var data := WithHeader(s.cache[lay.start].data, s.lh);
    assert s.lh[0..] == s.lh;
    HeadBlockWrite(lay, s.disk, s.view, s.lh, Elements(s.lh), Empty, data);
    BwriteStorage(lay, s, lay.start, data, Bwrite(s, lay.start, data));
    assert Pinned(lay, s.disk, s.pc, s.lh) - {lay.start} == Elements(s.lh);
    assert Stale(lay, s.disk, s.pc, s.lh) - {lay.start} == {};
  }

  lemma CommitBooks(lay: Layout, s: State, s': State)
    requires Books(s) && s.pc == Run(false, WriteHead(1)) && RunStoreHead(lay, s, s.lh, WriteHead(2)) == Some(s')
      && |s.lh| > 0
    ensures Books(s')
  {
    assert s.hist[..|s.hist|] == s.hist;
  }

  /** Erasing the header keeps the disk's worth: every home block is in place. */
  lemma ClearStorage(lay: Layout, s: State, s': State)
    requires Storage(lay, s) && s.pc.Run? && s.pc.phase == Clear(1) && RunStoreHead(lay, s, [], Clear(2)) == Some(s')
    ensures Storage(lay, s')
  {
    hide DiskOk, Means, CacheOk, HeldOk, LogOk, HeaderOf;
    var data := WithHeader(s.cache[lay.start].data, []);
    assert Unsettled(lay, s.disk, s.pc, s.lh) == {} == Elements([]);
    HeadBlockWrite(lay, s.disk, s.view, [], {}, Any, data);
    BwriteStorage(lay, s, lay.start, data, Bwrite(s, lay.start, data));
    assert Pinned(lay, s.disk, s.pc, s.lh) - {lay.start} == {} == Stale(lay, s.disk, s.pc, s.lh) - {lay.start};
  }

  lemma ReturnKeeps(lay: Layout, s: State, s': State)
    requires Inv(lay, s) && s.pc.Run? && s.pc.phase == Finish && s' == s.(pc := Idle, sleepers := {})
    ensures Inv(lay, s')
  {
    hide Means, HeldOk;
  }
}
