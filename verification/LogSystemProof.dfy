/** Every step of LogSystem keeps the invariant. */
module LogSystemProof {
  import opened Basics
  import opened LogFormat
  import opened LogSystem

  // ------------------------------------------------- the cache, one action at a time

  ghost predicate CacheWf(disk: seq<Block>, cache: map<nat, Buf>) {
    |cache| <= NBUF && forall b | b in cache :: b < |disk|
  }

  lemma SizeOfUpdate<V>(m: map<nat, V>, b: nat, v: V)
    ensures |m[b := v]| == if b in m then |m| else |m| + 1
  {
    assert m[b := v].Keys == m.Keys + {b};
  }

  lemma SizeOfSwap<V>(m: map<nat, V>, out: nat, b: nat, v: V)
    requires out in m && b !in m
    ensures |(m - {out})[b := v]| == |m|
  {
    var less := m - {out};
    assert less.Keys == m.Keys - {out};
    assert |less.Keys| == |m.Keys| - 1;
    SizeOfUpdate(less, b, v);
  }

  lemma BgetSize(cache: map<nat, Buf>, b: nat, who: Holder, victim: Option<nat>, junk: Block, c: map<nat, Buf>)
    requires |cache| <= NBUF && Bget(cache, b, who, victim, junk) == Some(c)
    ensures |c| <= NBUF
  {
    var recycled := Buf(false, false, false, Some(who), junk);
    if b in cache {
      SizeOfUpdate(cache, b, cache[b].(holder := Some(who)));
    } else if victim.Some? {
      SizeOfSwap(cache, victim.value, b, recycled);
    } else {
      SizeOfUpdate(cache, b, recycled);
    }
  }

  /** What bget() does to the cache, whichever buffer it takes. */
  ghost predicate Got(cache: map<nat, Buf>, b: nat, who: Holder, c: map<nat, Buf>) {
    && b in c
    && (if b in cache then cache[b].holder.None? && c[b] == cache[b].(holder := Some(who))
        else !c[b].valid && !c[b].dirty && !c[b].touched && c[b].holder == Some(who))
    && (forall x | x in c && x != b :: x in cache && c[x] == cache[x])
    && (forall x | x in cache && x !in c :: cache[x].holder.None? && !cache[x].dirty)
  }

  lemma BgetGets(cache: map<nat, Buf>, b: nat, who: Holder, victim: Option<nat>, junk: Block, c: map<nat, Buf>)
    requires |cache| <= NBUF && Bget(cache, b, who, victim, junk) == Some(c)
    ensures |c| <= NBUF && Got(cache, b, who, c)
  {
    BgetSize(cache, b, who, victim, junk, c);
  }

  lemma GotKeeps(disk: seq<Block>, cache: map<nat, Buf>, view: seq<Block>, ops: set<Pid>, pinned: set<nat>,
      stale: set<nat>, held: set<nat>, b: nat, who: Holder, c: map<nat, Buf>)
    requires CacheWf(disk, cache) && CacheOk(disk, cache, view, ops, pinned, stale) && HeldOk(cache, held)
    requires b < |disk| && |c| <= NBUF && Got(cache, b, who, c)
    ensures CacheWf(disk, c) && CacheOk(disk, c, view, ops, pinned, stale)
    ensures HeldOk(c, if who.LogThread? then held + {b} else held)
  { }

  lemma FillCache(disk: seq<Block>, cache: map<nat, Buf>, view: seq<Block>, ops: set<Pid>, pinned: set<nat>,
      stale: set<nat>, held: set<nat>, b: nat, unsettled: set<nat>, c: map<nat, Buf>)
    requires CacheWf(disk, cache) && CacheOk(disk, cache, view, ops, pinned, stale) && HeldOk(cache, held)
    requires |view| <= |disk| && DiskOk(disk, view, unsettled) && unsettled == pinned + stale
    requires b in cache && !cache[b].valid
    requires c == cache[b := cache[b].(valid := true, data := disk[b])]
    ensures CacheWf(disk, c) && CacheOk(disk, c, view, ops, pinned, stale) && HeldOk(c, held)
  {
    assert c.Keys == cache.Keys;
    assert b !in pinned;
  }

  lemma BrelseKeeps(disk: seq<Block>, cache: map<nat, Buf>, view: seq<Block>, ops: set<Pid>, pinned: set<nat>,
      stale: set<nat>, held: set<nat>, b: nat)
    requires CacheWf(disk, cache) && CacheOk(disk, cache, view, ops, pinned, stale) && HeldOk(cache, held)
    requires b in cache && !cache[b].touched
    ensures var c := Brelse(cache, b);
      CacheWf(disk, c) && CacheOk(disk, c, view, ops, pinned, stale) && HeldOk(c, held - {b})
  {
    assert Brelse(cache, b).Keys == cache.Keys;
  }

  // ------------------------------------------------- begin_op and end_op

  lemma SizeOfDrop<V>(m: map<nat, V>, p: nat)
    requires p in m
    ensures |m - {p}| == |m| - 1
  {
    assert (m - {p}).Keys == m.Keys - {p};
  }

  lemma BeginJoinAdmission(s: State, p: Pid, s': State)
    requires AdmissionOk(|s.lh|, s.ops, s.sleepers, s.pc, s.floor, s.nextId) && s.floor <= s.nextId
    requires DoBeginJoin(s, p) == Some(s')
    ensures AdmissionOk(|s'.lh|, s'.ops, s'.sleepers, s'.pc, s'.floor, s'.nextId)
  { }

  lemma BeginSleepKeeps(lay: Layout, s: State, p: Pid, s': State)
    requires Inv(lay, s) && DoBeginSleep(s, p) == Some(s')
    ensures Inv(lay, s')
  { }

  lemma MoreOps(disk: seq<Block>, cache: map<nat, Buf>, view: seq<Block>, ops: set<Pid>, ops': set<Pid>,
      pinned: set<nat>, stale: set<nat>)
    requires CacheWf(disk, cache) && CacheOk(disk, cache, view, ops, pinned, stale)
    requires forall b | b in cache && cache[b].touched && cache[b].holder.Some? && cache[b].holder.value.Proc? ::
      cache[b].holder.value.p in ops ==> cache[b].holder.value.p in ops'
    ensures CacheOk(disk, cache, view, ops', pinned, stale)
  {
    forall b | b in cache ensures TouchOk(b, cache[b], |view|, ops') {
      assert TouchOk(b, cache[b], |view|, ops);
    }
  }

  lemma BeginJoinKeeps(lay: Layout, s: State, p: Pid, s': State)
    requires Inv(lay, s) && DoBeginJoin(s, p) == Some(s')
    ensures Inv(lay, s')
  {
    BeginJoinAdmission(s, p, s');
    MoreOps(s.disk, s.cache, s.view, s.ops.Keys, s'.ops.Keys, Pinned(lay, s.disk, s.pc, s.lh),
      Stale(lay, s.disk, s.pc, s.lh));
  }

  lemma EndOpBooks(s: State, p: Pid, s': State)
    requires Books(s) && DoEndOp(s, p) == Some(s')
    ensures Books(s')
  {
    if |s.lh| == 0 {
      assert s.cut == |s.hist|;
    }
  }

  lemma EndOpStorage(lay: Layout, s: State, p: Pid, s': State)
    requires Inv(lay, s) && DoEndOp(s, p) == Some(s')
    ensures Storage(lay, s')
  {
    hide CacheOk, DiskOk, HeldOk, Means, AdmissionOk;
    MoreOps(s.disk, s.cache, s.view, s.ops.Keys, s'.ops.Keys, Pinned(lay, s.disk, s.pc, s.lh),
      Stale(lay, s.disk, s.pc, s.lh));
    assert Pinned(lay, s.disk, s.pc, s.lh) == Pinned(lay, s'.disk, s'.pc, s'.lh);
    if |s.lh| == 0 {
      assert s.cut == |s.hist|;
      assert s.hist[..s.cut] == s.hist;
    }
  }

  // ------------------------------------------------- bread and brelse

  lemma GetKeeps(lay: Layout, s: State, p: Pid, b: nat, victim: Option<nat>, junk: Block, s': State)
    requires Inv(lay, s) && DoGet(lay, s, p, b, victim, junk) == Some(s')
    ensures Inv(lay, s')
  {
    BgetGets(s.cache, b, Proc(p), victim, junk, s'.cache);
    GotKeeps(s.disk, s.cache, s.view, s.ops.Keys, Pinned(lay, s.disk, s.pc, s.lh), Stale(lay, s.disk, s.pc, s.lh),
             Held(lay, s.pc, s.lh), b, Proc(p), s'.cache);
  }

  lemma FillKeeps(lay: Layout, s: State, who: Holder, b: nat, s': State)
    requires Inv(lay, s) && DoFill(s, who, b) == Some(s')
    ensures Inv(lay, s')
  {
    hide CacheOk, DiskOk, HeldOk, Means, AdmissionOk, HistoryOk, LogOk;
    assert Unsettled(lay, s.disk, s.pc, s.lh) == Pinned(lay, s.disk, s.pc, s.lh) + Stale(lay, s.disk, s.pc, s.lh);
    FillCache(s.disk, s.cache, s.view, s.ops.Keys, Pinned(lay, s.disk, s.pc, s.lh), Stale(lay, s.disk, s.pc, s.lh),
              Held(lay, s.pc, s.lh), b, Unsettled(lay, s.disk, s.pc, s.lh), s'.cache);
  }

  lemma ReleaseKeeps(lay: Layout, s: State, p: Pid, b: nat, s': State)
    requires Inv(lay, s) && DoRelease(s, p, b) == Some(s')
    ensures Inv(lay, s')
  {
    hide CacheOk, DiskOk, Means, AdmissionOk, HistoryOk, LogOk;
    BrelseKeeps(s.disk, s.cache, s.view, s.ops.Keys, Pinned(lay, s.disk, s.pc, s.lh), Stale(lay, s.disk, s.pc, s.lh),
                Held(lay, s.pc, s.lh), b);
    assert Held(lay, s.pc, s.lh) - {b} == Held(lay, s.pc, s.lh);
  }

  lemma ModifyCache(disk: seq<Block>, cache: map<nat, Buf>, view: seq<Block>, ops: set<Pid>, pinned: set<nat>,
      stale: set<nat>, held: set<nat>, p: Pid, b: nat, data: Block, c: map<nat, Buf>)
    requires CacheWf(disk, cache) && CacheOk(disk, cache, view, ops, pinned, stale) && HeldOk(cache, held)
    requires b in cache && cache[b].valid && b < |view| && p in ops && cache[b].holder == Some(Proc(p))
    requires c == cache[b := cache[b].(touched := true, data := data)]
    ensures CacheWf(disk, c) && CacheOk(disk, c, view, ops, pinned, stale) && HeldOk(c, held)
  {
    assert c.Keys == cache.Keys;
  }

  lemma ModifyKeeps(lay: Layout, s: State, p: Pid, b: nat, data: Block, s': State)
    requires Inv(lay, s) && DoModify(lay, s, p, b, data) == Some(s')
    ensures Inv(lay, s')
  {
    ModifyCache(s.disk, s.cache, s.view, s.ops.Keys, Pinned(lay, s.disk, s.pc, s.lh), Stale(lay, s.disk, s.pc, s.lh),
                Held(lay, s.pc, s.lh), p, b, data, s'.cache);
  }

  // ------------------------------------------------- log_write

  lemma LogWriteCache(disk: seq<Block>, cache: map<nat, Buf>, view: seq<Block>, ops: set<Pid>, pinned: set<nat>,
      held: set<nat>, b: nat, c: map<nat, Buf>)
    requires CacheWf(disk, cache) && CacheOk(disk, cache, view, ops, pinned, {}) && HeldOk(cache, held)
    requires b in cache && cache[b].valid && b < |view|
    requires c == cache[b := cache[b].(dirty := true, touched := false)]
    ensures CacheWf(disk, c) && CacheOk(disk, c, view[b := cache[b].data], ops, pinned + {b}, {}) && HeldOk(c, held)
  {
    assert c.Keys == cache.Keys;
    assert HeldOk(c, held);
    hide HeldOk;
    var v := view[b := cache[b].data];
    forall x | x in c ensures TouchOk(x, c[x], |v|, ops) && (c[x].dirty <==> x in pinned + {b}) {
      assert TouchOk(x, cache[x], |view|, ops);
    }
    hide TouchOk;
  }

  lemma LogWriteAdmission(lay: Layout, s: State, p: Pid, b: nat, s': State)
    requires AdmissionOk(|s.lh|, s.ops, s.sleepers, s.pc, s.floor, s.nextId)
    requires |s.view| == lay.start && DoLogWrite(lay, s, p, b) == Some(s')
    ensures AdmissionOk(|s'.lh|, s'.ops, s'.sleepers, s'.pc, s'.floor, s'.nextId)
  {
    hide HoldsValid;
    assert p in s'.ops && s'.ops == s.ops[p := s'.ops[p]];
    assert forall q | q in s'.ops :: q in s.ops && s'.ops[q].id == s.ops[q].id;
  }

  lemma ReplayAppend(base: seq<Block>, hist: seq<Write>, w: Write)
    requires w.block < |base|
    ensures Replay(base, hist + [w]) == Replay(base, hist)[w.block := w.data]
  {
    assert (hist + [w])[..|hist|] == hist;
  }

  lemma LogWriteBooks(lay: Layout, s: State, p: Pid, b: nat, s': State)
    requires Books(s) && |s.base| == lay.start && |s.view| == lay.start && DoLogWrite(lay, s, p, b) == Some(s')
    ensures Books(s')
  {
    hide AdmissionOk, HistoryOk, Replay, DoLogWrite;
    LogWriteAdmission(lay, s, p, b, s');
    var w := LogWriteAdds(lay, s, p, b, s');
    OpAt(|s.lh|, s.ops, s.sleepers, s.pc, s.floor, s.nextId, p);
    HistoryAppend(s.hist, s.cut, s.floor, s.nextId, s.lh, w, s'.lh);
    ReplayAppend(s.base, s.hist, w);
    assert s'.hist[..s.cut] == s.hist[..s.cut];
  }

  /** The write that log_write adds to the history; everything that the books keep besides it. */
  lemma LogWriteAdds(lay: Layout, s: State, p: Pid, b: nat, s': State) returns (w: Write)
    requires DoLogWrite(lay, s, p, b) == Some(s')
    ensures p in s.ops && w.id == s.ops[p].id && w.block == b < lay.start && b < |s.view| && s'.hist == s.hist + [w]
    ensures s'.view == s.view[b := w.data] && b in s'.lh && (forall x | x in s.lh :: x in s'.lh)
    ensures s'.base == s.base && s'.durable == s.durable && s'.cut == s.cut && s'.pc == s.pc
    ensures s'.floor == s.floor && s'.nextId == s.nextId
  {
    w := s'.hist[|s.hist|];
    if b !in s.lh { assert s'.lh[|s.lh|] == b; }
  }

  lemma OpAt(n: nat, ops: map<Pid, Op>, sleepers: set<Pid>, pc: Pc, floor: nat, nextId: nat, p: Pid)
    requires AdmissionOk(n, ops, sleepers, pc, floor, nextId) && p in ops
    ensures floor <= ops[p].id < nextId && !pc.Run?
  { }

  lemma HistoryAppend(hist: seq<Write>, cut: nat, floor: nat, nextId: nat, lh: seq<nat>, w: Write, lh': seq<nat>)
    requires HistoryOk(hist, cut, floor, nextId, lh) && floor <= w.id < nextId && w.block in lh'
    requires forall x | x in lh :: x in lh'
    ensures cut <= |hist| && HistoryOk(hist + [w], cut, floor, nextId, lh')
  { }

  lemma AppendHeader(lay: Layout, lh: seq<nat>, b: nat)
    requires GoodHeader(lay, lh) && b < lay.start && b !in lh && |lh| < LOGSIZE && |lh| < lay.size - 1
    ensures GoodHeader(lay, lh + [b]) && Elements(lh + [b]) == Elements(lh) + {b}
  { }

  lemma LogWriteDisk(disk: seq<Block>, view: seq<Block>, unsettled: set<nat>, b: nat, data: Block)
    requires |view| <= |disk| && DiskOk(disk, view, unsettled) && b < |view|
    ensures DiskOk(disk, view[b := data], unsettled + {b})
  { }

  /** Between commits the disk header is empty and every logged block is pinned. */
  lemma IdleStorage(lay: Layout, s: State)
    requires Storage(lay, s) && s.pc.Idle?
    ensures Wf(lay, s) && HeldOk(s.cache, {}) && Means(lay, s.disk, s.durable) && HeaderOf(s.disk[lay.start]) == []
    ensures CacheOk(s.disk, s.cache, s.view, s.ops.Keys, Elements(s.lh), {}) && DiskOk(s.disk, s.view, Elements(s.lh))
  {
    assert s.lh[0..] == s.lh;
  }

  lemma IdleStorageIntro(lay: Layout, s: State)
    requires s.pc.Idle?
    requires Wf(lay, s) && HeldOk(s.cache, {}) && Means(lay, s.disk, s.durable) && HeaderOf(s.disk[lay.start]) == []
    requires CacheOk(s.disk, s.cache, s.view, s.ops.Keys, Elements(s.lh), {}) && DiskOk(s.disk, s.view, Elements(s.lh))
    ensures Storage(lay, s)
  {
    assert s.lh[0..] == s.lh;
  }

  lemma LogWriteStorage(lay: Layout, s: State, p: Pid, b: nat, s': State)
    requires Inv(lay, s) && DoLogWrite(lay, s, p, b) == Some(s')
    ensures Storage(lay, s')
  {
    hide CacheOk, DiskOk, HeldOk, Means;
    IdleStorage(lay, s);
    var pinned := Elements(s.lh);
    LogWriteCache(s.disk, s.cache, s.view, s.ops.Keys, pinned, {}, b, s'.cache);
    LogWriteDisk(s.disk, s.view, pinned, b, s.cache[b].data);
    assert s'.ops.Keys == s.ops.Keys;
    if b in s.lh { assert pinned + {b} == pinned; } else { AppendHeader(lay, s.lh, b); }
    IdleStorageIntro(lay, s');
  }

  // ------------------------------------------------- power failure

  lemma CrashBooks(s: State)
    requires Books(s)
    ensures Books(Reboot(s))
  {
    var s' := Reboot(s);
    assert s'.hist[..s.cut] == s.hist[..s.cut] == s'.hist;
  }

  lemma CrashStorage(lay: Layout, s: State)
    requires Inv(lay, s)
    ensures Storage(lay, Reboot(s))
  {
    hide Storage;
    CrashFacts(lay, s);
    RebootStorage(lay, Reboot(s));
  }

  lemma CrashFacts(lay: Layout, s: State)
    requires Storage(lay, s)
    ensures ValidDisk(lay, s.disk) && |s.durable| == |s.base| == lay.start && Means(lay, s.disk, s.durable)
  {
    hide CacheOk, DiskOk, HeldOk, Means, LogOk;
  }

  lemma RebootStorage(lay: Layout, s: State)
    requires ValidDisk(lay, s.disk) && |s.durable| == |s.base| == lay.start && Means(lay, s.disk, s.durable)
    requires s.cache == map[] && s.lh == [] && s.ops == map[] && s.pc == Run(true, ReadHead(0)) && s.view == s.durable
    ensures Storage(lay, s)
  {
    hide CacheOk, DiskOk, HeldOk, Means, HeaderOf;
    CrashDisk(lay, s.disk, s.durable);
    EmptyCache(s.disk, s.durable, Elements(HeaderOf(s.disk[lay.start])));
  }

  lemma EmptyCache(disk: seq<Block>, view: seq<Block>, stale: set<nat>)
    ensures CacheOk(disk, map[], view, {}, {}, stale) && HeldOk(map[], {})
  { }

  /** Away from the blocks a full header lists, the disk is what it means. */
  lemma CrashDisk(lay: Layout, disk: seq<Block>, durable: seq<Block>)
    requires ValidDisk(lay, disk) && |durable| == lay.start && Means(lay, disk, durable)
    ensures DiskOk(disk, durable, Elements(HeaderOf(disk[lay.start])))
  { }
}
