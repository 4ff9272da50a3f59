/** Exactly when log_write can panic on an operation that keeps to what it may log. */
module LogPanic {
  import opened Basics
  import opened LogFormat
  import opened LogSystem
  import opened LogSystemProof
  import opened LogTheorems
  import opened LogBudget

  const ZERO: Block := seq(BWORDS, _ => 0)

  // ------------------------------------------------- building runs

  lemma RunMore(lay: Layout, m: nat, run: seq<State>, steps: seq<Step>, step: Step, s': State)
    requires RunWithin(lay, m, run, steps) && Do(lay, run[|steps|], step) == Some(s')
    requires StepWithin(m, run[|steps|], step)
    ensures RunWithin(lay, m, run + [s'], steps + [step]) && |run| == |steps| + 1
  {
    hide Do, StepWithin;
    var run', steps' := run + [s'], steps + [step];
    forall i | 0 <= i < |steps'| ensures Do(lay, run'[i], steps'[i]) == Some(run'[i + 1]) {
      if i < |steps| { assert Do(lay, run[i], steps[i]) == Some(run[i + 1]); }
    }
    forall i | 0 <= i < |steps'| ensures StepWithin(m, run'[i], steps'[i]) {
      if i < |steps| { assert StepWithin(m, run[i], steps[i]); }
    }
  }

  lemma Take(lay: Layout, m: nat, s: State, step: Step) returns (s': State)
    requires ReachableWithin(lay, m, s) && Do(lay, s, step).Some? && StepWithin(m, s, step)
    ensures ReachableWithin(lay, m, s') && Do(lay, s, step) == Some(s')
  {
    hide Do, StepWithin, Boot;
    s' := Do(lay, s, step).value;
    var run, steps :| RunWithin(lay, m, run, steps) && run[|steps|] == s;
    RunMore(lay, m, run, steps, step, s');
    hide IsRun;
    assert (run + [s'])[|steps + [step]|] == s';
  }

  /** Only the header block is cached, and it is filled and clean. */
  ghost predicate OnlyHead(lay: Layout, s: State, holder: Option<Holder>) {
    && s.cache.Keys == {lay.start}
    && s.cache[lay.start].holder == holder && s.cache[lay.start].valid && !s.cache[lay.start].dirty
    && s.lh == [] && s.ops == map[] && s.sleepers == {}
    && |s.view| == lay.start && |s.disk| == lay.start + lay.size && HeaderOf(s.cache[lay.start].data) == []
  }

  lemma BootToInstall(lay: Layout, m: nat) returns (s: State)
    requires lay.size >= 1
    ensures ReachableWithin(lay, m, s) && s.pc == Run(true, Install(0, 0)) && OnlyHead(lay, s, None)
  {
    hide ReachableWithin;
    var disk := seq(lay.start + lay.size, _ => ZERO);
    assert HeaderOf(ZERO) == [];
    s := Boot(lay, disk);
    assert ReachableWithin(lay, m, s) by { BootReachable(lay, m, disk); }
    s := Take(lay, m, s, Log(None, ZERO));
    s := Take(lay, m, s, Fill(LogThread, lay.start));
    assert OnlyHead(lay, s, Some(LogThread));
    s := Take(lay, m, s, Log(None, ZERO));
    s := Take(lay, m, s, Log(None, ZERO));
  }

  lemma BootReachable(lay: Layout, m: nat, disk: seq<Block>)
    requires ValidDisk(lay, disk)
    ensures ReachableWithin(lay, m, Boot(lay, disk))
  {
    assert RunWithin(lay, m, [Boot(lay, disk)], []);
  }

  lemma InstallToIdle(lay: Layout, m: nat, s: State) returns (t: State)
    requires lay.size >= 1 && ReachableWithin(lay, m, s) && s.pc == Run(true, Install(0, 0)) && OnlyHead(lay, s, None)
    ensures ReachableWithin(lay, m, t) && t.pc.Idle? && OnlyHead(lay, t, None)
  {
    hide ReachableWithin, OnlyHead;
    t := ToClear(lay, m, s);
    t := ClearReads(lay, m, t);
    t := ClearWrites(lay, m, t);
    t := ClearEnds(lay, m, t);
  }

  lemma ToClear(lay: Layout, m: nat, s: State) returns (t: State)
    requires lay.size >= 1 && ReachableWithin(lay, m, s) && s.pc == Run(true, Install(0, 0)) && OnlyHead(lay, s, None)
    ensures ReachableWithin(lay, m, t) && t.pc == Run(true, Clear(0)) && OnlyHead(lay, t, None)
  {
    hide ReachableWithin;
    t := Take(lay, m, s, Log(None, ZERO));
  }

  lemma ClearReads(lay: Layout, m: nat, s: State) returns (t: State)
    requires lay.size >= 1 && ReachableWithin(lay, m, s) && s.pc == Run(true, Clear(0)) && OnlyHead(lay, s, None)
    ensures ReachableWithin(lay, m, t) && t.pc == Run(true, Clear(1)) && OnlyHead(lay, t, Some(LogThread))
  {
    hide ReachableWithin;
    t := Take(lay, m, s, Log(None, ZERO));
  }

  lemma ClearWrites(lay: Layout, m: nat, s: State) returns (t: State)
    requires lay.size >= 1 && ReachableWithin(lay, m, s) && s.pc == Run(true, Clear(1))
      && OnlyHead(lay, s, Some(LogThread))
    ensures ReachableWithin(lay, m, t) && t.pc == Run(true, Clear(2)) && OnlyHead(lay, t, Some(LogThread))
  {
    hide ReachableWithin;
    t := Take(lay, m, s, Log(None, ZERO));
  }

  lemma ClearEnds(lay: Layout, m: nat, s: State) returns (t: State)
    requires lay.size >= 1 && ReachableWithin(lay, m, s) && s.pc == Run(true, Clear(2))
      && OnlyHead(lay, s, Some(LogThread))
    ensures ReachableWithin(lay, m, t) && t.pc.Idle? && OnlyHead(lay, t, None)
  {
    hide ReachableWithin;
    t := Take(lay, m, s, Log(None, ZERO));
    t := Take(lay, m, t, Log(None, ZERO));
  }

  // ------------------------------------------------- filling the log

  /** The operations inside have logged what used says, and the first n blocks are in the log. */
  ghost predicate Filling(lay: Layout, s: State, used: map<Pid, nat>, n: nat) {
    && s.pc.Idle? && s.sleepers == {}
    && s.lh == seq(n, i => i)
    && s.ops.Keys == used.Keys
    && (forall p | p in s.ops :: s.ops[p].used == used[p])
    && s.cache.Keys == Elements(s.lh) + {lay.start}
    && (forall b | b in s.cache :: s.cache[b].holder.None?)
    && !s.cache[lay.start].dirty
    && |s.view| == lay.start && |s.disk| == lay.start + lay.size
  }

  lemma SizeOfFilling(lay: Layout, s: State, used: map<Pid, nat>, n: nat)
    requires Filling(lay, s, used, n) && n <= lay.start
    ensures |s.cache| == n + 1 && |s.lh| == n && (n < lay.start ==> n !in s.cache && n !in s.lh)
  {
    ElementsSize(s.lh);
    assert |s.cache.Keys| == n + 1;
  }

  lemma {:induction false} ElementsSize(h: seq<nat>)
    requires Distinct(h)
    ensures |Elements(h)| == |h|
  {
    if h != [] {
      var n := |h| - 1;
      ElementsSize(h[..n]);
      assert h == h[..n] + [h[n]];
      assert Elements(h) == Elements(h[..n]) + {h[n]};
    }
  }

  lemma OneInside(lay: Layout, m: nat) returns (s: State)
    requires lay.size >= 1
    ensures ReachableWithin(lay, m, s) && Filling(lay, s, map[0 := 0], 0)
  {
    hide ReachableWithin;
    s := BootToInstall(lay, m);
    s := InstallToIdle(lay, m, s);
    s := Take(lay, m, s, BeginJoin(0));
  }

  /** A second operation begins. */
  lemma SecondJoins(lay: Layout, m: nat, s: State, n: nat) returns (t: State)
    requires ReachableWithin(lay, m, s) && Filling(lay, s, map[0 := 0], n) && n <= LOGSIZE - 2 * MAXOPBLOCKS
    ensures ReachableWithin(lay, m, t) && Filling(lay, t, map[0 := 0, 1 := 0], n)
  {
    hide ReachableWithin;
    assert |s.ops| == 1 by { assert s.ops.Keys == {0}; }
    t := Take(lay, m, s, BeginJoin(1));
  }

  lemma SecondEnds(lay: Layout, m: nat, s: State, n: nat, u: nat) returns (t: State)
    requires ReachableWithin(lay, m, s) && Filling(lay, s, map[0 := 0, 1 := u], n)
    ensures ReachableWithin(lay, m, t) && Filling(lay, t, map[0 := 0], n)
  {
    hide ReachableWithin;
    assert 0 in s.ops - {1};
    t := Take(lay, m, s, EndOp(1));
  }

  /** Operation p reads block n into the cache. */
  lemma ReadOne(lay: Layout, m: nat, s: State, used: map<Pid, nat>, n: nat, p: nat) returns (t: State)
    requires ReachableWithin(lay, m, s) && Filling(lay, s, used, n) && n < lay.start && n < 29
    ensures ReachableWithin(lay, m, t)
    ensures t == s.(cache := s.cache[n := Buf(true, false, false, Some(Proc(p)), s.disk[n])])
  {
    hide ReachableWithin;
    SizeOfFilling(lay, s, used, n);
    t := Take(lay, m, s, Get(p, n, None, ZERO));
    t := Take(lay, m, t, Fill(Proc(p), n));
  }

  lemma FillingGrows(lay: Layout, s: State, used: map<Pid, nat>, n: nat, p: nat, buf: Buf, t: State)
    requires Filling(lay, s, used, n) && n < lay.start && p in s.ops && buf.holder.None?
    requires t.pc == s.pc && t.sleepers == s.sleepers && t.lh == s.lh + [n] && t.disk == s.disk && |t.view| == |s.view|
    requires t.ops == s.ops[p := s.ops[p].(used := s.ops[p].used + 1)] && t.cache == s.cache[n := buf]
    ensures Filling(lay, t, used[p := used[p] + 1], n + 1)
  {
    assert t.lh == seq(n + 1, i => i);
    ElementsOfMore(s.lh, n);
    hide Elements;
    assert t.cache.Keys == s.cache.Keys + {n};
    assert t.ops.Keys == s.ops.Keys;
  }

  lemma ElementsOfMore(h: seq<nat>, j: nat)
    ensures Elements(h + [j]) == Elements(h) + {j}
  { }

  lemma LogAndRelease(lay: Layout, m: nat, r: State, n: nat, p: nat) returns (t: State)
    requires ReachableWithin(lay, m, r) && HoldsValid(r, n, Proc(p)) && p in r.ops && r.ops[p].used < m
    requires n !in r.lh && n < lay.start && n < |r.view| && !LogWritePanics(lay, r)
    ensures ReachableWithin(lay, m, t) && n in t.cache && t.cache[n].holder.None? && t.sleepers == r.sleepers
    ensures t.pc == r.pc && t.lh == r.lh + [n] && t.disk == r.disk && |t.view| == |r.view|
    ensures t.ops == r.ops[p := r.ops[p].(used := r.ops[p].used + 1)] && t.cache == r.cache[n := t.cache[n]]
  {
    hide ReachableWithin;
    var u := Take(lay, m, r, LogWrite(p, n));
    t := Take(lay, m, u, Release(p, n));
  }

  lemma FillingRoom(lay: Layout, s: State, used: map<Pid, nat>, n: nat, p: nat)
    requires lay.size >= 1 && Filling(lay, s, used, n) && n < Limit(lay) && p in used
    ensures p in s.ops && s.ops[p].used == used[p] && !LogWritePanics(lay, s) && |s.view| == lay.start
  { }

  /** Operation p logs block n and releases it. */
  lemma LogOne(lay: Layout, m: nat, s: State, used: map<Pid, nat>, n: nat, p: nat) returns (t: State)
    requires lay.size >= 1 && ReachableWithin(lay, m, s) && Filling(lay, s, used, n) && p in used && used[p] < m
    requires n < lay.start && n < Limit(lay) && n < 29
    ensures ReachableWithin(lay, m, t) && Filling(lay, t, used[p := used[p] + 1], n + 1)
  {
    hide ReachableWithin, Filling, Do, Limit;
    SizeOfFilling(lay, s, used, n);
    FillingRoom(lay, s, used, n, p);
    var r := ReadOne(lay, m, s, used, n, p);
    t := LogAndRelease(lay, m, r, n, p);
    FillingGrows(lay, s, used, n, p, t.cache[n], t);
  }

  /** While the first operation waits, others come, log a block each, and go. */
  lemma {:induction false} OthersLog(lay: Layout, m: nat, n: nat) returns (s: State)
    requires lay.size >= 1 && m >= 1 && n <= LOGSIZE - 2 * MAXOPBLOCKS && n <= Limit(lay) && n <= lay.start
    ensures ReachableWithin(lay, m, s) && Filling(lay, s, map[0 := 0], n)
  {
    hide ReachableWithin, Filling, Limit;
    if n == 0 {
      s := OneInside(lay, m);
    } else {
      s := OthersLog(lay, m, n - 1);
      s := SecondJoins(lay, m, s, n - 1);
      s := LogOne(lay, m, s, map[0 := 0, 1 := 0], n - 1, 1);
      assert map[0 := 0, 1 := 0][1 := 1] == map[0 := 0, 1 := 1];
      s := SecondEnds(lay, m, s, n, 1);
    }
  }

  /** What two operations have logged when first one and then the other has logged up to m of k blocks. */
  function Split(m: nat, k: nat): map<Pid, nat> {
    if k <= m then map[0 := k, 1 := 0] else map[0 := m, 1 := k - m]
  }

  /** Who logs next. */
  function Next(m: nat, k: nat): Pid {
    if k < m then 0 else 1
  }

  lemma {:induction false} LogMany(lay: Layout, m: nat, k: nat) returns (s: State)
    requires lay.size >= 1 && m >= 1 && k <= 2 * m && k <= 19
    requires k + 10 <= Limit(lay) && k + 10 <= lay.start
    ensures ReachableWithin(lay, m, s) && Filling(lay, s, Split(m, k), k + 10)
  {
    hide ReachableWithin, Filling, Limit;
    if k == 0 {
      s := OthersLog(lay, m, 10);
      s := SecondJoins(lay, m, s, 10);
    } else {
      s := LogMany(lay, m, k - 1);
      var used, p := Split(m, k - 1), Next(m, k - 1);
      s := LogOne(lay, m, s, used, k + 9, p);
      assert used[p := used[p] + 1] == Split(m, k);
    }
  }

  /** The 30th block, for which the buffer of the header block is recycled. */
  lemma ReadLast(lay: Layout, m: nat, s: State, used: map<Pid, nat>, p: nat) returns (t: State)
    requires ReachableWithin(lay, m, s) && Filling(lay, s, used, 29) && 29 < lay.start
    ensures ReachableWithin(lay, m, t) && HoldsValid(t, 29, Proc(p)) && t.ops == s.ops && t.lh == s.lh && t.pc == s.pc
    ensures |t.view| == lay.start && (forall b | b in s.lh :: b in t.cache && t.cache[b] == s.cache[b])
  {
    hide ReachableWithin;
    SizeOfFilling(lay, s, used, 29);
    t := Take(lay, m, s, Get(p, 29, Some(lay.start), ZERO));
    t := Take(lay, m, t, Fill(Proc(p), 29));
  }

  /** A logged block is in the cache and filled. */
  lemma LoggedIsCached(lay: Layout, s: State, b: nat)
    requires Reachable(lay, s) && s.pc.Idle? && b in s.lh
    ensures b in s.cache && s.cache[b].valid
  {
    ReachableInv(lay, s);
    hide Books, Reachable, Means, LogOk, HeldOk;
    assert b in Pinned(lay, s.disk, s.pc, s.lh) by { assert s.lh[0..] == s.lh; }
  }

  // ------------------------------------------------- states in which a call panics

  /** As many blocks as the test at the top of log_write lets in. */
  function Limit(lay: Layout): nat
    requires lay.size >= 1
  {
    Min(LOGSIZE, lay.size - 1)
  }

  /** The log is as full as it gets, operation p has logged u new blocks, and block 0 is free to be read again. */
  ghost predicate Full(lay: Layout, m: nat, s: State, p: Pid, u: nat) {
    && lay.size >= 1 && ReachableWithin(lay, m, s) && s.pc.Idle? && |s.lh| == Limit(lay)
    && p in s.ops && s.ops[p].used == u
    && (|s.lh| > 0 ==> 0 in s.lh && 0 in s.cache && s.cache[0].holder.None? && s.cache[0].valid)
  }

  lemma FillingIsFull(lay: Layout, m: nat, s: State, used: map<Pid, nat>, p: Pid)
    requires lay.size >= 1 && ReachableWithin(lay, m, s) && Filling(lay, s, used, Limit(lay)) && p in used
    ensures Full(lay, m, s, p, used[p])
  {
    hide ReachableWithin, Limit;
    if |s.lh| > 0 {
      assert s.lh[0] == 0;
      WithinReachable(lay, m, s);
      LoggedIsCached(lay, s, 0);
    }
  }

  /** The second operation logs the 30th block. */
  lemma LogLast(lay: Layout, m: nat, p: Pid) returns (s: State)
    requires 20 <= 2 * m && lay.size > LOGSIZE && lay.start >= LOGSIZE && p <= 1
    ensures Full(lay, m, s, p, Split(m, 20)[p])
  {
    hide ReachableWithin, Filling, Do, Boot, Reachable, Elements;
    var r := LogMany(lay, m, 19);
    var used, q := Split(m, 19), Next(m, 19);
    FillingAt(lay, r, used, 29);
    WithinReachable(lay, m, r);
    LoggedIsCached(lay, r, 0);
    var t := ReadLast(lay, m, r, used, q);
    s := LogAndRelease(lay, m, t, 29, q);
    assert used[q := used[q] + 1] == Split(m, 20);
  }

  lemma FillingAt(lay: Layout, s: State, used: map<Pid, nat>, n: nat)
    requires Filling(lay, s, used, n) && n > 0
    ensures s.pc.Idle? && |s.lh| == n && s.lh[0] == 0 && n !in s.lh && s.ops.Keys == used.Keys
    ensures (forall p | p in s.ops :: s.ops[p].used == used[p]) && (forall b | b in s.cache :: s.cache[b].holder.None?)
  { }

  /** The log can be filled with an operation left that has not used up its cap. */
  lemma FullWithRoom(lay: Layout, m: nat) returns (s: State, p: Pid, u: nat)
    requires lay.size >= 1 && m >= 1 && Limit(lay) <= lay.start && Limit(lay) < Most(m)
    ensures Full(lay, m, s, p, u) && u < m
  {
    hide ReachableWithin, Filling, Full;
    var n := Limit(lay);
    if n <= 10 {
      s := OthersLog(lay, m, n);
      p, u := 0, 0;
      FillingIsFull(lay, m, s, map[0 := 0], p);
    } else if n <= 29 {
      s := LogMany(lay, m, n - 10);
      p := Next(m, n - 10);
      u := Split(m, n - 10)[p];
      FillingIsFull(lay, m, s, Split(m, n - 10), p);
    } else {
      p := Next(m, 20);
      u := Split(m, 20)[p];
      s := LogLast(lay, m, p);
    }
  }

  /** Operation p calls log_write once more on the first block. */
  lemma CallAgain(lay: Layout, m: nat, s: State, p: Pid, u: nat) returns (t: State)
    requires Full(lay, m, s, p, u) && Limit(lay) > 0 && lay.start > 0
    ensures ReachableWithin(lay, m, t) && Calls(lay, t, p, 0) && 0 in t.lh && t.ops == s.ops && LogWritePanics(lay, t)
  {
    hide ReachableWithin;
    t := Take(lay, m, s, Get(p, 0, None, ZERO));
  }

  /** A log region of one block: the first call panics. */
  lemma FirstCall(lay: Layout, m: nat) returns (t: State)
    requires lay.size == 1 && m >= 1 && lay.start > 0
    ensures ReachableWithin(lay, m, t) && Calls(lay, t, 0, 0) && t.ops[0].used == 0 && LogWritePanics(lay, t)
  {
    hide ReachableWithin;
    var s := OneInside(lay, m);
    t := ReadOne(lay, m, s, map[0 := 0], 0, 0);
  }

  // ------------------------------------------------- exactly when

  /** No call of an operation that has not used up its cap panics, in any run in which all operations keep cap m. */
  ghost predicate PanicFree(lay: Layout, m: nat) {
    forall s, p, b | ReachableWithin(lay, m, s) && Calls(lay, s, p, b) && s.ops[p].used < m :: !LogWritePanics(lay, s)
  }

  lemma {:induction false} DistinctBelow(h: seq<nat>, n: nat)
    requires Distinct(h) && forall i | 0 <= i < |h| :: h[i] < n
    ensures |h| <= n
  {
    ElementsSize(h);
    SubsetSize(Elements(h), Below(n));
  }

  function Below(n: nat): (r: set<nat>)
    ensures |r| == n && forall x: nat :: x in r <==> x < n
  {
    if n == 0 then {} else Below(n - 1) + {n - 1}
  }

  lemma {:induction false} SubsetSize(a: set<nat>, b: set<nat>)
    requires a <= b
    ensures |a| <= |b|
  {
    if a != {} {
      var x :| x in a;
      SubsetSize(a - {x}, b - {x});
    }
  }

  lemma FewBlocks(lay: Layout, m: nat, s: State, p: Pid, b: nat)
    requires lay.size >= 1 && ReachableWithin(lay, m, s) && Calls(lay, s, p, b) && lay.start < Limit(lay)
    ensures !LogWritePanics(lay, s)
  {
    hide ReachableWithin, Reachable;
    WithinReachable(lay, m, s);
    AdmissionSafe(lay, s);
    DistinctBelow(s.lh, lay.start);
    SizeOfDrop(s.ops, p);
  }

  /** Over all runs in which no operation logs more than m new blocks: no call of an operation that has blocks
      left panics if and only if there is nothing to log, or there are too few blocks to fill the log, or the
      log holds what two operations can log on top of ten blocks of others. */
  lemma PanicFreeIff(lay: Layout, m: nat)
    requires lay.size >= 1
    ensures PanicFree(lay, m) <==>
      m == 0 || lay.start == 0 || lay.start < Limit(lay) || Limit(lay) >= Most(m)
  {
    hide ReachableWithin, LogWritePanics, Full;
    if m == 0 || lay.start == 0 {
    } else if lay.start < Limit(lay) {
      forall s, p, b | ReachableWithin(lay, m, s) && Calls(lay, s, p, b) && s.ops[p].used < m
        ensures !LogWritePanics(lay, s)
      {
        FewBlocks(lay, m, s, p, b);
      }
    } else if Limit(lay) >= Most(m) {
      forall s, p, b | ReachableWithin(lay, m, s) && Calls(lay, s, p, b) && s.ops[p].used < m
        ensures !LogWritePanics(lay, s)
      {
        LogWriteRoom(lay, m, s, p, b);
      }
    } else if Limit(lay) == 0 {
      var t := FirstCall(lay, m);
    } else {
      var s, p, u := FullWithRoom(lay, m);
      FullOp(lay, m, s, p, u);
      var t := CallAgain(lay, m, s, p, u);
    }
  }

  lemma FullOp(lay: Layout, m: nat, s: State, p: Pid, u: nat)
    requires Full(lay, m, s, p, u)
    ensures p in s.ops && s.ops[p].used == u
  { }

  /** With LOGSIZE blocks besides the header that is a cap of MAXOPBLOCKS or less; with one block fewer, as mkfs
      gives it, less than MAXOPBLOCKS. */
  lemma CapFor(lay: Layout, m: nat)
    requires lay.start >= LOGSIZE
    ensures lay.size > LOGSIZE ==> (PanicFree(lay, m) <==> m <= MAXOPBLOCKS)
    ensures lay.size == LOGSIZE ==> (PanicFree(lay, m) <==> m < MAXOPBLOCKS)
  {
    hide PanicFree;
    if lay.size >= LOGSIZE { PanicFreeIff(lay, m); }
  }

  /** A chunk of filewrite() can log 17 blocks. However large the log region is, two such operations after ten
      blocks of others fill it, and the second panics with 3 of its blocks logged. */
  lemma ChunksPanic(lay: Layout) returns (s: State)
    requires lay.size > LOGSIZE && lay.start >= LOGSIZE
    ensures ReachableWithin(lay, 17, s) && Calls(lay, s, 1, 0) && s.ops[1].used == 3 && LogWritePanics(lay, s)
  {
    hide ReachableWithin, LogWritePanics, Full;
    var r := LogLast(lay, 17, 1);
    FullOp(lay, 17, r, 1, 3);
    s := CallAgain(lay, 17, r, 1, 3);
  }

  /** With the cap that admission reckons with: two operations have used it up, and the first one calls log_write
      again on a block that is in the log. */
  lemma AbsorbedPanics(lay: Layout) returns (s: State)
    requires lay.size > LOGSIZE && lay.start >= LOGSIZE
    ensures ReachableWithin(lay, MAXOPBLOCKS, s) && Calls(lay, s, 0, 0) && 0 in s.lh
      && s.ops[0].used == MAXOPBLOCKS && LogWritePanics(lay, s)
  {
    hide ReachableWithin, LogWritePanics, Full;
    var r := LogLast(lay, MAXOPBLOCKS, 0);
    FullOp(lay, MAXOPBLOCKS, r, 0, MAXOPBLOCKS);
    s := CallAgain(lay, MAXOPBLOCKS, r, 0, MAXOPBLOCKS);
  }

  /** Counting the absorbed calls, no size of the log region keeps every call within that cap from panicking. */
  lemma SomeCallPanics(lay: Layout)
    requires lay.size >= 1 && lay.start >= LOGSIZE
    ensures exists s, p, b ::
      ReachableWithin(lay, MAXOPBLOCKS, s) && Calls(lay, s, p, b) && WithinCap(MAXOPBLOCKS, s, p, b)
      && LogWritePanics(lay, s)
  {
    hide ReachableWithin, LogWritePanics;
    if lay.size > LOGSIZE {
      var s := AbsorbedPanics(lay);
      assert WithinCap(MAXOPBLOCKS, s, 0, 0);
    } else {
      PanicFreeIff(lay, MAXOPBLOCKS);
      var s, p, b :| ReachableWithin(lay, MAXOPBLOCKS, s) && Calls(lay, s, p, b) && s.ops[p].used < MAXOPBLOCKS
        && LogWritePanics(lay, s);
      assert WithinCap(MAXOPBLOCKS, s, p, b);
    }
  }
}
