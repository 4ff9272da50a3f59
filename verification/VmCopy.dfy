/** kernel/vm.c: freevm() and copyuvm(). */
module VmCopy {
  import opened Basics
  import opened VmSpace
  import opened Vm

  const FREEVM_TOP: nat := 0x3fa0_0000

  /** Every page of every space in dirs0 has the same entry and bytes. */
  ghost predicate AllKept(w: Build, mem0: seq<Frame>, dirs0: map<nat, Dir>, mem: seq<Frame>, dirs: map<nat, Dir>)
    requires Shape(w, mem0, dirs0) && Shape(w, mem, dirs)
  {
    && dirs0.Keys <= dirs.Keys && |mem| == |mem0|
    && forall e, q | e in dirs0 && 0 <= q < UPages(w) :: SamePage(w, mem0, dirs0[e], mem, dirs[e], q)
  }

  /** Page q of space d is a copy of page q of space c: the same flags and bytes in another frame. */
  ghost predicate Copied(w: Build, mem: seq<Frame>, from: Dir, to: Dir, q: nat)
    requires DirOk(w, mem, from) && DirOk(w, mem, to) && q < UPages(w)
  {
    var a, b := Entry(w, mem, from, q), Entry(w, mem, to, q);
    && a.present && b.present && b.flags == a.flags && b.frame != a.frame
    && a.frame < |mem| && b.frame < |mem| && mem[b.frame] == mem[a.frame]
  }

  // ------------------------------------------------- spaces coming and going

  /** setupkvm(): a space with nothing mapped in its user part. */
  lemma SpaceAdded(w: Build, mem: seq<Frame>, dirs: map<nat, Dir>, free: seq<nat>, owner: map<nat, Use>, d: nat)
    requires Good(w, mem, dirs, free, owner) && d !in dirs
    ensures var dirs' := dirs[d := seq(UDirs(w), _ => None)];
      Good(w, mem, dirs', free, owner) && Prefix(w, mem, dirs'[d], 0) && AllKept(w, mem, dirs, mem, dirs')
  {
    var dirs' := dirs[d := seq(UDirs(w), _ => None)];
    assert DirOk(w, mem, dirs'[d]);
    forall c | c in dirs' ensures DirOk(w, mem, dirs'[c]) { if c != d { assert DirOk(w, mem, dirs[c]); } }
    forall q | 0 <= q < UPages(w) ensures !Entry(w, mem, dirs'[d], q).present { PageDiv(w, q); }
    forall e, q | e in dirs' && 0 <= q < UPages(w) && Entry(w, mem, dirs'[e], q).present
      ensures PageOk(mem, owner, e, q, Entry(w, mem, dirs'[e], q).frame)
    {
      assert e in dirs && Entry(w, mem, dirs[e], q).present;
    }
    forall e, q | e in dirs && 0 <= q < UPages(w) ensures SamePage(w, mem, dirs[e], mem, dirs'[e], q) {
      if Entry(w, mem, dirs[e], q).present { assert PageOk(mem, owner, e, q, Entry(w, mem, dirs[e], q).frame); }
    }
  }

  /** The frames of space d are in use no more. */
  ghost function Without(owner: map<nat, Use>, d: nat): map<nat, Use> {
    map f | f in owner && owner[f].d != d :: owner[f]
  }

  lemma SpaceRemoved(w: Build, mem: seq<Frame>, dirs: map<nat, Dir>, free: seq<nat>, owner: map<nat, Use>, d: nat)
    requires Good(w, mem, dirs, free, owner) && d in dirs
    ensures Good(w, mem, dirs - {d}, free, Without(owner, d)) && AllKept(w, mem, dirs - {d}, mem, dirs - {d})
    ensures forall i | 0 <= i < UDirs(w) && dirs[d][i].Some? :: InHand(mem, free, Without(owner, d), dirs[d][i].value)
    ensures forall i, j | 0 <= i < j < UDirs(w) && dirs[d][i].Some? :: dirs[d][i] != dirs[d][j]
  {
    var dirs', owner' := dirs - {d}, Without(owner, d);
    RemovedPages(w, mem, dirs, owner, d);
    RemovedTables(w, mem, dirs, free, owner, d);
    hide TablesOwned;
    forall e, q | e in dirs' && 0 <= q < UPages(w) ensures SamePage(w, mem, dirs'[e], mem, dirs'[e], q) {
      if Entry(w, mem, dirs'[e], q).present { assert PageOk(mem, owner', e, q, Entry(w, mem, dirs'[e], q).frame); }
    }
  }

  lemma RemovedPages(w: Build, mem: seq<Frame>, dirs: map<nat, Dir>, owner: map<nat, Use>, d: nat)
    requires Shape(w, mem, dirs) && PagesOwned(w, mem, dirs, owner)
    ensures Shape(w, mem, dirs - {d}) && PagesOwned(w, mem, dirs - {d}, Without(owner, d))
  {
    forall e, q | e in dirs - {d} && 0 <= q < UPages(w) && Entry(w, mem, dirs[e], q).present
      ensures PageOk(mem, Without(owner, d), e, q, Entry(w, mem, dirs[e], q).frame)
    {
      assert PageOk(mem, owner, e, q, Entry(w, mem, dirs[e], q).frame);
    }
  }

  lemma RemovedTables(w: Build, mem: seq<Frame>, dirs: map<nat, Dir>, free: seq<nat>, owner: map<nat, Use>, d: nat)
    requires Good(w, mem, dirs, free, owner) && d in dirs
    ensures TablesOwned(w, mem, dirs - {d}, Without(owner, d))
    ensures forall i | 0 <= i < UDirs(w) && dirs[d][i].Some? :: InHand(mem, free, Without(owner, d), dirs[d][i].value)
    ensures forall i, j | 0 <= i < j < UDirs(w) && dirs[d][i].Some? :: dirs[d][i] != dirs[d][j]
  {
    hide PagesOwned;
    forall i | 0 <= i < UDirs(w) && dirs[d][i].Some? ensures InHand(mem, free, Without(owner, d), dirs[d][i].value) {
      var t := dirs[d][i].value;
      assert t in owner && owner[t] == TableOf(d, i);
      assert DirOk(w, mem, dirs[d]);
    }
  }

  // ------------------------------------------------- setupkvm()

  /** Made, or out of frames: the 32-bit build returns 0. The 64-bit build does not look at what kalloc()
      returns and writes its tables at address 0: over the first page of the current address space, or into
      a fault if it has none. */
  datatype Setup = Made | Refused | Scribbled | Crash

  ghost function Set(fs: seq<nat>): set<nat> {
    set f | f in fs
  }

  ghost function WithKern(owner: map<nat, Use>, fs: seq<nat>, d: nat, n: nat): map<nat, Use>
    requires n <= |fs|
  {
    if n == 0 then owner else WithKern(owner, fs, d, n - 1)[fs[n - 1] := KernOf(d, n - 1)]
  }

  lemma {:induction false} WithKernIs(owner: map<nat, Use>, fs: seq<nat>, d: nat, n: nat)
    requires n <= |fs| && (forall j | 0 <= j < |fs| :: fs[j] !in owner) && forall i, j | 0 <= i < j < |fs| ::
      fs[i] != fs[j]
    ensures var owner' := WithKern(owner, fs, d, n);
      && (forall f | f in owner :: f in owner' && owner'[f] == owner[f])
      && (forall j | 0 <= j < n :: fs[j] in owner' && owner'[fs[j]] == KernOf(d, j))
      && (forall f | f in owner' && f !in owner :: exists j | 0 <= j < n :: f == fs[j])
  {
    if n > 0 { WithKernIs(owner, fs, d, n - 1); }
  }

  lemma KernAdded(w: Build, mem: seq<Frame>, dirs: map<nat, Dir>, free: seq<nat>, owner: map<nat, Use>,
      kern: map<nat, seq<nat>>, fs: seq<nat>, d: nat)
    requires Good(w, mem, dirs, free, owner) && KernOk(w, kern, dirs.Keys, owner) && d !in dirs
      && |fs| == SetupFrames(w)
    requires (forall i, j | 0 <= i < j < |fs| :: fs[i] != fs[j]) && Set(fs) <= Lost(|mem|, free, owner)
    ensures var owner' := WithKern(owner, fs, d, |fs|);
      && Good(w, mem, dirs, free, owner') && KernOk(w, kern[d := fs], dirs.Keys + {d}, owner')
      && Lost(|mem|, free, owner') == Lost(|mem|, free, owner) - Set(fs)
  {
    hide KernOk, Good, Lost, Set;
    NotOwned(|mem|, free, owner, fs);
    WithKernIs(owner, fs, d, |fs|);
    var owner' := WithKern(owner, fs, d, |fs|);
    hide WithKern;
    KernAddedKern(w, dirs.Keys, owner, kern, fs, d, owner');
    KernAddedGood(w, mem, dirs, free, owner, fs, d, owner');
    KernLost(|mem|, free, owner, fs, owner');
  }

  lemma NotOwned(n: nat, free: seq<nat>, owner: map<nat, Use>, fs: seq<nat>)
    requires Set(fs) <= Lost(n, free, owner)
    ensures forall j | 0 <= j < |fs| :: fs[j] !in owner
  {
    assert forall j | 0 <= j < |fs| :: fs[j] in Set(fs);
  }

  lemma KernLost(n: nat, free: seq<nat>, owner: map<nat, Use>, fs: seq<nat>, owner': map<nat, Use>)
    requires forall f | f in owner :: f in owner' && owner'[f] == owner[f]
    requires forall j | 0 <= j < |fs| :: fs[j] in owner'
    requires forall f | f in owner' && f !in owner :: exists j | 0 <= j < |fs| :: f == fs[j]
    ensures Lost(n, free, owner') == Lost(n, free, owner) - Set(fs)
  { }

  lemma KernAddedGood(w: Build, mem: seq<Frame>, dirs: map<nat, Dir>, free: seq<nat>, owner: map<nat, Use>,
      fs: seq<nat>, d: nat, owner': map<nat, Use>)
    requires Good(w, mem, dirs, free, owner) && Set(fs) <= Lost(|mem|, free, owner)
    requires forall f | f in owner :: f in owner' && owner'[f] == owner[f]
    requires forall j | 0 <= j < |fs| :: fs[j] in owner' && owner'[fs[j]] == KernOf(d, j)
    requires forall f | f in owner' && f !in owner :: exists j | 0 <= j < |fs| :: f == fs[j]
    ensures Good(w, mem, dirs, free, owner')
  {
    hide Dx, Tx, Entry;
    forall f | f in owner' && f !in owner ensures owner'[f].KernOf? && f in Lost(|mem|, free, owner) {
      assert f in Set(fs);
    }
    PagesSame(w, mem, dirs, mem, dirs, owner, owner');
    hide PagesOwned;
    assert FreeOk(mem, free, owner');
    hide FreeOk;
    assert TablesOwned(w, mem, dirs, owner');
  }

  lemma KernAddedKern(w: Build, spaces: set<nat>, owner: map<nat, Use>, kern: map<nat, seq<nat>>, fs: seq<nat>,
      d: nat, owner': map<nat, Use>)
    requires KernOk(w, kern, spaces, owner) && d !in spaces && |fs| == SetupFrames(w)
    requires forall f | f in owner :: f in owner' && owner'[f] == owner[f]
    requires forall j | 0 <= j < |fs| :: fs[j] in owner' && owner'[fs[j]] == KernOf(d, j)
    requires forall f | f in owner' && f !in owner :: exists j | 0 <= j < |fs| :: f == fs[j]
    ensures KernOk(w, kern[d := fs], spaces + {d}, owner')
  {
    var k := kern[d := fs];
    forall f | f in owner' && owner'[f].KernOf?
      ensures owner'[f].d in k && owner'[f].j < |k[owner'[f].d]| && k[owner'[f].d][owner'[f].j] == f
    {
      if f in owner { assert owner'[f] == owner[f]; }
    }
  }

  /** kalloc() n times, or as often as there are frames. */
  method TakeFrames(m: Memory, n: nat) returns (fs: seq<nat>)
    requires m.Valid()
    modifies m`free
    ensures m.Valid() && |fs| == Min(n, |old(m.free)|) && fs == old(m.free)[..|fs|] && m.free == old(m.free)[|fs|..]
    ensures Lost(|m.mem|, m.free, m.owner) == old(Lost(|m.mem|, m.free, m.owner)) + Set(fs)
    ensures old(Lost(|m.mem|, m.free, m.owner)) !! Set(fs)
    ensures forall i, j | 0 <= i < j < |fs| :: fs[i] != fs[j]
  {
    hide Good, KernOk, Lost;
    fs := [];
    while |fs| < n
      invariant m.Valid() && |fs| <= n && |fs| <= |old(m.free)| && fs == old(m.free)[..|fs|]
        && m.free == old(m.free)[|fs|..]
      invariant Lost(|m.mem|, m.free, m.owner) == old(Lost(|m.mem|, m.free, m.owner)) + Set(fs)
      invariant old(Lost(|m.mem|, m.free, m.owner)) !! Set(fs)
      invariant forall i, j | 0 <= i < j < |fs| :: fs[i] != fs[j]
    {
      var r := m.Kalloc();
      if r.None? { return; }
      assert Set(fs + [r.value]) == Set(fs) + {r.value};
      assert r.value !in Set(fs);
      fs := fs + [r.value];
    }
  }

  /** setupkvm() for a new space d, in the current space cur. junk is what ends up in the page at 0. */
  method Setupkvm(m: Memory, d: nat, cur: nat, junk: Bytes) returns (r: Setup)
    requires m.Valid() && d !in m.dirs && cur in m.dirs
    modifies m
    ensures m.Valid() && |m.mem| == |old(m.mem)| && (r.Made? <==> |old(m.free)| >= SetupFrames(m.w))
    ensures r.Made? ==>
      && m.dirs == old(m.dirs)[d := seq(UDirs(m.w), _ => None)] && m.free == old(m.free)[SetupFrames(m.w)..]
      && AllKept(m.w, old(m.mem), old(m.dirs), m.mem, m.dirs) && Prefix(m.w, m.mem, m.dirs[d], 0)
      && Lost(|m.mem|, m.free, m.owner) == old(Lost(|m.mem|, m.free, m.owner))
    ensures !r.Made? ==>
      && m.dirs == old(m.dirs) && m.free == [] && m.owner == old(m.owner) && |m.mem| == |old(m.mem)|
      && Lost(|m.mem|, m.free, m.owner) == old(Lost(|m.mem|, m.free, m.owner)) + Set(old(m.free))
      && AllKeptBut(m.w, old(m.mem), old(m.dirs), m.mem, m.dirs, cur, 0)
    ensures r.Refused? ==> m.w.X86? && AllKept(m.w, old(m.mem), old(m.dirs), m.mem, m.dirs)
    ensures r.Scribbled? ==>
      m.w.X64? && Entry(m.w, m.mem, m.dirs[cur], 0).present && HasBytes(m.w, m.mem, m.dirs[cur], 0, junk)
    ensures r.Crash? <==>
      m.w.X64? && |old(m.free)| < SetupFrames(m.w) && !Entry(m.w, old(m.mem), old(m.dirs)[cur], 0).present
    ensures r.Crash? ==> AllKept(m.w, old(m.mem), old(m.dirs), m.mem, m.dirs)
  {
    hide TablesOwned, PagesOwned, FreeOk, KernOk, AllKept, AllKeptBut, Prefix, Lost, Dx, Tx;
    KeptSelf(m.w, m.mem, m.dirs, m.free, m.owner, cur);
    ghost var lost0 := Lost(|m.mem|, m.free, m.owner);
    var fs := TakeFrames(m, SetupFrames(m.w));
    if |fs| < SetupFrames(m.w) {
      SameElements(fs, old(m.free));
      if m.w.X86? { return Refused; }
      if !Entry(m.w, m.mem, m.dirs[cur], 0).present { return Crash; }
      ghost var mem1 := m.mem;
      var f := Entry(m.w, m.mem, m.dirs[cur], 0).frame;
      PageZero(m.w, m.mem, m.dirs, m.free, m.owner, cur, junk);
      m.mem := m.mem[f := Page(junk)];
      return Scribbled;
    }
    BackAgain(lost0, fs);
    KernAdded(m.w, m.mem, m.dirs, m.free, m.owner, m.kern, fs, d);
    m.owner := WithKern(m.owner, fs, d, |fs|);
    SpaceAdded(m.w, m.mem, m.dirs, m.free, m.owner, d);
    m.kern := m.kern[d := fs];
    m.dirs := m.dirs[d := seq(UDirs(m.w), _ => None)];
    assert m.dirs.Keys == old(m.dirs).Keys + {d};
    return Made;
  }

  lemma SameElements(fs: seq<nat>, all: seq<nat>)
    requires |fs| == |all| && fs == all[..|fs|]
    ensures Set(fs) == Set(all)
  {
    assert fs == all;
  }

  lemma BackAgain(lost: set<nat>, fs: seq<nat>)
    requires lost !! Set(fs)
    ensures lost + Set(fs) - Set(fs) == lost
  { }

  /** All pages but page q of space c are as before; that one is where it was. */
  ghost predicate AllKeptBut(w: Build, mem0: seq<Frame>, dirs0: map<nat, Dir>, mem: seq<Frame>, dirs: map<nat, Dir>,
      c: nat, q: nat)
    requires Shape(w, mem0, dirs0) && Shape(w, mem, dirs)
  {
    && dirs0.Keys <= dirs.Keys && |mem| == |mem0|
    && (forall e, p | e in dirs0 && 0 <= p < UPages(w) && !(e == c && p == q) ::
       SamePage(w, mem0, dirs0[e], mem, dirs[e], p))
    && (c in dirs0 && q < UPages(w) ==> Entry(w, mem, dirs[c], q) == Entry(w, mem0, dirs0[c], q))
  }

  ghost predicate HasBytes(w: Build, mem: seq<Frame>, dir: Dir, q: nat, bytes: Bytes)
    requires DirOk(w, mem, dir) && q < UPages(w)
  {
    Entry(w, mem, dir, q).frame < |mem| && mem[Entry(w, mem, dir, q).frame] == Page(bytes)
  }

  lemma KeptSelf(w: Build, mem: seq<Frame>, dirs: map<nat, Dir>, free: seq<nat>, owner: map<nat, Use>, c: nat)
    requires Good(w, mem, dirs, free, owner)
    ensures AllKept(w, mem, dirs, mem, dirs) && AllKeptBut(w, mem, dirs, mem, dirs, c, 0)
  {
    hide TablesOwned, FreeOk, Dx, Tx;
    forall e, q | e in dirs && 0 <= q < UPages(w) ensures SamePage(w, mem, dirs[e], mem, dirs[e], q) {
      if Entry(w, mem, dirs[e], q).present { assert PageOk(mem, owner, e, q, Entry(w, mem, dirs[e], q).frame); }
    }
  }

  /** Writing over the first page of a space. */
  lemma PageZero(w: Build, mem: seq<Frame>, dirs: map<nat, Dir>, free: seq<nat>, owner: map<nat, Use>, c: nat,
      junk: Bytes)
    requires Good(w, mem, dirs, free, owner) && c in dirs && Entry(w, mem, dirs[c], 0).present
    ensures var f := Entry(w, mem, dirs[c], 0).frame;
      && f < |mem| && Good(w, mem[f := Page(junk)], dirs, free, owner)
      && AllKeptBut(w, mem, dirs, mem[f := Page(junk)], dirs, c, 0)
      && Entry(w, mem[f := Page(junk)], dirs[c], 0).present && HasBytes(w, mem[f := Page(junk)], dirs[c], 0, junk)
  {
    hide TablesOwned, FreeOk, Dx, Tx;
    var f := Entry(w, mem, dirs[c], 0).frame;
    assert PageOk(mem, owner, c, 0, f);
    var mem' := mem[f := Page(junk)];
    FilledGood(w, mem, dirs, free, owner, f, junk);
    forall e, q | e in dirs && 0 <= q < UPages(w) && !(e == c && q == 0)
      ensures SamePage(w, mem, dirs[e], mem', dirs[e], q)
    {
      if Entry(w, mem, dirs[e], q).present { assert PageOk(mem, owner, e, q, Entry(w, mem, dirs[e], q).frame); }
    }
  }

  // ------------------------------------------------- freevm()

  ghost function Frames(fs: seq<Option<nat>>): set<nat> {
    set i | 0 <= i < |fs| && fs[i].Some? :: fs[i].value
  }

  ghost predicate Different(fs: seq<Option<nat>>) {
    forall i, j | 0 <= i < j < |fs| && fs[i].Some? :: fs[i] != fs[j]
  }

  lemma FramesLess(fs: seq<Option<nat>>, i: nat)
    requires i < |fs| && Different(fs)
    ensures Frames(fs[..i + 1]) == Frames(fs[..i]) + (if fs[i].Some? then {fs[i].value} else {})
    ensures fs[i].Some? ==> fs[i].value in Frames(fs) && fs[i].value !in Frames(fs[..i])
  {
    assert fs[..i + 1] == fs[..i] + [fs[i]];
    if fs[i].Some? { assert forall j | 0 <= j < i && fs[j].Some? :: fs[j] != fs[i]; }
  }

  /** kfree() of frames in hand. */
  method FreeAll(m: Memory, fs: seq<Option<nat>>, ghost mem0: seq<Frame>, ghost dirs0: map<nat, Dir>)
    requires m.Valid() && Frames(fs) <= Lost(|m.mem|, m.free, m.owner) && Different(fs)
    requires Shape(m.w, mem0, dirs0) && AllKept(m.w, mem0, dirs0, m.mem, m.dirs)
    modifies m`mem, m`free
    ensures m.Valid() && AllKept(m.w, mem0, dirs0, m.mem, m.dirs) && |m.mem| == |old(m.mem)|
    ensures Lost(|m.mem|, m.free, m.owner) == old(Lost(|m.mem|, m.free, m.owner)) - Frames(fs)
    ensures forall f | f in old(m.free) || f in Frames(fs) :: f in m.free
    ensures |m.free| == |old(m.free)| + |Frames(fs)|
  {
    hide TablesOwned, PagesOwned, FreeOk, KernOk, AllKept, Dx, Tx, Frames, Different, Lost;
    FramesNone(fs);
    var i := 0;
    while i < |fs|
      invariant 0 <= i <= |fs| && m.Valid() && AllKept(m.w, mem0, dirs0, m.mem, m.dirs) && |m.mem| == |old(m.mem)|
      invariant Lost(|m.mem|, m.free, m.owner) == old(Lost(|m.mem|, m.free, m.owner)) - Frames(fs[..i])
      invariant forall f | f in old(m.free) || f in Frames(fs[..i]) :: f in m.free
      invariant |m.free| == |old(m.free)| + |Frames(fs[..i])|
    {
      ghost var mem1, free1 := m.mem, m.free;
      FramesLess(fs, i);
      if fs[i].Some? {
        LostInHand(m.mem, m.free, m.owner, fs[i].value);
        m.Kfree(fs[i].value, seq(PGSIZE, _ => 1));
        NoPageWritten(m.w, mem0, dirs0, mem1, m.dirs, free1, m.owner, m.mem, fs[i].value);
      }
      i := i + 1;
    }
    assert fs[..|fs|] == fs;
  }

  lemma FramesNone(fs: seq<Option<nat>>)
    ensures Frames(fs[..0]) == {}
  { }

  lemma LostInHand(mem: seq<Frame>, free: seq<nat>, owner: map<nat, Use>, m: nat)
    requires m in Lost(|mem|, free, owner)
    ensures InHand(mem, free, owner, m)
  { }

  /** The frames of setupkvm() that freevm() gives back: the directory, and in the 32-bit build the kernel's page
      tables. It leaves out what is behind the last two entries of the directory. */
  function KernLo(w: Build): nat {
    if w.X64? then 2 else 0
  }

  function KernHi(w: Build): nat {
    if w.X64? then 3 else 63
  }

  /** What freevm() does not give back. */
  ghost function NotFreed(w: Build, owner: map<nat, Use>, d: nat): set<nat> {
    set f | f in owner && owner[f].d == d &&
      ((owner[f].PageOf? && owner[f].p >= Pages(FREEVM_TOP))
        || (owner[f].KernOf? && !(KernLo(w) <= owner[f].j < KernHi(w))))
  }

  ghost function Gone(owner: map<nat, Use>, d: nat): set<nat> {
    set f | f in owner && owner[f].d == d
  }

  lemma LostWithout(mem: seq<Frame>, free: seq<nat>, owner: map<nat, Use>, d: nat)
    requires FreeOk(mem, free, owner)
    ensures Lost(|mem|, free, Without(owner, d)) == Lost(|mem|, free, owner) + Gone(owner, d)
    ensures Lost(|mem|, free, owner) !! Gone(owner, d)
  {
    forall f | f in Gone(owner, d) ensures f in Lost(|mem|, free, Without(owner, d)) { }
  }

  /** The frames of setupkvm() that are given back, as a list. */
  function KernList(w: Build, ks: seq<nat>): seq<Option<nat>>
    requires |ks| == SetupFrames(w)
  {
    seq(KernHi(w) - KernLo(w), j requires 0 <= j < KernHi(w) - KernLo(w) => Some(ks[KernLo(w) + j]))
  }

  lemma KernRemoved(w: Build, kern: map<nat, seq<nat>>, spaces: set<nat>, owner: map<nat, Use>, d: nat)
    requires KernOk(w, kern, spaces, owner) && d in spaces
    ensures KernOk(w, kern - {d}, spaces - {d}, Without(owner, d))
    ensures |kern[d]| == SetupFrames(w) && Different(KernList(w, kern[d]))
    ensures Frames(KernList(w, kern[d])) == set f | f in owner && owner[f].KernOf? && owner[f].d == d
      && KernLo(w) <= owner[f].j < KernHi(w)
  {
    var ks, lo := kern[d], KernLo(w);
    var list := KernList(w, ks);
    forall f | f in owner && owner[f].KernOf? && owner[f].d == d && KernLo(w) <= owner[f].j < KernHi(w)
      ensures f in Frames(list)
    {
      assert list[owner[f].j - lo] == Some(f);
    }
    forall i, j | 0 <= i < j < |list| ensures list[i] != list[j] {
      assert owner[ks[lo + i]] == KernOf(d, lo + i) && owner[ks[lo + j]] == KernOf(d, lo + j);
    }
  }

  /** The page tables of a space. */
  lemma TablesAre(w: Build, mem: seq<Frame>, dirs: map<nat, Dir>, owner: map<nat, Use>, d: nat)
    requires Shape(w, mem, dirs) && TablesOwned(w, mem, dirs, owner) && d in dirs
    ensures Different(dirs[d]) && Frames(dirs[d]) == set f | f in owner && owner[f].TableOf? && owner[f].d == d
  {
    var dir := dirs[d];
    assert DirOk(w, mem, dir);
    forall f | f in owner && owner[f].TableOf? && owner[f].d == d ensures f in Frames(dir) {
      assert dir[owner[f].i] == Some(f);
    }
    forall i, j | 0 <= i < j < |dir| && dir[i].Some? ensures dir[i] != dir[j] {
      assert owner[dir[i].value] == TableOf(d, i);
    }
  }

  /** What is left over of a space. */
  lemma LeftOver(w: Build, owner0: map<nat, Use>, owner: map<nat, Use>, d: nat, tables: set<nat>, kerns: set<nat>)
    requires Freed(d, 0, Pages(FREEVM_TOP), owner0, owner)
    requires tables == (set f | f in owner && owner[f].TableOf? && owner[f].d == d)
    requires kerns == (set f | f in owner && owner[f].KernOf? && owner[f].d == d && KernLo(w) <= owner[f].j < KernHi(w))
    ensures Gone(owner, d) - tables - kerns == NotFreed(w, owner0, d)
    ensures tables <= Gone(owner, d) && kerns <= Gone(owner, d) && tables !! kerns
  {
    hide Pages;
  }

  /** freevm(): the other spaces keep their pages. Everything of d is given back but its pages from 0x3fa00000 on
      and two frames of setupkvm(), which are lost. */
  method Freevm(m: Memory, d: nat)
    requires m.Valid() && d in m.dirs
    modifies m
    ensures m.Valid() && m.dirs == old(m.dirs) - {d} && AllKept(m.w, old(m.mem), old(m.dirs) - {d}, m.mem, m.dirs)
    ensures Lost(|m.mem|, m.free, m.owner) == old(Lost(|m.mem|, m.free, m.owner)) + NotFreed(m.w, old(m.owner), d)
    ensures m.owner == Without(old(m.owner), d)
    ensures forall f | f in old(m.owner) && old(m.owner)[f].d == d ::
      f in m.free <==> f !in NotFreed(m.w, old(m.owner), d)
  {
    hide TablesOwned, PagesOwned, FreeOk, KernOk, Kept, KeptBar, Freed, FreedSet, Removed, Due, Pages, AllKept, Dx, Tx,
      Skew, Frames, Different;
    hide Gone, NotFreed, Lost, KernList, KernLo, KernHi, Without;
    ghost var owner0, lost0 := m.owner, Lost(|m.mem|, m.free, m.owner);
    ShapeWithout(m.w, m.mem, m.dirs, d);
    FromZero();
    FreevmBelowTop(m.w);
    SkewAtZero(m.w, m.dirs[d]);
    var r, gone := m.Deallocuvm(d, FREEVM_TOP, 0);
    ghost var owner1, free1 := m.owner, m.free;
    AllOfThem(m.w, old(m.mem), m.mem, m.dirs, old(m.free), owner0, owner1, d, gone);
    KernHas(m.w, m.kern, m.dirs.Keys, m.owner, d);
    var dir, ks := m.dirs[d], m.kern[d];
    TablesAre(m.w, m.mem, m.dirs, m.owner, d);
    KernRemoved(m.w, m.kern, m.dirs.Keys, m.owner, d);
    LeftOver(m.w, owner0, owner1, d, Frames(dir), Frames(KernList(m.w, ks)));
    SpaceRemoved(m.w, m.mem, m.dirs, m.free, m.owner, d);
    LostWithout(m.mem, m.free, m.owner, d);
    AllBut(m.w, old(m.mem), old(m.dirs), m.mem, m.dirs, d);
    WithoutFreed(owner0, owner1, d);
    m.dirs := m.dirs - {d};
    m.owner := Without(m.owner, d);
    m.kern := m.kern - {d};
    FreeAll(m, dir, old(m.mem), old(m.dirs) - {d});
    FreeAll(m, KernList(m.w, ks), old(m.mem), old(m.dirs) - {d});
    InOrOut(m.w, owner0, owner1, d, lost0, m.mem, free1, m.free, m.owner, Frames(dir), Frames(KernList(m.w, ks)));
  }

  lemma KernHas(w: Build, kern: map<nat, seq<nat>>, spaces: set<nat>, owner: map<nat, Use>, d: nat)
    requires KernOk(w, kern, spaces, owner) && d in spaces
    ensures d in kern && |kern[d]| == SetupFrames(w)
  { }

  lemma SkewAtZero(w: Build, dir: Dir)
    requires |dir| == UDirs(w)
    ensures Skew(w, dir, 0) == 0
  { }

  /** From page 0 on, no page is missed. */
  lemma AllOfThem(w: Build, mem0: seq<Frame>, mem: seq<Frame>, dirs: map<nat, Dir>, free0: seq<nat>,
      owner0: map<nat, Use>, owner: map<nat, Use>, d: nat, gone: set<nat>)
    requires Good(w, mem0, dirs, free0, owner0) && Shape(w, mem, dirs) && d in dirs
    requires gone == Due(w, mem0, dirs[d], 0, Pages(FREEVM_TOP)) && FreedSet(d, gone, owner0, owner)
    requires Removed(w, mem0, mem, dirs, d, gone)
    ensures Freed(d, 0, Pages(FREEVM_TOP), owner0, owner) && Kept(w, mem0, dirs, mem, dirs, d, 0)
  {
    hide Entry, TablesOwned, FreeOk, Pages, KeptBar;
    BarKept(w, mem0, dirs, mem, dirs, d, gone, 0);
    forall f | f in owner0 && owner0[f].PageOf? && owner0[f].d == d
      ensures owner0[f].p in gone <==> owner0[f].p < Pages(FREEVM_TOP)
    {
      assert owner0[f].p < UPages(w) && Entry(w, mem0, dirs[d], owner0[f].p).present;
      assert !Missed(w, dirs[d], 0, owner0[f].p);
    }
  }

  lemma FreevmBelowTop(w: Build)
    ensures FREEVM_TOP < Top(w) == UPages(w) * PGSIZE
  { }

  lemma WithoutFreed(owner0: map<nat, Use>, owner: map<nat, Use>, d: nat)
    requires Freed(d, 0, Pages(FREEVM_TOP), owner0, owner)
    ensures Without(owner, d) == Without(owner0, d)
  {
    hide Pages;
  }

  /** Every frame of the space is on the free list or lost. */
  lemma InOrOut(w: Build, owner0: map<nat, Use>, owner1: map<nat, Use>, d: nat, lost0: set<nat>, mem: seq<Frame>,
      free1: seq<nat>, free: seq<nat>, owner: map<nat, Use>, tables: set<nat>, kerns: set<nat>)
    requires Gone(owner1, d) - tables - kerns == NotFreed(w, owner0, d) && tables <= Gone(owner1, d)
      && kerns <= Gone(owner1, d)
    requires Freed(d, 0, Pages(FREEVM_TOP), owner0, owner1) && lost0 !! Gone(owner1, d)
    requires Lost(|mem|, free, owner) == lost0 + Gone(owner1, d) - tables - kerns
    requires (forall f | f in owner0 && f !in owner1 :: f in free1)
      && (forall f | f in free1 || f in tables || f in kerns :: f in free)
    ensures Lost(|mem|, free, owner) == lost0 + NotFreed(w, owner0, d)
    ensures forall f | f in owner0 && owner0[f].d == d :: f in free <==> f !in NotFreed(w, owner0, d)
  {
    hide Pages;
    assert Lost(|mem|, free, owner) == lost0 + NotFreed(w, owner0, d);
    forall f | f in owner0 && owner0[f].d == d ensures f in free <==> f !in NotFreed(w, owner0, d) {
      if f in NotFreed(w, owner0, d) {
        assert f in Lost(|mem|, free, owner);
      } else if f in owner1 {
        assert f in Gone(owner1, d);
      }
    }
  }

  lemma ShapeWithout(w: Build, mem: seq<Frame>, dirs: map<nat, Dir>, d: nat)
    requires Shape(w, mem, dirs)
    ensures Shape(w, mem, dirs - {d})
  { }

  lemma FromZero()
    ensures Pages(0) == 0
  { }

  lemma AllBut(w: Build, mem0: seq<Frame>, dirs0: map<nat, Dir>, mem: seq<Frame>, dirs: map<nat, Dir>, d: nat)
    requires Shape(w, mem0, dirs0) && Shape(w, mem, dirs) && Kept(w, mem0, dirs0, mem, dirs, d, 0)
    ensures Shape(w, mem0, dirs0 - {d}) && Shape(w, mem, dirs - {d}) && AllKept(w, mem0, dirs0 - {d}, mem, dirs - {d})
  { }

  /** Writing a frame that is no page of anybody. */
  lemma NoPageWritten(w: Build, mem0: seq<Frame>, dirs0: map<nat, Dir>, mem1: seq<Frame>, dirs: map<nat, Dir>,
      free: seq<nat>, owner: map<nat, Use>, mem: seq<Frame>, m: nat)
    requires Shape(w, mem0, dirs0) && Good(w, mem1, dirs, free, owner) && Shape(w, mem, dirs)
      && AllKept(w, mem0, dirs0, mem1, dirs) && |mem| == |mem1|
    requires (forall f | 0 <= f < |mem1| && f != m :: mem[f] == mem1[f]) && m !in owner
    requires forall e, q | e in dirs && 0 <= q < UPages(w) :: Entry(w, mem, dirs[e], q) == Entry(w, mem1, dirs[e], q)
    ensures AllKept(w, mem0, dirs0, mem, dirs)
  {
    forall e, q | e in dirs0 && 0 <= q < UPages(w) ensures SamePage(w, mem0, dirs0[e], mem, dirs[e], q) {
      assert SamePage(w, mem0, dirs0[e], mem1, dirs[e], q);
      if Entry(w, mem1, dirs[e], q).present { assert PageOk(mem1, owner, e, q, Entry(w, mem1, dirs[e], q).frame); }
    }
  }

  // ------------------------------------------------- copyuvm()

  /** The pages below n of space d are copies of those of space c. */
  ghost predicate Copies(w: Build, mem: seq<Frame>, dirs: map<nat, Dir>, c: nat, d: nat, n: nat)
    requires Shape(w, mem, dirs) && c in dirs && d in dirs
  {
    forall q | 0 <= q < n && q < UPages(w) :: Copied(w, mem, dirs[c], dirs[d], q)
  }

  /** A child, no child, or a panic: in setupkvm(), or at a page that is not there. */
  datatype Forked = Child | NoChild | Panic

  /** The first page below e that is missing, or e. */
  ghost function Solid(w: Build, mem: seq<Frame>, dir: Dir, e: nat): (n: nat)
    requires DirOk(w, mem, dir) && e <= UPages(w)
    ensures n <= e && (forall q | 0 <= q < n :: Entry(w, mem, dir, q).present)
    ensures n < e ==> !Entry(w, mem, dir, n).present
  {
    if e == 0 then 0
    else
      var n := Solid(w, mem, dir, e - 1);
      if n == e - 1 && Entry(w, mem, dir, n).present then e else n
  }

  /** copyuvm(), called by the process of space c: a new space d with the same pages, exactly if all are there and
      the frames suffice for setupkvm(), the pages and their tables. With too few for setupkvm() all free frames
      are lost, and in the 64-bit build the first page of c is overwritten. It panics at the first missing page
      if the frames suffice up to there. With too few for that no space has changed; two frames are lost, the
      frame in hand if it was a page table that found none, and the pages copied to 0x3fa00000 and above. */
  method Copyuvm(m: Memory, c: nat, sz: nat, d: nat, junk: Bytes) returns (r: Forked, ghost copied: nat)
    requires m.Valid() && c in m.dirs && d !in m.dirs && sz <= Top(m.w)
    modifies m
    ensures m.Valid() && Pages(sz) <= UPages(m.w) && |m.mem| == |old(m.mem)|
    ensures |old(m.free)| < SetupFrames(m.w) ==>
      var scribbles := m.w.X64? && Entry(m.w, old(m.mem), old(m.dirs)[c], 0).present;
      && r == (if m.w.X64? && !scribbles then Panic else NoChild) && m.dirs == old(m.dirs) && m.free == []
      && Lost(|m.mem|, m.free, m.owner) == old(Lost(|m.mem|, m.free, m.owner)) + Set(old(m.free))
      && AllKeptBut(m.w, old(m.mem), old(m.dirs), m.mem, m.dirs, c, 0)
      && (if scribbles then HasBytes(m.w, m.mem, m.dirs[c], 0, junk)
         else AllKept(m.w, old(m.mem), old(m.dirs), m.mem, m.dirs))
    ensures |old(m.free)| >= SetupFrames(m.w) ==>
      var none, have, e := seq(UDirs(m.w), _ => None), |old(m.free)| - SetupFrames(m.w), Pages(sz);
      var n := Solid(m.w, old(m.mem), old(m.dirs)[c], e);
      && r == (if have < Need(m.w, none, 0, n) then NoChild else if n < e then Panic else Child)
      && AllKept(m.w, old(m.mem), old(m.dirs), m.mem, m.dirs)
      && (r.Child? ==>
            && m.dirs.Keys == old(m.dirs).Keys + {d} && Prefix(m.w, m.mem, m.dirs[d], e)
            && Copies(m.w, m.mem, m.dirs, c, d, e)
            && Lost(|m.mem|, m.free, m.owner) == old(Lost(|m.mem|, m.free, m.owner)))
      && (r.NoChild? ==>
            && m.dirs.Keys == old(m.dirs).Keys && Stops(m.w, none, copied, n, have)
            && |Lost(|m.mem|, m.free, m.owner)| == |old(Lost(|m.mem|, m.free, m.owner))| + 2
                 + (if Loses(m.w, none, 0, n, have) then 1 else 0) + Above(copied))
  {
    hide TablesOwned, PagesOwned, FreeOk, KernOk, Kept, Pages, AllKept, AllKeptBut, Prefix, Copies, Copying, Need,
      Loses;
    hide Lost, Dx, Tx, HasBytes, Stops, Entry, Set, Above, Solid;
    PagesFit(m.w, sz);
    var s := Setupkvm(m, d, c, junk);
    if !s.Made? {
      return (if s.Crash? then Panic else NoChild), 0;
    }
    CopyStarts(m.w, m.mem, m.dirs, m.free, m.owner, c, d, old(m.mem), old(m.dirs));
    assert m.dirs.Keys == old(m.dirs).Keys + {d};
    r, copied := CopyAll(m, c, sz, d, old(m.mem), old(m.dirs));
  }

  /** The loop of copyuvm() over the pages, and its error path. */
  method CopyAll(m: Memory, c: nat, sz: nat, d: nat, ghost mem0: seq<Frame>, ghost dirs0: map<nat, Dir>)
    returns (r: Forked, ghost copied: nat)
    requires m.Valid() && sz <= Top(m.w) && Pages(sz) <= UPages(m.w) && m.dirs.Keys == dirs0.Keys + {d}
    requires Copying(m.w, m.mem, m.dirs, m.free, m.owner, c, d, 0, mem0, dirs0)
    modifies m
    ensures m.Valid() && |m.mem| == |old(m.mem)| && Shape(m.w, mem0, dirs0) && AllKept(m.w, mem0, dirs0, m.mem, m.dirs)
    ensures var n := Solid(m.w, mem0, dirs0[c], Pages(sz));
      && r == (if |old(m.free)| < Need(m.w, old(m.dirs)[d], 0, n) then NoChild
               else if n < Pages(sz) then Panic else Child)
      && (r.NoChild? ==>
            && m.dirs.Keys == dirs0.Keys && Stops(m.w, old(m.dirs)[d], copied, n, |old(m.free)|)
            && |Lost(|m.mem|, m.free, m.owner)| == |old(Lost(|m.mem|, m.free, m.owner))| + 2
                 + (if Loses(m.w, old(m.dirs)[d], 0, n, |old(m.free)|) then 1 else 0) + Above(copied))
    ensures r.Child? ==>
      && m.dirs.Keys == old(m.dirs).Keys && Prefix(m.w, m.mem, m.dirs[d], Pages(sz)) && c in m.dirs
      && Copies(m.w, m.mem, m.dirs, c, d, Pages(sz))
      && Lost(|m.mem|, m.free, m.owner) == old(Lost(|m.mem|, m.free, m.owner))
  {
    hide TablesOwned, PagesOwned, FreeOk, KernOk, Kept, Pages, AllKept, Prefix, Copies, Need, LastNew, Tracks, Loses,
      Short;
    hide Lost, Dx, Tx, Stops, Entry, Above, Solid;
    ghost var w, e, lost0 := m.w, Pages(sz), Lost(|m.mem|, m.free, m.owner);
    ghost var none, have := m.dirs[d], |m.free|;
    ghost var n := Solid(w, mem0, dirs0[c], e);
    hide Copying;
    TracksStart(w, none, 0, n, have);
    var a := 0;
    while a * PGSIZE < sz
      invariant 0 <= a <= n && m.Valid() && m.w == w && m.dirs.Keys == old(m.dirs).Keys && |m.mem| == |old(m.mem)|
      invariant d in m.dirs && c in m.dirs && Copying(w, m.mem, m.dirs, m.free, m.owner, c, d, a, mem0, dirs0)
      invariant Tracks(w, none, 0, m.dirs[d], a, n, have, |m.free|) && Lost(|m.mem|, m.free, m.owner) == lost0
      decreases sz - a * PGSIZE
    {
      BelowEnd(a, sz);
      PageDiv(w, a);
      SourceThere(w, m.mem, m.dirs, m.free, m.owner, c, d, a, mem0, dirs0);
      var pte := Entry(m.w, m.mem, m.dirs[c], a);
      if !pte.present {
        Outcome(w, none, 0, m.dirs[d], n, have, |m.free|, false);
        CopyingEnds(w, m.mem, m.dirs, m.free, m.owner, c, d, a, mem0, dirs0);
        return Panic, a;
      }
      ghost var dir1, free1 := m.dirs[d], m.free;
      var f := m.Kalloc();
      if f.None? {
        Shortage(w, none, 0, dir1, a, n, have, false);
        StopsHere(w, none, dir1, a, n, have);
        Drop(m, d, a, mem0, dirs0, c);
        return NoChild, a;
      }
      CopyingLess(w, m.mem, m.dirs, free1, m.free, m.owner, c, d, a, mem0, dirs0);
      ghost var frames := |m.free|;
      var ok := CopyPage(m, c, d, a, f.value, pte, mem0, dirs0);
      if !ok {
        ShortHere(w, none, 0, dir1, a, n, have);
        StopsShort(w, none, a, n, have);
        Drop(m, d, a, mem0, dirs0, c);
        return NoChild, a;
      }
      TracksMore(w, none, 0, dir1, a, m.dirs[d], n, have, frames + 1, |m.free|);
      a := a + 1;
    }
    PagesEnd(a, sz);
    Outcome(w, none, 0, m.dirs[d], n, have, |m.free|, false);
    CopyingEnds(w, m.mem, m.dirs, m.free, m.owner, c, d, a, mem0, dirs0);
    return Child, a;
  }

  /** Pages from 0x3fa00000 on. */
  function Above(n: nat): nat {
    if n > Pages(FREEVM_TOP) then n - Pages(FREEVM_TOP) else 0
  }

  /** The frames do for n pages and not for one more. */
  ghost predicate Stops(w: Build, dir: Dir, n: nat, e: nat, frames: nat)
    requires |dir| == UDirs(w) && e <= UPages(w)
  {
    n < e && Need(w, dir, 0, n) <= frames < Need(w, dir, 0, n + 1)
  }

  lemma StopsHere(w: Build, none: Dir, dir: Dir, a: nat, e: nat, have: nat)
    requires |none| == UDirs(w) == |dir| && a < e <= UPages(w) && Tracks(w, none, 0, dir, a, e, have, 0)
    ensures Stops(w, none, a, e, have) && have < Need(w, none, 0, e)
  {
    hide Need, LastNew;
    NeedNone(w, dir, a, a);
    NeedGrows(w, none, 0, a, a + 1);
    NeedGrows(w, none, 0, a, e);
  }

  lemma StopsShort(w: Build, none: Dir, a: nat, e: nat, have: nat)
    requires |none| == UDirs(w) && a < e <= UPages(w) && Short(w, none, 0, a + 1, have)
    ensures Stops(w, none, a, e, have) && have < Need(w, none, 0, e) && Loses(w, none, 0, e, have)
  {
    hide Need, LastNew;
    NeedGrows(w, none, 0, a, a + 1);
    NeedGrows(w, none, 0, a + 1, e);
  }

  /** The pages below a have been copied from c to d, and no page of a space in dirs0 has changed. */
  ghost predicate Copying(w: Build, mem: seq<Frame>, dirs: map<nat, Dir>, free: seq<nat>, owner: map<nat, Use>,
      c: nat, d: nat, a: nat, mem0: seq<Frame>, dirs0: map<nat, Dir>) {
    && Good(w, mem, dirs, free, owner) && Shape(w, mem0, dirs0) && c in dirs0 && d !in dirs0 && c in dirs && d in dirs
    && AllKept(w, mem0, dirs0, mem, dirs) && Prefix(w, mem, dirs[d], a) && Copies(w, mem, dirs, c, d, a)
  }

  lemma CopyStarts(w: Build, mem: seq<Frame>, dirs: map<nat, Dir>, free: seq<nat>, owner: map<nat, Use>, c: nat,
      d: nat, mem0: seq<Frame>, dirs0: map<nat, Dir>)
    requires Good(w, mem, dirs, free, owner) && Shape(w, mem0, dirs0) && c in dirs0 && d !in dirs0 && d in dirs
    requires AllKept(w, mem0, dirs0, mem, dirs) && Prefix(w, mem, dirs[d], 0)
    ensures Copying(w, mem, dirs, free, owner, c, d, 0, mem0, dirs0)
  {
    CopiesNone(w, mem, dirs, c, d);
    hide Good, Copies;
  }

  lemma CopyingLess(w: Build, mem: seq<Frame>, dirs: map<nat, Dir>, free0: seq<nat>, free: seq<nat>,
      owner: map<nat, Use>, c: nat, d: nat, a: nat, mem0: seq<Frame>, dirs0: map<nat, Dir>)
    requires Copying(w, mem, dirs, free0, owner, c, d, a, mem0, dirs0) && Good(w, mem, dirs, free, owner)
    ensures Copying(w, mem, dirs, free, owner, c, d, a, mem0, dirs0)
  {
    hide Good, AllKept, Copies, Prefix;
  }

  lemma CopyingEnds(w: Build, mem: seq<Frame>, dirs: map<nat, Dir>, free: seq<nat>, owner: map<nat, Use>, c: nat,
      d: nat, a: nat, mem0: seq<Frame>, dirs0: map<nat, Dir>)
    requires Copying(w, mem, dirs, free, owner, c, d, a, mem0, dirs0)
    ensures Shape(w, mem, dirs) && Shape(w, mem0, dirs0) && AllKept(w, mem0, dirs0, mem, dirs) && c in dirs && d in dirs
    ensures Prefix(w, mem, dirs[d], a) && Copies(w, mem, dirs, c, d, a)
  {
    hide AllKept, Copies, Prefix;
  }

  lemma CopiesNone(w: Build, mem: seq<Frame>, dirs: map<nat, Dir>, c: nat, d: nat)
    requires Shape(w, mem, dirs) && c in dirs && d in dirs
    ensures Copies(w, mem, dirs, c, d, 0)
  { }

  /** Page a of c is as it was, and good to copy if it is there. */
  lemma SourceThere(w: Build, mem: seq<Frame>, dirs: map<nat, Dir>, free: seq<nat>, owner: map<nat, Use>, c: nat,
      d: nat, a: nat, mem0: seq<Frame>, dirs0: map<nat, Dir>)
    requires Copying(w, mem, dirs, free, owner, c, d, a, mem0, dirs0) && a < UPages(w)
    ensures Entry(w, mem, dirs[c], a).present <==> Entry(w, mem0, dirs0[c], a).present
    ensures Entry(w, mem, dirs[c], a).present ==> Source(w, mem, dirs[c], owner, a)
  {
    hide Copies, TablesOwned, FreeOk, Dx, Tx;
    PageDiv(w, a);
    assert SamePage(w, mem0, dirs0[c], mem, dirs[c], a);
    if Entry(w, mem, dirs[c], a).present { assert PageOk(mem, owner, c, a, Entry(w, mem, dirs[c], a).frame); }
  }

  /** The page to copy is there. */
  ghost predicate Source(w: Build, mem: seq<Frame>, dir: Dir, owner: map<nat, Use>, a: nat)
    requires DirOk(w, mem, dir) && a < UPages(w)
  {
    var e := Entry(w, mem, dir, a);
    e.present && e.frame < |mem| && mem[e.frame].Page? && e.frame in owner
  }

  lemma NextMissing(w: Build, mem: seq<Frame>, dir: Dir, a: nat)
    requires DirOk(w, mem, dir) && Prefix(w, mem, dir, a) && a < UPages(w)
    ensures !Entry(w, mem, dir, a).present
  { }

  /** The error path: the half-made space goes away. */
  method Drop(m: Memory, d: nat, ghost a: nat, ghost mem0: seq<Frame>, ghost dirs0: map<nat, Dir>, ghost c: nat)
    requires m.Valid() && a <= UPages(m.w) && Copying(m.w, m.mem, m.dirs, m.free, m.owner, c, d, a, mem0, dirs0)
      && m.dirs.Keys == dirs0.Keys + {d}
    modifies m
    ensures m.Valid() && m.dirs.Keys == dirs0.Keys && |m.mem| == |old(m.mem)|
    ensures Shape(m.w, mem0, dirs0) && AllKept(m.w, mem0, dirs0, m.mem, m.dirs)
    ensures |Lost(|m.mem|, m.free, m.owner)| == |old(Lost(|m.mem|, m.free, m.owner))| + 2 + Above(a)
  {
    CopyingEnds(m.w, m.mem, m.dirs, m.free, m.owner, c, d, a, mem0, dirs0);
    hide TablesOwned, PagesOwned, FreeOk, KernOk, Prefix, AllKept, Copying, Copies, Lost, NotFreed, Without, Above,
      Dx, Tx, Entry;
    ghost var mem1, dirs1, owner1, free1 := m.mem, m.dirs, m.owner, m.free;
    CountNotFreed(m.w, m.mem, m.dirs, m.free, m.owner, m.kern, d, a);
    Freevm(m, d);
    AllKeptWithout(m.w, mem0, dirs0, mem1, dirs1, m.mem, m.dirs, d);
    SameMemory(m.w, mem0, dirs0, m.mem, m.dirs);
    assert dirs0.Keys + {d} - {d} == dirs0.Keys;
  }

  lemma SameMemory(w: Build, mem0: seq<Frame>, dirs0: map<nat, Dir>, mem: seq<Frame>, dirs: map<nat, Dir>)
    requires Shape(w, mem0, dirs0) && Shape(w, mem, dirs) && AllKept(w, mem0, dirs0, mem, dirs)
    ensures |mem| == |mem0|
  { }

  ghost function PagesFrom(owner: map<nat, Use>, d: nat, lo: nat, hi: nat): set<nat> {
    set f | f in owner && owner[f].PageOf? && owner[f].d == d && lo <= owner[f].p < hi
  }

  lemma {:induction false} CountPages(w: Build, mem: seq<Frame>, dirs: map<nat, Dir>, owner: map<nat, Use>, d: nat,
      lo: nat, hi: nat)
    requires Shape(w, mem, dirs) && PagesOwned(w, mem, dirs, owner) && d in dirs && lo <= hi
      && (lo < hi ==> hi <= UPages(w))
    requires forall p | lo <= p < hi :: Entry(w, mem, dirs[d], p).present
    ensures |PagesFrom(owner, d, lo, hi)| == hi - lo
    decreases hi
  {
    hide Entry;
    if lo < hi {
      CountPages(w, mem, dirs, owner, d, lo, hi - 1);
      var f := Entry(w, mem, dirs[d], hi - 1).frame;
      assert PageOk(mem, owner, d, hi - 1, f);
      assert PagesFrom(owner, d, lo, hi) == PagesFrom(owner, d, lo, hi - 1) + {f};
    } else {
      assert PagesFrom(owner, d, lo, hi) == {};
    }
  }

  /** freevm() of a pages loses the two frames of setupkvm() and the pages at 0x3fa00000 and above. */
  lemma CountNotFreed(w: Build, mem: seq<Frame>, dirs: map<nat, Dir>, free: seq<nat>, owner: map<nat, Use>,
      kern: map<nat, seq<nat>>, d: nat, a: nat)
    requires Good(w, mem, dirs, free, owner) && KernOk(w, kern, dirs.Keys, owner) && d in dirs
      && Prefix(w, mem, dirs[d], a) && a <= UPages(w)
    ensures |NotFreed(w, owner, d)| == 2 + Above(a) && NotFreed(w, owner, d) !! Lost(|mem|, free, owner)
  {
    hide Dx, Tx, Pages, TablesOwned, PagesOwned, KernOk, Prefix, Entry;
    var top := Pages(FREEVM_TOP);
    KernHas(w, kern, dirs.Keys, owner, d);
    var ks := kern[d];
    var two := if w.X64? then {ks[0], ks[1]} else {ks[63], ks[64]};
    KernTwo(w, kern, dirs.Keys, owner, d, two);
    var high := PagesFrom(owner, d, top, if a > top then a else top);
    HighPages(w, mem, dirs, owner, d, a, top);
    assert NotFreed(w, owner, d) == two + high;
    assert two !! high;
    hide NotFreed;
  }

  lemma KernTwo(w: Build, kern: map<nat, seq<nat>>, spaces: set<nat>, owner: map<nat, Use>, d: nat, two: set<nat>)
    requires KernOk(w, kern, spaces, owner) && d in spaces && |kern[d]| == SetupFrames(w)
    requires two == if w.X64? then {kern[d][0], kern[d][1]} else {kern[d][63], kern[d][64]}
    ensures |two| == 2
    ensures forall f ::
      f in two <==> f in owner && owner[f].KernOf? && owner[f].d == d && !(KernLo(w) <= owner[f].j < KernHi(w))
  {
    var ks := kern[d];
    var i := if w.X64? then 0 else 63;
    assert owner[ks[i]] == KernOf(d, i) && owner[ks[i + 1]] == KernOf(d, i + 1);
  }

  lemma HighPages(w: Build, mem: seq<Frame>, dirs: map<nat, Dir>, owner: map<nat, Use>, d: nat, a: nat, top: nat)
    requires Shape(w, mem, dirs) && PagesOwned(w, mem, dirs, owner) && d in dirs && Prefix(w, mem, dirs[d], a)
      && a <= UPages(w)
    ensures forall f | f in owner && owner[f].PageOf? && owner[f].d == d :: owner[f].p < a
    ensures |PagesFrom(owner, d, top, if a > top then a else top)| == if a > top then a - top else 0
  {
    hide Entry;
    CountPages(w, mem, dirs, owner, d, top, if a > top then a else top);
  }

  lemma AllKeptWithout(w: Build, mem0: seq<Frame>, dirs0: map<nat, Dir>, mem1: seq<Frame>, dirs1: map<nat, Dir>,
      mem: seq<Frame>, dirs: map<nat, Dir>, d: nat)
    requires Shape(w, mem0, dirs0) && Shape(w, mem1, dirs1) && Shape(w, mem, dirs) && d !in dirs0
      && dirs1.Keys == dirs0.Keys + {d}
    requires AllKept(w, mem0, dirs0, mem1, dirs1) && Shape(w, mem1, dirs1 - {d})
      && AllKept(w, mem1, dirs1 - {d}, mem, dirs)
    ensures AllKept(w, mem0, dirs0, mem, dirs)
  {
    forall e, q | e in dirs0 && 0 <= q < UPages(w) ensures SamePage(w, mem0, dirs0[e], mem, dirs[e], q) {
      assert SamePage(w, mem0, dirs0[e], mem1, dirs1[e], q);
      assert SamePage(w, mem1, (dirs1 - {d})[e], mem, dirs[e], q);
    }
  }

  /** One page: the bytes are copied into the frame, and the frame mapped with the flags of the source. */
  method CopyPage(m: Memory, c: nat, d: nat, a: nat, f: nat, pte: Pte, ghost mem0: seq<Frame>,
      ghost dirs0: map<nat, Dir>) returns (ok: bool)
    requires m.Valid() && a < UPages(m.w) && Copying(m.w, m.mem, m.dirs, m.free, m.owner, c, d, a, mem0, dirs0)
    requires InHand(m.mem, m.free, m.owner, f) && Source(m.w, m.mem, m.dirs[c], m.owner, a)
      && pte == Entry(m.w, m.mem, m.dirs[c], a)
    modifies m`mem, m`free, m`dirs, m`owner
    ensures m.Valid() && m.dirs.Keys == old(m.dirs).Keys && |m.mem| == |old(m.mem)|
    ensures Copying(m.w, m.mem, m.dirs, m.free, m.owner, c, d, if ok then a + 1 else a, mem0, dirs0)
    ensures Dx(m.w, a) < UDirs(m.w) && m.dirs[d] == old(m.dirs)[d][Dx(m.w, a) := m.dirs[d][Dx(m.w, a)]]
    ensures ok <==> !(old(m.dirs)[d][Dx(m.w, a)].None? && old(m.free) == [])
    ensures ok ==>
      m.dirs[d][Dx(m.w, a)].Some? && |m.free| == |old(m.free)| - (if old(m.dirs)[d][Dx(m.w, a)].None? then 1 else 0)
    ensures Lost(|m.mem|, m.free, m.owner) == old(Lost(|m.mem|, m.free, m.owner)) - (if ok then {f} else {})
  {
    hide TablesOwned, PagesOwned, FreeOk, KernOk, Kept, AllKept, Prefix, Copies, Lost, Dx, Tx, Entry;
    PageDiv(m.w, a);
    ghost var memA := m.mem;
    FilledGood(m.w, m.mem, m.dirs, m.free, m.owner, f, m.mem[pte.frame].bytes);
    m.mem := m.mem[f := Page(m.mem[pte.frame].bytes)];
    NoPageWritten(m.w, mem0, dirs0, memA, m.dirs, m.free, m.owner, m.mem, f);
    FilledCopies(m.w, memA, m.dirs, m.free, m.owner, m.mem, c, d, a, f);
    NextMissing(m.w, m.mem, m.dirs[d], a);
    ghost var mem1, dirs1 := m.mem, m.dirs;
    ok := m.MapPage(d, a, f, pte.flags);
    if ok {
      MappedAll(m.w, mem0, dirs0, mem1, dirs1, m.mem, m.dirs, d, a);
      MappedCopies(m.w, mem1, dirs1, m.mem, m.dirs, c, d, a, pte, f);
    }
  }

  lemma FilledCopies(w: Build, mem0: seq<Frame>, dirs: map<nat, Dir>, free: seq<nat>, owner: map<nat, Use>,
      mem: seq<Frame>, c: nat, d: nat, a: nat, f: nat)
    requires Good(w, mem0, dirs, free, owner) && Shape(w, mem, dirs) && c in dirs && d in dirs
      && Copies(w, mem0, dirs, c, d, a) && Prefix(w, mem0, dirs[d], a)
    requires |mem| == |mem0| && (forall x | 0 <= x < |mem0| && x != f :: mem[x] == mem0[x]) && f !in owner
    requires forall e, q | e in dirs && 0 <= q < UPages(w) :: Entry(w, mem, dirs[e], q) == Entry(w, mem0, dirs[e], q)
    ensures Copies(w, mem, dirs, c, d, a) && Prefix(w, mem, dirs[d], a)
  {
    forall q | 0 <= q < a && q < UPages(w) ensures Copied(w, mem, dirs[c], dirs[d], q) {
      assert Copied(w, mem0, dirs[c], dirs[d], q);
      assert PageOk(mem0, owner, c, q, Entry(w, mem0, dirs[c], q).frame)
        && PageOk(mem0, owner, d, q, Entry(w, mem0, dirs[d], q).frame);
    }
  }

  lemma MappedAll(w: Build, mem0: seq<Frame>, dirs0: map<nat, Dir>, mem1: seq<Frame>, dirs1: map<nat, Dir>,
      mem: seq<Frame>, dirs: map<nat, Dir>, d: nat, a: nat)
    requires Shape(w, mem0, dirs0) && Shape(w, mem1, dirs1) && Shape(w, mem, dirs) && d !in dirs0
      && AllKept(w, mem0, dirs0, mem1, dirs1) && Kept(w, mem1, dirs1, mem, dirs, d, a)
    ensures AllKept(w, mem0, dirs0, mem, dirs)
  {
    forall e, q | e in dirs0 && 0 <= q < UPages(w) ensures SamePage(w, mem0, dirs0[e], mem, dirs[e], q) {
      assert SamePage(w, mem0, dirs0[e], mem1, dirs1[e], q) && SamePage(w, mem1, dirs1[e], mem, dirs[e], q);
    }
  }

  lemma MappedCopies(w: Build, mem1: seq<Frame>, dirs1: map<nat, Dir>, mem: seq<Frame>, dirs: map<nat, Dir>, c: nat,
      d: nat, a: nat, pte: Pte, f: nat)
    requires Shape(w, mem1, dirs1) && Shape(w, mem, dirs) && c in dirs1 && d in dirs1 && c != d && a < UPages(w)
      && Kept(w, mem1, dirs1, mem, dirs, d, a)
    requires EntriesBut(w, mem1, dirs1, mem, dirs, d, a) && Copies(w, mem1, dirs1, c, d, a)
      && Prefix(w, mem1, dirs1[d], a)
    requires Entry(w, mem1, dirs1[c], a) == pte && pte.present && pte.frame < |mem1| && f < |mem1| && f != pte.frame
      && mem1[f] == mem1[pte.frame]
    requires Entry(w, mem, dirs[d], a) == Pte(true, f, pte.flags) && f < |mem| && mem[f] == mem1[f]
    ensures Copies(w, mem, dirs, c, d, a + 1) && Prefix(w, mem, dirs[d], a + 1)
  {
    forall q | 0 <= q < a + 1 && q < UPages(w) ensures Copied(w, mem, dirs[c], dirs[d], q) {
      assert SamePage(w, mem1, dirs1[c], mem, dirs[c], q);
      if q < a { assert Copied(w, mem1, dirs1[c], dirs1[d], q) && SamePage(w, mem1, dirs1[d], mem, dirs[d], q); }
    }
  }
}
