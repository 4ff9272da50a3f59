/** kernel/vm.c and kernel/kalloc.c: frames, page tables and who uses which frame. */
module VmSpace {
  import opened Basics

  const PGSIZE: nat := 4096

  /** Entries of a page table: NPTENTRIES. */
  function Npt(w: Build): nat {
    match w
    case X64 => 512
    case X86 => 1024
  }

  /** Entries of a page directory that hold page tables of the user. The 64-bit directory has 512 entries, of
      which setupkvm() uses the last two for pointers back to the upper levels; in the 32-bit directory of 1024
      the upper half is the kernel's. */
  function UDirs(w: Build): nat {
    match w
    case X64 => 510
    case X86 => 512
  }

  function UPages(w: Build): nat {
    match w
    case X64 => 261120
    case X86 => 524288
  }

  /** The first address above the user part: KERNBASE in the 32-bit build. */
  function Top(w: Build): nat {
    match w
    case X64 => 0x3fc0_0000
    case X86 => 0x8000_0000
  }

  /** PDX and PTX of page p: the index into the directory is masked. */
  function Dx(w: Build, p: nat): nat {
    match w
    case X64 => p / 512 % 512
    case X86 => p / 1024 % 1024
  }

  function Tx(w: Build, p: nat): nat {
    match w
    case X64 => p % 512
    case X86 => p % 1024
  }

  /** The walk for page p goes through an entry that holds no page table of the user. */
  predicate Reserved(w: Build, p: nat) {
    Dx(w, p) >= UDirs(w)
  }

  type Byte = bv8
  type Bytes = s: seq<Byte> | |s| == PGSIZE witness seq(PGSIZE, _ => 0)

  datatype Pte = Pte(present: bool, frame: nat, flags: nat)

  const ABSENT := Pte(false, 0, 0)

  /** A frame holds a page of a process or a page table. */
  datatype Frame = Page(bytes: Bytes) | Table(ptes: seq<Pte>)

  /** The user part of a page directory: the frames of the page tables. */
  type Dir = seq<Option<nat>>

  /** What a frame is used for: page table i or page p of address space d, or the j-th frame that setupkvm()
      took for it. */
  datatype Use = TableOf(d: nat, i: nat) | PageOf(d: nat, p: nat) | KernOf(d: nat, j: nat)

  /** PGROUNDUP(sz) / PGSIZE */
  function Pages(sz: nat): (n: nat)
    ensures n * PGSIZE >= sz && forall a: nat :: a * PGSIZE < sz <==> a < n
  {
    (sz + PGSIZE - 1) / PGSIZE
  }

  // ------------------------------------------------- page tables

  ghost predicate DirOk(w: Build, mem: seq<Frame>, dir: Dir) {
    && |dir| == UDirs(w)
    && forall i | 0 <= i < UDirs(w) && dir[i].Some? ::
       dir[i].value < |mem| && mem[dir[i].value].Table? && |mem[dir[i].value].ptes| == Npt(w)
  }

  ghost predicate Shape(w: Build, mem: seq<Frame>, dirs: map<nat, Dir>) {
    forall d | d in dirs :: DirOk(w, mem, dirs[d])
  }

  /** The entry the hardware finds for page p. */
  function Entry(w: Build, mem: seq<Frame>, dir: Dir, p: nat): Pte
    requires DirOk(w, mem, dir) && p < UPages(w)
  {
    PageDiv(w, p);
    if dir[Dx(w, p)].None? then ABSENT else mem[dir[Dx(w, p)].value].ptes[Tx(w, p)]
  }

  /** Every table and page in use is used for one purpose, and every purpose has its frame. */
  ghost predicate TablesOwned(w: Build, mem: seq<Frame>, dirs: map<nat, Dir>, owner: map<nat, Use>)
    requires Shape(w, mem, dirs)
  {
    && (forall d, i | d in dirs && 0 <= i < UDirs(w) && dirs[d][i].Some? ::
       dirs[d][i].value in owner && owner[dirs[d][i].value] == TableOf(d, i))
    && (forall f | f in owner && owner[f].TableOf? ::
       owner[f].d in dirs && owner[f].i < UDirs(w) && dirs[owner[f].d][owner[f].i] == Some(f))
  }

  ghost predicate PagesOwned(w: Build, mem: seq<Frame>, dirs: map<nat, Dir>, owner: map<nat, Use>)
    requires Shape(w, mem, dirs)
  {
    && (forall d, p | d in dirs && 0 <= p < UPages(w) && Entry(w, mem, dirs[d], p).present ::
       PageOk(mem, owner, d, p, Entry(w, mem, dirs[d], p).frame))
    && (forall f | f in owner && owner[f].PageOf? ::
          owner[f].d in dirs && owner[f].p < UPages(w) && Entry(w, mem, dirs[owner[f].d], owner[f].p).present
            && Entry(w, mem, dirs[owner[f].d], owner[f].p).frame == f)
  }

  ghost predicate PageOk(mem: seq<Frame>, owner: map<nat, Use>, d: nat, p: nat, f: nat) {
    f in owner && owner[f] == PageOf(d, p) && f < |mem| && mem[f].Page?
  }

  /** The free list has no duplicates and nothing in use. */
  ghost predicate FreeOk(mem: seq<Frame>, free: seq<nat>, owner: map<nat, Use>) {
    && (forall i | 0 <= i < |free| :: 0 < free[i] < |mem| && free[i] !in owner)
    && (forall i, j | 0 <= i < j < |free| :: free[i] != free[j])
    && (forall f | f in owner :: 0 < f < |mem|)
  }

  ghost predicate Good(w: Build, mem: seq<Frame>, dirs: map<nat, Dir>, free: seq<nat>, owner: map<nat, Use>) {
    Shape(w, mem, dirs) && TablesOwned(w, mem, dirs, owner) && PagesOwned(w, mem, dirs, owner)
      && FreeOk(mem, free, owner)
  }

  /** The pages below n and no others are mapped. */
  ghost predicate Prefix(w: Build, mem: seq<Frame>, dir: Dir, n: nat)
    requires DirOk(w, mem, dir)
  {
    forall p | 0 <= p < UPages(w) :: Entry(w, mem, dir, p).present <==> p < n
  }

  // ------------------------------------------------- what a step changes

  /** All entries but that of page p of space d are as before. */
  ghost predicate EntriesBut(w: Build, mem: seq<Frame>, dirs: map<nat, Dir>, mem': seq<Frame>, dirs': map<nat, Dir>,
      d: nat, p: nat)
    requires Shape(w, mem, dirs) && Shape(w, mem', dirs')
  {
    && dirs'.Keys == dirs.Keys
    && forall e, q | e in dirs && 0 <= q < UPages(w) && !(e == d && q == p) ::
       Entry(w, mem', dirs'[e], q) == Entry(w, mem, dirs[e], q)
  }

  lemma PageDiv(w: Build, p: nat)
    requires p < UPages(w)
    ensures Dx(w, p) < UDirs(w) && Tx(w, p) < Npt(w)
  { }

  lemma SamePlace(w: Build, p: nat, q: nat)
    requires p < UPages(w) && q < UPages(w) && Dx(w, p) == Dx(w, q) && Tx(w, p) == Tx(w, q)
    ensures p == q
  {
    PageIs(w, p);
    PageIs(w, q);
  }

  /** Below the top the mask does nothing. */
  lemma PageIs(w: Build, p: nat)
    requires p < UPages(w)
    ensures p == Dx(w, p) * Npt(w) + Tx(w, p)
  {
    match w
    case X64 => assert p / 512 < 512;
    case X86 => assert p / 1024 < 1024;
  }

  /** The pages just above the user part are reserved. */
  lemma TopReserved(w: Build)
    ensures Reserved(w, UPages(w)) && UPages(w) * PGSIZE == Top(w)
  { }

  function Written(mem: seq<Frame>, t: nat, i: nat, e: Pte): seq<Frame>
    requires t < |mem| && mem[t].Table? && i < |mem[t].ptes|
  {
    mem[t := Table(mem[t].ptes[i := e])]
  }

  /** Writing one entry of a table changes one page of one address space. */
  lemma EntryWritten(w: Build, mem: seq<Frame>, dirs: map<nat, Dir>, owner: map<nat, Use>, d: nat, p: nat, e: Pte)
    requires Shape(w, mem, dirs) && TablesOwned(w, mem, dirs, owner) && d in dirs && p < UPages(w)
      && dirs[d][Dx(w, p)].Some?
    ensures var mem' := Written(mem, dirs[d][Dx(w, p)].value, Tx(w, p), e);
      && Shape(w, mem', dirs) && TablesOwned(w, mem', dirs, owner) && EntriesBut(w, mem, dirs, mem', dirs, d, p)
      && Entry(w, mem', dirs[d], p) == e
      && forall f | 0 <= f < |mem| && mem[f].Page? :: mem'[f] == mem[f]
  {
    var t := dirs[d][Dx(w, p)].value;
    var mem' := Written(mem, t, Tx(w, p), e);
    forall c | c in dirs ensures DirOk(w, mem', dirs[c]) { assert DirOk(w, mem, dirs[c]); }
    forall c, q | c in dirs && 0 <= q < UPages(w) && !(c == d && q == p)
      ensures Entry(w, mem', dirs[c], q) == Entry(w, mem, dirs[c], q)
    {
      PageDiv(w, q);
      if dirs[c][Dx(w, q)] == Some(t) {
        assert owner[t] == TableOf(c, Dx(w, q)) && owner[t] == TableOf(d, Dx(w, p));
        if Tx(w, q) == Tx(w, p) { SamePlace(w, p, q); }
      }
    }
  }

  /** The frames below n that are neither free nor in use: those in hand, and those lost. */
  ghost function Lost(n: nat, free: seq<nat>, owner: map<nat, Use>): set<nat> {
    set f | 0 < f < n && f !in owner && f !in free
  }

  lemma LostTaken(mem: seq<Frame>, free: seq<nat>, owner: map<nat, Use>)
    requires FreeOk(mem, free, owner) && free != []
    ensures free[0] !in Lost(|mem|, free, owner)
    ensures Lost(|mem|, free[1..], owner) == Lost(|mem|, free, owner) + {free[0]}
  {
    assert free == [free[0]] + free[1..];
    assert free[0] !in free[1..];
  }

  lemma LostReturned(n: nat, free: seq<nat>, owner: map<nat, Use>, m: nat)
    requires m in Lost(n, free, owner)
    ensures Lost(n, [m] + free, owner) == Lost(n, free, owner) - {m}
  { }

  lemma LostUsed(n: nat, free: seq<nat>, owner: map<nat, Use>, m: nat, u: Use)
    requires m in Lost(n, free, owner)
    ensures Lost(n, free, owner[m := u]) == Lost(n, free, owner) - {m}
  { }

  lemma LostDropped(n: nat, free: seq<nat>, owner: map<nat, Use>, m: nat)
    requires m in owner && 0 < m < n && m !in free
    ensures Lost(n, free, owner - {m}) == Lost(n, free, owner) + {m}
  { }

  /** The frames setupkvm() has taken for each address space. */
  ghost predicate KernOk(w: Build, kern: map<nat, seq<nat>>, spaces: set<nat>, owner: map<nat, Use>) {
    && kern.Keys == spaces
    && (forall d | d in kern :: |kern[d]| == SetupFrames(w))
    && (forall d, j | d in kern && 0 <= j < |kern[d]| :: kern[d][j] in owner && owner[kern[d][j]] == KernOf(d, j))
    && (forall f | f in owner && owner[f].KernOf? ::
       owner[f].d in kern && owner[f].j < |kern[owner[f].d]| && kern[owner[f].d][owner[f].j] == f)
  }

  /** Three upper levels in the 64-bit build; the directory, 56 tables for memory up to PHYSTOP and 8 for the
      devices in the 32-bit build. */
  function SetupFrames(w: Build): nat {
    match w
    case X64 => 3
    case X86 => 65
  }

  lemma KernPlus(w: Build, kern: map<nat, seq<nat>>, spaces: set<nat>, owner: map<nat, Use>, m: nat, u: Use)
    requires KernOk(w, kern, spaces, owner) && m !in owner && !u.KernOf?
    ensures KernOk(w, kern, spaces, owner[m := u])
  { }

  lemma KernMinus(w: Build, kern: map<nat, seq<nat>>, spaces: set<nat>, owner: map<nat, Use>, m: nat)
    requires KernOk(w, kern, spaces, owner) && m in owner && !owner[m].KernOf?
    ensures KernOk(w, kern, spaces, owner - {m})
  { }

  /** A frame that is neither free nor in use. */
  ghost predicate InHand(mem: seq<Frame>, free: seq<nat>, owner: map<nat, Use>, m: nat) {
    0 < m < |mem| && m !in owner && m !in free
  }

  lemma PagesGain(w: Build, mem: seq<Frame>, dirs: map<nat, Dir>, mem': seq<Frame>, owner: map<nat, Use>, d: nat,
      p: nat, m: nat)
    requires Shape(w, mem, dirs) && Shape(w, mem', dirs) && PagesOwned(w, mem, dirs, owner)
      && EntriesBut(w, mem, dirs, mem', dirs, d, p) && d in dirs && p < UPages(w)
    requires |mem'| == |mem| && forall f | 0 <= f < |mem| && mem[f].Page? :: mem'[f] == mem[f]
    requires !Entry(w, mem, dirs[d], p).present && Entry(w, mem', dirs[d], p).present
      && Entry(w, mem', dirs[d], p).frame == m
    requires m < |mem| && m !in owner && mem[m].Page?
    ensures PagesOwned(w, mem', dirs, owner[m := PageOf(d, p)])
  {
    var owner' := owner[m := PageOf(d, p)];
    forall e, q | e in dirs && 0 <= q < UPages(w) && Entry(w, mem', dirs[e], q).present
      ensures PageOk(mem', owner', e, q, Entry(w, mem', dirs[e], q).frame)
    {
      if !(e == d && q == p) { assert PageOk(mem, owner, e, q, Entry(w, mem, dirs[e], q).frame); }
    }
  }

  lemma PagesLose(w: Build, mem: seq<Frame>, dirs: map<nat, Dir>, mem': seq<Frame>, owner: map<nat, Use>, d: nat,
      p: nat, m: nat)
    requires Shape(w, mem, dirs) && Shape(w, mem', dirs) && PagesOwned(w, mem, dirs, owner)
      && EntriesBut(w, mem, dirs, mem', dirs, d, p) && d in dirs && p < UPages(w)
    requires |mem'| == |mem| && forall f | 0 <= f < |mem| && mem[f].Page? && f != m :: mem'[f] == mem[f]
    requires Entry(w, mem, dirs[d], p).present && Entry(w, mem, dirs[d], p).frame == m
      && !Entry(w, mem', dirs[d], p).present
    ensures m in owner && owner[m] == PageOf(d, p) && PagesOwned(w, mem', dirs, owner - {m})
  {
    assert PageOk(mem, owner, d, p, m);
    forall e, q | e in dirs && 0 <= q < UPages(w) && Entry(w, mem', dirs[e], q).present
      ensures PageOk(mem', owner - {m}, e, q, Entry(w, mem', dirs[e], q).frame)
    {
      assert PageOk(mem, owner, e, q, Entry(w, mem, dirs[e], q).frame);
    }
  }

  /** Frames that are not tables can be written without touching any entry. */
  lemma PageWritten(w: Build, mem: seq<Frame>, dirs: map<nat, Dir>, owner: map<nat, Use>, m: nat, b: Bytes)
    requires Shape(w, mem, dirs) && TablesOwned(w, mem, dirs, owner) && m < |mem| && (m in owner ==> owner[m].PageOf?)
    ensures var mem' := mem[m := Page(b)];
      Shape(w, mem', dirs) && TablesOwned(w, mem', dirs, owner) && forall e, q | e in dirs && 0 <= q < UPages(w) ::
        Entry(w, mem', dirs[e], q) == Entry(w, mem, dirs[e], q)
  {
    var mem' := mem[m := Page(b)];
    forall c | c in dirs ensures DirOk(w, mem', dirs[c]) { assert DirOk(w, mem, dirs[c]); }
    forall e, q | e in dirs && 0 <= q < UPages(w)
      ensures Entry(w, mem', dirs[e], q) == Entry(w, mem, dirs[e], q) { PageDiv(w, q); }
  }

  lemma PagesSame(w: Build, mem: seq<Frame>, dirs: map<nat, Dir>, mem': seq<Frame>, dirs': map<nat, Dir>,
      owner: map<nat, Use>, owner': map<nat, Use>)
    requires Shape(w, mem, dirs) && Shape(w, mem', dirs') && PagesOwned(w, mem, dirs, owner)
      && dirs'.Keys == dirs.Keys && |mem'| == |mem|
    requires forall e, q | e in dirs && 0 <= q < UPages(w) :: Entry(w, mem', dirs'[e], q) == Entry(w, mem, dirs[e], q)
    requires forall f | 0 <= f < |mem| && mem[f].Page? && f in owner :: mem'[f].Page?
    requires forall f :: f in owner && owner[f].PageOf? <==> f in owner' && owner'[f].PageOf?
    requires forall f | f in owner && owner[f].PageOf? :: owner'[f] == owner[f]
    ensures PagesOwned(w, mem', dirs', owner')
  {
    forall e, q | e in dirs' && 0 <= q < UPages(w) && Entry(w, mem', dirs'[e], q).present
      ensures PageOk(mem', owner', e, q, Entry(w, mem', dirs'[e], q).frame)
    {
      assert PageOk(mem, owner, e, q, Entry(w, mem, dirs[e], q).frame);
    }
  }

  /** kalloc() takes a frame in hand. */
  lemma Taken(w: Build, mem: seq<Frame>, dirs: map<nat, Dir>, free: seq<nat>, owner: map<nat, Use>)
    requires Good(w, mem, dirs, free, owner) && free != []
    ensures Good(w, mem, dirs, free[1..], owner) && InHand(mem, free[1..], owner, free[0])
  { }

  /** kfree() puts a frame in hand on the list; its contents are lost. */
  lemma Returned(w: Build, mem: seq<Frame>, dirs: map<nat, Dir>, free: seq<nat>, owner: map<nat, Use>, m: nat,
      junk: Bytes)
    requires Good(w, mem, dirs, free, owner) && InHand(mem, free, owner, m)
    ensures Good(w, mem[m := Page(junk)], dirs, [m] + free, owner)
    ensures forall e, q | e in dirs && 0 <= q < UPages(w) ::
      Entry(w, mem[m := Page(junk)], dirs[e], q) == Entry(w, mem, dirs[e], q)
  {
    FilledGood(w, mem, dirs, free, owner, m, junk);
    assert forall i | 0 <= i < |free| :: free[i] != m;
  }

  lemma FilledGood(w: Build, mem: seq<Frame>, dirs: map<nat, Dir>, free: seq<nat>, owner: map<nat, Use>, m: nat,
      b: Bytes)
    requires Good(w, mem, dirs, free, owner) && m < |mem| && (m in owner ==> owner[m].PageOf?)
    ensures Good(w, mem[m := Page(b)], dirs, free, owner)
    ensures forall e, q | e in dirs && 0 <= q < UPages(w) ::
      Entry(w, mem[m := Page(b)], dirs[e], q) == Entry(w, mem, dirs[e], q)
  {
    PageWritten(w, mem, dirs, owner, m, b);
    hide TablesOwned;
    PagesSame(w, mem, dirs, mem[m := Page(b)], dirs, owner, owner);
  }

  /** Mapping a frame in hand. */
  lemma Mapped(w: Build, mem: seq<Frame>, dirs: map<nat, Dir>, free: seq<nat>, owner: map<nat, Use>, d: nat, p: nat,
      m: nat, flags: nat)
    requires Good(w, mem, dirs, free, owner) && d in dirs && p < UPages(w) && InHand(mem, free, owner, m)
      && mem[m].Page?
    requires dirs[d][Dx(w, p)].Some? && !Entry(w, mem, dirs[d], p).present
    ensures var mem' := Written(mem, dirs[d][Dx(w, p)].value, Tx(w, p), Pte(true, m, flags));
      && Good(w, mem', dirs, free, owner[m := PageOf(d, p)]) && EntriesBut(w, mem, dirs, mem', dirs, d, p)
      && Entry(w, mem', dirs[d], p) == Pte(true, m, flags)
      && forall f | 0 <= f < |mem| && mem[f].Page? :: mem'[f] == mem[f]
  {
    var mem' := Written(mem, dirs[d][Dx(w, p)].value, Tx(w, p), Pte(true, m, flags));
    EntryWritten(w, mem, dirs, owner, d, p, Pte(true, m, flags));
    PagesGain(w, mem, dirs, mem', owner, d, p, m);
    hide PagesOwned;
    assert TablesOwned(w, mem', dirs, owner[m := PageOf(d, p)]);
  }

  /** Unmapping a page leaves its frame in hand. */
  lemma Unmapped(w: Build, mem: seq<Frame>, dirs: map<nat, Dir>, free: seq<nat>, owner: map<nat, Use>, d: nat, p: nat)
    requires Good(w, mem, dirs, free, owner) && d in dirs && p < UPages(w) && Entry(w, mem, dirs[d], p).present
    ensures var m := Entry(w, mem, dirs[d], p).frame;
      && dirs[d][Dx(w, p)].Some? && m in owner && owner[m] == PageOf(d, p)
      && var mem' := Written(mem, dirs[d][Dx(w, p)].value, Tx(w, p), ABSENT);
      && Good(w, mem', dirs, free, owner - {m}) && InHand(mem', free, owner - {m}, m)
      && EntriesBut(w, mem, dirs, mem', dirs, d, p) && Entry(w, mem', dirs[d], p) == ABSENT
      && forall f | 0 <= f < |mem| && mem[f].Page? :: mem'[f] == mem[f]
  {
    var m := Entry(w, mem, dirs[d], p).frame;
    PageDiv(w, p);
    var mem' := Written(mem, dirs[d][Dx(w, p)].value, Tx(w, p), ABSENT);
    EntryWritten(w, mem, dirs, owner, d, p, ABSENT);
    assert PageOk(mem, owner, d, p, m);
    PagesLose(w, mem, dirs, mem', owner, d, p, m);
    hide PagesOwned;
    assert TablesOwned(w, mem', dirs, owner - {m});
  }

  function EmptyTable(w: Build): Frame {
    Table(seq(Npt(w), _ => ABSENT))
  }

  /** A frame in hand becomes page table i of space d. */
  lemma TableAdded(w: Build, mem: seq<Frame>, dirs: map<nat, Dir>, free: seq<nat>, owner: map<nat, Use>, d: nat,
      i: nat, m: nat)
    requires Good(w, mem, dirs, free, owner) && d in dirs && i < UDirs(w) && dirs[d][i].None?
      && InHand(mem, free, owner, m)
    ensures var mem', dirs' := mem[m := EmptyTable(w)], dirs[d := dirs[d][i := Some(m)]];
      && Good(w, mem', dirs', free, owner[m := TableOf(d, i)])
      && (forall e, q | e in dirs && 0 <= q < UPages(w) :: Entry(w, mem', dirs'[e], q) == Entry(w, mem, dirs[e], q))
  {
    var mem', dirs' := mem[m := EmptyTable(w)], dirs[d := dirs[d][i := Some(m)]];
    TableShape(w, mem, dirs, owner, d, i, m);
    PagesSame(w, mem, dirs, mem', dirs', owner, owner[m := TableOf(d, i)]);
  }

  lemma TableShape(w: Build, mem: seq<Frame>, dirs: map<nat, Dir>, owner: map<nat, Use>, d: nat, i: nat, m: nat)
    requires Shape(w, mem, dirs) && TablesOwned(w, mem, dirs, owner) && d in dirs && i < UDirs(w) && dirs[d][i].None?
      && m < |mem| && m !in owner
    ensures var mem', dirs' := mem[m := EmptyTable(w)], dirs[d := dirs[d][i := Some(m)]];
      && Shape(w, mem', dirs') && TablesOwned(w, mem', dirs', owner[m := TableOf(d, i)])
      && (forall e, q | e in dirs && 0 <= q < UPages(w) :: Entry(w, mem', dirs'[e], q) == Entry(w, mem, dirs[e], q))
  {
    var mem', dirs' := mem[m := EmptyTable(w)], dirs[d := dirs[d][i := Some(m)]];
    forall c | c in dirs' ensures DirOk(w, mem', dirs'[c]) { assert DirOk(w, mem, dirs[c]); }
    forall e, q | e in dirs && 0 <= q < UPages(w)
      ensures Entry(w, mem', dirs'[e], q) == Entry(w, mem, dirs[e], q) { PageDiv(w, q); }
  }
}
