/** kernel/vm.c: growing, shrinking and copying the user part of an address space. */
module Vm {
  import opened Basics
  import opened VmSpace

  const PTE_W: nat := 2
  const PTE_U: nat := 4

  /** Space d maps the pages below n; every other space and every page below keep is as before. */
  ghost predicate Kept(w: Build, mem0: seq<Frame>, dirs0: map<nat, Dir>, mem: seq<Frame>, dirs: map<nat, Dir>, d: nat,
      keep: nat)
    requires Shape(w, mem0, dirs0) && Shape(w, mem, dirs)
  {
    && dirs.Keys == dirs0.Keys && |mem| == |mem0|
    && (forall e, q | e in dirs0 && 0 <= q < UPages(w) && (e != d || q < keep) ::
       SamePage(w, mem0, dirs0[e], mem, dirs[e], q))
  }

  /** The same entry, and the same bytes if it is present. */
  ghost predicate SamePage(w: Build, mem0: seq<Frame>, dir0: Dir, mem: seq<Frame>, dir: Dir, q: nat)
    requires DirOk(w, mem0, dir0) && DirOk(w, mem, dir) && q < UPages(w)
  {
    && Entry(w, mem, dir, q) == Entry(w, mem0, dir0, q)
    && (Entry(w, mem, dir, q).present ==>
       Entry(w, mem, dir, q).frame < |mem| && Entry(w, mem, dir, q).frame < |mem0|
       && mem[Entry(w, mem, dir, q).frame] == mem0[Entry(w, mem, dir, q).frame])
  }

  lemma KeptRefl(w: Build, mem: seq<Frame>, dirs: map<nat, Dir>, free: seq<nat>, owner: map<nat, Use>, d: nat,
      keep: nat)
    requires Good(w, mem, dirs, free, owner)
    ensures Kept(w, mem, dirs, mem, dirs, d, keep)
  {
    forall e, q | e in dirs && 0 <= q < UPages(w) ensures SamePage(w, mem, dirs[e], mem, dirs[e], q) {
      if Entry(w, mem, dirs[e], q).present { assert PageOk(mem, owner, e, q, Entry(w, mem, dirs[e], q).frame); }
    }
  }

  lemma KeptTwice(w: Build, mem0: seq<Frame>, dirs0: map<nat, Dir>, mem1: seq<Frame>, dirs1: map<nat, Dir>,
      mem: seq<Frame>, dirs: map<nat, Dir>, d: nat, keep: nat)
    requires Shape(w, mem0, dirs0) && Shape(w, mem1, dirs1) && Shape(w, mem, dirs)
      && Kept(w, mem0, dirs0, mem1, dirs1, d, keep) && Kept(w, mem1, dirs1, mem, dirs, d, keep)
    ensures Kept(w, mem0, dirs0, mem, dirs, d, keep)
  {
    forall e, q | e in dirs0 && 0 <= q < UPages(w) && (e != d || q < keep)
      ensures SamePage(w, mem0, dirs0[e], mem, dirs[e], q)
    {
      assert SamePage(w, mem0, dirs0[e], mem1, dirs1[e], q) && SamePage(w, mem1, dirs1[e], mem, dirs[e], q);
    }
  }

  /** One entry changes, and frames of no other page are written. */
  lemma KeptBut(w: Build, mem0: seq<Frame>, dirs0: map<nat, Dir>, free0: seq<nat>, owner0: map<nat, Use>,
      mem: seq<Frame>, dirs: map<nat, Dir>, d: nat, p: nat, m: nat, keep: nat)
    requires Good(w, mem0, dirs0, free0, owner0) && Shape(w, mem, dirs) && EntriesBut(w, mem0, dirs0, mem, dirs, d, p)
      && keep <= p && |mem| == |mem0|
    requires forall f | 0 <= f < |mem0| && mem0[f].Page? && f != m :: mem[f] == mem0[f]
    requires m in owner0 ==> owner0[m] == PageOf(d, p)
    ensures Kept(w, mem0, dirs0, mem, dirs, d, keep)
  {
    forall e, q | e in dirs0 && 0 <= q < UPages(w) && (e != d || q < keep)
      ensures SamePage(w, mem0, dirs0[e], mem, dirs[e], q)
    {
      if Entry(w, mem0, dirs0[e], q).present { assert PageOk(mem0, owner0, e, q, Entry(w, mem0, dirs0[e], q).frame); }
    }
  }

  /** Every page but those of d in gone is as before. */
  ghost predicate KeptBar(w: Build, mem0: seq<Frame>, dirs0: map<nat, Dir>, mem: seq<Frame>, dirs: map<nat, Dir>,
      d: nat, gone: set<nat>)
    requires Shape(w, mem0, dirs0) && Shape(w, mem, dirs)
  {
    && dirs.Keys == dirs0.Keys && |mem| == |mem0|
    && (forall e, q {:trigger SamePage(w, mem0, dirs0[e], mem, dirs[e], q)}
          | e in dirs0 && 0 <= q < UPages(w) && !(e == d && q in gone) :: SamePage(w, mem0, dirs0[e], mem, dirs[e], q))
  }

  lemma BarNone(w: Build, mem: seq<Frame>, dirs: map<nat, Dir>, free: seq<nat>, owner: map<nat, Use>, d: nat)
    requires Good(w, mem, dirs, free, owner)
    ensures KeptBar(w, mem, dirs, mem, dirs, d, {})
  {
    forall e, q | e in dirs && 0 <= q < UPages(w) ensures SamePage(w, mem, dirs[e], mem, dirs[e], q) {
      if Entry(w, mem, dirs[e], q).present { assert PageOk(mem, owner, e, q, Entry(w, mem, dirs[e], q).frame); }
    }
  }

  lemma BarOne(w: Build, mem0: seq<Frame>, dirs0: map<nat, Dir>, free0: seq<nat>, owner0: map<nat, Use>,
      mem: seq<Frame>, dirs: map<nat, Dir>, d: nat, p: nat, m: nat)
    requires Good(w, mem0, dirs0, free0, owner0) && Shape(w, mem, dirs) && EntriesBut(w, mem0, dirs0, mem, dirs, d, p)
      && |mem| == |mem0|
    requires forall f | 0 <= f < |mem0| && mem0[f].Page? && f != m :: mem[f] == mem0[f]
    requires m in owner0 ==> owner0[m] == PageOf(d, p)
    ensures KeptBar(w, mem0, dirs0, mem, dirs, d, {p})
  {
    forall e, q | e in dirs0 && 0 <= q < UPages(w) && !(e == d && q in {p})
      ensures SamePage(w, mem0, dirs0[e], mem, dirs[e], q)
    {
      if Entry(w, mem0, dirs0[e], q).present { assert PageOk(mem0, owner0, e, q, Entry(w, mem0, dirs0[e], q).frame); }
    }
  }

  lemma BarKept(w: Build, mem0: seq<Frame>, dirs0: map<nat, Dir>, mem: seq<Frame>, dirs: map<nat, Dir>, d: nat,
      gone: set<nat>, keep: nat)
    requires Shape(w, mem0, dirs0) && Shape(w, mem, dirs) && KeptBar(w, mem0, dirs0, mem, dirs, d, gone)
    requires forall q | q in gone :: keep <= q
    ensures Kept(w, mem0, dirs0, mem, dirs, d, keep)
  {
    forall e, q | e in dirs0 && 0 <= q < UPages(w) && (e != d || q < keep)
      ensures SamePage(w, mem0, dirs0[e], mem, dirs[e], q) { }
  }

  /** No entry changes, and m, the one frame written, is no page of anybody. */
  lemma KeptAll(w: Build, mem0: seq<Frame>, dirs0: map<nat, Dir>, free0: seq<nat>, owner0: map<nat, Use>,
      mem: seq<Frame>, dirs: map<nat, Dir>, d: nat, m: nat, keep: nat)
    requires Good(w, mem0, dirs0, free0, owner0) && Shape(w, mem, dirs) && dirs.Keys == dirs0.Keys && |mem| == |mem0|
    requires forall e, q | e in dirs0 && 0 <= q < UPages(w) :: Entry(w, mem, dirs[e], q) == Entry(w, mem0, dirs0[e], q)
    requires (forall f | 0 <= f < |mem0| && f != m :: mem[f] == mem0[f]) && m !in owner0
    ensures Kept(w, mem0, dirs0, mem, dirs, d, keep)
  {
    forall e, q | e in dirs0 && 0 <= q < UPages(w) ensures SamePage(w, mem0, dirs0[e], mem, dirs[e], q) {
      if Entry(w, mem0, dirs0[e], q).present { assert PageOk(mem0, owner0, e, q, Entry(w, mem0, dirs0[e], q).frame); }
    }
  }

  class Memory {
    const w: Build
    var mem: seq<Frame>
    var free: seq<nat>
    var dirs: map<nat, Dir>
    var kern: map<nat, seq<nat>>
    ghost var owner: map<nat, Use>

    ghost predicate Valid()
      reads this
    {
      Good(w, mem, dirs, free, owner) && KernOk(w, kern, dirs.Keys, owner)
    }

    /** kalloc() */
    method Kalloc() returns (r: Option<nat>)
      requires Valid()
      modifies this`free
      ensures Valid() && (r.None? <==> old(free) == [])
      ensures r.None? ==> free == old(free)
      ensures r.Some? ==> r.value == old(free)[0] && free == old(free)[1..] && InHand(mem, free, owner, r.value)
      ensures r.Some? ==>
        r.value !in Lost(|mem|, old(free), owner)
        && Lost(|mem|, free, owner) == Lost(|mem|, old(free), owner) + {r.value}
    {
      hide KernOk;
      if free == [] { return None; }
      LostTaken(mem, free, owner);
      Taken(w, mem, dirs, free, owner);
      r := Some(free[0]);
      free := free[1..];
    }

    /** kfree(): the frame is filled with junk and goes to the front of the list. */
    method Kfree(m: nat, junk: Bytes)
      requires Valid() && InHand(mem, free, owner, m)
      modifies this`mem, this`free
      ensures Valid() && mem == old(mem)[m := Page(junk)] && free == [m] + old(free)
      ensures Lost(|mem|, free, owner) == Lost(|mem|, old(free), owner) - {m}
      ensures forall e, q | e in dirs && 0 <= q < UPages(w) ::
        Entry(w, mem, dirs[e], q) == Entry(w, old(mem), dirs[e], q)
    {
      hide KernOk;
      LostReturned(|mem|, free, owner, m);
      Returned(w, mem, dirs, free, owner, m, junk);
      mem := mem[m := Page(junk)];
      free := [m] + free;
    }

    /** walkpgdir() with alloc set: the table for page p, made if it is missing and a frame is left. */
    method Walkpgdir(d: nat, p: nat) returns (t: Option<nat>)
      requires Valid() && d in dirs && p < UPages(w)
      modifies this`mem, this`free, this`dirs, this`owner
      ensures Valid() && dirs.Keys == old(dirs).Keys && |mem| == |old(mem)|
        && Lost(|mem|, free, owner) == old(Lost(|mem|, free, owner))
      ensures forall e, q | e in dirs && 0 <= q < UPages(w) ::
        Entry(w, mem, dirs[e], q) == Entry(w, old(mem), old(dirs)[e], q)
      ensures t.Some? ==> dirs[d][Dx(w, p)] == t
      ensures t.None? <==> old(dirs)[d][Dx(w, p)].None? && old(free) == []
      ensures t.None? ==> free == old(free) && dirs == old(dirs) && mem == old(mem) && owner == old(owner)
      ensures old(dirs)[d][Dx(w, p)].Some? ==>
        mem == old(mem) && dirs == old(dirs) && free == old(free) && owner == old(owner)
      ensures old(dirs)[d][Dx(w, p)].None? && t.Some? ==>
        && t.value == old(free)[0] && free == old(free)[1..] && mem == old(mem)[t.value := EmptyTable(w)]
        && t.value !in old(owner)
        && dirs == old(dirs)[d := old(dirs)[d][Dx(w, p) := t]] && owner == old(owner)[t.value := TableOf(d, Dx(w, p))]
    {
      hide KernOk;
      PageDiv(w, p);
      var i := Dx(w, p);
      if dirs[d][i].Some? {
        t := dirs[d][i];
      } else {
        t := Kalloc();
        if t.Some? {
          TableAdded(w, mem, dirs, free, owner, d, i, t.value);
          KernPlus(w, kern, dirs.Keys, owner, t.value, TableOf(d, i));
          LostUsed(|mem|, free, owner, t.value, TableOf(d, i));
          mem := mem[t.value := EmptyTable(w)];
          dirs := dirs[d := dirs[d][i := t]];
          assert dirs.Keys == old(dirs).Keys;
          owner := owner[t.value := TableOf(d, i)];
        }
      }
    }

    /** One turn of mappages(). Without a frame for a missing table it fails and changes nothing. */
    method MapPage(d: nat, p: nat, m: nat, flags: nat) returns (ok: bool)
      requires Valid() && d in dirs && p < UPages(w) && InHand(mem, free, owner, m) && mem[m].Page?
        && !Entry(w, mem, dirs[d], p).present
      modifies this`mem, this`free, this`dirs, this`owner
      ensures Valid() && (ok <==> !(old(dirs)[d][Dx(w, p)].None? && old(free) == []))
      ensures ok ==> Lost(|mem|, free, owner) == old(Lost(|mem|, free, owner)) - {m}
      ensures !ok ==> mem == old(mem) && free == old(free) && dirs == old(dirs) && owner == old(owner)
      ensures ok ==>
        && EntriesBut(w, old(mem), old(dirs), mem, dirs, d, p) && Entry(w, mem, dirs[d], p) == Pte(true, m, flags)
        && Kept(w, old(mem), old(dirs), mem, dirs, d, p) && |mem| == |old(mem)| && mem[m] == old(mem)[m]
        && m in owner && owner[m] == PageOf(d, p)
        && (forall f | f in old(owner) :: f in owner && owner[f] == old(owner)[f])
        && dirs == old(dirs)[d := old(dirs)[d][Dx(w, p) := dirs[d][Dx(w, p)]]] && dirs[d][Dx(w, p)].Some?
        && free == (if old(dirs)[d][Dx(w, p)].None? then old(free)[1..] else old(free))
        && (forall f | f in old(Lost(|mem|, free, owner)) && old(mem)[f].Page? :: mem[f] == old(mem)[f])
    {
      hide TablesOwned, PagesOwned, FreeOk, KernOk;
      PageDiv(w, p);
      var t := Walkpgdir(d, p);
      if t.None? { return false; }
      ghost var mem1, dirs1, owner1 := mem, dirs, owner;
      StillInHand(w, old(mem), old(free), old(owner), mem, free, owner, m, d, Dx(w, p), old(dirs)[d][Dx(w, p)].None?);
      Mapped(w, mem, dirs, free, owner, d, p, m, flags);
      mem := Written(mem, t.value, Tx(w, p), Pte(true, m, flags));
      KernPlus(w, kern, dirs.Keys, owner, m, PageOf(d, p));
      LostUsed(|mem|, free, owner, m, PageOf(d, p));
      owner := owner[m := PageOf(d, p)];
      MappedKept(w, old(mem), old(dirs), old(free), old(owner), mem1, dirs1, free, owner1, mem, d, p, m, t.value);
      assert old(dirs)[d][Dx(w, p) := t][Dx(w, p) := t] == old(dirs)[d][Dx(w, p) := t];
      assert dirs[d] == old(dirs)[d][Dx(w, p) := t];
      ok := true;
    }

    /** mappages(): the pages from va up to va + size get the frames from m on, up to the first that is mapped
        already, where it panics, or for which there is neither a table nor a frame for one. */
    method Mappages(d: nat, va: nat, size: nat, m: nat, flags: nat) returns (r: Mapping, ghost k: nat)
      requires Valid() && d in dirs && size > 0 && LastPage(va, size) < UPages(w)
      requires forall f | m <= f <= m + LastPage(va, size) - va / PGSIZE :: Spare(mem, free, owner, f)
      modifies this`mem, this`free, this`dirs, this`owner
      ensures Valid() && |mem| == |old(mem)|
      ensures |free| <= |old(free)| && free == old(free)[|old(free)| - |free|..]
      ensures MappedTo(w, old(mem), old(dirs), mem, dirs, d, va / PGSIZE, m, k, flags)
      ensures Lost(|mem|, free, owner) == old(Lost(|mem|, free, owner)) - Span(m, k)
      ensures var p, n := va / PGSIZE, LastPage(va, size) - va / PGSIZE + 1;
        k <= n && (r.AllMapped? <==> k == n)
        && (k < n ==> Stopped(w, old(mem), old(dirs)[d], dirs[d], free, r, p + k))
    {
      hide TablesOwned, PagesOwned, FreeOk, KernOk, Kept, Lost, Dx, Tx, Entry, EntriesBut, MappedTo, Spare;
      PagesInOrder(va, size);
      var a, last, f := va / PGSIZE, LastPage(va, size), m;
      ghost var p := a;
      k := 0;
      MappedNone(w, mem, dirs, |mem|, free, owner, d, a, m, flags);
      while true
        invariant k == a - p == f - m && a <= last && Valid() && |mem| == |old(mem)| && d in dirs
        invariant |free| <= |old(free)| && free == old(free)[|old(free)| - |free|..]
        invariant MappedTo(w, old(mem), old(dirs), mem, dirs, d, p, m, k, flags)
        invariant Lost(|mem|, free, owner) == old(Lost(|mem|, free, owner)) - Span(m, k)
        invariant forall g | f <= g <= f + last - a :: Spare(mem, free, owner, g)
        decreases last - a
      {
        MappedNext(w, old(mem), old(dirs), mem, dirs, d, p, m, k, flags);
        if Entry(w, mem, dirs[d], a).present { return Remap, k; }
        ghost var mem1, dirs1, free1, owner1 := mem, dirs, free, owner;
        SpareIs(mem, free, owner, f);
        var ok := MapPage(d, a, f, flags);
        if !ok {
          PageDiv(w, a);
          return NoTable, k;
        }
        MappedMore(w, old(mem), old(dirs), mem1, dirs1, mem, dirs, d, p, m, k, flags);
        k := k + 1;
        assert Lost(|mem|, free, owner) == old(Lost(|mem|, free, owner)) - Span(m, k);
        if a == last { return AllMapped, k; }
        forall g | f < g <= f + last - a ensures Spare(mem, free, owner, g) {
          SpareStill(mem1, free1, owner1, mem, free, owner, f, g);
        }
        a, f := a + 1, f + 1;
      }
    }

    /** The loop body of deallocuvm() for a page that is mapped. */
    method Unmap(d: nat, p: nat)
      requires Valid() && d in dirs && p < UPages(w) && Entry(w, mem, dirs[d], p).present
      modifies this`mem, this`free, this`owner
      ensures Valid() && EntriesBut(w, old(mem), dirs, mem, dirs, d, p) && !Entry(w, mem, dirs[d], p).present
        && |mem| == |old(mem)|
      ensures var m := old(Entry(w, mem, dirs[d], p)).frame;
        m in old(owner) && old(owner)[m] == PageOf(d, p) && owner == old(owner) - {m} && free == [m] + old(free)
      ensures KeptBar(w, old(mem), dirs, mem, dirs, d, {p})
      ensures Lost(|mem|, free, owner) == old(Lost(|mem|, free, owner))
    {
      hide TablesOwned, PagesOwned, FreeOk, KernOk;
      Unmapped(w, mem, dirs, free, owner, d, p);
      PageDiv(w, p);
      var t := dirs[d][Dx(w, p)].value;
      var m := mem[t].ptes[Tx(w, p)].frame;
      mem := Written(mem, t, Tx(w, p), ABSENT);
      KernMinus(w, kern, dirs.Keys, owner, m);
      LostDropped(|mem|, free, owner, m);
      owner := owner - {m};
      Kfree(m, seq(PGSIZE, _ => 1));
      BarOne(w, old(mem), dirs, old(free), old(owner), mem, dirs, d, p, m);
    }

    /** The same after the pages in gone. */
    method UnmapNext(d: nat, a: nat, ghost gone: set<nat>, ghost mem0: seq<Frame>, ghost free0: seq<nat>,
        ghost owner0: map<nat, Use>)
      requires Valid() && d in dirs && a < UPages(w) && Entry(w, mem, dirs[d], a).present && a !in gone
      requires Shape(w, mem0, dirs) && Removed(w, mem0, mem, dirs, d, gone) && FreedSet(d, gone, owner0, owner)
      requires |free| == |free0| + |gone|
      requires forall f | f in free0 || (f in owner0 && f !in owner) :: f in free
      modifies this`mem, this`free, this`owner
      ensures Valid() && Lost(|mem|, free, owner) == old(Lost(|mem|, free, owner))
      ensures Removed(w, mem0, mem, dirs, d, gone + {a}) && FreedSet(d, gone + {a}, owner0, owner)
      ensures |free| == |free0| + |gone + {a}|
      ensures forall f | f in free0 || (f in owner0 && f !in owner) :: f in free
    {
      hide TablesOwned, PagesOwned, FreeOk, KernOk, KeptBar, FreedSet, Removed, Lost, EntriesBut, Entry, Dx, Tx;
      OnePage(w, mem, dirs, free, owner, d, a);
      Unmap(d, a);
      RemovedMore(w, mem0, old(mem), mem, dirs, d, gone, a);
      FreedOne(d, gone, a, owner0, old(owner), owner);
    }

    /** deallocuvm(): of the pages from newsz up to oldsz those that the walk gets to are unmapped and their frames
        free. Where a whole table is missing the loop skips ahead by a table's length: if it starts inside a table
        that is missing, it misses the first pages of the next one that is there. A walk that gets to the top goes
        through a pointer that is no page table, and faults. */
    method Deallocuvm(d: nat, oldsz: nat, newsz: nat) returns (r: Resize, ghost gone: set<nat>)
      requires Valid() && d in dirs
      requires newsz < oldsz ==> newsz <= Top(w) && (w.X86? ==> oldsz <= Top(w))
      modifies this`mem, this`free, this`owner
      ensures Valid() && Lost(|mem|, free, owner) == old(Lost(|mem|, free, owner))
      ensures r.Fault? <==> newsz < oldsz && oldsz > (UPages(w) + Skew(w, dirs[d], Pages(newsz))) * PGSIZE
      ensures gone == Due(w, old(mem), dirs[d], Pages(newsz), if r.Fault? then UPages(w) else Pages(oldsz))
      ensures Removed(w, old(mem), mem, dirs, d, gone) && FreedSet(d, gone, old(owner), owner)
      ensures |free| == |old(free)| + |gone|
      ensures forall f | f in old(free) || (f in old(owner) && f !in owner) :: f in free
      ensures r.Size? ==> r.sz == (if newsz >= oldsz then oldsz else newsz)
    {
      hide TablesOwned, PagesOwned, FreeOk, KernOk, KeptBar, FreedSet, Removed, Pages, Skew, Dx, Tx, Due, OnTrack;
      hide Lost, Missed, Entry, EntriesBut;
      gone := {};
      RemovedNone(w, mem, dirs, free, owner, d);
      ghost var k, e := Pages(newsz), Pages(oldsz);
      if newsz >= oldsz {
        PagesMono(oldsz, newsz);
        DueNone(w, mem, dirs[d], k, e);
        return Size(oldsz), gone;
      }
      var a := Pages(newsz);
      PagesMono(newsz, oldsz);
      PagesFit(w, newsz);
      DueNone(w, mem, dirs[d], k, k);
      TrackStart(w, dirs[d], k);
      while a * PGSIZE < oldsz
        invariant k <= a && Valid() && dirs == old(dirs) && OnTrack(w, dirs[d], k, a)
        invariant gone == Due(w, old(mem), dirs[d], k, a) && (a <= e || gone == Due(w, old(mem), dirs[d], k, e))
        invariant Removed(w, old(mem), mem, dirs, d, gone) && FreedSet(d, gone, old(owner), owner)
        invariant |free| == |old(free)| + |gone| && Lost(|mem|, free, owner) == old(Lost(|mem|, free, owner))
        invariant forall f | f in old(free) || (f in old(owner) && f !in owner) :: f in free
        invariant Skew(w, dirs[d], a) == Skew(w, dirs[d], k)
        decreases oldsz - a * PGSIZE
      {
        if a >= UPages(w) {
          AtTop(w, dirs[d], a);
          DueTop(w, old(mem), dirs[d], k, a);
          return Fault, gone;
        }
        PageDiv(w, a);
        BelowEnd(a, oldsz);
        SkewStep(w, dirs[d], a);
        if dirs[d][Dx(w, a)].None? {
          TrackSkip(w, dirs[d], k, a);
          DueSkip(w, old(mem), dirs[d], k, a, a + Npt(w));
          if e <= a + Npt(w) { DueSkip(w, old(mem), dirs[d], k, a, e); }
          a := a + (Npt(w) - 1);
        } else {
          TrackOn(w, dirs[d], k, a);
          DueNext(w, old(mem), dirs[d], k, a);
          StillThere(w, old(mem), mem, dirs, d, gone, k, a);
          if Entry(w, mem, dirs[d], a).present {
            UnmapNext(d, a, gone, old(mem), old(free), old(owner));
            gone := gone + {a};
          }
        }
        a := a + 1;
      }
      AtEnd(a, oldsz);
      BelowTop(w, dirs[d], a);
      r := Size(newsz);
    }

    /** allocuvm(), from a size above which nothing is mapped: the result of mappages() is not looked at. With enough
        frames the new pages are mapped and zero; short of frames they are unmapped again and 0 returned, except
        when the frame missing is the one for the page table of the last page: then newsz is returned without that
        page. The 32-bit build refuses sizes from KERNBASE on; the 64-bit build has no such test, and a size above
        the top faults, unless so few frames are left that the walk back starts and ends out of step above it. */
    method Allocuvm(d: nat, oldsz: nat, newsz: nat) returns (r: Resize)
      requires Valid() && d in dirs && oldsz <= Top(w) && From(w, mem, dirs[d], Pages(oldsz), Pages(oldsz))
      modifies this`mem, this`free, this`dirs, this`owner
      ensures Valid() && dirs.Keys == old(dirs).Keys && Kept(w, old(mem), old(dirs), mem, dirs, d, Pages(oldsz))
      ensures r.Fault? <==>
        w.X64? && newsz > (UPages(w) + SkewLeft(w, old(dirs)[d], Pages(oldsz), |old(free)|)) * PGSIZE
      ensures w.X86? && newsz >= Top(w) ==> r == Size(0) && From(w, mem, dirs[d], Pages(oldsz), Pages(oldsz))
      ensures newsz < oldsz && !(w.X86? && newsz >= Top(w)) ==>
        r == Size(oldsz) && From(w, mem, dirs[d], Pages(oldsz), Pages(oldsz))
      ensures oldsz <= newsz && Within(w, newsz) ==>
        Grew(old(dirs)[d], Pages(oldsz), newsz, |old(free)|, old(Lost(|mem|, free, owner)), r, d)
      ensures w.X64? && newsz > Top(w) && r.Size? ==>
        && r == Size(0) && From(w, mem, dirs[d], Pages(oldsz), Pages(oldsz))
        && |Lost(|mem|, free, owner)| == |old(Lost(|mem|, free, owner))| + |old(free)|
      ensures !(oldsz <= newsz && Within(w, newsz)) && newsz <= Top(w) ==>
        mem == old(mem) && free == old(free) && owner == old(owner)
    {
      hide TablesOwned, PagesOwned, FreeOk, KernOk, Kept, From, ZeroPages, Need, LastNew, Pages, Loses, Lost, Dx, Tx;
      hide GrowthOf, UPages, Top, UDirs, Entry, SkewLeft;
      KeptRefl(w, mem, dirs, free, owner, d, Pages(oldsz));
      SkewLeftTop(w, dirs[d], Pages(oldsz), |free|);
      if w.X86? && newsz >= Top(w) { return Size(0); }
      if newsz < oldsz { return Size(oldsz); }
      r := Grow(d, oldsz, newsz);
    }

    /** What the loop of allocuvm() leaves, as the number of frames decides. */
    ghost predicate Grew(dir: Dir, a0: nat, newsz: nat, frames: nat, lost: set<nat>, r: Resize, d: nat)
      requires Valid() && d in dirs && |dir| == UDirs(w)
      reads this
    {
      var e := Pages(newsz);
      && e <= UPages(w)
      && (match GrowthOf(w, dir, a0, e, frames)
          case Grows => r == Size(newsz) && From(w, mem, dirs[d], a0, e) && ZeroPages(w, mem, dirs[d], a0, e)
          case LacksLast => r == Size(newsz) && From(w, mem, dirs[d], a0, e - 1) && a0 < e
          case Fails => r == Size(0) && From(w, mem, dirs[d], a0, a0))
      && Lost(|mem|, free, owner) >= lost
      && |Lost(|mem|, free, owner)| == |lost| + (if Loses(w, dir, a0, e, frames) then 1 else 0)
    }

    /** The loop of allocuvm(). */
    method Grow(d: nat, oldsz: nat, newsz: nat) returns (r: Resize)
      requires Valid() && d in dirs && oldsz <= Top(w) && From(w, mem, dirs[d], Pages(oldsz), Pages(oldsz))
      requires oldsz <= newsz && (w.X86? ==> newsz < Top(w))
      modifies this`mem, this`free, this`dirs, this`owner
      ensures Valid() && dirs.Keys == old(dirs).Keys && Kept(w, old(mem), old(dirs), mem, dirs, d, Pages(oldsz))
      ensures r.Fault? <==>
        w.X64? && newsz > (UPages(w) + SkewLeft(w, old(dirs)[d], Pages(oldsz), |old(free)|)) * PGSIZE
      ensures newsz <= Top(w) ==>
        Grew(old(dirs)[d], Pages(oldsz), newsz, |old(free)|, old(Lost(|mem|, free, owner)), r, d)
      ensures newsz > Top(w) && r.Size? ==>
        && r == Size(0) && From(w, mem, dirs[d], Pages(oldsz), Pages(oldsz))
        && |Lost(|mem|, free, owner)| == |old(Lost(|mem|, free, owner))| + |old(free)|
    {
      hide TablesOwned, PagesOwned, FreeOk, KernOk, Kept, From, ZeroPages, Need, LastNew, Pages, Tracks, Loses, Lost;
      hide GrowthOf, UPages, Top, UDirs, Reserved, Short, Entry, SkewLeft, Began, Dx, Tx;
      ghost var k, e, hole, inHand := Pages(oldsz), if newsz <= Top(w) then Pages(newsz) else UPages(w), false, {};
      ghost var frames0, lost0 := |free|, Lost(|mem|, free, owner);
      TopReserved(w);
      SkewLeftTop(w, dirs[d], k, frames0);
      PagesUp(w, oldsz, newsz);
      StartGrowing(d, k, e);
      var a := Pages(oldsz);
      while a * PGSIZE < newsz
        invariant Growing(d, k, a, e, hole, inHand, old(mem), old(dirs), frames0, lost0)
        decreases newsz - a * PGSIZE
      {
        if newsz <= Top(w) { BelowEnd(a, newsz); }
        UserPage(w, a, newsz, e);
        ghost var was := hole;
        var turn;
        turn, hole, inHand := GrowOne(d, a, k, e, hole, inHand, old(mem), old(dirs), frames0, lost0);
        if turn.NoFrame? {
          if newsz <= Top(w) { Shortage(w, old(dirs)[d], k, dirs[d], a, e, frames0, was); }
          r := Undo(d, newsz, oldsz, if was then a - 1 else a, old(mem), old(dirs), frames0, |inHand|);
          return;
        }
        if turn.OverTop? { return Fault; }
        a := a + 1;
      }
      PagesEnd(a, newsz);
      Outcome(w, old(dirs)[d], k, dirs[d], e, frames0, |free|, hole);
      r := Size(newsz);
    }

    /** The loop of allocuvm() from page k on is at page a: the pages before it are mapped and zero, but the last if
        hole says that its table found no frame, which is then in hand. */
    ghost predicate Growing(d: nat, k: nat, a: nat, e: nat, hole: bool, inHand: set<nat>, mem0: seq<Frame>,
        dirs0: map<nat, Dir>, frames0: nat, lost0: set<nat>)
      reads this
    {
      && Valid() && d in dirs && dirs.Keys == dirs0.Keys && Shape(w, mem0, dirs0) && k <= a <= e <= UPages(w)
      && Kept(w, mem0, dirs0, mem, dirs, d, k)
      && Lost(|mem|, free, owner) == lost0 + inHand && inHand !! lost0 && |inHand| == (if hole then 1 else 0)
      && (!hole ==>
            && From(w, mem, dirs[d], k, a) && ZeroPages(w, mem, dirs[d], k, a)
            && Tracks(w, dirs0[d], k, dirs[d], a, e, frames0, |free|))
      && (hole ==>
            k < a && From(w, mem, dirs[d], k, a - 1) && free == [] && Short(w, dirs0[d], k, a, frames0))
      && Began(w, dirs[d], dirs0[d], k, if hole then a - 1 else a, frames0, |free| + |inHand|)
    }

    lemma StartGrowing(d: nat, k: nat, e: nat)
      requires Valid() && d in dirs && k <= e <= UPages(w) && From(w, mem, dirs[d], k, k)
      ensures Growing(d, k, k, e, false, {}, mem, dirs, |free|, Lost(|mem|, free, owner))
    {
      hide TablesOwned, PagesOwned, FreeOk, KernOk, Kept, From, Need, LastNew, Lost, Entry, Dx, Tx;
      KeptRefl(w, mem, dirs, free, owner, d, k);
      NoPages(w, mem, dirs[d], k);
      TracksStart(w, dirs[d], k, e, |free|);
      BeganNot(w, mem, dirs[d], dirs[d], k, |free|);
      hide Tracks, Began, ZeroPages;
    }

    /** One turn of that loop. */
    method GrowOne(d: nat, a: nat, ghost k: nat, ghost e: nat, ghost hole: bool, ghost inHand: set<nat>,
        ghost mem0: seq<Frame>, ghost dirs0: map<nat, Dir>, ghost frames0: nat, ghost lost0: set<nat>)
      returns (turn: Turn, ghost hole': bool, ghost inHand': set<nat>)
      requires Growing(d, k, a, e, hole, inHand, mem0, dirs0, frames0, lost0)
      requires (Reserved(w, a) <==> a == UPages(w)) && (a < UPages(w) ==> a < e)
      modifies this`mem, this`free, this`dirs, this`owner
      ensures turn.NoFrame? ==>
        && Growing(d, k, a, e, hole, inHand, mem0, dirs0, frames0, lost0) && free == [] && dirs == old(dirs)
        && hole' == hole && inHand' == inHand
      ensures turn.OverTop? ==>
        && Valid() && dirs.Keys == dirs0.Keys && Shape(w, mem0, dirs0) && Kept(w, mem0, dirs0, mem, dirs, d, k)
        && a == UPages(w) && SkewLeft(w, dirs0[d], k, frames0) == 0
      ensures turn.Next? ==> Growing(d, k, a + 1, e, hole', inHand', mem0, dirs0, frames0, lost0)
    {
      hide TablesOwned, PagesOwned, FreeOk, KernOk, Kept, From, ZeroPages, Need, LastNew, Tracks, Lost, Dx, Tx;
      hide UPages, UDirs, Reserved, Short, Entry, SkewLeft, Began;
      var m := Kalloc();
      if m.None? { return NoFrame, hole, inHand; }
      assert !hole;
      if Reserved(w, a) {
        BeganTop(w, dirs[d], dirs0[d], k, a, frames0, |free| + 1);
        return OverTop, hole, inHand;
      }
      ghost var dir1, free1 := dirs[d], free;
      MapZero(d, a, m.value, k, mem0, dirs0);
      hole', inHand' := dirs[d][Dx(w, a)].None?, {};
      if hole' {
        inHand' := {m.value};
        ShortHere(w, dirs0[d], k, dir1, a, e, frames0);
      } else {
        TracksMore(w, dirs0[d], k, dir1, a, dirs[d], e, frames0, |free1| + 1, |free|);
        BeganMore(w, dir1, dirs[d], dirs0[d], k, a, frames0, |free1| + 1, |free|);
      }
      return Next, hole', inHand';
    }

    /** The way out of allocuvm() when there is no frame for a page. */
    method Undo(d: nat, newsz: nat, oldsz: nat, ghost n: nat, ghost mem0: seq<Frame>, ghost dirs0: map<nat, Dir>,
        ghost frames0: nat, ghost lost: nat)
      returns (r: Resize)
      requires Valid() && d in dirs && oldsz < newsz && oldsz <= Top(w) && (w.X86? ==> newsz <= Top(w))
      requires From(w, mem, dirs[d], Pages(oldsz), n) && Pages(oldsz) <= n <= UPages(w) && n <= Pages(newsz)
      requires Shape(w, mem0, dirs0) && d in dirs0 && Kept(w, mem0, dirs0, mem, dirs, d, Pages(oldsz))
      requires Began(w, dirs[d], dirs0[d], Pages(oldsz), n, frames0, lost) && lost <= 1
      modifies this`mem, this`free, this`owner
      ensures Valid() && Lost(|mem|, free, owner) == old(Lost(|mem|, free, owner))
      ensures From(w, mem, dirs[d], Pages(oldsz), Pages(oldsz)) && Kept(w, mem0, dirs0, mem, dirs, d, Pages(oldsz))
      ensures r == Fault || r == Size(0)
      ensures r.Fault? <==> newsz > (UPages(w) + SkewLeft(w, dirs0[d], Pages(oldsz), frames0)) * PGSIZE
      ensures r.Size? && newsz > Top(w) ==> frames0 == lost
    {
      hide TablesOwned, PagesOwned, FreeOk, KernOk, Kept, KeptBar, From, Pages, Lost, Dx, Tx;
      hide Skew, Due, Removed, FreedSet, Entry, SkewLeft, Began;
      ghost var k := Pages(oldsz);
      BeganSkew(w, dirs[d], dirs0[d], k, n, frames0, lost);
      var back, gone := Deallocuvm(d, newsz, oldsz);
      Undone(w, old(mem), mem, dirs, d, gone, k, n, if back.Fault? then UPages(w) else Pages(newsz));
      KeptTwice(w, mem0, dirs0, old(mem), dirs, mem, dirs, d, k);
      if back.Fault? { return Fault; }
      return Size(0);
    }

    /** memset() and mappages() of a frame in hand for page a, the first one not mapped. */
    method MapZero(d: nat, a: nat, m: nat, ghost keep: nat, ghost mem0: seq<Frame>, ghost dirs0: map<nat, Dir>)
      requires Valid() && d in dirs && a < UPages(w) && keep <= a && InHand(mem, free, owner, m)
      requires From(w, mem, dirs[d], keep, a) && ZeroPages(w, mem, dirs[d], keep, a)
      requires Shape(w, mem0, dirs0) && Kept(w, mem0, dirs0, mem, dirs, d, keep)
      modifies this`mem, this`free, this`dirs, this`owner
      ensures Valid() && dirs.Keys == old(dirs).Keys && Kept(w, mem0, dirs0, mem, dirs, d, keep)
      ensures Dx(w, a) < UDirs(w) && dirs[d] == old(dirs)[d][Dx(w, a) := dirs[d][Dx(w, a)]]
      ensures dirs[d][Dx(w, a)].None? <==> old(dirs)[d][Dx(w, a)].None? && old(free) == []
      ensures dirs[d][Dx(w, a)].None? ==>
        free == [] && From(w, mem, dirs[d], keep, a) && dirs == old(dirs)
          && Lost(|mem|, free, owner) == old(Lost(|mem|, free, owner))
      ensures dirs[d][Dx(w, a)].Some? ==>
        && From(w, mem, dirs[d], keep, a + 1) && ZeroPages(w, mem, dirs[d], keep, a + 1)
        && |free| == |old(free)| - (if old(dirs)[d][Dx(w, a)].None? then 1 else 0)
        && Lost(|mem|, free, owner) == old(Lost(|mem|, free, owner)) - {m}
    {
      hide TablesOwned, PagesOwned, FreeOk, KernOk, Kept, From, ZeroPages, Lost, Dx, Tx;
      PageDiv(w, a);
      FilledGood(w, mem, dirs, free, owner, m, seq(PGSIZE, _ => 0));
      mem := mem[m := Page(seq(PGSIZE, _ => 0))];
      KeptAll(w, old(mem), dirs, free, owner, mem, dirs, d, m, a);
      SameFrom(w, old(mem), mem, dirs, d, a, keep);
      NextAbsent(w, mem, dirs[d], keep, a);
      ghost var mem1, dirs1 := mem, dirs;
      var ok := MapPage(d, a, m, PTE_W + PTE_U);
      ZeroMore(w, mem0, dirs0, old(mem), mem1, dirs1, mem, dirs, d, a, m, keep, ok);
    }
  }

  // ------------------------------------------------- ranges of pages

  datatype Mapping = AllMapped | NoTable | Remap

  datatype Turn = NoFrame | OverTop | Next

  /** The page of the last byte. */
  function LastPage(va: nat, size: nat): nat
    requires size > 0
  {
    (va + size - 1) / PGSIZE
  }

  lemma PagesInOrder(va: nat, size: nat)
    requires size > 0
    ensures va / PGSIZE <= LastPage(va, size)
  { }

  /** A frame in hand that holds no table. */
  ghost predicate Spare(mem: seq<Frame>, free: seq<nat>, owner: map<nat, Use>, m: nat) {
    InHand(mem, free, owner, m) && mem[m].Page?
  }

  lemma SpareIs(mem: seq<Frame>, free: seq<nat>, owner: map<nat, Use>, m: nat)
    requires Spare(mem, free, owner, m)
    ensures InHand(mem, free, owner, m) && mem[m].Page?
  { }

  lemma SpareStill(mem1: seq<Frame>, free1: seq<nat>, owner1: map<nat, Use>, mem: seq<Frame>, free: seq<nat>,
      owner: map<nat, Use>, m: nat, g: nat)
    requires Spare(mem1, free1, owner1, g) && g != m && |mem| == |mem1|
    requires Lost(|mem|, free, owner) == Lost(|mem1|, free1, owner1) - {m}
    requires forall f | f in Lost(|mem1|, free1, owner1) && mem1[f].Page? :: mem[f] == mem1[f]
    ensures Spare(mem, free, owner, g)
  {
    assert g in Lost(|mem1|, free1, owner1);
    assert g in Lost(|mem|, free, owner);
  }

  /** k frames from m on. */
  function Span(m: nat, k: nat): set<nat> {
    if k == 0 then {} else Span(m, k - 1) + {m + k - 1}
  }

  /** Why page q is not mapped: it was mapped already, or it has no table and there is no frame for one. */
  ghost predicate Stopped(w: Build, mem0: seq<Frame>, dir0: Dir, dir: Dir, free: seq<nat>, r: Mapping, q: nat)
    requires DirOk(w, mem0, dir0) && |dir| == UDirs(w) && q < UPages(w)
  {
    PageDiv(w, q);
    && (r.Remap? <==> Entry(w, mem0, dir0, q).present)
    && (r.NoTable? ==> dir[Dx(w, q)].None? && free == [])
  }

  /** k pages of d from p on were not mapped, and are mapped to the frames from m on; nothing else has changed. */
  ghost predicate MappedTo(w: Build, mem0: seq<Frame>, dirs0: map<nat, Dir>, mem: seq<Frame>, dirs: map<nat, Dir>,
      d: nat, p: nat, m: nat, k: nat, flags: nat)
  {
    && Shape(w, mem0, dirs0) && Shape(w, mem, dirs) && dirs.Keys == dirs0.Keys && d in dirs && p + k <= UPages(w)
    && (forall q | p <= q < p + k ::
          !Entry(w, mem0, dirs0[d], q).present && Entry(w, mem, dirs[d], q) == Pte(true, m + q - p, flags))
    && (forall e, q | e in dirs && 0 <= q < UPages(w) && !(e == d && p <= q < p + k) ::
          Entry(w, mem, dirs[e], q) == Entry(w, mem0, dirs0[e], q))
  }

  lemma MappedNone(w: Build, mem: seq<Frame>, dirs: map<nat, Dir>, n: nat, free: seq<nat>, owner: map<nat, Use>,
      d: nat, p: nat, m: nat, flags: nat)
    requires Shape(w, mem, dirs) && d in dirs && p <= UPages(w)
    ensures MappedTo(w, mem, dirs, mem, dirs, d, p, m, 0, flags)
    ensures Lost(n, free, owner) == Lost(n, free, owner) - Span(m, 0)
  {
    hide Entry, Lost;
  }

  lemma MappedNext(w: Build, mem0: seq<Frame>, dirs0: map<nat, Dir>, mem: seq<Frame>, dirs: map<nat, Dir>, d: nat,
      p: nat, m: nat, k: nat, flags: nat)
    requires MappedTo(w, mem0, dirs0, mem, dirs, d, p, m, k, flags) && p + k < UPages(w)
    ensures d in dirs0 && Shape(w, mem0, dirs0) && Shape(w, mem, dirs)
    ensures Entry(w, mem, dirs[d], p + k) == Entry(w, mem0, dirs0[d], p + k)
  {
    hide Entry;
  }

  lemma MappedMore(w: Build, mem0: seq<Frame>, dirs0: map<nat, Dir>, mem1: seq<Frame>, dirs1: map<nat, Dir>,
      mem: seq<Frame>, dirs: map<nat, Dir>, d: nat, p: nat, m: nat, k: nat, flags: nat)
    requires MappedTo(w, mem0, dirs0, mem1, dirs1, d, p, m, k, flags) && p + k < UPages(w) && Shape(w, mem, dirs)
    requires EntriesBut(w, mem1, dirs1, mem, dirs, d, p + k) && !Entry(w, mem1, dirs1[d], p + k).present
    requires Entry(w, mem, dirs[d], p + k) == Pte(true, m + k, flags)
    ensures MappedTo(w, mem0, dirs0, mem, dirs, d, p, m, k + 1, flags)
  {
    hide Entry;
  }

  /** A size, or the fault of a walk through a pointer that is no page table. */
  datatype Resize = Size(sz: nat) | Fault

  /** The sizes that are not above the top; the 32-bit build refuses KERNBASE itself. */
  predicate Within(w: Build, sz: nat) {
    if w.X86? then sz < Top(w) else sz <= Top(w)
  }

  // ------------------------------------------------- how a walk gets to the top

  /** How far above the top the walk from page a first looks: skipping missing tables keeps the place in the
      table, and a table that is there is walked to its end. */
  function Skew(w: Build, dir: Dir, a: nat): nat
    requires |dir| == UDirs(w)
  {
    if a >= UPages(w) then a - UPages(w)
    else if forall i | Dx(w, a) <= i < UDirs(w) :: dir[i].None? then Tx(w, a)
    else 0
  }

  lemma AtTop(w: Build, dir: Dir, a: nat)
    requires |dir| == UDirs(w) && a >= UPages(w)
    ensures a == UPages(w) + Skew(w, dir, a)
  { }

  lemma BelowTop(w: Build, dir: Dir, a: nat)
    requires |dir| == UDirs(w)
    ensures a <= UPages(w) + Skew(w, dir, a)
  { }

  lemma SkewStep(w: Build, dir: Dir, a: nat)
    requires |dir| == UDirs(w) && a < UPages(w)
    ensures Dx(w, a) < UDirs(w)
    ensures dir[Dx(w, a)].None? ==> Skew(w, dir, a + Npt(w)) == Skew(w, dir, a)
    ensures dir[Dx(w, a)].Some? ==> Skew(w, dir, a + 1) == Skew(w, dir, a)
  {
    PageDiv(w, a);
    NextPlace(w, a);
    if dir[Dx(w, a)].Some? && a + 1 < UPages(w) && Dx(w, a + 1) == Dx(w, a) { assert !dir[Dx(w, a + 1)].None?; }
    hide Dx, Tx;
    if dir[Dx(w, a)].None? && a + Npt(w) < UPages(w) {
      assert (forall i | Dx(w, a) <= i < UDirs(w) :: dir[i].None?) <==> forall i | Dx(w, a) + 1 <= i < UDirs(w) ::
        dir[i].None?;
    }
  }

  /** Where the next page, and the page a table further on, are found. */
  lemma NextPlace(w: Build, a: nat)
    requires a < UPages(w)
    ensures a + Npt(w) < UPages(w) ==> Dx(w, a + Npt(w)) == Dx(w, a) + 1 && Tx(w, a + Npt(w)) == Tx(w, a)
    ensures a + Npt(w) >= UPages(w) ==> Dx(w, a) == UDirs(w) - 1 && a + Npt(w) - UPages(w) == Tx(w, a)
    ensures a + 1 < UPages(w) ==> Dx(w, a + 1) == Dx(w, a) || (Dx(w, a + 1) == Dx(w, a) + 1 && Tx(w, a + 1) == 0)
  {
    hide Dx, Tx;
    PageIs(w, a);
    PageDiv(w, a);
    var d, t := Dx(w, a), Tx(w, a);
    if t + 1 < Npt(w) { PlaceIs(w, d, t + 1); }
    if d + 1 < UDirs(w) {
      PlaceIs(w, d + 1, t);
      PlaceIs(w, d + 1, 0);
    }
    match w
    case X64 => assert UPages(w) == 510 * 512;
    case X86 => assert UPages(w) == 512 * 1024;
  }

  /** Place t of table d. */
  lemma PlaceIs(w: Build, d: nat, t: nat)
    requires d < UDirs(w) && t < Npt(w)
    ensures Dx(w, d * Npt(w) + t) == d && Tx(w, d * Npt(w) + t) == t
  {
    match w
    case X64 => assert (d * 512 + t) / 512 == d;
    case X86 => assert (d * 1024 + t) / 1024 == d;
  }

  /** How far above the top the walk back of allocuvm() looks, if the frames do not do for the first page. */
  function SkewLeft(w: Build, dir: Dir, k: nat, frames: nat): nat
    requires |dir| == UDirs(w)
  {
    if frames < 2 then Skew(w, dir, k) else 0
  }

  lemma SkewLeftTop(w: Build, dir: Dir, k: nat, frames: nat)
    requires |dir| == UDirs(w)
    ensures (UPages(w) + SkewLeft(w, dir, k, frames)) * PGSIZE >= Top(w)
  {
    hide Skew;
  }

  /** Growing from k has mapped the pages below n: the first page has its table, and the frames did for it. */
  ghost predicate Began(w: Build, dir: Dir, dir0: Dir, k: nat, n: nat, frames0: nat, frames: nat)
    requires |dir| == UDirs(w) == |dir0|
  {
    if n == k then dir == dir0 && frames == frames0
    else k < n && k < UPages(w) && Dx(w, k) < UDirs(w) && dir[Dx(w, k)].Some? && (frames0 >= 2 || dir0[Dx(w, k)].Some?)
  }

  lemma BeganNot(w: Build, mem: seq<Frame>, dir: Dir, dir0: Dir, k: nat, frames0: nat)
    requires |dir| == UDirs(w) && dir == dir0
    ensures Began(w, dir, dir0, k, k, frames0, frames0)
  { }

  lemma BeganMore(w: Build, dir1: Dir, dir: Dir, dir0: Dir, k: nat, a: nat, frames0: nat, frames: nat,
      left: nat)
    requires |dir1| == UDirs(w) == |dir| == |dir0| && k <= a < UPages(w) && Dx(w, a) < UDirs(w)
    requires Began(w, dir1, dir0, k, a, frames0, frames) && dir == dir1[Dx(w, a) := dir[Dx(w, a)]]
    requires dir[Dx(w, a)].Some? && frames >= 1 + (if dir1[Dx(w, a)].None? then 1 else 0)
    ensures Began(w, dir, dir0, k, a + 1, frames0, left)
  {
    PageDiv(w, k);
    hide Dx;
  }

  lemma BeganSkew(w: Build, dir: Dir, dir0: Dir, k: nat, n: nat, frames0: nat, frames: nat)
    requires |dir| == UDirs(w) == |dir0| && Began(w, dir, dir0, k, n, frames0, frames) && frames <= 1
    ensures Skew(w, dir, k) == SkewLeft(w, dir0, k, frames0) && (Skew(w, dir, k) > 0 ==> frames == frames0)
  {
    if n > k { NoSkew(w, dir, k); }
    if n > k && frames0 < 2 { NoSkew(w, dir0, k); }
    hide Dx, Tx;
  }

  lemma BeganTop(w: Build, dir: Dir, dir0: Dir, k: nat, n: nat, frames0: nat, frames: nat)
    requires |dir| == UDirs(w) == |dir0| && Began(w, dir, dir0, k, n, frames0, frames) && n == UPages(w)
    ensures SkewLeft(w, dir0, k, frames0) == 0
  {
    if n > k && frames0 < 2 { NoSkew(w, dir0, k); }
    hide Dx, Tx;
  }

  /** A walk that starts in a table that is there is in step with the tables. */
  lemma NoSkew(w: Build, dir: Dir, k: nat)
    requires |dir| == UDirs(w) && k < UPages(w) && Dx(w, k) < UDirs(w) && dir[Dx(w, k)].Some?
    ensures Skew(w, dir, k) == 0
  {
    hide Dx, Tx;
  }

  lemma UserPage(w: Build, a: nat, newsz: nat, e: nat)
    requires a * PGSIZE < newsz && e == (if newsz <= Top(w) then Pages(newsz) else UPages(w)) && a <= e <= UPages(w)
    ensures Reserved(w, a) <==> a == UPages(w)
    ensures a < UPages(w) ==> a < e
    ensures a == UPages(w) ==> newsz > Top(w)
  {
    TopReserved(w);
    if a < UPages(w) { PageDiv(w, a); }
  }

  // ------------------------------------------------- how many frames it takes

  /** Frames needed to map the pages from a up to e: one each, and one for every missing table. */
  function Need(w: Build, dir: Dir, a: nat, e: nat): nat
    requires |dir| == UDirs(w) && e <= UPages(w)
    decreases e - a
  {
    if a >= e then 0
    else
      PageDiv(w, a);
      1 + (if dir[Dx(w, a)].None? then 1 else 0) + Need(w, dir[Dx(w, a) := Some(0)], a + 1, e)
  }

  /** The page table of the last page is missing and no page before it needs it. */
  predicate LastNew(w: Build, dir: Dir, a: nat, e: nat)
    requires |dir| == UDirs(w) && a < e <= UPages(w)
  {
    PageDiv(w, e - 1);
    dir[Dx(w, e - 1)].None? && (Tx(w, e - 1) == 0 || e - 1 == a)
  }

  datatype Growth = Grows | LacksLast | Fails

  function GrowthOf(w: Build, dir: Dir, a: nat, e: nat, frames: nat): Growth
    requires |dir| == UDirs(w) && e <= UPages(w)
  {
    if frames >= Need(w, dir, a, e) then Grows
    else if a < e && frames == Need(w, dir, a, e) - 1 && LastNew(w, dir, a, e) then LacksLast
    else Fails
  }

  /** Growing to some size up to e ends at a page table for which the frame is missing: the frame in hand
      for the page is lost. */
  ghost predicate Loses(w: Build, dir: Dir, a: nat, e: nat, frames: nat)
    requires |dir| == UDirs(w) && e <= UPages(w)
  {
    exists j | a < j <= e :: frames == Need(w, dir, a, j) - 1 && LastNew(w, dir, a, j)
  }

  /** Page a is the next: what is needed and what is left have gone down by the same. */
  ghost predicate Tracks(w: Build, dir0: Dir, k: nat, dir: Dir, a: nat, e: nat, frames0: nat, frames: nat)
    requires |dir0| == UDirs(w) == |dir| && k <= a && e <= UPages(w)
  {
    && (forall j | a <= j <= e :: frames - Need(w, dir, a, j) == frames0 - Need(w, dir0, k, j))
    && (forall j | a < j <= e :: LastNew(w, dir, a, j) <==> LastNew(w, dir0, k, j))
    && (forall j | k <= j <= a && j <= e :: frames0 >= Need(w, dir0, k, j))
  }

  lemma TracksStart(w: Build, dir: Dir, k: nat, e: nat, frames: nat)
    requires |dir| == UDirs(w) && k <= e <= UPages(w)
    ensures Tracks(w, dir, k, dir, k, e, frames, frames)
  { }

  lemma TracksMore(w: Build, dir0: Dir, k: nat, dir: Dir, a: nat, dir': Dir, e: nat, frames0: nat, frames: nat,
      frames': nat)
    requires |dir0| == UDirs(w) == |dir| == |dir'| && k <= a < e <= UPages(w) && Dx(w, a) < UDirs(w)
    requires Tracks(w, dir0, k, dir, a, e, frames0, frames)
    requires dir' == dir[Dx(w, a) := dir'[Dx(w, a)]] && dir'[Dx(w, a)].Some?
    requires frames' == frames - 1 - (if dir[Dx(w, a)].None? then 1 else 0)
    ensures Tracks(w, dir0, k, dir', a + 1, e, frames0, frames')
  {
    hide Need, LastNew, Dx, Tx;
    forall j | a + 1 <= j <= e
      ensures frames' - Need(w, dir', a + 1, j) == frames0 - Need(w, dir0, k, j)
      ensures a + 1 < j ==> (LastNew(w, dir', a + 1, j) <==> LastNew(w, dir0, k, j))
    {
      NeedAfter(w, dir, dir', a, j);
    }
    NeedNone(w, dir', a + 1, a + 1);
  }

  /** The page before a took the last frame and its page table found none. */
  ghost predicate Short(w: Build, dir0: Dir, k: nat, a: nat, frames0: nat)
    requires |dir0| == UDirs(w)
  {
    k < a <= UPages(w) && frames0 == Need(w, dir0, k, a) - 1 && LastNew(w, dir0, k, a)
  }

  lemma ShortHere(w: Build, dir0: Dir, k: nat, dir: Dir, a: nat, e: nat, frames0: nat)
    requires |dir0| == UDirs(w) == |dir| && k <= a < e <= UPages(w) && Dx(w, a) < UDirs(w)
    requires Tracks(w, dir0, k, dir, a, e, frames0, 1) && dir[Dx(w, a)].None?
    ensures Short(w, dir0, k, a + 1, frames0)
  {
    NeedStep(w, dir, a, a + 1);
    hide Need, LastNew, Dx, Tx;
  }

  lemma {:induction false} NeedGrows(w: Build, dir: Dir, a: nat, j: nat, e: nat)
    requires |dir| == UDirs(w) && a <= j <= e <= UPages(w)
    ensures Need(w, dir, a, e) >= Need(w, dir, a, j) + (e - j)
    decreases e - a
  {
    if a < j {
      PageDiv(w, a);
      NeedGrows(w, dir[Dx(w, a) := Some(0)], a + 1, j, e);
    } else if a < e {
      PageDiv(w, a);
      NeedGrows(w, dir[Dx(w, a) := Some(0)], a + 1, a + 1, e);
    }
  }

  /** Out of frames before the end. */
  lemma Shortage(w: Build, dir0: Dir, k: nat, dir: Dir, a: nat, e: nat, frames0: nat, hole: bool)
    requires |dir0| == UDirs(w) == |dir| && k <= a < e <= UPages(w)
    requires if hole then Short(w, dir0, k, a, frames0) else Tracks(w, dir0, k, dir, a, e, frames0, 0)
    ensures GrowthOf(w, dir0, k, e, frames0) == Fails && (Loses(w, dir0, k, e, frames0) <==> hole)
  {
    hide Need, LastNew;
    if hole {
      NeedGrows(w, dir0, k, a, e);
    } else {
      forall j | k < j <= e ensures !(frames0 == Need(w, dir0, k, j) - 1 && LastNew(w, dir0, k, j)) {
        if j > a { NeedStep(w, dir, a, j); }
      }
      NeedStep(w, dir, a, e);
    }
  }

  /** All pages done. */
  lemma Outcome(w: Build, dir0: Dir, k: nat, dir: Dir, e: nat, frames0: nat, frames: nat, hole: bool)
    requires |dir0| == UDirs(w) == |dir| && k <= e <= UPages(w)
    requires if hole then Short(w, dir0, k, e, frames0) else Tracks(w, dir0, k, dir, e, e, frames0, frames)
    ensures GrowthOf(w, dir0, k, e, frames0) == (if hole then LacksLast else Grows)
      && (Loses(w, dir0, k, e, frames0) <==> hole)
  {
    hide Need, LastNew;
  }

  /** From page k on, the pages below a are mapped and no others. */
  ghost predicate From(w: Build, mem: seq<Frame>, dir: Dir, k: nat, a: nat)
    requires DirOk(w, mem, dir)
  {
    forall p | k <= p < UPages(w) :: Entry(w, mem, dir, p).present <==> p < a
  }

  /** The pages from lo up to hi are zero, writable and the user's. */
  ghost predicate ZeroPages(w: Build, mem: seq<Frame>, dir: Dir, lo: nat, hi: nat)
    requires DirOk(w, mem, dir)
  {
    forall p | lo <= p < hi && p < UPages(w) ::
      && Entry(w, mem, dir, p).present && Entry(w, mem, dir, p).flags == PTE_W + PTE_U
      && Entry(w, mem, dir, p).frame < |mem|
      && mem[Entry(w, mem, dir, p).frame] == Page(seq(PGSIZE, _ => 0))
  }

  /** The frames of the pages from lo up to hi of space d are out of use, all others as before. */
  ghost predicate Freed(d: nat, lo: nat, hi: nat, owner0: map<nat, Use>, owner: map<nat, Use>) {
    && (forall f | f in owner0 :: f in owner <==> !(owner0[f].PageOf? && owner0[f].d == d && lo <= owner0[f].p < hi))
    && (forall f | f in owner :: f in owner0 && owner[f] == owner0[f])
  }

  lemma PagesFit(w: Build, sz: nat)
    requires sz <= Top(w)
    ensures Pages(sz) <= UPages(w)
  { }

  lemma OnePage(w: Build, mem: seq<Frame>, dirs: map<nat, Dir>, free: seq<nat>, owner: map<nat, Use>, d: nat, a: nat)
    requires Good(w, mem, dirs, free, owner)
    ensures forall f, g | f in owner && g in owner && owner[f] == PageOf(d, a) && owner[g] == PageOf(d, a) :: f == g
  { }

  lemma PagesMono(a: nat, b: nat)
    requires a <= b
    ensures Pages(a) <= Pages(b)
  { }

  lemma AtEnd(a: nat, sz: nat)
    requires a * PGSIZE >= sz
    ensures Pages(sz) <= a
  { }

  // ------------------------------------------------- which pages a walk gets to

  /** All tables from i up to j are missing. */
  predicate NoneBetween(dir: Dir, i: nat, j: nat) {
    forall x | i <= x < j && x < |dir| :: dir[x].None?
  }

  /** The walk from page k passes page q by: it comes from a table that is missing, and enters that of q further on. */
  predicate Missed(w: Build, dir: Dir, k: nat, q: nat) {
    && k < UPages(w) && q < UPages(w)
    && Dx(w, k) < Dx(w, q) && Tx(w, q) < Tx(w, k) && NoneBetween(dir, Dx(w, k), Dx(w, q))
  }

  /** The pages from k up to a that are mapped and that the walk gets to. */
  ghost function Due(w: Build, mem: seq<Frame>, dir: Dir, k: nat, a: nat): set<nat>
    requires DirOk(w, mem, dir)
  {
    set q: nat | k <= q < a && q < UPages(w) && Entry(w, mem, dir, q).present && !Missed(w, dir, k, q)
  }

  /** The walk from k is at a: not at a page that it misses, and inside a missing table only where it came in. */
  ghost predicate OnTrack(w: Build, dir: Dir, k: nat, a: nat)
    requires |dir| == UDirs(w)
  {
    a < UPages(w) ==>
      && k < UPages(w) && Dx(w, k) <= Dx(w, a) < UDirs(w) && !Missed(w, dir, k, a)
      && (dir[Dx(w, a)].None? ==> Tx(w, a) == if NoneBetween(dir, Dx(w, k), Dx(w, a)) then Tx(w, k) else 0)
  }

  lemma TrackStart(w: Build, dir: Dir, k: nat)
    requires |dir| == UDirs(w)
    ensures OnTrack(w, dir, k, k)
  {
    if k < UPages(w) { PageDiv(w, k); }
    hide Dx, Tx;
  }

  lemma TrackSkip(w: Build, dir: Dir, k: nat, a: nat)
    requires |dir| == UDirs(w) && k <= a < UPages(w) && OnTrack(w, dir, k, a) && dir[Dx(w, a)].None?
    ensures OnTrack(w, dir, k, a + Npt(w))
  {
    NextPlace(w, a);
    if a + Npt(w) < UPages(w) { PageDiv(w, a + Npt(w)); }
    hide Dx, Tx;
  }

  lemma TrackOn(w: Build, dir: Dir, k: nat, a: nat)
    requires |dir| == UDirs(w) && k <= a < UPages(w) && OnTrack(w, dir, k, a) && dir[Dx(w, a)].Some?
    ensures OnTrack(w, dir, k, a + 1) && !Missed(w, dir, k, a)
  {
    if a + 1 < UPages(w) {
      NextPlace(w, a);
      PageDiv(w, a + 1);
      NextTx(w, a);
    }
    hide Dx, Tx;
  }

  lemma NextTx(w: Build, a: nat)
    requires a + 1 < UPages(w)
    ensures Dx(w, a + 1) == Dx(w, a) ==> Tx(w, a + 1) == Tx(w, a) + 1
  {
    PageIs(w, a);
    PageIs(w, a + 1);
    hide Dx, Tx;
  }

  lemma DueNone(w: Build, mem: seq<Frame>, dir: Dir, k: nat, a: nat)
    requires DirOk(w, mem, dir) && a <= k
    ensures Due(w, mem, dir, k, a) == {}
  { }

  lemma DueTop(w: Build, mem: seq<Frame>, dir: Dir, k: nat, a: nat)
    requires DirOk(w, mem, dir) && a >= UPages(w)
    ensures Due(w, mem, dir, k, a) == Due(w, mem, dir, k, UPages(w))
  {
    hide Missed, Entry;
  }

  /** Skipping a missing table skips nothing that the walk would get to. */
  lemma DueSkip(w: Build, mem: seq<Frame>, dir: Dir, k: nat, a: nat, b: nat)
    requires DirOk(w, mem, dir) && k <= a < UPages(w) && OnTrack(w, dir, k, a) && dir[Dx(w, a)].None?
    requires a <= b <= a + Npt(w)
    ensures Due(w, mem, dir, k, b) == Due(w, mem, dir, k, a)
  {
    hide Dx, Tx, OnTrack, Missed;
    forall q: nat | a <= q < b && q < UPages(w) ensures !Entry(w, mem, dir, q).present || Missed(w, dir, k, q) {
      SkippedPage(w, mem, dir, k, a, q);
    }
    hide Entry;
  }

  lemma SkippedPage(w: Build, mem: seq<Frame>, dir: Dir, k: nat, a: nat, q: nat)
    requires DirOk(w, mem, dir) && k <= a < UPages(w) && OnTrack(w, dir, k, a) && dir[Dx(w, a)].None?
    requires a <= q < a + Npt(w) && q < UPages(w)
    ensures !Entry(w, mem, dir, q).present || Missed(w, dir, k, q)
  {
    hide Dx, Tx;
    PageDiv(w, q);
    PageDiv(w, a);
    PageIs(w, a);
    PageIs(w, q);
    match w
    case X64 => assert Dx(w, q) == Dx(w, a) || (Dx(w, q) == Dx(w, a) + 1 && Tx(w, q) < Tx(w, a));
    case X86 => assert Dx(w, q) == Dx(w, a) || (Dx(w, q) == Dx(w, a) + 1 && Tx(w, q) < Tx(w, a));
  }

  lemma DueNext(w: Build, mem: seq<Frame>, dir: Dir, k: nat, a: nat)
    requires DirOk(w, mem, dir) && k <= a < UPages(w) && !Missed(w, dir, k, a)
    ensures a !in Due(w, mem, dir, k, a)
    ensures Due(w, mem, dir, k, a + 1) ==
      Due(w, mem, dir, k, a) + (if Entry(w, mem, dir, a).present then {a} else {})
  {
    hide Missed, Entry;
  }

  /** The pages of d in gone are not mapped any more, and every other page is as before. */
  ghost predicate Removed(w: Build, mem0: seq<Frame>, mem: seq<Frame>, dirs: map<nat, Dir>, d: nat, gone: set<nat>)
    requires Shape(w, mem0, dirs) && Shape(w, mem, dirs) && d in dirs
  {
    && KeptBar(w, mem0, dirs, mem, dirs, d, gone)
    && (forall q | q in gone && q < UPages(w) :: !Entry(w, mem, dirs[d], q).present)
  }

  lemma RemovedNone(w: Build, mem: seq<Frame>, dirs: map<nat, Dir>, free: seq<nat>, owner: map<nat, Use>, d: nat)
    requires Good(w, mem, dirs, free, owner) && d in dirs
    ensures Removed(w, mem, mem, dirs, d, {}) && FreedSet(d, {}, owner, owner)
  {
    BarNone(w, mem, dirs, free, owner, d);
  }

  lemma StillThere(w: Build, mem0: seq<Frame>, mem: seq<Frame>, dirs: map<nat, Dir>, d: nat, gone: set<nat>, k: nat,
      a: nat)
    requires Shape(w, mem0, dirs) && Shape(w, mem, dirs) && d in dirs && Removed(w, mem0, mem, dirs, d, gone)
    requires gone == Due(w, mem0, dirs[d], k, a) && a < UPages(w)
    ensures Entry(w, mem, dirs[d], a).present <==> Entry(w, mem0, dirs[d], a).present
  {
    hide Missed, Entry;
    assert a !in gone;
    assert SamePage(w, mem0, dirs[d], mem, dirs[d], a);
  }

  /** Nothing is left of pages that were mapped one after the other. */
  lemma Undone(w: Build, mem0: seq<Frame>, mem: seq<Frame>, dirs: map<nat, Dir>, d: nat, gone: set<nat>, k: nat,
      n: nat, e: nat)
    requires Shape(w, mem0, dirs) && Shape(w, mem, dirs) && d in dirs && Removed(w, mem0, mem, dirs, d, gone)
    requires gone == Due(w, mem0, dirs[d], k, e) && From(w, mem0, dirs[d], k, n) && k <= n <= e
    ensures From(w, mem, dirs[d], k, k) && Kept(w, mem0, dirs, mem, dirs, d, k)
  {
    hide Dx, Tx, Entry;
    BarKept(w, mem0, dirs, mem, dirs, d, gone, k);
    forall q | k <= q < UPages(w) ensures !Entry(w, mem, dirs[d], q).present {
      if q in gone {
      } else {
        assert SamePage(w, mem0, dirs[d], mem, dirs[d], q);
        if Entry(w, mem0, dirs[d], q).present { NotMissed(w, mem0, dirs[d], k, q); }
      }
    }
  }

  lemma NotMissed(w: Build, mem: seq<Frame>, dir: Dir, k: nat, q: nat)
    requires DirOk(w, mem, dir) && k <= q < UPages(w) && Entry(w, mem, dir, k).present
    ensures !Missed(w, dir, k, q)
  {
    PageDiv(w, k);
    hide Dx, Tx;
  }

  lemma RemovedMore(w: Build, mem0: seq<Frame>, mem1: seq<Frame>, mem: seq<Frame>, dirs: map<nat, Dir>, d: nat,
      gone: set<nat>, a: nat)
    requires Shape(w, mem0, dirs) && Shape(w, mem1, dirs) && Shape(w, mem, dirs) && d in dirs && a < UPages(w)
    requires Removed(w, mem0, mem1, dirs, d, gone) && KeptBar(w, mem1, dirs, mem, dirs, d, {a})
    requires !Entry(w, mem, dirs[d], a).present
    ensures Removed(w, mem0, mem, dirs, d, gone + {a})
  {
    hide Entry;
    forall e, q {:trigger SamePage(w, mem0, dirs[e], mem, dirs[e], q)}
      | e in dirs && 0 <= q < UPages(w) && !(e == d && q in gone + {a})
      ensures SamePage(w, mem0, dirs[e], mem, dirs[e], q)
    {
      assert SamePage(w, mem0, dirs[e], mem1, dirs[e], q) && SamePage(w, mem1, dirs[e], mem, dirs[e], q);
    }
    forall q | q in gone + {a} && q < UPages(w) ensures !Entry(w, mem, dirs[d], q).present {
      if q != a { assert SamePage(w, mem1, dirs[d], mem, dirs[d], q); }
    }
  }

  /** The frames of the pages of space d in gone are out of use, all others as before. */
  ghost predicate FreedSet(d: nat, gone: set<nat>, owner0: map<nat, Use>, owner: map<nat, Use>) {
    && (forall f | f in owner0 :: f in owner <==> !(owner0[f].PageOf? && owner0[f].d == d && owner0[f].p in gone))
    && (forall f | f in owner :: f in owner0 && owner[f] == owner0[f])
  }

  lemma FreedOne(d: nat, gone: set<nat>, a: nat, owner0: map<nat, Use>, owner1: map<nat, Use>, owner: map<nat, Use>)
    requires FreedSet(d, gone, owner0, owner1) && exists m ::
      m in owner1 && owner1[m] == PageOf(d, a) && owner == owner1 - {m}
    requires forall f, g | f in owner1 && g in owner1 && owner1[f] == PageOf(d, a) && owner1[g] == PageOf(d, a) ::
      f == g
    ensures FreedSet(d, gone + {a}, owner0, owner)
  { }

  lemma StillInHand(w: Build, mem0: seq<Frame>, free0: seq<nat>, owner0: map<nat, Use>, mem: seq<Frame>,
      free: seq<nat>, owner: map<nat, Use>, m: nat, d: nat, i: nat, added: bool)
    requires InHand(mem0, free0, owner0, m) && mem0[m].Page? && |mem| == |mem0|
    requires if added then free0 != [] && free0[0] < |mem0| && free == free0[1..]
      && mem == mem0[free0[0] := EmptyTable(w)] && owner == owner0[free0[0] := TableOf(d, i)]
      else free == free0 && mem == mem0 && owner == owner0
    ensures InHand(mem, free, owner, m) && mem[m] == mem0[m]
  { }

  lemma MappedKept(w: Build, mem0: seq<Frame>, dirs0: map<nat, Dir>, free0: seq<nat>, owner0: map<nat, Use>,
      mem1: seq<Frame>, dirs1: map<nat, Dir>, free1: seq<nat>, owner1: map<nat, Use>, mem: seq<Frame>, d: nat, p: nat,
      m: nat, t: nat)
    requires Good(w, mem0, dirs0, free0, owner0) && Good(w, mem1, dirs1, free1, owner1) && Shape(w, mem, dirs1)
      && dirs1.Keys == dirs0.Keys && |mem| == |mem1| == |mem0|
    requires forall e, q | e in dirs0 && 0 <= q < UPages(w) ::
      Entry(w, mem1, dirs1[e], q) == Entry(w, mem0, dirs0[e], q)
    requires (mem1 == mem0) || (t !in owner0 && forall f | 0 <= f < |mem0| && f != t :: mem1[f] == mem0[f])
    requires EntriesBut(w, mem1, dirs1, mem, dirs1, d, p)
      && (forall f | 0 <= f < |mem1| && mem1[f].Page? :: mem[f] == mem1[f]) && m !in owner1
    ensures Kept(w, mem0, dirs0, mem, dirs1, d, p) && EntriesBut(w, mem0, dirs0, mem, dirs1, d, p)
  {
    hide TablesOwned, FreeOk, PagesOwned, Kept;
    if mem1 == mem0 {
      KeptSame(w, mem0, dirs0, free0, owner0, dirs1, d, p);
    } else {
      KeptAll(w, mem0, dirs0, free0, owner0, mem1, dirs1, d, t, p);
    }
    KeptBut(w, mem1, dirs1, free1, owner1, mem, dirs1, d, p, m, p);
    KeptTwice(w, mem0, dirs0, mem1, dirs1, mem, dirs1, d, p);
  }

  lemma KeptSame(w: Build, mem: seq<Frame>, dirs0: map<nat, Dir>, free0: seq<nat>, owner0: map<nat, Use>,
      dirs: map<nat, Dir>, d: nat, keep: nat)
    requires Good(w, mem, dirs0, free0, owner0) && Shape(w, mem, dirs) && dirs.Keys == dirs0.Keys
    requires forall e, q | e in dirs0 && 0 <= q < UPages(w) :: Entry(w, mem, dirs[e], q) == Entry(w, mem, dirs0[e], q)
    ensures Kept(w, mem, dirs0, mem, dirs, d, keep)
  {
    forall e, q | e in dirs0 && 0 <= q < UPages(w) ensures SamePage(w, mem, dirs0[e], mem, dirs[e], q) {
      if Entry(w, mem, dirs0[e], q).present { assert PageOk(mem, owner0, e, q, Entry(w, mem, dirs0[e], q).frame); }
    }
  }

  // ------------------------------------------------- lemmas for allocuvm()

  lemma PagesUp(w: Build, oldsz: nat, newsz: nat)
    requires oldsz <= newsz && oldsz <= Top(w)
    ensures Pages(oldsz) <= Pages(newsz) && Pages(oldsz) <= UPages(w) && (newsz <= Top(w) ==> Pages(newsz) <= UPages(w))
  {
    PagesFit(w, oldsz);
    if newsz <= Top(w) { PagesFit(w, newsz); }
  }

  lemma BelowEnd(a: nat, newsz: nat)
    requires a * PGSIZE < newsz
    ensures a < Pages(newsz)
  { }

  lemma PagesEnd(a: nat, newsz: nat)
    requires a * PGSIZE >= newsz && a <= Pages(newsz)
    ensures a == Pages(newsz)
  { }

  lemma NoPages(w: Build, mem: seq<Frame>, dir: Dir, a: nat)
    requires DirOk(w, mem, dir)
    ensures ZeroPages(w, mem, dir, a, a)
  { }

  lemma NextAbsent(w: Build, mem: seq<Frame>, dir: Dir, k: nat, a: nat)
    requires DirOk(w, mem, dir) && From(w, mem, dir, k, a) && k <= a < UPages(w)
    ensures !Entry(w, mem, dir, a).present
  { }

  lemma {:induction false} NeedSame(w: Build, dir: Dir, dir': Dir, a: nat, e: nat)
    requires |dir| == UDirs(w) == |dir'| && e <= UPages(w) && forall i | 0 <= i < UDirs(w) ::
      dir[i].None? <==> dir'[i].None?
    ensures Need(w, dir, a, e) == Need(w, dir', a, e)
    decreases e - a
  {
    if a < e {
      PageDiv(w, a);
      NeedSame(w, dir[Dx(w, a) := Some(0)], dir'[Dx(w, a) := Some(0)], a + 1, e);
    }
  }

  lemma NeedNone(w: Build, dir: Dir, a: nat, e: nat)
    requires |dir| == UDirs(w) && e <= UPages(w) && a >= e
    ensures Need(w, dir, a, e) == 0
  { }

  /** Without a frame the failure is not that of the last table, unless the page before made it so. */
  lemma NeedStep(w: Build, dir: Dir, a: nat, e: nat)
    requires |dir| == UDirs(w) && a < e <= UPages(w)
    ensures Need(w, dir, a, e) >= 1 && (Need(w, dir, a, e) == 1 ==> !LastNew(w, dir, a, e))
    ensures Dx(w, a) < UDirs(w) && (dir[Dx(w, a)].None? ==> Need(w, dir, a, e) >= 2)
    ensures dir[Dx(w, a)].None? && a + 1 < e ==> Need(w, dir, a, e) >= 3
    ensures dir[Dx(w, a)].None? && a + 1 == e ==> Need(w, dir, a, e) == 2 && LastNew(w, dir, a, e)
  {
    PageDiv(w, a);
  }

  lemma NeedAfter(w: Build, dir: Dir, dir': Dir, a: nat, e: nat)
    requires |dir| == UDirs(w) && a < e <= UPages(w) && Dx(w, a) < UDirs(w) && |dir'| == UDirs(w)
      && dir'[Dx(w, a)].Some?
    requires dir' == dir[Dx(w, a) := dir'[Dx(w, a)]]
    ensures Need(w, dir', a + 1, e) == Need(w, dir, a, e) - 1 - (if dir[Dx(w, a)].None? then 1 else 0)
    ensures a + 1 < e ==> (LastNew(w, dir', a + 1, e) <==> LastNew(w, dir, a, e))
  {
    hide Dx, Tx;
    NeedSame(w, dir', dir[Dx(w, a) := Some(0)], a + 1, e);
    if a + 1 < e { LastAfter(w, dir, dir', a, e); }
  }

  lemma LastAfter(w: Build, dir: Dir, dir': Dir, a: nat, e: nat)
    requires |dir| == UDirs(w) && a + 1 < e <= UPages(w) && Dx(w, a) < UDirs(w) && |dir'| == UDirs(w)
      && dir'[Dx(w, a)].Some?
    requires dir' == dir[Dx(w, a) := dir'[Dx(w, a)]]
    ensures LastNew(w, dir', a + 1, e) <==> LastNew(w, dir, a, e)
  {
    hide Dx, Tx;
    PageDiv(w, e - 1);
    if Dx(w, a) == Dx(w, e - 1) { SameTable(w, a, e - 1); }
    if e - 1 == a + 1 && Dx(w, a + 1) != Dx(w, a) { NextFirst(w, a); }
  }

  lemma NextFirst(w: Build, a: nat)
    requires a + 1 < UPages(w) && Dx(w, a + 1) != Dx(w, a)
    ensures Tx(w, a + 1) == 0
  {
    NextPlace(w, a);
  }

  lemma SameTable(w: Build, a: nat, b: nat)
    requires a < b < UPages(w) && Dx(w, a) == Dx(w, b)
    ensures Tx(w, b) != 0
  {
    PageIs(w, a);
    PageIs(w, b);
  }

  lemma SameFrom(w: Build, mem0: seq<Frame>, mem: seq<Frame>, dirs: map<nat, Dir>, d: nat, a: nat, keep: nat)
    requires Shape(w, mem0, dirs) && Shape(w, mem, dirs) && d in dirs && From(w, mem0, dirs[d], keep, a)
      && Kept(w, mem0, dirs, mem, dirs, d, a)
    requires forall e, q | e in dirs && 0 <= q < UPages(w) :: Entry(w, mem, dirs[e], q) == Entry(w, mem0, dirs[e], q)
    ensures From(w, mem, dirs[d], keep, a)
  { }

  lemma ZeroMore(w: Build, mem0: seq<Frame>, dirs0: map<nat, Dir>, memA: seq<Frame>, mem1: seq<Frame>,
      dirs1: map<nat, Dir>, mem: seq<Frame>, dirs: map<nat, Dir>, d: nat, a: nat, m: nat, keep: nat, ok: bool)
    requires Shape(w, mem0, dirs0) && Shape(w, memA, dirs1) && Shape(w, mem1, dirs1) && Shape(w, mem, dirs)
      && d in dirs1 && d in dirs && keep <= a < UPages(w)
    requires Kept(w, mem0, dirs0, memA, dirs1, d, keep) && Kept(w, memA, dirs1, mem1, dirs1, d, a)
      && ZeroPages(w, memA, dirs1[d], keep, a) && From(w, mem1, dirs1[d], keep, a)
    requires m < |mem1| && mem1[m] == Page(seq(PGSIZE, _ => 0))
    requires if ok then EntriesBut(w, mem1, dirs1, mem, dirs, d, a)
      && Entry(w, mem, dirs[d], a) == Pte(true, m, PTE_W + PTE_U)
               && Kept(w, mem1, dirs1, mem, dirs, d, a) && m < |mem| && mem[m] == mem1[m]
             else mem == mem1 && dirs == dirs1
    ensures Kept(w, mem0, dirs0, mem, dirs, d, keep)
    ensures if ok then From(w, mem, dirs[d], keep, a + 1) && ZeroPages(w, mem, dirs[d], keep, a + 1)
      else From(w, mem, dirs[d], keep, a)
  {
    KeptLessEq(w, memA, dirs1, mem1, dirs1, d, a, keep);
    KeptTwice(w, mem0, dirs0, memA, dirs1, mem1, dirs1, d, keep);
    if ok {
      KeptLessEq(w, mem1, dirs1, mem, dirs, d, a, keep);
      KeptTwice(w, mem0, dirs0, mem1, dirs1, mem, dirs, d, keep);
      ZeroStill(w, memA, dirs1, mem1, dirs1, d, keep, a);
      ZeroStill(w, mem1, dirs1, mem, dirs, d, keep, a);
      hide Kept;
    }
  }

  lemma ZeroStill(w: Build, mem0: seq<Frame>, dirs0: map<nat, Dir>, mem: seq<Frame>, dirs: map<nat, Dir>, d: nat,
      lo: nat, hi: nat)
    requires Shape(w, mem0, dirs0) && Shape(w, mem, dirs) && d in dirs0 && d in dirs
      && ZeroPages(w, mem0, dirs0[d], lo, hi) && Kept(w, mem0, dirs0, mem, dirs, d, hi)
    ensures ZeroPages(w, mem, dirs[d], lo, hi)
  {
    forall p | lo <= p < hi && p < UPages(w)
      ensures Entry(w, mem, dirs[d], p).present && Entry(w, mem, dirs[d], p).flags == PTE_W + PTE_U
        && Entry(w, mem, dirs[d], p).frame < |mem|
      ensures mem[Entry(w, mem, dirs[d], p).frame] == Page(seq(PGSIZE, _ => 0))
    {
      assert SamePage(w, mem0, dirs0[d], mem, dirs[d], p);
    }
  }

  lemma KeptLessEq(w: Build, mem0: seq<Frame>, dirs0: map<nat, Dir>, mem: seq<Frame>, dirs: map<nat, Dir>, d: nat,
      keep: nat, less: nat)
    requires Shape(w, mem0, dirs0) && Shape(w, mem, dirs) && Kept(w, mem0, dirs0, mem, dirs, d, keep) && less <= keep
    ensures Kept(w, mem0, dirs0, mem, dirs, d, less)
  { }

  /** Nothing is missed from a page whose table is there, or that is the first of its table, or below which
      everything is mapped. */
  lemma MissesNothing(w: Build, mem: seq<Frame>, dir: Dir, k: nat, n: nat, q: nat)
    requires DirOk(w, mem, dir) && k < UPages(w) && q < UPages(w) && Dx(w, k) < UDirs(w)
    requires dir[Dx(w, k)].Some? || Tx(w, k) == 0 || (Prefix(w, mem, dir, n) && k <= n)
    ensures Entry(w, mem, dir, q).present ==> !Missed(w, dir, k, q)
  {
    hide Dx, Tx;
    PageDiv(w, q);
    if dir[Dx(w, k)].None? && Tx(w, k) > 0 && Missed(w, dir, k, q) {
      PageIs(w, k);
      PageIs(w, q);
      AfterIt(w, k, q);
      assert !Entry(w, mem, dir, k).present;
    }
  }

  lemma AfterIt(w: Build, k: nat, q: nat)
    requires k < UPages(w) && q < UPages(w) && Dx(w, k) < Dx(w, q)
    ensures k < q
  {
    PageIs(w, k);
    PageIs(w, q);
    PageDiv(w, k);
    hide Dx, Tx;
  }

  /** Shrinking to one page a space whose first table is missing and whose second is there: the first page of that
      table stays mapped. */
  lemma LeftBehind(w: Build, mem: seq<Frame>, dir: Dir)
    requires DirOk(w, mem, dir) && dir[0].None? && Entry(w, mem, dir, Npt(w)).present
    ensures Npt(w) !in Due(w, mem, dir, 1, UPages(w))
  {
    assert Missed(w, dir, 1, Npt(w));
  }

  /** An empty address space of one page and one frame left: the frame becomes the page and the table is missing. */
  lemma LastTableMissing(w: Build)
    ensures GrowthOf(w, seq(UDirs(w), _ => None), 0, 1, 1) == LacksLast
  {
    var dir: Dir := seq(UDirs(w), _ => None);
    assert Need(w, dir[0 := Some(0)], 1, 1) == 0;
  }

  /** sbrk() of 1 GB and a page in the 64-bit build. */
  lemma TooLarge()
    ensures Top(X64) == 510 * 512 * PGSIZE && 0x4000_1000 > Top(X64) && Reserved(X64, Top(X64) / PGSIZE)
  { }
}
