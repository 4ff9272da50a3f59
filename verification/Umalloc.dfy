/** ulib/umalloc.c: the user-level allocator. Memory is counted in headers: 16 bytes each in the 64-bit
    build, 8 in the 32-bit build. */
module Umalloc {
  import opened Basics

  const MINUNITS: nat := 4096

  datatype Header = Header(ptr: nat, size: nat)

  // ------------------------------------------------- the units of memory

  /** The blocks, header address to length, are non-empty and do not overlap. */
  ghost predicate Apart(tiles: map<nat, nat>) {
    && (forall h | h in tiles :: tiles[h] > 0)
    && (forall g, h | g in tiles && h in tiles && g < h :: g + tiles[g] <= h)
  }

  predicate Within(h: nat, n: nat, u: int) {
    h <= u < h + n
  }

  ghost predicate FreeUnit(tiles: map<nat, nat>, used: set<nat>, u: int) {
    exists h | h in tiles && h !in used :: Within(h, tiles[h], u)
  }

  /** Every unit is as free as before. */
  ghost predicate SameUnits(tiles: map<nat, nat>, used: set<nat>, tiles': map<nat, nat>, used': set<nat>) {
    forall u :: FreeUnit(tiles', used', u) <==> FreeUnit(tiles, used, u)
  }

  ghost function Joined(tiles: map<nat, nat>, a: nat, b: nat): map<nat, nat>
    requires a in tiles && b in tiles
  {
    tiles[a := tiles[a] + tiles[b]] - {b}
  }

  lemma JoinApart(tiles: map<nat, nat>, a: nat, b: nat)
    requires Apart(tiles) && a in tiles && b in tiles && a + tiles[a] == b
    ensures Apart(Joined(tiles, a, b)) && a != b
  { }

  lemma JoinUnit(tiles: map<nat, nat>, used: set<nat>, a: nat, b: nat, u: int)
    requires a in tiles && b in tiles && a !in used && b !in used && a + tiles[a] == b && a != b
    ensures FreeUnit(Joined(tiles, a, b), used, u) <==> FreeUnit(tiles, used, u)
  {
    var tiles' := Joined(tiles, a, b);
    if FreeUnit(tiles, used, u) {
      var h :| h in tiles && h !in used && Within(h, tiles[h], u);
      var g := if h == b then a else h;
      assert g in tiles' && Within(g, tiles'[g], u);
    }
    if FreeUnit(tiles', used, u) {
      var h :| h in tiles' && h !in used && Within(h, tiles'[h], u);
      var g := if h == a && u >= b then b else h;
      assert g in tiles && Within(g, tiles[g], u);
    }
  }

  /** Joining two free blocks that touch keeps blocks apart and every unit free. */
  lemma JoinKeeps(tiles: map<nat, nat>, used: set<nat>, a: nat, b: nat)
    requires Apart(tiles) && a in tiles && b in tiles && a !in used && b !in used && a + tiles[a] == b
    ensures Apart(Joined(tiles, a, b)) && SameUnits(tiles, used, Joined(tiles, a, b), used)
  {
    JoinApart(tiles, a, b);
    forall u ensures FreeUnit(Joined(tiles, a, b), used, u) <==> FreeUnit(tiles, used, u) {
      JoinUnit(tiles, used, a, b, u);
    }
    hide *;
  }

  // ------------------------------------------------- the free list

  /** n is the node after h: the next higher one, or the lowest when h is the highest. */
  ghost predicate Succ(nodes: set<nat>, h: nat, n: nat) {
    && n in nodes
    && forall g | g in nodes :: if n > h then g <= h || g >= n else n <= g <= h
  }

  ghost predicate Linked(mem: seq<Header>, nodes: set<nat>, but: set<nat>) {
    && (forall h | h in nodes :: h < |mem|)
    && (forall h {:trigger mem[h]} | h in nodes && h !in but :: Succ(nodes, h, mem[h].ptr))
  }

  lemma SuccOf(mem: seq<Header>, nodes: set<nat>, h: nat)
    requires Linked(mem, nodes, {}) && h in nodes
    ensures h < |mem| && Succ(nodes, h, mem[h].ptr)
  {
    hide Succ;
  }

  /** No two free blocks touch. */
  ghost predicate Coalesced(tiles: map<nat, nat>, used: set<nat>) {
    forall g, h | g in tiles && h in tiles && g !in used && h !in used && g < h :: g + tiles[g] < h
  }

  /** Headers hold the lengths; base, of length 0, lies below the heap. */
  ghost predicate Sized(mem: seq<Header>, base: nat, tiles: map<nat, nat>) {
    && 0 < base < |mem| && mem[base].size == 0
    && (forall h | h in tiles :: base < h && h + tiles[h] <= |mem| && h < |mem| && mem[h].size == tiles[h])
  }

  ghost function Nodes(base: nat, tiles: map<nat, nat>, used: set<nat>): set<nat> {
    {base} + (tiles.Keys - used)
  }

  ghost predicate Heap(mem: seq<Header>, base: nat, tiles: map<nat, nat>, used: set<nat>) {
    && Sized(mem, base, tiles) && Apart(tiles) && used <= tiles.Keys && Coalesced(tiles, used)
    && Linked(mem, Nodes(base, tiles, used), {})
  }

  // ------------------------------------------------- what free() does to the list

  /** The loop of free() stops exactly at the node after which bp belongs. */
  lemma StopsThere(mem: seq<Header>, base: nat, tiles: map<nat, nat>, used: set<nat>, p: nat, bp: nat)
    requires Heap(mem, base, tiles, used) && bp in used && p in Nodes(base, tiles, used)
    ensures p < |mem|
    ensures var next := mem[p].ptr;
      (bp > p && bp < next) || (p >= next && (bp > p || bp < next)) <==> p < bp && (next > bp || next == base)
  {
    hide Linked, Coalesced;
    SuccOf(mem, Nodes(base, tiles, used), p);
  }

  /** Otherwise it comes nearer to bp, going around the list at most once. */
  lemma GoesOn(mem: seq<Header>, base: nat, tiles: map<nat, nat>, used: set<nat>, p: nat, bp: nat)
    requires Heap(mem, base, tiles, used) && bp in used && p in Nodes(base, tiles, used)
    requires var next := mem[p].ptr; !(bp > p && bp < next) && !(p >= next && (bp > p || bp < next))
    ensures var next := mem[p].ptr;
      && next in Nodes(base, tiles, used) && next < |mem|
      && 0 <= (if next < bp then bp - next else |mem| - next + bp) < (if p < bp then bp - p else |mem| - p + bp)
  {
    hide Linked, Coalesced;
    SuccOf(mem, Nodes(base, tiles, used), p);
    SuccOf(mem, Nodes(base, tiles, used), mem[p].ptr);
  }

  /** bp is free, stands outside the list after p, and touches no later block. */
  ghost predicate Pending(mem: seq<Header>, base: nat, tiles: map<nat, nat>, used: set<nat>, p: nat, bp: nat) {
    && Sized(mem, base, tiles) && Apart(tiles) && used <= tiles.Keys && bp in tiles && bp !in used
    && p in Nodes(base, tiles, used + {bp}) && p < bp
    && Coalesced(tiles, used + {bp})
    && Linked(mem, Nodes(base, tiles, used + {bp}), {p}) && Succ(Nodes(base, tiles, used + {bp}), p, mem[bp].ptr)
    && (forall g | g in Nodes(base, tiles, used + {bp}) :: g <= p || bp + tiles[bp] < g)
  }

  /** No other node than p leads to its successor. */
  lemma OnePredecessor(mem: seq<Header>, nodes: set<nat>, p: nat, h: nat)
    requires Linked(mem, nodes, {}) && p in nodes && h in nodes && mem[p].ptr == mem[h].ptr
    ensures p == h
  {
    hide Linked;
    SuccOf(mem, nodes, p);
    SuccOf(mem, nodes, h);
  }

  lemma SuccWithout(nodes: set<nat>, h: nat, n: nat, b: nat)
    requires Succ(nodes, h, n) && n != b
    ensures Succ(nodes - {b}, h, n)
  { }

  lemma SuccSkips(nodes: set<nat>, p: nat, b: nat, n: nat)
    requires Succ(nodes, p, b) && Succ(nodes, b, n) && b != p && p in nodes
    ensures Succ(nodes - {b}, p, n)
  { }

  /** Taking the node after p out of the list. */
  lemma Unlink(mem: seq<Header>, nodes: set<nat>, p: nat)
    requires Linked(mem, nodes, {}) && p in nodes && mem[p].ptr != p
    ensures var b := mem[p].ptr;
      b in nodes && Linked(mem, nodes - {b}, {p}) && Succ(nodes - {b}, p, mem[b].ptr)
  {
    hide Succ;
    var b := mem[p].ptr;
    SuccIsNode(nodes, p, b);
    SuccSkips(nodes, p, b, mem[b].ptr);
    forall h | h in nodes - {b} && h != p ensures Succ(nodes - {b}, h, mem[h].ptr) {
      if mem[h].ptr == b { OnePredecessor(mem, nodes, p, h); }
      SuccWithout(nodes, h, mem[h].ptr, b);
    }
  }

  lemma SuccIsNode(nodes: set<nat>, p: nat, b: nat)
    requires Succ(nodes, p, b)
    ensures b in nodes
  { }

  /** bp takes over the block that follows it. */
  lemma JoinNext(mem: seq<Header>, base: nat, tiles: map<nat, nat>, used: set<nat>, p: nat, bp: nat)
    requires Heap(mem, base, tiles, used) && bp in used && p in Nodes(base, tiles, used)
    requires p < bp < mem[p].ptr && bp + tiles[bp] == mem[p].ptr
    ensures var b := mem[p].ptr;
      && b in tiles
      && Pending(mem[bp := Header(mem[b].ptr, mem[bp].size + mem[b].size)], base, Joined(tiles, bp, b), used - {bp},
         p, bp)
      && SameUnits(tiles, used - {bp}, Joined(tiles, bp, b), used - {bp})
  {
    hide Apart, Coalesced, Linked, Succ;
    var b := mem[p].ptr;
    NextIsFree(mem, base, tiles, used, p, bp);
    var mem', tiles' := mem[bp := Header(mem[b].ptr, mem[bp].size + mem[b].size)], Joined(tiles, bp, b);
    JoinKeeps(tiles, used - {bp}, bp, b);
    Unlink(mem, Nodes(base, tiles, used), p);
    assert used - {bp} + {bp} == used;
    JoinCoalesced(tiles, used, bp, b);
    assert Nodes(base, tiles', used) == Nodes(base, tiles, used) - {b};
    LinkedElsewhere(mem, mem', Nodes(base, tiles, used) - {b}, {p});
  }

  /** The block at mem[p].ptr is free, and every other free block lies before p or clear of its end. */
  lemma NextIsFree(mem: seq<Header>, base: nat, tiles: map<nat, nat>, used: set<nat>, p: nat, bp: nat)
    requires Heap(mem, base, tiles, used) && bp in used && p in Nodes(base, tiles, used)
    requires p < bp < mem[p].ptr
    ensures var b := mem[p].ptr;
      && b in tiles && b !in used && b < |mem| && Succ(Nodes(base, tiles, used), p, b)
      && forall g | g in Nodes(base, tiles, used) - {b} :: g <= p || b + tiles[b] < g
  {
    hide Linked;
    SuccOf(mem, Nodes(base, tiles, used), p);
  }

  lemma JoinCoalesced(tiles: map<nat, nat>, used: set<nat>, a: nat, b: nat)
    requires a in tiles && b in tiles && a in used && b !in used && Coalesced(tiles, used)
    ensures Coalesced(Joined(tiles, a, b), used)
  { }

  lemma LinkedElsewhere(mem: seq<Header>, mem': seq<Header>, nodes: set<nat>, but: set<nat>)
    requires Linked(mem, nodes, but) && |mem'| == |mem| && forall h | h in nodes && h !in but ::
      mem'[h].ptr == mem[h].ptr
    ensures Linked(mem', nodes, but)
  { }

  /** bp stands alone before the block that follows. */
  lemma KeepNext(mem: seq<Header>, base: nat, tiles: map<nat, nat>, used: set<nat>, p: nat, bp: nat)
    requires Heap(mem, base, tiles, used) && bp in used && p in Nodes(base, tiles, used)
    requires p < bp && (mem[p].ptr > bp || mem[p].ptr == base) && bp + tiles[bp] != mem[p].ptr
    ensures Pending(mem[bp := Header(mem[p].ptr, mem[bp].size)], base, tiles, used - {bp}, p, bp)
  {
    assert used - {bp} + {bp} == used;
    SuccOf(mem, Nodes(base, tiles, used), p);
    LinkedElsewhere(mem, mem[bp := Header(mem[p].ptr, mem[bp].size)], Nodes(base, tiles, used), {p});
  }

  /** The block before takes bp over. */
  lemma JoinPrev(mem: seq<Header>, base: nat, tiles: map<nat, nat>, used: set<nat>, p: nat, bp: nat)
    requires Pending(mem, base, tiles, used, p, bp) && p + mem[p].size == bp
    ensures p in tiles
      && Heap(mem[p := Header(mem[bp].ptr, mem[p].size + mem[bp].size)], base, Joined(tiles, p, bp), used)
      && SameUnits(tiles, used, Joined(tiles, p, bp), used)
  {
    hide Apart, Coalesced, Linked, Succ;
    assert p in tiles && p !in used;
    var mem', tiles' := mem[p := Header(mem[bp].ptr, mem[p].size + mem[bp].size)], Joined(tiles, p, bp);
    JoinKeeps(tiles, used, p, bp);
    JoinPrevCoalesced(tiles, used, base, p, bp);
    assert Nodes(base, tiles', used) == Nodes(base, tiles, used + {bp});
    Relinked(mem, mem', Nodes(base, tiles', used), p);
  }

  lemma JoinPrevCoalesced(tiles: map<nat, nat>, used: set<nat>, base: nat, p: nat, bp: nat)
    requires p in tiles && bp in tiles && p !in used && p + tiles[p] == bp && p < bp && Coalesced(tiles, used + {bp})
    requires forall g | g in Nodes(base, tiles, used + {bp}) :: g <= p || bp + tiles[bp] < g
    ensures Coalesced(Joined(tiles, p, bp), used)
  {
    forall g, h | g in tiles && h in tiles && g !in used && h !in used && g < h && g != bp && h != bp
      ensures g + (if g == p then tiles[p] + tiles[bp] else tiles[g]) < h
    {
      assert h in Nodes(base, tiles, used + {bp});
    }
  }

  lemma SuccInserted(nodes: set<nat>, p: nat, bp: nat, n: nat)
    requires Succ(nodes, p, n) && p < bp && p in nodes && forall g | g in nodes :: g <= p || bp < g
    ensures Succ(nodes + {bp}, p, bp) && Succ(nodes + {bp}, bp, n)
  { }

  lemma SuccElsewhere(nodes: set<nat>, p: nat, bp: nat, n: nat, h: nat, m: nat)
    requires Succ(nodes, p, n) && p < bp && p in nodes && forall g | g in nodes :: g <= p || bp < g
    requires h in nodes && h != p && Succ(nodes, h, m)
    ensures Succ(nodes + {bp}, h, m)
  { }

  lemma LinkInLinks(mem: seq<Header>, nodes: set<nat>, p: nat, bp: nat)
    requires Linked(mem, nodes, {p}) && p in nodes && p < bp < |mem| && Succ(nodes, p, mem[bp].ptr)
    requires forall g | g in nodes :: g <= p || bp < g
    ensures Linked(mem[p := Header(bp, mem[p].size)], nodes + {bp}, {})
  {
    hide Succ;
    var mem' := mem[p := Header(bp, mem[p].size)];
    SuccInserted(nodes, p, bp, mem[bp].ptr);
    forall h | h in nodes + {bp} ensures h < |mem'| && Succ(nodes + {bp}, h, mem'[h].ptr) {
      if h != p && h != bp { SuccElsewhere(nodes, p, bp, mem[bp].ptr, h, mem[h].ptr); }
    }
  }

  lemma LinkInCoalesced(tiles: map<nat, nat>, used: set<nat>, base: nat, p: nat, bp: nat)
    requires bp in tiles && Coalesced(tiles, used + {bp}) && Apart(tiles) && (forall h | h in tiles :: base < h)
      && p < bp && (p in tiles ==> p + tiles[p] != bp)
    requires forall g | g in Nodes(base, tiles, used + {bp}) :: g <= p || bp + tiles[bp] < g
    requires p in Nodes(base, tiles, used + {bp})
    ensures Coalesced(tiles, used)
  {
    forall g, h | g in tiles && h in tiles && g !in used && h !in used && g < h ensures g + tiles[g] < h {
      if g == bp { assert h in Nodes(base, tiles, used + {bp}); }
      if h == bp { assert g in Nodes(base, tiles, used + {bp}); }
    }
  }

  /** bp goes into the list on its own. */
  lemma LinkIn(mem: seq<Header>, base: nat, tiles: map<nat, nat>, used: set<nat>, p: nat, bp: nat)
    requires Pending(mem, base, tiles, used, p, bp) && p + mem[p].size != bp
    ensures Heap(mem[p := Header(bp, mem[p].size)], base, tiles, used)
  {
    hide Succ, Coalesced, Linked, Apart;
    assert Nodes(base, tiles, used) == Nodes(base, tiles, used + {bp}) + {bp};
    TilesPositive(tiles);
    LinkInLinks(mem, Nodes(base, tiles, used + {bp}), p, bp);
    LinkInCoalesced(tiles, used, base, p, bp);
  }

  lemma TilesPositive(tiles: map<nat, nat>)
    requires Apart(tiles)
    ensures forall h | h in tiles :: tiles[h] > 0
  { }

  // ------------------------------------------------- what malloc() does to the list

  /** sizeof(Header) */
  function HeaderBytes(b: Build): nat {
    match b
    case X64 => 16
    case X86 => 8
  }

  /** Units asked for: the payload rounded up, and a header. The sum is of the width of sizeof. */
  function Units(b: Build, nbytes: nat): (n: nat)
    ensures n >= 1
  {
    match b
    case X64 => (nbytes + 15) / 16 + 1
    case X86 => (nbytes + 7) % UINT / 8 + 1
  }

  /** The block holds what was asked for: always in the 64-bit build, and in the 32-bit build exactly when the
      rounding does not wrap. It is never larger than that takes. */
  lemma UnitsHold(b: Build, nbytes: nat)
    requires nbytes < UINT
    ensures (Units(b, nbytes) - 1) * HeaderBytes(b) >= nbytes <==> b.X64? || nbytes <= UINT - HeaderBytes(b)
    ensures (Units(b, nbytes) - 1) * HeaderBytes(b) < nbytes + HeaderBytes(b) && Units(b, nbytes) < UINT
  {
    match b
    case X64 => assert (nbytes + 15) / 16 * 16 <= nbytes + 15 < (nbytes + 15) / 16 * 16 + 16;
    case X86 =>
  }

  /** 2^32 - 1 bytes in the 32-bit build: a block of a header and nothing else. */
  lemma UnitsTooFew()
    ensures Units(X86, UINT - 1) == 1
  { }

  /** Bytes of the block that morecore() puts on the free list. */
  function Asked(b: Build, nbytes: nat): nat {
    Max(Units(b, nbytes), MINUNITS) * HeaderBytes(b)
  }

  /** The int that a C expression becomes when it is passed as one: its low 32 bits, in two's complement. */
  function AsInt(n: nat): int {
    if n % UINT < 0x8000_0000 then n % UINT else n % UINT - UINT
  }

  /** What sbrk() is called with. */
  function Request(b: Build, nbytes: nat): int {
    AsInt(Asked(b, nbytes))
  }

  /** sbrk() is asked for the bytes of the block exactly up to two headers below 2 GB, or where the rounding has
      wrapped. Above, the request is first negative, then zero, and in the 64-bit build at last one header. */
  lemma RequestIs(b: Build, nbytes: nat)
    requires nbytes < UINT
    ensures var h, r := HeaderBytes(b), Request(b, nbytes);
      && (r == Asked(b, nbytes) <==> nbytes <= 0x8000_0000 - 2 * h || (b.X86? && nbytes > UINT - h))
      && (r < 0 <==> 0x8000_0000 - 2 * h < nbytes <= UINT - 2 * h)
      && (r == 0 <==> UINT - 2 * h < nbytes <= UINT - h)
      && (0 < r < Asked(b, nbytes) <==> b.X64? && nbytes > UINT - h)
      && (0 < r < Asked(b, nbytes) ==> r == h)
  {
    hide Asked, Units;
    AskedIs(b, nbytes);
    var n := Rounded(b, nbytes);
    match b
    case X64 => assert 16 * n < nbytes + 16 <= 16 * n + 16;
    case X86 => assert nbytes <= UINT - 8 ==> 8 * n < nbytes + 8 <= 8 * n + 8;
  }

  /** The payload in units. */
  function Rounded(b: Build, nbytes: nat): nat {
    (nbytes + HeaderBytes(b) - 1) / HeaderBytes(b)
  }

  lemma AskedIs(b: Build, nbytes: nat)
    requires nbytes < UINT
    ensures Asked(b, nbytes) ==
      if b.X86? && nbytes > UINT - 8 then MINUNITS * 8 else Max(Rounded(b, nbytes) + 1, MINUNITS) * HeaderBytes(b)
  {
    match b
    case X64 =>
    case X86 => assert nbytes <= UINT - 8 ==> (nbytes + 7) % UINT == nbytes + 7;
  }

  /** A positive request that is less than the block is for one header: then the block is the whole grant, and
      nothing of it but the header is memory that was granted. */
  lemma ShortGrant(b: Build, nbytes: nat)
    requires nbytes < UINT && 0 < Request(b, nbytes) < Asked(b, nbytes)
    ensures Request(b, nbytes) == HeaderBytes(b) && Max(Units(b, nbytes), MINUNITS) == Units(b, nbytes)
  {
    RequestIs(b, nbytes);
    hide Request, Asked;
    assert b.X64?;
  }

  /** 2^32 - 1 bytes in the 64-bit build: 16 bytes are asked for and a block of 2^28 + 1 units is freed. */
  lemma RequestTooSmall()
    ensures Request(X64, UINT - 1) == 16 && Units(X64, UINT - 1) == 0x1000_0001
  { }

  lemma UnitsOnly(tiles: map<nat, nat>, used: set<nat>, p: nat, u: int)
    requires p in tiles && p !in used
    ensures FreeUnit(tiles, used, u) <==> FreeUnit(tiles, used + {p}, u) || Within(p, tiles[p], u)
  {
    if FreeUnit(tiles, used, u) {
      var h :| h in tiles && h !in used && Within(h, tiles[h], u);
      if h != p { assert h !in used + {p}; }
    }
  }

  /** An exact fit leaves the list. */
  lemma TakeAll(mem: seq<Header>, base: nat, tiles: map<nat, nat>, used: set<nat>, prevp: nat, p: nat)
    requires Heap(mem, base, tiles, used) && prevp in Nodes(base, tiles, used) && mem[prevp].ptr == p && p in tiles
      && p !in used
    ensures Heap(mem[prevp := Header(mem[p].ptr, mem[prevp].size)], base, tiles, used + {p})
    ensures prevp in Nodes(base, tiles, used + {p})
  {
    hide Succ, Apart, Linked;
    var nodes, mem' := Nodes(base, tiles, used), mem[prevp := Header(mem[p].ptr, mem[prevp].size)];
    assert Nodes(base, tiles, used + {p}) == nodes - {p};
    NotAlone(mem, nodes, prevp, base);
    Unlink(mem, nodes, prevp);
    assert Coalesced(tiles, used + {p});
    hide Coalesced;
    Relinked(mem, mem', nodes - {p}, prevp);
  }

  lemma NotAlone(mem: seq<Header>, nodes: set<nat>, p: nat, base: nat)
    requires Linked(mem, nodes, {}) && p in nodes && base in nodes && mem[p].ptr != base
    ensures mem[p].ptr != p
  {
    hide Linked;
    SuccOf(mem, nodes, p);
  }

  lemma Relinked(mem: seq<Header>, mem': seq<Header>, nodes: set<nat>, p: nat)
    requires Linked(mem, nodes, {p}) && |mem'| == |mem|
      && (forall h | h in nodes && h != p :: mem'[h].ptr == mem[h].ptr)
    requires p in nodes && Succ(nodes, p, mem'[p].ptr)
    ensures Linked(mem', nodes, {})
  {
    hide Succ;
  }

  /** A larger block gives its tail. */
  ghost function Split(tiles: map<nat, nat>, p: nat, n: nat): map<nat, nat>
    requires p in tiles && 0 < n < tiles[p]
  {
    tiles[p := tiles[p] - n][p + tiles[p] - n := n]
  }

  lemma SplitApart(tiles: map<nat, nat>, p: nat, n: nat)
    requires Apart(tiles) && p in tiles && 0 < n < tiles[p]
    ensures Apart(Split(tiles, p, n)) && p + tiles[p] - n !in tiles
  { }

  lemma SplitUnitBack(tiles: map<nat, nat>, used: set<nat>, p: nat, n: nat, u: int)
    requires p in tiles && p !in used && 0 < n < tiles[p] && p + tiles[p] - n !in tiles
    requires FreeUnit(Split(tiles, p, n), used + {p + tiles[p] - n}, u) || Within(p + tiles[p] - n, n, u)
    ensures FreeUnit(tiles, used, u)
  {
    var h, tiles' := p + tiles[p] - n, Split(tiles, p, n);
    if Within(h, n, u) {
      assert Within(p, tiles[p], u);
    } else {
      var g :| g in tiles' && g !in used + {h} && Within(g, tiles'[g], u);
      assert g in tiles && Within(g, tiles[g], u);
    }
  }

  lemma SplitUnit(tiles: map<nat, nat>, used: set<nat>, p: nat, n: nat, u: int)
    requires p in tiles && p !in used && 0 < n < tiles[p] && used <= tiles.Keys && p + tiles[p] - n !in tiles
    ensures var h := p + tiles[p] - n;
      FreeUnit(tiles, used, u) <==> FreeUnit(Split(tiles, p, n), used + {h}, u) || Within(h, n, u)
  {
    var h, tiles' := p + tiles[p] - n, Split(tiles, p, n);
    if FreeUnit(tiles, used, u) {
      var g :| g in tiles && g !in used && Within(g, tiles[g], u);
      assert g in tiles' && g !in used + {h};
      if !Within(h, n, u) { assert Within(g, tiles'[g], u); }
    } else if FreeUnit(tiles', used + {h}, u) || Within(h, n, u) {
      SplitUnitBack(tiles, used, p, n, u);
    }
  }

  lemma SplitCoalesced(tiles: map<nat, nat>, used: set<nat>, p: nat, n: nat)
    requires Coalesced(tiles, used) && p in tiles && p !in used && 0 < n < tiles[p] && p + tiles[p] - n !in tiles
    ensures Coalesced(Split(tiles, p, n), used + {p + tiles[p] - n})
  { }

  lemma SplitSized(mem: seq<Header>, base: nat, tiles: map<nat, nat>, p: nat, n: nat)
    requires Sized(mem, base, tiles) && p in tiles && 0 < n < tiles[p] && p + tiles[p] - n !in tiles
    ensures var h := p + tiles[p] - n;
      h < |mem| && Sized(mem[p := Header(mem[p].ptr, tiles[p] - n)][h := Header(mem[h].ptr, n)], base,
        Split(tiles, p, n))
  { }

  lemma TakeTail(mem: seq<Header>, base: nat, tiles: map<nat, nat>, used: set<nat>, p: nat, n: nat)
    requires Heap(mem, base, tiles, used) && p in tiles && p !in used && 0 < n < tiles[p]
    ensures var h := p + tiles[p] - n;
      && h < |mem| && h !in tiles
      && Heap(mem[p := Header(mem[p].ptr, tiles[p] - n)][h := Header(mem[h].ptr, n)], base, Split(tiles, p, n),
         used + {h})
      && Nodes(base, Split(tiles, p, n), used + {h}) == Nodes(base, tiles, used)
  {
    hide Apart, Coalesced, Sized, Linked;
    SplitApart(tiles, p, n);
    SplitCoalesced(tiles, used, p, n);
    SplitSized(mem, base, tiles, p, n);
    var h, tiles' := p + tiles[p] - n, Split(tiles, p, n);
    assert Nodes(base, tiles', used + {h}) == Nodes(base, tiles, used);
    var mem' := mem[p := Header(mem[p].ptr, tiles[p] - n)][h := Header(mem[h].ptr, n)];
    LinkedPtrs(mem, mem', Nodes(base, tiles, used));
  }

  lemma LinkedPtrs(mem: seq<Header>, mem': seq<Header>, nodes: set<nat>)
    requires Linked(mem, nodes, {}) && |mem'| == |mem| && forall x | 0 <= x < |mem| :: mem'[x].ptr == mem[x].ptr
    ensures Linked(mem', nodes, {})
  { }

  /** sbrk() grants n units above everything known. */
  ghost predicate Granted(mem: seq<Header>, base: nat, tiles: map<nat, nat>, hp: nat, n: nat) {
    n > 0 && base < hp && hp + n <= |mem| && forall h | h in tiles :: h + tiles[h] <= hp
  }

  lemma GrantKeeps(mem: seq<Header>, base: nat, tiles: map<nat, nat>, used: set<nat>, hp: nat, n: nat)
    requires Heap(mem, base, tiles, used) && Granted(mem, base, tiles, hp, n)
    ensures hp !in tiles && Heap(mem[hp := Header(mem[hp].ptr, n)], base, tiles[hp := n], used + {hp})
    ensures Nodes(base, tiles[hp := n], used + {hp}) == Nodes(base, tiles, used)
  {
    hide Coalesced, Linked, Apart;
    GrantApart(tiles, used, hp, n);
    assert Nodes(base, tiles[hp := n], used + {hp}) == Nodes(base, tiles, used);
    LinkedElsewhere(mem, mem[hp := Header(mem[hp].ptr, n)], Nodes(base, tiles, used), {});
  }

  lemma GrantApart(tiles: map<nat, nat>, used: set<nat>, hp: nat, n: nat)
    requires Apart(tiles) && Coalesced(tiles, used) && n > 0 && forall h | h in tiles :: h + tiles[h] <= hp
    ensures hp !in tiles && Apart(tiles[hp := n]) && Coalesced(tiles[hp := n], used + {hp})
  { }

  /** The blocks in use keep their lengths and every unit of theirs its contents. */
  ghost predicate Kept(mem0: seq<Header>, tiles0: map<nat, nat>, mem: seq<Header>, tiles: map<nat, nat>,
      used: set<nat>) {
    && |mem| == |mem0| && used <= tiles0.Keys && used <= tiles.Keys
    && (forall h | h in used :: tiles[h] == tiles0[h])
    && (forall h, u | h in used && 0 <= u < |mem| && Within(h, tiles0[h], u) :: mem[u] == mem0[u])
  }

  /** Node a comes after freep and before p in the circular order. */
  predicate Passed(freep: nat, g: nat, p: nat) {
    if p > freep then freep < g < p else g > freep || g < p
  }

  class Allocator {
    const build: Build
    const base: nat
    var mem: seq<Header>
    var freep: nat
    ghost var tiles: map<nat, nat>
    ghost var used: set<nat>

    ghost predicate Valid()
      reads this
    {
      if freep == 0 then 0 < base < |mem| && tiles == map[] && used == {}
      else Heap(mem, base, tiles, used) && freep in Nodes(base, tiles, used)
    }

    /** The program image, with nothing allocated: base is a zeroed static below the heap. */
    constructor (b: Build, image: seq<Header>, at: nat)
      requires 0 < at < |image|
      ensures Valid() && build == b && base == at && mem == image && tiles == map[] && used == {}
    {
      build, base, mem, freep, tiles, used := b, at, image, 0, map[], {};
    }

    /** The search of free() for the node after which bp belongs. */
    method FindPlace(bp: nat) returns (p: nat)
      requires Heap(mem, base, tiles, used) && freep in Nodes(base, tiles, used) && bp in used
      ensures p in Nodes(base, tiles, used) && p < bp && (mem[p].ptr > bp || mem[p].ptr == base)
    {
      hide Heap, Nodes;
      p := freep;
      StopsThere(mem, base, tiles, used, p, bp);
      while !(bp > p && bp < mem[p].ptr)
        invariant p in Nodes(base, tiles, used) && p < |mem|
        decreases if p < bp then bp - p else |mem| - p + bp
      {
        StopsThere(mem, base, tiles, used, p, bp);
        if p >= mem[p].ptr && (bp > p || bp < mem[p].ptr) { break; }
        GoesOn(mem, base, tiles, used, p, bp);
        p := mem[p].ptr;
      }
    }

    /** free(), first half: bp takes over the block after it, or points to it. */
    method JoinAfter(bp: nat, p: nat)
      requires Heap(mem, base, tiles, used) && bp in used && p in Nodes(base, tiles, used)
      requires p < bp && (mem[p].ptr > bp || mem[p].ptr == base)
      modifies this`mem, this`tiles, this`used
      ensures Pending(mem, base, tiles, used, p, bp) && used == old(used) - {bp}
      ensures SameUnits(old(tiles), used, tiles, used)
      ensures WroteAt(old(mem), mem, bp)
      ensures Unaffected(old(tiles), tiles, used) && tiles[bp] >= old(tiles)[bp]
    {
      hide Apart, Coalesced, Linked, FreeUnit;
      SuccessorKnown(mem, base, tiles, used, p);
      var next := mem[p].ptr;
      if bp + mem[bp].size == next {
        JoinNext(mem, base, tiles, used, p, bp);
        mem := mem[bp := Header(mem[next].ptr, mem[bp].size + mem[next].size)];
        tiles := Joined(tiles, bp, next);
      } else {
        KeepNext(mem, base, tiles, used, p, bp);
        mem := mem[bp := Header(next, mem[bp].size)];
      }
      used := used - {bp};
    }

    /** free(), second half: the block before takes bp over, or points to it. */
    method JoinBefore(bp: nat, p: nat) returns (ghost into: nat)
      requires Pending(mem, base, tiles, used, p, bp)
      modifies this`mem, this`tiles
      ensures Heap(mem, base, tiles, used) && p in Nodes(base, tiles, used)
      ensures SameUnits(old(tiles), used, tiles, used)
      ensures WroteAt(old(mem), mem, p)
      ensures Unaffected(old(tiles), tiles, used)
      ensures into in tiles && into !in used && into <= bp && bp + old(tiles)[bp] <= into + tiles[into]
    {
      hide Apart, Coalesced, Linked, FreeUnit, Succ;
      into := bp;
      if p + mem[p].size == bp {
        JoinPrev(mem, base, tiles, used, p, bp);
        mem := mem[p := Header(mem[bp].ptr, mem[p].size + mem[bp].size)];
        tiles := Joined(tiles, p, bp);
        into := p;
      } else {
        LinkIn(mem, base, tiles, used, p, bp);
        mem := mem[p := Header(bp, mem[p].size)];
      }
    }

    /** free(): exactly the units of the block become free, and into is the free block they are in. */
    method Free(ap: nat) returns (ghost into: nat)
      requires Valid() && ap > 0 && ap - 1 in used
      modifies this`mem, this`tiles, this`used, this`freep
      ensures Valid() && freep != 0 && used == old(used) - {ap - 1}
      ensures forall u ::
        FreeUnit(tiles, used, u) <==> FreeUnit(old(tiles), old(used), u) || Within(ap - 1, old(tiles)[ap - 1], u)
      ensures Kept(old(mem), old(tiles), mem, tiles, used)
      ensures into in tiles && into !in used && into <= ap - 1 && ap - 1 + old(tiles)[ap - 1] <= into + tiles[into]
    {
      var bp := ap - 1;
      var p := FindPlace(bp);
      assert bp in tiles && base < bp && (p == base || p in tiles) && p !in used;
      hide Heap, Pending, FreeUnit, SameUnits, Kept, Unaffected, WroteAt, Nodes;
      JoinAfter(bp, p);
      ghost var mem1, tiles1 := mem, tiles;
      into := JoinBefore(bp, p);
      freep := p;
      UnitsChain(old(tiles), old(used), tiles1, tiles, used, bp);
      UnaffectedTwice(old(tiles), tiles1, tiles, used);
      WritesKept(old(mem), mem1, mem, base, old(tiles), old(used), tiles, used, p, bp);
    }

    /** morecore(): the granted units join the free list. */
    method Morecore(nunits: nat, grant: Option<nat>) returns (p: nat)
      requires Valid() && freep != 0 && nunits > 0
      requires grant.Some? ==> Granted(mem, base, tiles, grant.value, Max(nunits, MINUNITS))
      modifies this`mem, this`tiles, this`used, this`freep
      ensures Valid() && freep != 0 && used == old(used) && Kept(old(mem), old(tiles), mem, tiles, used)
      ensures p == 0 <==> grant.None?
      ensures grant.None? ==> mem == old(mem) && tiles == old(tiles) && freep == old(freep)
      ensures grant.Some? ==>
        && p == freep && Fits(tiles, used, nunits)
        && Grown(old(tiles), tiles, used, grant.value, Max(nunits, MINUNITS))
    {
      hide Heap, FreeUnit, Kept, Fits, Nodes;
      var nu := nunits;
      if nu < MINUNITS { nu := MINUNITS; }
      if grant.None? {
        KeptRefl(mem, tiles, used, base);
        return 0;
      }
      var hp := grant.value;
      GrantKeeps(mem, base, tiles, used, hp, nu);
      HeapBounds(mem, base, tiles, used);
      mem := mem[hp := Header(mem[hp].ptr, nu)];
      tiles := tiles[hp := nu];
      used := used + {hp};
      ghost var mem1, tiles1 := mem, tiles;
      ghost var into := Free(hp + 1);
      assert used == old(used);
      GrantUnits(old(tiles), tiles1, tiles, used, hp, nu);
      GrantKept(old(mem), mem1, mem, old(tiles), tiles1, tiles, used, hp, nu);
      FitsBy(tiles, used, nunits, into);
      return freep;
    }

    /** malloc(): block p gives nunits units. */
    method Carve(prevp: nat, p: nat, nunits: nat) returns (r: nat)
      requires Heap(mem, base, tiles, used) && prevp in Nodes(base, tiles, used) && mem[prevp].ptr == p
      requires p in tiles && p !in used && 0 < nunits <= tiles[p] && freep != 0
      modifies this`mem, this`tiles, this`used, this`freep
      ensures Valid() && freep != 0 && r > 1 && r - 1 !in old(used) && used == old(used) + {r - 1}
      ensures r - 1 in tiles && tiles[r - 1] == nunits && r - 1 + nunits == p + old(tiles)[p]
      ensures Kept(old(mem), old(tiles), mem, tiles, old(used))
      ensures forall u :: FreeUnit(old(tiles), old(used), u) <==> FreeUnit(tiles, used, u) || Within(r - 1, nunits, u)
    {
      hide Linked, Coalesced, FreeUnit, Succ, Apart, Kept;
      TilesPositive(tiles);
      var h := p;
      if mem[p].size == nunits {
        TakeAll(mem, base, tiles, used, prevp, p);
        hide Heap;
        forall u { UnitsOnly(tiles, used, p, u); }
        mem := mem[prevp := Header(mem[p].ptr, mem[prevp].size)];
      } else {
        TakeTail(mem, base, tiles, used, p, nunits);
        h := p + (mem[p].size - nunits);
        hide Heap;
        forall u { SplitUnit(tiles, used, p, nunits, u); }
        mem := mem[p := Header(mem[p].ptr, mem[p].size - nunits)];
        mem := mem[h := Header(mem[h].ptr, nunits)];
        tiles := Split(tiles, p, nunits);
      }
      used := used + {h};
      freep := prevp;
      CarveKept(old(mem), base, old(tiles), old(used), mem, tiles, prevp, p, h);
      return h + 1;
    }

    /** malloc(): the first call sets up the list of base alone. */
    method Start()
      requires Valid()
      modifies this`mem, this`freep
      ensures Heap(mem, base, tiles, used) && freep in Nodes(base, tiles, used) && freep != 0
      ensures Kept(old(mem), tiles, mem, tiles, used)
      ensures freep == old(freep) || tiles == map[]
    {
      if freep == 0 {
        mem := mem[base := Header(base, 0)];
        freep := base;
        EmptyHeap(mem, base);
      }
      KeptAtStart(old(mem), mem, base, tiles, used);
    }

    /** malloc(): first fit from freep on; sbrk() is asked once, and only when nothing fits, and then the block is
        the tail of what it returns. Where sbrk() is asked for no bytes, or to shrink, the header would be written
        to memory that was not granted: the model stops there. */
    method Malloc(nbytes: nat, grant: Option<nat>) returns (r: nat, asked: bool, stops: bool, ghost from: nat)
      requires Valid()
      requires grant.Some? && Request(build, nbytes) > 0 ==>
        Granted(mem, base, tiles, grant.value, Max(Units(build, nbytes), MINUNITS))
      modifies this`mem, this`tiles, this`used, this`freep
      ensures Valid() && Kept(old(mem), old(tiles), mem, tiles, old(used))
      ensures asked <==> !Fits(old(tiles), old(used), Units(build, nbytes))
      ensures stops <==> asked && grant.Some? && Request(build, nbytes) <= 0
      ensures r == 0 <==> asked && (grant.None? || stops)
      ensures asked && r != 0 ==>
        r - 1 + Units(build, nbytes) == grant.value + Max(Units(build, nbytes), MINUNITS)
      ensures r == 0 ==> tiles == old(tiles) && used == old(used)
      ensures r != 0 ==>
        && r > 1 && r - 1 !in old(used) && used == old(used) + {r - 1} && r - 1 in tiles
        && tiles[r - 1] == Units(build, nbytes)
        && (forall u :: FreeUnit(tiles, used, u) || Within(r - 1, Units(build, nbytes), u) <==>
              FreeUnit(old(tiles), old(used), u)
              || (asked && Within(grant.value, Max(Units(build, nbytes), MINUNITS), u)))
      ensures !asked ==>
        && from in old(tiles) && from !in old(used) && r - 1 + Units(build, nbytes) == from + old(tiles)[from]
        && TooSmall(old(tiles), old(used), old(freep), from, Units(build, nbytes))
    {
      hide Heap, Fits, FreeUnit, Kept, TooSmall, Grown, Nodes, Granted, Units, Within, Request, Asked;
      var nunits := Units(build, nbytes);
      Start();
      var given := if Request(build, nbytes) > 0 then grant else None;
      GrantedStill(old(mem), mem, base, tiles, used, given, nunits);
      ghost var mem0, freep0 := mem, freep;
      var prevp, p;
      prevp, p, asked := Search(nunits, given);
      ghost var mem1, tiles1 := mem, tiles;
      KeptTwice(old(mem), mem0, mem1, old(tiles), old(tiles), tiles1, used);
      if p == 0 { return 0, asked, grant.Some?, 0; }
      stops := false;
      from := p;
      SizeOfNode(mem, base, tiles, used, p);
      SearchResult(old(tiles), tiles, used, asked, given, nunits, old(freep), freep0, p);
      if asked { MustBeGrant(mem0, mem, base, old(tiles), tiles, used, given.value, Max(nunits, MINUNITS), nunits, p); }
      r := Carve(prevp, p, nunits);
      KeptTwice(old(mem), mem1, mem, old(tiles), tiles1, tiles, old(used));
    }

    /** The loop of malloc(): the node that fits and the one before it, or 0. */
    method Search(nunits: nat, grant: Option<nat>) returns (prevp: nat, p: nat, asked: bool)
      requires Heap(mem, base, tiles, used) && freep in Nodes(base, tiles, used) && freep != 0 && nunits > 0
      requires grant.Some? ==> Granted(mem, base, tiles, grant.value, Max(nunits, MINUNITS))
      modifies this`mem, this`tiles, this`used, this`freep
      ensures Heap(mem, base, tiles, used) && freep in Nodes(base, tiles, used) && freep != 0
      ensures used == old(used) && Kept(old(mem), old(tiles), mem, tiles, used)
      ensures asked ==> !Fits(old(tiles), used, nunits)
      ensures !asked ==> tiles == old(tiles) && freep == old(freep) && TooSmall(tiles, used, freep, p, nunits)
      ensures p == 0 <==> asked && grant.None?
      ensures p == 0 ==> tiles == old(tiles)
      ensures asked && grant.Some? ==> Grown(old(tiles), tiles, used, grant.value, Max(nunits, MINUNITS))
      ensures p != 0 ==>
        prevp in Nodes(base, tiles, used) && mem[prevp].ptr == p && p in Nodes(base, tiles, used)
        && mem[p].size >= nunits
    {
      hide Heap, Fits, FreeUnit, Kept, TooSmall, Grown, Nodes, Granted;
      KeptAtStart(mem, mem, base, tiles, used);
      prevp := freep;
      SizeOfNode(mem, base, tiles, used, prevp);
      SuccessorKnown(mem, base, tiles, used, prevp);
      StartOfWalk(mem, base, tiles, used, freep, nunits);
      p := mem[prevp].ptr;
      asked := false;
      while true
        invariant Heap(mem, base, tiles, used) && freep in Nodes(base, tiles, used) && freep != 0
        invariant prevp in Nodes(base, tiles, used) && prevp < |mem| && mem[prevp].ptr == p
          && p in Nodes(base, tiles, used)
        invariant used == old(used) && Kept(old(mem), old(tiles), mem, tiles, used)
        invariant TooSmall(tiles, used, freep, p, nunits)
        invariant !asked ==> mem == old(mem) && tiles == old(tiles) && freep == old(freep)
        invariant asked ==> grant.Some? && !Fits(old(tiles), used, nunits) && Fits(tiles, used, nunits)
        invariant asked ==> Grown(old(tiles), tiles, used, grant.value, Max(nunits, MINUNITS))
        decreases !asked, Away(|mem|, freep, p)
      {
        SizeOfNode(mem, base, tiles, used, p);
        if mem[p].size >= nunits { return; }
        if p == freep {
          NothingFits(tiles, used, base, freep, nunits);
          asked := true;
          p := Morecore(nunits, grant);
          if p == 0 { return; }
          StartOfWalk(mem, base, tiles, used, freep, nunits);
        } else {
          WalkOn(mem, base, tiles, used, freep, p, nunits);
        }
        SizeOfNode(mem, base, tiles, used, p);
        SuccessorKnown(mem, base, tiles, used, p);
        prevp, p := p, mem[p].ptr;
      }
    }
  }

  lemma SearchResult(tiles0: map<nat, nat>, tiles: map<nat, nat>, used: set<nat>, asked: bool, grant: Option<nat>,
      n: nat, freep0: nat, freep: nat, p: nat)
    requires if asked then grant.Some? && Grown(tiles0, tiles, used, grant.value, Max(n, MINUNITS)) else tiles == tiles0
    requires p in tiles && p !in used && tiles[p] >= n && (asked ==> !Fits(tiles0, used, n))
    requires freep0 == freep || tiles0 == map[]
    requires !asked ==> TooSmall(tiles, used, freep, p, n)
    ensures forall u ::
      FreeUnit(tiles, used, u) <==> FreeUnit(tiles0, used, u) || (asked && Within(grant.value, Max(n, MINUNITS), u))
    ensures asked <==> !Fits(tiles0, used, n)
    ensures !asked ==> TooSmall(tiles0, used, freep0, p, n)
  { }

  /** Free units that follow each other are in one block. */
  lemma {:induction false} OneBlock(tiles: map<nat, nat>, used: set<nat>, a: nat, n: nat) returns (h: nat)
    requires Apart(tiles) && Coalesced(tiles, used) && n > 0
    requires forall u | a <= u < a + n :: FreeUnit(tiles, used, u)
    ensures h in tiles && h !in used && h <= a && a + n <= h + tiles[h]
  {
    if n == 1 {
      assert FreeUnit(tiles, used, a);
      h :| h in tiles && h !in used && Within(h, tiles[h], a);
    } else {
      h := OneBlock(tiles, used, a, n - 1);
      assert FreeUnit(tiles, used, a + n - 1);
      var g :| g in tiles && g !in used && Within(g, tiles[g], a + n - 1);
    }
  }

  /** The only block that fits ends where the grant ends. */
  lemma MustBeGrant(mem0: seq<Header>, mem: seq<Header>, base: nat, tiles0: map<nat, nat>, tiles: map<nat, nat>,
      used: set<nat>, hp: nat, nu: nat, n: nat, p: nat)
    requires Heap(mem0, base, tiles0, used) && Heap(mem, base, tiles, used) && Granted(mem0, base, tiles0, hp, nu)
    requires Grown(tiles0, tiles, used, hp, nu) && !Fits(tiles0, used, n) && 0 < n <= nu
    requires p in tiles && p !in used && tiles[p] >= n
    ensures p + tiles[p] == hp + nu
  {
    hide Linked, Sized;
    var e := p + tiles[p];
    forall u | p <= u < e ensures FreeUnit(tiles, used, u) { assert Within(p, tiles[p], u); }
    if e <= hp { GrantNeeded(tiles0, tiles, used, hp, nu, n, p); }
    assert FreeUnit(tiles, used, e - 1);
    OldBelow(tiles0, used, hp, e - 1);
    assert e <= hp + nu;
    if e < hp + nu {
      assert Within(hp, nu, e);
      assert FreeUnit(tiles, used, e);
      var g :| g in tiles && g !in used && Within(g, tiles[g], e);
    }
  }

  lemma OldBelow(tiles0: map<nat, nat>, used: set<nat>, hp: nat, u: int)
    requires forall h | h in tiles0 :: h + tiles0[h] <= hp
    ensures FreeUnit(tiles0, used, u) ==> u < hp
  { }

  lemma GrantNeeded(tiles0: map<nat, nat>, tiles: map<nat, nat>, used: set<nat>, hp: nat, nu: nat, n: nat, p: nat)
    requires Apart(tiles0) && Coalesced(tiles0, used) && Grown(tiles0, tiles, used, hp, nu) && n > 0
    requires p in tiles && p !in used && tiles[p] >= n && p + tiles[p] <= hp
    ensures Fits(tiles0, used, n)
  {
    forall u | p <= u < p + n ensures FreeUnit(tiles0, used, u) {
      assert Within(p, tiles[p], u);
      assert FreeUnit(tiles, used, u);
    }
    var h := OneBlock(tiles0, used, p, n);
    FitsBy(tiles0, used, n, h);
  }

  /** The free blocks between freep and p, going round, are smaller than n. */
  ghost predicate TooSmall(tiles: map<nat, nat>, used: set<nat>, freep: nat, p: nat, n: nat) {
    forall g | g in tiles && g !in used && Passed(freep, g, p) :: tiles[g] < n
  }

  lemma EmptyHeap(mem: seq<Header>, base: nat)
    requires 0 < base < |mem| && mem[base] == Header(base, 0)
    ensures Heap(mem, base, map[], {}) && base in Nodes(base, map[], {})
  {
    assert Nodes(base, map[], {}) == {base};
  }

  lemma KeptAtStart(mem0: seq<Header>, mem: seq<Header>, base: nat, tiles: map<nat, nat>, used: set<nat>)
    requires Heap(mem, base, tiles, used) && |mem| == |mem0| && (mem == mem0 || used == {})
    ensures Kept(mem0, tiles, mem, tiles, used)
  { }

  lemma GrantedStill(mem0: seq<Header>, mem: seq<Header>, base: nat, tiles: map<nat, nat>, used: set<nat>,
      grant: Option<nat>, n: nat)
    requires Kept(mem0, tiles, mem, tiles, used)
      && (grant.Some? ==> Granted(mem0, base, tiles, grant.value, Max(n, MINUNITS)))
    ensures grant.Some? ==> Granted(mem, base, tiles, grant.value, Max(n, MINUNITS))
  { }

  lemma StartOfWalk(mem: seq<Header>, base: nat, tiles: map<nat, nat>, used: set<nat>, freep: nat, n: nat)
    requires Heap(mem, base, tiles, used) && freep in Nodes(base, tiles, used)
    ensures TooSmall(tiles, used, freep, mem[freep].ptr, n)
  {
    assert Succ(Nodes(base, tiles, used), freep, mem[freep].ptr);
    assert forall g | g in tiles && g !in used :: g in Nodes(base, tiles, used);
  }

  lemma PassedOn(nodes: set<nat>, freep: nat, p: nat, q: nat, g: nat)
    requires Succ(nodes, p, q) && freep in nodes && p in nodes && g in nodes && p != freep && Passed(freep, g, q)
    ensures Passed(freep, g, p) || g == p
  { }

  lemma Closer(nodes: set<nat>, freep: nat, p: nat, q: nat, n: nat)
    requires Succ(nodes, p, q) && freep in nodes && p in nodes && p != freep && p < n
    ensures Away(n, freep, q) < Away(n, freep, p)
  { }

  lemma WalkOn(mem: seq<Header>, base: nat, tiles: map<nat, nat>, used: set<nat>, freep: nat, p: nat, n: nat)
    requires Heap(mem, base, tiles, used) && freep in Nodes(base, tiles, used) && p in Nodes(base, tiles, used)
      && p != freep
    requires TooSmall(tiles, used, freep, p, n) && mem[p].size < n
    ensures TooSmall(tiles, used, freep, mem[p].ptr, n)
    ensures Away(|mem|, freep, mem[p].ptr) < Away(|mem|, freep, p)
  {
    var nodes := Nodes(base, tiles, used);
    hide Apart, Coalesced, Succ, Passed, Away;
    Closer(nodes, freep, p, mem[p].ptr, |mem|);
    forall g | g in tiles && g !in used && Passed(freep, g, mem[p].ptr) ensures tiles[g] < n {
      PassedOn(nodes, freep, p, mem[p].ptr, g);
    }
  }

  /** How far p still is from freep, in memory of n units. */
  function Away(n: int, freep: nat, p: nat): int {
    if p > freep then n - p + freep else freep - p
  }

  lemma SizeOfNode(mem: seq<Header>, base: nat, tiles: map<nat, nat>, used: set<nat>, p: nat)
    requires Heap(mem, base, tiles, used) && p in Nodes(base, tiles, used)
    ensures p < |mem| && p > 0 && base < |mem|
    ensures if p == base then mem[p].size == 0 && p !in tiles else p in tiles && p !in used && mem[p].size == tiles[p]
  { }

  lemma NothingFits(tiles: map<nat, nat>, used: set<nat>, base: nat, freep: nat, n: nat)
    requires TooSmall(tiles, used, freep, freep, n) && (freep in tiles && freep !in used ==> tiles[freep] < n)
    ensures !Fits(tiles, used, n)
  { }

  lemma KeptTwice(mem0: seq<Header>, mem1: seq<Header>, mem: seq<Header>, tiles0: map<nat, nat>,
      tiles1: map<nat, nat>, tiles: map<nat, nat>, used: set<nat>)
    requires Kept(mem0, tiles0, mem1, tiles1, used) && Kept(mem1, tiles1, mem, tiles, used)
    ensures Kept(mem0, tiles0, mem, tiles, used)
  { }

  /** A unit of a block in use is never free, and belongs to that block alone. */
  lemma UsersApart(mem: seq<Header>, base: nat, tiles: map<nat, nat>, used: set<nat>, g: nat, h: nat, u: int)
    requires Heap(mem, base, tiles, used) && h in used && Within(h, tiles[h], u)
    ensures !FreeUnit(tiles, used, u) && (g in used && Within(g, tiles[g], u) ==> g == h)
  {
    hide Linked, Coalesced, Sized;
    forall f | f in tiles && f != h ensures !Within(f, tiles[f], u) { }
  }

  lemma CarveKept(mem0: seq<Header>, base: nat, tiles0: map<nat, nat>, used: set<nat>, mem: seq<Header>,
      tiles: map<nat, nat>, prevp: nat, p: nat, h: nat)
    requires Heap(mem0, base, tiles0, used) && prevp in Nodes(base, tiles0, used) && p in tiles0 && p !in used
      && Within(p, tiles0[p], h)
    requires |mem| == |mem0| && forall x | 0 <= x < |mem| && x != prevp && x != p && x != h :: mem[x] == mem0[x]
    requires used <= tiles.Keys && forall g | g in used :: tiles[g] == tiles0[g]
    ensures Kept(mem0, tiles0, mem, tiles, used)
  {
    hide Linked, Coalesced;
  }

  ghost predicate Fits(tiles: map<nat, nat>, used: set<nat>, n: nat) {
    exists h | h in tiles && h !in used :: tiles[h] >= n
  }

  lemma FitsBy(tiles: map<nat, nat>, used: set<nat>, n: nat, h: nat)
    requires h in tiles && h !in used && tiles[h] >= n
    ensures Fits(tiles, used, n)
  { }

  /** The free units are those from before and the n at hp. */
  ghost predicate Grown(tiles0: map<nat, nat>, tiles: map<nat, nat>, used: set<nat>, hp: nat, n: nat) {
    forall u :: FreeUnit(tiles, used, u) <==> FreeUnit(tiles0, used, u) || Within(hp, n, u)
  }

  lemma KeptRefl(mem: seq<Header>, tiles: map<nat, nat>, used: set<nat>, base: nat)
    requires Heap(mem, base, tiles, used)
    ensures Kept(mem, tiles, mem, tiles, used)
  { }

  lemma HeapBounds(mem: seq<Header>, base: nat, tiles: map<nat, nat>, used: set<nat>)
    requires Heap(mem, base, tiles, used)
    ensures used <= tiles.Keys
  { }

  lemma GrantUnits(tiles0: map<nat, nat>, tiles1: map<nat, nat>, tiles: map<nat, nat>, used: set<nat>, hp: nat, n: nat)
    requires hp !in tiles0 && tiles1 == tiles0[hp := n] && used <= tiles0.Keys
    requires forall u :: FreeUnit(tiles, used, u) <==> FreeUnit(tiles1, used + {hp}, u) || Within(hp, tiles1[hp], u)
    ensures Grown(tiles0, tiles, used, hp, n)
  {
    forall u ensures FreeUnit(tiles1, used + {hp}, u) <==> FreeUnit(tiles0, used, u) {
      if FreeUnit(tiles0, used, u) {
        var h :| h in tiles0 && h !in used && Within(h, tiles0[h], u);
        assert h in tiles1 && h !in used + {hp} && Within(h, tiles1[h], u);
      }
      if FreeUnit(tiles1, used + {hp}, u) {
        var h :| h in tiles1 && h !in used + {hp} && Within(h, tiles1[h], u);
        assert h in tiles0 && Within(h, tiles0[h], u);
      }
    }
    hide FreeUnit;
  }

  lemma GrantKept(mem0: seq<Header>, mem1: seq<Header>, mem: seq<Header>, tiles0: map<nat, nat>,
      tiles1: map<nat, nat>, tiles: map<nat, nat>, used: set<nat>, hp: nat, n: nat)
    requires hp < |mem0| && hp !in tiles0 && tiles1 == tiles0[hp := n] && used <= tiles0.Keys && |mem1| == |mem0|
    requires (forall h | h in tiles0 :: h + tiles0[h] <= hp)
      && (forall x | 0 <= x < |mem0| && x != hp :: mem1[x] == mem0[x])
    requires Kept(mem1, tiles1, mem, tiles, used)
    ensures Kept(mem0, tiles0, mem, tiles, used)
  { }

  /** mem differs from mem0 at x at most. */
  ghost predicate WroteAt(mem0: seq<Header>, mem: seq<Header>, x: nat) {
    |mem| == |mem0| && forall y | 0 <= y < |mem| && y != x :: mem[y] == mem0[y]
  }

  lemma UnitsChain(tiles0: map<nat, nat>, used0: set<nat>, tiles1: map<nat, nat>, tiles: map<nat, nat>,
      used: set<nat>, bp: nat)
    requires bp in tiles0 && bp in used0 && used == used0 - {bp}
    requires SameUnits(tiles0, used, tiles1, used) && SameUnits(tiles1, used, tiles, used)
    ensures forall u :: FreeUnit(tiles, used, u) <==> FreeUnit(tiles0, used0, u) || Within(bp, tiles0[bp], u)
  {
    hide FreeUnit;
    forall u ensures FreeUnit(tiles, used, u) <==> FreeUnit(tiles0, used0, u) || Within(bp, tiles0[bp], u) {
      assert used0 - {bp} + {bp} == used0;
      UnitsOnly(tiles0, used, bp, u);
      assert FreeUnit(tiles1, used, u) <==> FreeUnit(tiles0, used, u);
    }
  }

  lemma SuccessorKnown(mem: seq<Header>, base: nat, tiles: map<nat, nat>, used: set<nat>, p: nat)
    requires Heap(mem, base, tiles, used) && p in Nodes(base, tiles, used)
    ensures mem[p].ptr in Nodes(base, tiles, used)
  {
    assert Succ(Nodes(base, tiles, used), p, mem[p].ptr);
  }

  /** The blocks in use keep their places and lengths. */
  ghost predicate Unaffected(tiles0: map<nat, nat>, tiles: map<nat, nat>, used: set<nat>) {
    used <= tiles0.Keys && used <= tiles.Keys && forall h | h in used :: tiles[h] == tiles0[h]
  }

  lemma UnaffectedTwice(tiles0: map<nat, nat>, tiles1: map<nat, nat>, tiles: map<nat, nat>, used: set<nat>)
    requires Unaffected(tiles0, tiles1, used) && Unaffected(tiles1, tiles, used)
    ensures Unaffected(tiles0, tiles, used)
  { }

  /** Writing the headers of free blocks leaves the blocks in use alone. */
  lemma WritesKept(mem0: seq<Header>, mem1: seq<Header>, mem: seq<Header>, base: nat, tiles0: map<nat, nat>,
      used0: set<nat>, tiles: map<nat, nat>, used: set<nat>, p: nat, q: nat)
    requires Heap(mem0, base, tiles0, used0) && Unaffected(tiles0, tiles, used) && WroteAt(mem0, mem1, q)
      && WroteAt(mem1, mem, p)
    requires (p == base || p in tiles0) && q in tiles0 && p !in used && q !in used
    ensures Kept(mem0, tiles0, mem, tiles, used)
  {
    hide Linked, Coalesced;
  }
}
