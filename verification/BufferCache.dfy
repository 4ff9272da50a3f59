/** kernel/bio.c over kernel/memide.c: the buffer cache as the code keeps it, a table of
    buffers threaded on a doubly linked ring in order of last release. */
module BufferCache {
  import opened LogFormat

  const ROOTDEV: int := 1
  const NODEV: int := -1         // binit: no block cached yet
  const HEAD: nat := NBUF        // ring node of bcache.head

  datatype Buf = Buf(dev: int, blockno: nat, busy: bool, valid: bool, dirty: bool, data: Block)

  datatype BgetResult = Got(i: nat) | Sleeps(i: nat) | NoBuffers

  // ------------------------------------------------- the ring, as a sequence

  /** Walking next from c[0] visits c; walking prev visits it backwards. */
  ghost predicate Links(next: seq<nat>, prev: seq<nat>, c: seq<nat>) {
    && |next| == |prev| == NBUF + 1
    && (forall k | 0 <= k < |c| :: c[k] <= NBUF)
    && forall k | 0 <= k < |c| - 1 :: next[c[k]] == c[k + 1] && prev[c[k + 1]] == c[k]
  }

  ghost predicate Ring(next: seq<nat>, prev: seq<nat>, order: seq<nat>) {
    && Distinct(order)
    && (forall k | 0 <= k < |order| :: order[k] < NBUF)
    && Links(next, prev, [HEAD] + order + [HEAD])
  }

  function MoveToFront(order: seq<nat>, p: nat): seq<nat>
    requires p < |order|
  {
    [order[p]] + order[..p] + order[p + 1..]
  }

  lemma LinksAt(next: seq<nat>, prev: seq<nat>, order: seq<nat>, p: nat)
    requires Ring(next, prev, order) && p < |order|
    ensures next[order[p]] == if p + 1 < |order| then order[p + 1] else HEAD
    ensures prev[order[p]] == if p > 0 then order[p - 1] else HEAD
    ensures next[HEAD] == order[0] && prev[HEAD] == order[|order| - 1]
  {
    var c := [HEAD] + order + [HEAD];
    assert c[p + 1] == order[p] && c[0] == HEAD && c[|order| + 1] == HEAD;
    assert next[c[p + 1]] == c[p + 2] && prev[c[p + 1]] == c[p];
    assert next[c[0]] == c[1] && prev[c[|order| + 1]] == c[|order|];
  }

  /** b->next->prev = b->prev; b->prev->next = b->next. */
  lemma Unlinked(next: seq<nat>, prev: seq<nat>, order: seq<nat>, p: nat)
    requires Ring(next, prev, order) && p < |order|
    ensures var b := order[p];
      prev[b] <= NBUF && next[b] <= NBUF
      && Ring(next[prev[b] := next[b]], prev[next[b] := prev[b]], order[..p] + order[p + 1..])
  {
    var b := order[p];
    LinksAt(next, prev, order, p);
    var next', prev', order' := next[prev[b] := next[b]], prev[next[b] := prev[b]], order[..p] + order[p + 1..];
    var c, c' := [HEAD] + order + [HEAD], [HEAD] + order' + [HEAD];
    forall k | 0 <= k < |c'| - 1 ensures next'[c'[k]] == c'[k + 1] && prev'[c'[k + 1]] == c'[k] {
      var i := if k <= p then k else k + 1;
      assert c'[k] == c[i];
      assert next[c[i]] == c[i + 1] && prev[c[i + 1]] == c[i];
    }
  }

  /** The buffer goes behind the head. */
  lemma LinkedFirst(next: seq<nat>, prev: seq<nat>, order: seq<nat>, b: nat)
    requires Ring(next, prev, order) && b < NBUF && b !in order
    ensures var first := next[HEAD];
      first <= NBUF && Ring(next[b := first][HEAD := b], prev[b := HEAD][first := b], [b] + order)
  {
    var c, c' := [HEAD] + order + [HEAD], [HEAD] + ([b] + order) + [HEAD];
    assert next[c[0]] == c[1];
    var first := next[HEAD];
    var next', prev' := next[b := first][HEAD := b], prev[b := HEAD][first := b];
    forall k | 0 <= k < |c'| - 1 ensures next'[c'[k]] == c'[k + 1] && prev'[c'[k + 1]] == c'[k] {
      if k >= 2 {
        assert c'[k] == c[k - 1] && next[c[k - 1]] == c[k] && prev[c[k]] == c[k - 1];
      }
    }
  }

  // ------------------------------------------------- what the two scans of bget look for

  /** The position in order of the buffer caching the block. */
  ghost predicate CachedAt(buf: seq<Buf>, order: seq<nat>, dev: int, blockno: nat, p: nat) {
    p < |order| && order[p] < |buf| && buf[order[p]].dev == dev && buf[order[p]].blockno == blockno
  }

  ghost predicate Cached(buf: seq<Buf>, dev: int, blockno: nat) {
    exists i :: 0 <= i < |buf| && buf[i].dev == dev && buf[i].blockno == blockno
  }

  predicate Recyclable(f: Buf) { !f.busy && !f.dirty }

  /** The least recently released buffer that may be recycled. */
  ghost predicate VictimAt(buf: seq<Buf>, order: seq<nat>, p: nat) {
    && p < |order| && order[p] < |buf| && Recyclable(buf[order[p]])
    && forall q | p < q < |order| :: order[q] < |buf| && !Recyclable(buf[order[q]])
  }

  ghost predicate Permutes(order: seq<nat>) {
    && |order| == NBUF && Distinct(order)
    && (forall k | 0 <= k < |order| :: order[k] < NBUF)
    && (forall i | 0 <= i < NBUF :: i in order)
  }

  /** No block is cached twice. */
  ghost predicate Unique(buf: seq<Buf>) {
    forall i, j | 0 <= i < j < |buf| && buf[i].dev == buf[j].dev && buf[i].blockno == buf[j].blockno ::
      buf[i].dev == NODEV
  }

  lemma Rearranged(order: seq<nat>, p: nat)
    requires Permutes(order) && p < |order|
    ensures Permutes(MoveToFront(order, p))
  {
    var o := MoveToFront(order, p);
    forall i | 0 <= i < NBUF ensures i in o {
      assert i in order;
      var q :| 0 <= q < |order| && order[q] == i;
      assert o[if q == p then 0 else if q < p then q + 1 else q] == i;
    }
  }

  /** The pointer updates of brelse(), in the order the code makes them. */
  lemma MovedToFront(next: seq<nat>, prev: seq<nat>, order: seq<nat>, p: nat)
    requires Ring(next, prev, order) && Permutes(order) && p < |order|
    ensures var b := order[p]; prev[b] <= NBUF && next[b] <= NBUF
    ensures var b := order[p]; var next1, prev1 := next[prev[b] := next[b]], prev[next[b] := prev[b]];
      next1[HEAD] <= NBUF
    ensures var b := order[p];
      var next1, prev1 := next[prev[b] := next[b]], prev[next[b] := prev[b]];
      var first := next1[HEAD];
      Ring(next1[b := first][HEAD := b], prev1[b := HEAD][first := b], MoveToFront(order, p))
    ensures Permutes(MoveToFront(order, p))
  {
    var b := order[p];
    Unlinked(next, prev, order, p);
    var rest := order[..p] + order[p + 1..];
    assert b !in rest;
    LinkedFirst(next[prev[b] := next[b]], prev[next[b] := prev[b]], rest, b);
    assert MoveToFront(order, p) == [b] + rest;
    Rearranged(order, p);
  }

  ghost predicate CoherentParts(disk: seq<Block>, buf: seq<Buf>, view: seq<Block>, pinned: set<nat>) {
    && |view| == |disk|
    && (forall i | 0 <= i < |buf| && buf[i].dev != NODEV :: buf[i].dev == ROOTDEV && buf[i].blockno < |disk|)
    && (forall i | 0 <= i < |buf| && buf[i].dev == ROOTDEV && buf[i].valid :: buf[i].data == view[buf[i].blockno])
    && (forall i | 0 <= i < |buf| ::
       buf[i].dirty <==> buf[i].dev == ROOTDEV && buf[i].valid && buf[i].blockno in pinned)
    && (forall b | b in pinned ::
       b < |disk| && exists i :: 0 <= i < |buf| && buf[i].dev == ROOTDEV && buf[i].blockno == b && buf[i].dirty)
    && (forall b | 0 <= b < |disk| && b !in pinned :: disk[b] == view[b])
  }

  /** No buffer is busy and two can be recycled: bread() of two blocks neither waits nor panics. */
  ghost predicate Quiet(buf: seq<Buf>) {
    && (forall i | 0 <= i < |buf| :: !buf[i].busy)
    && exists i, j | 0 <= i < j < |buf| :: Recyclable(buf[i]) && Recyclable(buf[j])
  }

  /** What bread() leaves of a quiet cache still serves a read of any other block. */
  ghost predicate OneBusy(buf: seq<Buf>, i: nat) {
    && i < |buf| && (forall k | 0 <= k < |buf| && k != i :: !buf[k].busy)
    && exists k | 0 <= k < |buf| :: k != i && Recyclable(buf[k])
  }

  lemma QuietReads(buf: seq<Buf>, buf': seq<Buf>, i: nat)
    requires Quiet(buf) && i < |buf| && |buf'| == |buf| && buf' == buf[i := buf'[i]]
    ensures OneBusy(buf', i)
  {
    var a, b :| 0 <= a < b < |buf| && Recyclable(buf[a]) && Recyclable(buf[b]);
    var k := if a == i then b else a;
    assert k != i && Recyclable(buf'[k]);
  }

  /** Releasing what was read makes the cache quiet again, if no buffer got DIRTY. */
  lemma QuietAgain(buf: seq<Buf>, buf': seq<Buf>)
    requires Quiet(buf) && |buf'| == |buf|
    requires forall k | 0 <= k < |buf| :: !buf'[k].busy && (Recyclable(buf[k]) ==> Recyclable(buf'[k]))
    ensures Quiet(buf')
  {
    var a, b :| 0 <= a < b < |buf| && Recyclable(buf[a]) && Recyclable(buf[b]);
    assert Recyclable(buf'[a]) && Recyclable(buf'[b]);
  }

  lemma QuietAfterTwo(buf: seq<Buf>, buf': seq<Buf>, i: nat, j: nat)
    requires Quiet(buf) && i < |buf| && j < |buf| && i != j && |buf'| == |buf|
      && buf' == buf[i := buf'[i]][j := buf'[j]]
    requires !buf'[i].busy && (Recyclable(buf[i]) ==> !buf'[i].dirty)
    requires !buf'[j].busy && (Recyclable(buf[j]) ==> !buf'[j].dirty)
    ensures Quiet(buf')
  {
    forall k | 0 <= k < |buf| ensures !buf'[k].busy && (Recyclable(buf[k]) ==> Recyclable(buf'[k])) {
      assert k != i && k != j ==> buf'[k] == buf[k];
    }
    QuietAgain(buf, buf');
  }

  class Bcache {
    var disk: seq<Block>
    var buf: seq<Buf>
    var next: seq<nat>
    var prev: seq<nat>
    /** Ring order, most recently released first. */
    ghost var order: seq<nat>
    /** The disk after each write, in order. */
    ghost var writes: seq<seq<Block>>
    /** What each block is worth to its next reader, and the blocks only the cache knows. */
    ghost var view: seq<Block>
    ghost var pinned: set<nat>

    ghost predicate Valid()
      reads this
    {
      && |buf| == NBUF
      && Permutes(order)
      && Ring(next, prev, order)
      && Unique(buf)
    }

    /** Every valid buffer holds the view; the disk holds it for all blocks but the pinned,
        and those are cached DIRTY. */
    ghost predicate Coherent()
      reads this
    {
      && Valid()
      && CoherentParts(disk, buf, view, pinned)
    }

    /** binit(). */
    constructor (image: seq<Block>)
      ensures Coherent() && disk == view == image && writes == [] && pinned == {}
      ensures forall i | 0 <= i < NBUF :: buf[i].dev == NODEV && Recyclable(buf[i])
    {
      disk := image;
      view := image;
      pinned := {};
      writes := [];
      buf := seq(NBUF, _ => Buf(NODEV, 0, false, false, false, seq(BWORDS, _ => 0)));
      next := seq(NBUF + 1, _ => HEAD);
      prev := seq(NBUF + 1, _ => HEAD);
      order := [];
      new;
      assert Ring(next, prev, order);
      hide Ring;
      for b := 0 to NBUF
        invariant |buf| == NBUF && Ring(next, prev, order)
        invariant |order| == b && forall k | 0 <= k < b :: order[k] < b
        invariant forall i | 0 <= i < b :: i in order
        invariant disk == view == image && writes == [] && pinned == {}
        invariant forall i | 0 <= i < NBUF :: buf[i].dev == NODEV && Recyclable(buf[i])
      {
        LinkedFirst(next, prev, order, b);
        var first := next[HEAD];
        next := next[b := first];
        prev := prev[b := HEAD];
        prev := prev[first := b];
        next := next[HEAD := b];
        order := [b] + order;
      }
    }

    /** First scan of bget(): along next from the head. */
    method FindCached(dev: int, blockno: nat) returns (b: nat)
      requires Valid()
      ensures b <= NBUF && (b != HEAD ==> buf[b].dev == dev && buf[b].blockno == blockno)
      ensures b == HEAD <==> !Cached(buf, dev, blockno)
    {
      ghost var k := 0;
      LinksAt(next, prev, order, 0);
      b := next[HEAD];
      while b != HEAD
        invariant 0 <= k <= NBUF && b == (if k < NBUF then order[k] else HEAD)
        invariant forall q | 0 <= q < k :: !CachedAt(buf, order, dev, blockno, q)
        decreases NBUF - k
      {
        if buf[b].dev == dev && buf[b].blockno == blockno {
          return;
        }
        LinksAt(next, prev, order, k);
        b := next[b];
        k := k + 1;
      }
      forall i | 0 <= i < NBUF ensures !(buf[i].dev == dev && buf[i].blockno == blockno) {
        assert i in order;
        var q :| 0 <= q < NBUF && order[q] == i;
        assert !CachedAt(buf, order, dev, blockno, q);
      }
    }

    /** Second scan of bget(): along prev, so from the least recently released. */
    method FindVictim() returns (b: nat)
      requires Valid()
      ensures b <= NBUF && (b != HEAD ==> exists p: nat :: VictimAt(buf, order, p) && order[p] == b)
      ensures b == HEAD <==> forall i | 0 <= i < NBUF :: !Recyclable(buf[i])
    {
      LinksAt(next, prev, order, 0);
      b := prev[HEAD];
      ghost var k := NBUF;
      while b != HEAD
        invariant 0 <= k <= NBUF && b == (if k > 0 then order[k - 1] else HEAD)
        invariant forall q | k <= q < NBUF :: !Recyclable(buf[order[q]])
        decreases k
      {
        if !buf[b].busy && !buf[b].dirty {
          assert VictimAt(buf, order, k - 1);
          return;
        }
        LinksAt(next, prev, order, k - 1);
        b := prev[b];
        k := k - 1;
      }
      forall i | 0 <= i < NBUF ensures !Recyclable(buf[i]) {
        assert i in order;
        var q :| 0 <= q < NBUF && order[q] == i;
      }
    }

    /** bget(): the cached buffer if it is not busy, else the least recently used clean one. */
    method Bget(dev: int, blockno: nat) returns (r: BgetResult)
      requires Valid() && dev != NODEV
      modifies this`buf
      ensures Valid()
      ensures r.Got? ==> r.i < NBUF && !old(buf)[r.i].busy && buf == old(buf)[r.i := buf[r.i]]
      ensures r.Got? && old(Cached(buf, dev, blockno)) ==>
        old(buf)[r.i].dev == dev && old(buf)[r.i].blockno == blockno && buf[r.i] == old(buf)[r.i].(busy := true)
      ensures r.Got? && !old(Cached(buf, dev, blockno)) ==>
        && buf[r.i] == Buf(dev, blockno, true, false, false, old(buf)[r.i].data)
        && exists p: nat :: VictimAt(old(buf), order, p) && order[p] == r.i
      ensures r.Sleeps? ==>
        buf == old(buf) && r.i < NBUF && buf[r.i].dev == dev && buf[r.i].blockno == blockno && buf[r.i].busy
      ensures r.NoBuffers? <==> !old(Cached(buf, dev, blockno)) && forall i | 0 <= i < NBUF :: !Recyclable(old(buf)[i])
      ensures r.NoBuffers? ==> buf == old(buf)
    {
      var b := FindCached(dev, blockno);
      if b != HEAD {
        if !buf[b].busy {
          buf := buf[b := buf[b].(busy := true)];
          return Got(b);
        }
        return Sleeps(b);
      }
      b := FindVictim();
      if b != HEAD {
        buf := buf[b := Buf(dev, blockno, true, false, false, buf[b].data)];
        return Got(b);
      }
      return NoBuffers;
    }

    /** iderw(): write a DIRTY buffer, else fill an invalid one. */
    method Iderw(i: nat)
      requires Valid() && i < NBUF && buf[i].busy && (buf[i].dirty || !buf[i].valid)
      requires buf[i].dev == ROOTDEV && buf[i].blockno < |disk|
      modifies this`buf, this`disk, this`writes
      ensures Valid()
      ensures old(buf[i].dirty) ==> disk == old(disk[buf[i].blockno := buf[i].data]) && writes == old(writes) + [disk]
      ensures !old(buf[i].dirty) ==> disk == old(disk) && writes == old(writes)
      ensures |disk| == |old(disk)|
        && buf == old(buf)[i := old(buf[i]).(valid := true, dirty := false, data := disk[old(buf[i].blockno)])]
    {
      if buf[i].dirty {
        disk := disk[buf[i].blockno := buf[i].data];
        writes := writes + [disk];
        buf := buf[i := buf[i].(dirty := false)];
      } else {
        buf := buf[i := buf[i].(data := disk[buf[i].blockno])];
      }
      buf := buf[i := buf[i].(valid := true)];
    }

    /** brelse(): to the front of the ring, not busy any more. */
    method Brelse(i: nat)
      requires Valid() && i < NBUF && buf[i].busy
      modifies this`buf, this`next, this`prev, this`order
      ensures Valid()
      ensures buf == old(buf)[i := old(buf[i]).(busy := false)]
      ensures exists p | 0 <= p < NBUF :: old(order)[p] == i && order == MoveToFront(old(order), p)
    {
      assert i in order;
      ghost var p :| 0 <= p < NBUF && order[p] == i;
      MovedToFront(next, prev, order, p);
      var was, after := prev[i], next[i];
      prev := prev[after := was];
      next := next[was := after];
      var first := next[HEAD];
      next := next[i := first];
      prev := prev[i := HEAD];
      prev := prev[first := i];
      next := next[HEAD := i];
      order := MoveToFront(order, p);
      buf := buf[i := buf[i].(busy := false)];
    }

    /** bread(): a busy buffer holding the view of the block. */
    method Bread(blockno: nat) returns (r: BgetResult)
      requires Coherent() && blockno < |disk|
      modifies this
      ensures Coherent() && disk == old(disk) && view == old(view) && pinned == old(pinned) && writes == old(writes)
      ensures r.Got? ==>
        && r.i < NBUF && !old(buf)[r.i].busy && buf == old(buf)[r.i := buf[r.i]]
        && buf[r.i].dev == ROOTDEV && buf[r.i].blockno == blockno && buf[r.i].busy && buf[r.i].valid
        && buf[r.i].data == view[blockno] && (Recyclable(old(buf)[r.i]) ==> !buf[r.i].dirty)
      ensures !r.Got? ==> buf == old(buf)
      ensures r.Sleeps? ==> r.i < NBUF && buf[r.i].blockno == blockno && buf[r.i].busy
      ensures r.NoBuffers? ==> forall i | 0 <= i < NBUF :: !Recyclable(buf[i])
    {
      r := Bget(ROOTDEV, blockno);
      if r.Got? {
        if !buf[r.i].valid {
          Iderw(r.i);
        }
        FilledCoherent(disk, old(buf), view, pinned, r.i, blockno, buf);
      }
    }

    /** memmove into a busy buffer, then bwrite(). */
    method Bwrite(i: nat, data: Block)
      requires Coherent() && i < NBUF && buf[i].busy && buf[i].dev == ROOTDEV
      modifies this
      ensures Coherent() && buf == old(buf)[i := old(buf)[i].(valid := true, dirty := false, data := data)]
      ensures var b := buf[i].blockno;
        b < |old(disk)| && disk == old(disk)[b := data] && view == old(view)[b := data] && pinned == old(pinned) - {b}
      ensures writes == old(writes) + [disk]
    {
      buf := buf[i := buf[i].(data := data, dirty := true)];
      view := view[buf[i].blockno := data];
      pinned := pinned - {buf[i].blockno};
      Iderw(i);
      WrittenCoherent(old(disk), old(buf), old(view), old(pinned), i, data);
      assert buf == old(buf)[i := old(buf)[i].(valid := true, dirty := false, data := data)];
      assert CoherentParts(disk, buf, view, pinned);
    }

    /** log_write() marks a changed buffer: the cache alone knows its contents until commit. */
    method Pin(i: nat, data: Block)
      requires Coherent() && i < NBUF && buf[i].busy && buf[i].dev == ROOTDEV && buf[i].valid
      modifies this
      ensures Coherent() && buf == old(buf)[i := old(buf)[i].(dirty := true, data := data)]
      ensures var b := buf[i].blockno; b < |old(view)| && view == old(view)[b := data] && pinned == old(pinned) + {b}
      ensures disk == old(disk) && writes == old(writes)
    {
      buf := buf[i := buf[i].(data := data, dirty := true)];
      view := view[buf[i].blockno := data];
      pinned := pinned + {buf[i].blockno};
      PinnedCoherent(disk, old(buf), old(view), old(pinned), i, data);
    }

    method Release(i: nat)
      requires Coherent() && i < NBUF && buf[i].busy
      modifies this
      ensures Coherent() && disk == old(disk) && view == old(view) && pinned == old(pinned) && writes == old(writes)
      ensures buf == old(buf)[i := old(buf)[i].(busy := false)]
    {
      Brelse(i);
      ReleasedCoherent(disk, old(buf), view, pinned, i);
    }
  }

  lemma FilledCoherent(disk: seq<Block>, buf: seq<Buf>, view: seq<Block>, pinned: set<nat>, i: nat, b: nat,
      buf': seq<Buf>)
    requires CoherentParts(disk, buf, view, pinned) && Unique(buf) && i < |buf| && b < |disk| && !buf[i].busy
    requires |buf'| == |buf| && buf' == buf[i := buf'[i]] && buf'[i].dev == ROOTDEV && buf'[i].blockno == b
      && buf'[i].valid
    requires if Cached(buf, ROOTDEV, b)
      then buf[i].dev == ROOTDEV && buf[i].blockno == b && buf'[i].dirty == buf[i].dirty
        && buf'[i].data == (if buf[i].valid then buf[i].data else disk[b])
      else Recyclable(buf[i]) && !buf'[i].dirty && buf'[i].data == disk[b]
    ensures CoherentParts(disk, buf', view, pinned) && buf'[i].data == view[b]
  {
    forall x | x in pinned
      ensures exists j :: 0 <= j < |buf'| && buf'[j].dev == ROOTDEV && buf'[j].blockno == x && buf'[j].dirty
    {
      var j :| 0 <= j < |buf| && buf[j].dev == ROOTDEV && buf[j].blockno == x && buf[j].dirty;
      assert buf'[j].dev == ROOTDEV && buf'[j].blockno == x && buf'[j].dirty;
    }
  }

  lemma WrittenCoherent(disk: seq<Block>, buf: seq<Buf>, view: seq<Block>, pinned: set<nat>, i: nat, data: Block)
    requires CoherentParts(disk, buf, view, pinned) && Unique(buf) && i < |buf| && buf[i].dev == ROOTDEV
    ensures var b := buf[i].blockno;
      CoherentParts(disk[b := data], buf[i := buf[i].(valid := true, dirty := false, data := data)], view[b := data],
        pinned - {b})
  {
    var b := buf[i].blockno;
    var buf' := buf[i := buf[i].(valid := true, dirty := false, data := data)];
    forall x | x in pinned - {b}
      ensures exists j :: 0 <= j < |buf'| && buf'[j].dev == ROOTDEV && buf'[j].blockno == x && buf'[j].dirty
    {
      var j :| 0 <= j < |buf| && buf[j].dev == ROOTDEV && buf[j].blockno == x && buf[j].dirty;
      assert buf'[j] == buf[j];
    }
  }

  lemma PinnedCoherent(disk: seq<Block>, buf: seq<Buf>, view: seq<Block>, pinned: set<nat>, i: nat, data: Block)
    requires CoherentParts(disk, buf, view, pinned) && Unique(buf) && i < |buf| && buf[i].dev == ROOTDEV && buf[i].valid
    ensures var b := buf[i].blockno;
      CoherentParts(disk, buf[i := buf[i].(dirty := true, data := data)], view[b := data], pinned + {b})
  {
    var b := buf[i].blockno;
    var buf' := buf[i := buf[i].(dirty := true, data := data)];
    forall x | x in pinned + {b}
      ensures exists j :: 0 <= j < |buf'| && buf'[j].dev == ROOTDEV && buf'[j].blockno == x && buf'[j].dirty
    {
      if x == b {
        assert buf'[i].blockno == b;
      } else {
        var j :| 0 <= j < |buf| && buf[j].dev == ROOTDEV && buf[j].blockno == x && buf[j].dirty;
        assert buf'[j] == buf[j];
      }
    }
  }

  lemma ReleasedCoherent(disk: seq<Block>, buf: seq<Buf>, view: seq<Block>, pinned: set<nat>, i: nat)
    requires CoherentParts(disk, buf, view, pinned) && i < |buf|
    ensures CoherentParts(disk, buf[i := buf[i].(busy := false)], view, pinned)
  {
    var buf' := buf[i := buf[i].(busy := false)];
    forall x | x in pinned
      ensures exists j :: 0 <= j < |buf'| && buf'[j].dev == ROOTDEV && buf'[j].blockno == x && buf'[j].dirty
    {
      var j :| 0 <= j < |buf| && buf[j].dev == ROOTDEV && buf[j].blockno == x && buf[j].dirty;
      assert buf'[j].dev == ROOTDEV && buf'[j].blockno == x && buf'[j].dirty;
    }
  }
}
