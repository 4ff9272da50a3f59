/** kernel/pipe.c: the ring buffer with its two 32-bit counters. */
module Pipe {
  import opened Basics

  const PIPESIZE: nat := 512

  type Byte = bv8

  /** How a stretch under the lock ends. */
  datatype Outcome = Returns | Fails | Sleeps

  /** Where a write of len bytes from i on stops when there is room for so many. */
  function Stop(i: nat, len: nat, room: nat): nat
    requires i <= len
  {
    Min(len, i + room)
  }

  function WriteEnds(done: bool, readopen: bool, killed: bool): Outcome {
    if done then Returns else if !readopen || killed then Fails else Sleeps
  }

  function ReadEnds(empty: bool, writeopen: bool, killed: bool): Outcome {
    if empty && writeopen then (if killed then Fails else Sleeps) else Returns
  }

  /** The bytes in flight are in the ring, each at its count modulo the size. */
  ghost predicate InRing(data: seq<Byte>, sent: seq<Byte>, from: nat)
    requires |data| == PIPESIZE
  {
    forall k | from <= k < |sent| :: data[k % PIPESIZE] == sent[k]
  }

  lemma RingWrite(data: seq<Byte>, sent: seq<Byte>, from: nat, b: Byte)
    requires |data| == PIPESIZE && from <= |sent| < from + PIPESIZE && InRing(data, sent, from)
    ensures InRing(data[|sent| % PIPESIZE := b], sent + [b], from)
  {
    var data', sent' := data[|sent| % PIPESIZE := b], sent + [b];
    forall k | from <= k < |sent'| ensures data'[k % PIPESIZE] == sent'[k] {
      if k < |sent| { SameSlot(k, |sent|); }
    }
  }

  lemma InRingAt(data: seq<Byte>, sent: seq<Byte>, from: nat)
    requires |data| == PIPESIZE && from < |sent| && InRing(data, sent, from)
    ensures data[from % PIPESIZE] == sent[from] && InRing(data, sent, from + 1)
  { }

  lemma NextCount(n: nat)
    ensures (n % UINT + 1) % UINT == (n + 1) % UINT
  { }

  lemma SameSlot(k: nat, m: nat)
    requires 0 < m - k < PIPESIZE
    ensures k % PIPESIZE != m % PIPESIZE
  { }

  /** A wrapped counter names the same slot. */
  lemma WrappedSlot(n: nat)
    ensures n % UINT % PIPESIZE == n % PIPESIZE
  {
    assert n == n / UINT * UINT + n % UINT;
    assert n / UINT * UINT == (n / UINT * 0x80_0000) * PIPESIZE;
    ModAdd(n % UINT, n / UINT * 0x80_0000);
  }

  lemma {:induction false} ModAdd(a: nat, k: nat)
    ensures (a + k * PIPESIZE) % PIPESIZE == a % PIPESIZE
    decreases k
  {
    if k > 0 {
      ModAdd(a, k - 1);
      assert a + k * PIPESIZE == a + (k - 1) * PIPESIZE + PIPESIZE;
    }
  }

  /** The wrapped counters tell a full ring and an empty one. */
  lemma WrappedTests(r: nat, w: nat)
    requires r <= w <= r + PIPESIZE
    ensures w % UINT == (r % UINT + PIPESIZE) % UINT <==> w == r + PIPESIZE
    ensures r % UINT == w % UINT <==> r == w
  { }

  class Pipe {
    const data: array<Byte>
    var nread: nat
    var nwrite: nat
    var readopen: bool
    var writeopen: bool
    ghost var sent: seq<Byte>
    ghost var got: nat

    ghost predicate Valid()
      reads this, data
    {
      && data.Length == PIPESIZE && got <= |sent| <= got + PIPESIZE
      && nread == got % UINT && nwrite == |sent| % UINT && InRing(data[..], sent, got)
    }

    /** pipealloc() */
    constructor ()
      ensures Valid() && sent == [] && got == 0 && readopen && writeopen && fresh(data)
    {
      data := new Byte[PIPESIZE];
      nread, nwrite, readopen, writeopen, sent, got := 0, 0, true, true, [], 0;
    }

    method Put(b: Byte)
      requires Valid() && |sent| < got + PIPESIZE
      modifies this`nwrite, this`sent, data
      ensures Valid() && sent == old(sent) + [b]
    {
      hide InRing;
      WrappedSlot(|sent|);
      NextCount(|sent|);
      RingWrite(data[..], sent, got, b);
      ghost var slot := |sent| % PIPESIZE;
      ghost var data' := data[..][slot := b];
      data[nwrite % PIPESIZE] := b;
      assert data[..] == data';
      nwrite := (nwrite + 1) % UINT;
      sent := sent + [b];
    }

    method Get() returns (b: Byte)
      requires Valid() && got < |sent|
      modifies this`nread, this`got
      ensures Valid() && got == old(got) + 1 && b == sent[old(got)]
    {
      WrappedSlot(got);
      NextCount(got);
      InRingAt(data[..], sent, got);
      hide InRing;
      b := data[nread % PIPESIZE];
      nread, got := (nread + 1) % UINT, got + 1;
    }

    /** pipewrite() from its loop at i on, until it returns or sleeps: as many bytes as there is room for. */
    method Write(addr: seq<Byte>, i0: nat, killed: bool) returns (i: nat, out: Outcome)
      requires Valid() && i0 <= |addr|
      modifies this`nwrite, this`sent, data
      ensures Valid() && i == Stop(i0, |addr|, got + PIPESIZE - |old(sent)|) && sent == old(sent) + addr[i0..i]
      ensures out == WriteEnds(i == |addr|, readopen, killed)
    {
      i := i0;
      assert addr[i0..i0] == [];
      while i < |addr|
        invariant Valid() && i0 <= i <= |addr| && sent == old(sent) + addr[i0..i]
      {
        WrappedTests(got, |sent|);
        if nwrite == (nread + PIPESIZE) % UINT {
          if !readopen || killed { return i, Fails; }
          return i, Sleeps;
        }
        assert addr[i0..i + 1] == addr[i0..i] + [addr[i]];
        Put(addr[i]);
        i := i + 1;
      }
      out := Returns;
    }

    /** piperead(), until it returns or sleeps: the oldest bytes, in order. */
    method Read(n: nat, killed: bool) returns (bytes: seq<Byte>, out: Outcome)
      requires Valid()
      modifies this`nread, this`got
      ensures Valid() && got == old(got) + |bytes|
      ensures out == ReadEnds(old(got) == |sent|, writeopen, killed)
      ensures |bytes| == (if out == Returns then Min(n, |sent| - old(got)) else 0) && bytes == sent[old(got)..got]
    {
      bytes := [];
      WrappedTests(got, |sent|);
      if nread == nwrite && writeopen {
        if killed { return [], Fails; }
        return [], Sleeps;
      }
      var i := 0;
      while i < n
        invariant Valid() && 0 <= i <= n && i == |bytes| && got == old(got) + i && bytes == sent[old(got)..got]
      {
        WrappedTests(got, |sent|);
        if nread == nwrite { break; }
        var b := Get();
        bytes := bytes + [b];
        i := i + 1;
      }
      out := Returns;
    }
  }
}
