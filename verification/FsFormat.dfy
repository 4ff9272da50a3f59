/** include/fs.h: sizes, the bits of the free map and the words of an indirect block. */
module FsFormat {
  import opened Basics
  import opened Bytes

  const BSIZE: nat := 512
  const NDIRECT: nat := 10
  const NINDIRECT: nat := 128
  const MAXFILE: nat := 138
  const BPB: nat := 4096
  const IPB: nat := 8

  type Block = b: seq<Byte> | |b| == BSIZE witness seq(BSIZE, _ => 0)

  const ZEROS: Block := seq(BSIZE, _ => 0)

  /** Blocks needed for size bytes. */
  function Blocks(size: nat): nat { (size + BSIZE - 1) / BSIZE }

  // ------------------------------------------------- words

  /** The number in n bytes from i on, the lowest first. */
  function Digits(b: Block, i: nat, n: nat): nat
    requires i + n <= BSIZE
    decreases n
  {
    if n == 0 then 0 else Value(b[i]) + 0x100 * Digits(b, i + 1, n - 1)
  }

  /** ((uint*)b)[k], little-endian. */
  function Word(b: Block, k: nat): nat
    requires k < NINDIRECT
  {
    Digits(b, 4 * k, 4)
  }

  lemma FourDigits(b: Block, i: nat)
    requires i + 4 <= BSIZE
    ensures Digits(b, i, 4) == Number(Value(b[i]), Value(b[i + 1]), Value(b[i + 2]), Value(b[i + 3]))
  {
    hide Value;
    assert Digits(b, i + 3, 1) == Value(b[i + 3]);
    assert Digits(b, i + 2, 2) == Value(b[i + 2]) + 0x100 * Value(b[i + 3]);
  }

  function Number(v0: nat, v1: nat, v2: nat, v3: nat): (w: nat)
    ensures v0 < 0x100 && v1 < 0x100 && v2 < 0x100 && v3 < 0x100 ==> w < UINT
  {
    v0 + 0x100 * (v1 + 0x100 * (v2 + 0x100 * v3))
  }

  function Least(w: nat): (v: nat)
    ensures v < 0x100
  {
    w % 0x100
  }

  function Above(w: nat): nat {
    w / 0x100
  }

  function SetWord(b: Block, k: nat, w: nat): (r: Block)
    requires k < NINDIRECT && w < UINT
  {
    b[4 * k := Encode(Least(w))][4 * k + 1 := Encode(Least(Above(w)))]
     [4 * k + 2 := Encode(Least(Above(Above(w))))][4 * k + 3 := Encode(Above(Above(Above(w))))]
  }

  lemma Split(w: nat)
    ensures w == Least(w) + 0x100 * Above(w)
  { }

  lemma FourBytes(w: nat)
    requires w < UINT
    ensures Above(Above(Above(w))) < 0x100
    ensures w == Number(Least(w), Least(Above(w)), Least(Above(Above(w))), Above(Above(Above(w))))
  {
    hide Least, Above;
    Split(w);
    Split(Above(w));
    Split(Above(Above(w)));
  }

  lemma WordOfSet(b: Block, k: nat, w: nat, j: nat)
    requires k < NINDIRECT && j < NINDIRECT && w < UINT
    ensures Word(SetWord(b, k, w), j) == if j == k then w else Word(b, j)
  {
    hide Least, Above, Encode, Value, Number, Digits;
    FourDigits(b, 4 * j);
    FourDigits(SetWord(b, k, w), 4 * j);
    if j == k {
      FourBytes(w);
      ByteTrip(Least(w));
      ByteTrip(Least(Above(w)));
      ByteTrip(Least(Above(Above(w))));
      ByteTrip(Above(Above(Above(w))));
    }
  }

  lemma WordOfZeros(k: nat)
    requires k < NINDIRECT
    ensures Word(ZEROS, k) == 0
  {
    LowZero(8);
    FourDigits(ZEROS, 4 * k);
    hide Digits;
  }
}
