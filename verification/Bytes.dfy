/** Bytes as bit vectors, their bits, and the numbers they stand for. */
module Bytes {
  type Byte = bv8

  /** 1 << k */
  function Mask(k: nat): Byte
    requires k < 8
  {
    if k == 0 then 1 else if k == 1 then 2 else if k == 2 then 4 else if k == 3 then 8
    else if k == 4 then 16 else if k == 5 then 32 else if k == 6 then 64 else 128
  }

  predicate Bit(x: Byte, k: nat)
    requires k < 8
  {
    x & Mask(k) != 0
  }

  lemma BitOfSet(x: Byte, k: nat, j: nat)
    requires k < 8 && j < 8
    ensures Bit(x | Mask(k), j) == (j == k || Bit(x, j))
  { }

  lemma BitOfClear(x: Byte, k: nat, j: nat)
    requires k < 8 && j < 8
    ensures Bit(x & !Mask(k), j) == (j != k && Bit(x, j))
  { }

  function SetBit(x: Byte, k: nat, on: bool): Byte
    requires k < 8
  {
    if on then x | Mask(k) else x & !Mask(k)
  }

  lemma BitOfSetBit(x: Byte, k: nat, on: bool, j: nat)
    requires k < 8 && j < 8
    ensures Bit(SetBit(x, k, on), j) == if j == k then on else Bit(x, j)
  {
    hide Bit, Mask;
    if on { BitOfSet(x, k, j); } else { BitOfClear(x, k, j); }
  }

  // ------------------------------------------------- numbers

  function Power(n: nat): nat
    requires n <= 8
  {
    if n == 0 then 1 else 2 * Power(n - 1)
  }

  /** The number the n low bits of a byte stand for. */
  function Low(x: Byte, n: nat): (v: nat)
    requires n <= 8
    ensures v < Power(n)
  {
    if n == 0 then 0 else Low(x, n - 1) + if Bit(x, n - 1) then Power(n - 1) else 0
  }

  function Value(x: Byte): (v: nat)
    ensures v < 0x100
  {
    Powers();
    Low(x, 8)
  }

  lemma Powers()
    ensures Power(0) == 1 && Power(1) == 2 && Power(2) == 4 && Power(3) == 8 && Power(4) == 16
    ensures Power(5) == 32 && Power(6) == 64 && Power(7) == 128 && Power(8) == 256
  {
    assert Power(2) == 4;
    assert Power(4) == 16;
    assert Power(6) == 64;
  }

  predicate Odd(v: nat) {
    v % 2 == 1
  }

  /** The byte with the n low bits of a number. */
  function Encoded(v: nat, n: nat): Byte
    requires n <= 8
  {
    if n == 0 then 0 else if Odd(Shifted(v, n - 1)) then Encoded(v, n - 1) | Mask(n - 1) else Encoded(v, n - 1)
  }

  function Encode(v: nat): Byte {
    Encoded(v, 8)
  }

  /** v >> n */
  function Shifted(v: nat, n: nat): nat {
    if n == 0 then v else Shifted(v, n - 1) / 2
  }

  lemma NoBits(k: nat)
    requires k < 8
    ensures !Bit(0, k)
  { }

  lemma {:induction false} EncodedBit(v: nat, n: nat, k: nat)
    requires n <= 8 && k < 8
    ensures Bit(Encoded(v, n), k) == (k < n && Odd(Shifted(v, k)))
    decreases n
  {
    hide Bit, Mask;
    if n == 0 {
      NoBits(k);
    } else {
      EncodedBit(v, n - 1, k);
      BitOfSet(Encoded(v, n - 1), n - 1, k);
    }
  }

  /** The low bits of the encoding and the number shifted by as many make up the number. */
  lemma {:induction false} LowOfEncode(v: nat, n: nat)
    requires n <= 8
    ensures Low(Encode(v), n) + Power(n) * Shifted(v, n) == v
    decreases n
  {
    hide Bit, Encode;
    if n > 0 {
      LowOfEncode(v, n - 1);
      EncodedIs(v, n - 1);
      Step(Low(Encode(v), n - 1), Power(n - 1), Shifted(v, n - 1), v);
    }
  }

  lemma EncodedIs(v: nat, k: nat)
    requires k < 8
    ensures Bit(Encode(v), k) == Odd(Shifted(v, k))
  {
    EncodedBit(v, 8, k);
  }

  lemma Step(low: nat, p: nat, s: nat, v: nat)
    requires low + p * s == v
    ensures (low + if Odd(s) then p else 0) + (2 * p) * (s / 2) == v
  {
    var h := s / 2;
    assert s == 2 * h + if Odd(s) then 1 else 0;
    assert p * (2 * h) == (2 * p) * h;
    if Odd(s) { assert p * (2 * h + 1) == p * (2 * h) + p; }
  }

  lemma {:induction false} ShiftedOut(v: nat, n: nat)
    requires n <= 8 && v < Power(n)
    ensures Shifted(v, n) == 0
  {
    LowOfEncode(v, n);
    if Shifted(v, n) > 0 { assert Power(n) * Shifted(v, n) >= Power(n) by { Grows(Power(n), Shifted(v, n)); } }
  }

  lemma Grows(p: nat, s: nat)
    requires s >= 1
    ensures p * s >= p
  { }

  lemma ByteTrip(v: nat)
    requires v < 0x100
    ensures Value(Encode(v)) == v
  {
    hide Encode, Low, Shifted, Power;
    Powers();
    LowOfEncode(v, 8);
    ShiftedOut(v, 8);
  }

  lemma {:induction false} LowZero(n: nat)
    requires n <= 8
    ensures Low(0, n) == 0
  {
    hide Bit;
    if n > 0 {
      LowZero(n - 1);
      NoBits(n - 1);
    }
  }
}
