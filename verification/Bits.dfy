/** Bit vectors as sequences of booleans, least significant bit first. */
module Bits {

  type Word = b: seq<bool> | |b| == 32 witness seq(32, _ => false)

  const ZERO: Word := seq(32, _ => false)

  function FromBits(b: seq<bool>): (v: nat)
    ensures v < Pow2(|b|)
  {
    if b == [] then 0 else (if b[0] then 1 else 0) + 2 * FromBits(b[1..])
  }

  function ToBits(v: nat, n: nat): (b: seq<bool>)
    ensures |b| == n
  {
    if n == 0 then [] else [v % 2 == 1] + ToBits(v / 2, n - 1)
  }

  function Pow2(n: nat): (p: nat)
    ensures p > 0
  {
    if n == 0 then 1 else 2 * Pow2(n - 1)
  }

  /** The value of an instruction word. */
  function Instruction(b: Word): bv32 {
    PowersOfTwo();
    FromBits(b) as bv32
  }

  lemma PowersOfTwo()
    ensures Pow2(3) == 8 && Pow2(8) == 0x100 && Pow2(16) == 0x1_0000 && Pow2(32) == 0x1_0000_0000
  {
    assert Pow2(4) == 16 && Pow2(12) == 0x1000 && Pow2(20) == 0x10_0000 && Pow2(24) == 0x100_0000
           && Pow2(28) == 0x1000_0000;
  }

  /** The number in two fields of bits. */
  lemma {:induction false} NumberOfFields(x: seq<bool>, y: seq<bool>)
    ensures FromBits(x + y) == FromBits(x) + Pow2(|x|) * FromBits(y)
  {
    if x == [] {
      assert x + y == y;
    } else {
      NumberOfFields(x[1..], y);
      assert (x + y)[1..] == x[1..] + y;
      Regroup(2, Pow2(|x| - 1), FromBits(y));
    }
  }

  lemma Regroup(k: nat, p: nat, v: nat)
    ensures (k * p) * v == k * (p * v)
  {
  }

  /** The bits of a number made of two fields. */
  lemma {:induction false} BitsOfFields(a: nat, b: nat, m: nat, n: nat)
    requires a < Pow2(m)
    ensures ToBits(a + Pow2(m) * b, m + n) == ToBits(a, m) + ToBits(b, n)
  {
    if m > 0 {
      var half := a / 2 + Pow2(m - 1) * b;
      assert a + Pow2(m) * b == a % 2 + 2 * half;
      BitsOfFields(a / 2, b, m - 1, n);
      assert [a % 2 == 1] + (ToBits(a / 2, m - 1) + ToBits(b, n)) == ToBits(a, m) + ToBits(b, n);
    } else {
      assert ToBits(a, 0) + ToBits(b, n) == ToBits(b, n);
    }
  }

  /** v in n bits and back. */
  lemma {:induction false} BitsOfNumber(v: nat, n: nat)
    requires v < Pow2(n)
    ensures FromBits(ToBits(v, n)) == v
  {
    if n > 0 {
      BitsOfNumber(v / 2, n - 1);
      assert ([v % 2 == 1] + ToBits(v / 2, n - 1))[1..] == ToBits(v / 2, n - 1);
    }
  }

  /** n bits and back. */
  lemma {:induction false} NumberOfBits(b: seq<bool>)
    ensures ToBits(FromBits(b), |b|) == b
  {
    if b != [] {
      NumberOfBits(b[1..]);
      assert (FromBits(b) % 2 == 1) == b[0] && FromBits(b) / 2 == FromBits(b[1..]);
    }
  }
}
