/** Little-endian byte sequences: the form in which words cross the debug-memory bus. */
module Bytes {

  type Byte = n: nat | n < 256 witness 0

  datatype Option<+T> = None | Some(value: T)

  /** The n low-order bytes of v, least significant first. */
  function ToBytes(v: nat, n: nat): (bs: seq<Byte>)
    ensures |bs| == n
  {
    if n == 0 then [] else [v % 256] + ToBytes(v / 256, n - 1)
  }

  function FromBytes(bs: seq<Byte>): nat {
    if bs == [] then 0 else bs[0] + 256 * FromBytes(bs[1..])
  }

  function Pow256(n: nat): (p: nat)
    ensures p > 0
  {
    if n == 0 then 1 else 256 * Pow256(n - 1)
  }

  lemma {:induction false} FromBytesBound(bs: seq<Byte>)
    ensures FromBytes(bs) < Pow256(|bs|)
  {
    if bs != [] {
      FromBytesBound(bs[1..]);
    }
  }

  /** Writing n bytes and reading them back keeps the value modulo 256^n. */
  lemma {:induction false} BytesRoundTrip(v: nat, n: nat)
    ensures FromBytes(ToBytes(v, n)) == v % Pow256(n)
  {
    if n > 0 {
      BytesRoundTrip(v / 256, n - 1);
      LowByte(v % 256, ToBytes(v / 256, n - 1));
      ModStep(v, Pow256(n - 1));
    }
  }

  lemma LowByte(b: Byte, rest: seq<Byte>)
    ensures FromBytes([b] + rest) == b + 256 * FromBytes(rest)
  {
    assert ([b] + rest)[1..] == rest;
  }

  /** One more low-order digit: v mod 256p from (v/256) mod p. */
  lemma ModStep(v: nat, p: nat)
    requires p > 0
    ensures v % (256 * p) == v % 256 + 256 * (v / 256 % p)
  {
    var q, r := v / 256 / p, v / 256 % p;
    assert (q * p) * 256 == q * (256 * p);
    ModUnique(v, 256 * p, q, 256 * r + v % 256);
  }

  lemma ModUnique(v: nat, m: nat, q: nat, r: nat)
    requires v == q * m + r && r < m
    ensures v % m == r && v / m == q
  {
    var d := q - v / m;
    assert d * m == q * m - (v / m) * m;
    assert d * m == v % m - r;
    SmallMultiple(d, m);
  }

  lemma SmallMultiple(d: int, m: int)
    requires m > 0
    ensures -m < d * m < m ==> d == 0
  {
    if d >= 1 {
      assert (d - 1) * m >= 0;
    } else if d <= -1 {
      assert (-d - 1) * m >= 0;
    }
  }

  /** The number in two runs of bytes. */
  lemma {:induction false} JoinedBytes(x: seq<Byte>, y: seq<Byte>)
    ensures FromBytes(x + y) == FromBytes(x) + Pow256(|x|) * FromBytes(y)
  {
    if x == [] {
      assert x + y == y;
    } else {
      JoinedBytes(x[1..], y);
      assert (x + y)[1..] == x[1..] + y;
      Times256(Pow256(|x| - 1), FromBytes(y));
    }
  }

  lemma Times256(p: nat, v: nat)
    ensures (256 * p) * v == 256 * (p * v)
  {
  }

  lemma {:induction false} BytesOfValue(bs: seq<Byte>)
    ensures ToBytes(FromBytes(bs), |bs|) == bs
  {
    if bs != [] {
      BytesOfValue(bs[1..]);
      Digit(bs[0], FromBytes(bs[1..]));
    }
  }

  lemma Digit(b: Byte, rest: nat)
    ensures (b + 256 * rest) % 256 == b && (b + 256 * rest) / 256 == rest
  {
  }
}
