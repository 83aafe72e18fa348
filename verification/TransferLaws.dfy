/**
 Laws of the command meaning: what a command leaves alone, that a read returns what a write put there,
 and where CSR access is not faithful.
 */
module TransferLaws {
  import Bits
  import opened Bytes
  import opened RiscV
  import opened AbstractCommand
  import opened Hart
  import opened ParkLoop
  import opened Transfer

  /** A command changes at most the register it names or the low bytes of the data registers, never both.
      Named through a CSR that stashes it, that register is s0 or a0. */
  lemma OnlyTheNamedRegister(core: Core, id: nat, c: Command, l: Logical, d: seq<Byte>, r: bv5)
    requires |d| == 8
    ensures var m, csr := Meaning(core, id, c, l, d), c.transfer && c.write && c.IsCsr();
            && (m.logical == l || m.data == d)
            && (m.logical.x[r] == l.x[r] || (c.transfer && c.write && c.IsGpr() && r == c.Reg())
                || (csr && Stash(core, c.Csr()) && r == Stashed(c.Csr())))
            && (m.logical.f[r] == l.f[r] || (c.transfer && c.write && c.IsFpr() && r == c.Reg()))
            && (m.logical.csrs == l.csrs || (csr && c.Csr() != CSR_DSCRATCH0 && c.Csr() != CSR_DSCRATCH1))
            && (m.logical.scratch1 == l.scratch1 || (csr && c.Csr() == CSR_DSCRATCH1 && !core.Snd()))
            && m.data[TransferSize(c)..] == d[TransferSize(c)..]
  {
  }

  /** The CSRs in which the park loop keeps integer registers, and the register each one keeps. */
  predicate Stash(core: Core, csr: bv12) { csr == CSR_DSCRATCH0 || (csr == CSR_DSCRATCH1 && core.Snd()) }

  function Stashed(csr: bv12): bv5 { if csr == CSR_DSCRATCH0 then S0 else A0 }

  // ----- reading back

  /** The n low bytes do not depend on multiples of 256^n. */
  lemma {:induction false} LowBytes(v: nat, m: nat, n: nat)
    ensures ToBytes(v + m * Pow256(n), n) == ToBytes(v, n)
  {
    if n > 0 {
      var q := Pow256(n - 1);
      TakeOut(m, q);
      NextDigit(v, m * q);
      LowBytes(v / 256, m, n - 1);
    }
  }

  lemma TakeOut(m: nat, q: nat)
    ensures m * (256 * q) == 256 * (m * q)
  {
  }

  lemma NextDigit(v: nat, p: nat)
    ensures (v + 256 * p) % 256 == v % 256 && (v + 256 * p) / 256 == v / 256 + p
  {
  }

  lemma PowersOf256()
    ensures Pow256(1) == 0x100 && Pow256(2) == 0x1_0000 && Pow256(4) == TWO32 && Pow256(8) == TWO64
  {
    assert Pow256(3) == 0x100_0000;
    assert Pow256(5) == 256 * TWO32 && Pow256(6) == 0x1_0000 * TWO32 && Pow256(7) == 0x100_0000 * TWO32;
  }

  /** Sign extension adds a multiple of 256^n. */
  lemma SignExtension(core: Core, v: nat, n: nat) returns (m: nat)
    requires core.Valid() && n in {1, 2, 4, 8} && n * 8 <= core.xlen && v < Pow256(n)
    ensures core.Wrap(v - Pow256(n)) == v + m * Pow256(n)
  {
    PowersOf256();
    m := if n == 8 || (n == 4 && core.xlen == 32) then 0
         else if n == 4 then TWO32 - 1
         else if n == 2 then if core.xlen == 32 then 0xffff else 0xffff_ffff_ffff
         else if core.xlen == 32 then 0xff_ffff else 0xff_ffff_ffff_ffff;
    if n == 1 { assert Pow256(n) == 0x100; } else if n == 2 { assert Pow256(n) == 0x1_0000; }
    else if n == 4 { assert Pow256(n) == TWO32; } else { assert Pow256(n) == TWO64; }
  }

  /** Storing a sign-extended value gives back the bytes it was loaded from. */
  lemma StoreOfLoad(core: Core, bs: seq<Byte>)
    requires core.Valid() && |bs| in {1, 2, 4, 8} && |bs| * 8 <= core.xlen
    ensures ToBytes(LoadValue(core, bs), |bs|) == bs
  {
    hide ToBytes, FromBytes, Pow256, Core.Wrap;
    FromBytesBound(bs);
    BytesOfValue(bs);
    var m := SignExtension(core, FromBytes(bs), |bs|);
    LowBytes(FromBytes(bs), m, |bs|);
  }

  lemma StoreOfFloatLoad(core: Core, bs: seq<Byte>)
    requires core.Valid() && |bs| in {4, 8}
    ensures ToBytes(FloatValue(core, bs), |bs|) == bs
  {
    PowersOf256();
    BytesOfValue(bs);
    LowBytes(FromBytes(bs), TWO32 - 1, 4);
  }

  /** A single-precision value is boxed: in a wider register the upper four bytes are all ones. */
  lemma FloatBoxed(core: Core, bs: seq<Byte>)
    requires |bs| == 4 && core.flen == 64
    ensures ToBytes(FloatValue(core, bs), 8) == bs + [255, 255, 255, 255]
  {
    hide ToBytes, FromBytes, Pow256;
    PowersOf256();
    var ones: seq<Byte> := [255, 255, 255, 255];
    AllOnes(ones);
    JoinedBytes(bs, ones);
    BytesOfValue(bs + ones);
  }

  lemma AllOnes(bs: seq<Byte>)
    requires bs == [255, 255, 255, 255]
    ensures FromBytes(bs) == 0xffff_ffff
  {
    assert bs[1..] == [255, 255, 255] && bs[1..][1..] == [255, 255] && bs[1..][1..][1..] == [255];
    assert FromBytes([255]) == 255;
    assert FromBytes([255, 255]) == 0xffff;
    assert FromBytes([255, 255, 255]) == 0xff_ffff;
  }

  /** A command moves two to the aarsize bytes. */
  lemma SizeOfTransfer(c: Command)
    ensures c.aarsize < 4 ==> TransferSize(c) == Bits.Pow2(c.aarsize as nat)
  {
    assert c.aarsize == 0 || c.aarsize == 1 || c.aarsize == 2 || c.aarsize == 3 || c.aarsize >= 4;
  }

  /** What a loaded value is worth: the number of its bytes, with its top bit extended to the register. */
  lemma SignExtended(core: Core, bs: seq<Byte>)
    requires core.Valid() && |bs| in {1, 2, 4, 8} && |bs| * 8 <= core.xlen
    ensures Pow256(|bs|) > 0
    ensures LoadValue(core, bs)
            == FromBytes(bs)
               + if bs[|bs| - 1] < 128 then 0 else (if core.xlen == 32 then TWO32 else TWO64) - Pow256(|bs|)
  {
    PowersOf256();
    FromBytesBound(bs);
    TopByte(bs);
  }

  lemma {:induction false} TopByte(bs: seq<Byte>)
    requires |bs| > 0
    ensures bs[|bs| - 1] < 128 <==> FromBytes(bs) < Pow256(|bs|) / 2
  {
    if |bs| > 1 {
      TopByte(bs[1..]);
      assert Pow256(|bs|) / 2 == 256 * (Pow256(|bs| - 1) / 2) by { EvenPower(|bs| - 1); }
    }
  }

  lemma EvenPower(n: nat)
    requires n > 0
    ensures Pow256(n) % 2 == 0
  {
  }

  /** Writing a register and reading it back returns the data written, for every width the register can
      hold; other data bytes are the debugger's. */
  lemma WriteThenRead(core: Core, id: nat, c: Command, l: Logical, d: seq<Byte>, d': seq<Byte>)
    requires core.Valid() && |d| == 8 == |d'| && c.transfer && c.write && !c.IsCsr()
    requires if c.IsFpr() then 2 <= c.aarsize < 4 else c.Reg() != X0 && TransferSize(c) * 8 <= core.xlen
    ensures var written := Meaning(core, id, c, l, d).logical;
            Meaning(core, id, c.(write := false), written, d')
            == Result(written, d[..TransferSize(c)] + d'[TransferSize(c)..])
  {
    var bs := d[..TransferSize(c)];
    if c.IsFpr() { StoreOfFloatLoad(core, bs); } else { StoreOfLoad(core, bs); }
  }

  // ----- the scratch CSRs

  function AllBytes(b: Byte): (d: seq<Byte>)
    ensures |d| == 8
  {
    [b, b, b, b, b, b, b, b]
  }

  /** A CSR write leaves the integer registers alone for all data exactly when the CSR is not one in which
      the park loop keeps s0 or a0: writing such a CSR overwrites the hart's register instead. */
  lemma CsrWriteSparesRegisters(core: Core, id: nat, c: Command, l: Logical)
    requires core.Valid() && c.transfer && c.write && c.IsCsr()
    ensures (forall d: seq<Byte> | |d| == 8 :: Meaning(core, id, c, l, d).logical.x == l.x) <==> !Stash(core, c.Csr())
  {
    if Stash(core, c.Csr()) {
      var zeros, ones := AllBytes(0), AllBytes(1);
      var n, r := TransferSize(c), if c.Csr() == CSR_DSCRATCH0 then S0 else A0;
      DistinctValues(core, n);
      assert Meaning(core, id, c, l, zeros).logical.x[r] == LoadValue(core, zeros[..n]);
      assert Meaning(core, id, c, l, ones).logical.x[r] == LoadValue(core, ones[..n]);
    }
  }

  lemma DistinctValues(core: Core, n: nat)
    requires core.Valid() && n in {1, 2, 4, 8}
    ensures LoadValue(core, AllBytes(0)[..n]) != LoadValue(core, AllBytes(1)[..n])
  {
    PowersOf256();
    var zeros, ones := AllBytes(0)[..n], AllBytes(1)[..n];
    Repeated(0, n);
    Repeated(1, n);
  }

  /** The value of one to eight equal bytes. */
  lemma {:induction false} Repeated(b: Byte, n: nat)
    requires b < 2 && n <= 8
    ensures FromBytes(AllBytes(b)[..n]) * 255 == b * (Pow256(n) - 1)
  {
    if n > 0 {
      Repeated(b, n - 1);
      assert AllBytes(b)[..n][1..] == AllBytes(b)[..n - 1];
      assert b == 0 || b == 1;
    }
  }

  /** What a CSR read returns does not depend on the integer registers, for all of them, exactly when the
      CSR is not such a one. Otherwise it is the hart's register. */
  lemma CsrReadShowsRegister(core: Core, id: nat, c: Command, l: Logical, d: seq<Byte>)
    requires |d| == 8 && c.transfer && !c.write && c.IsCsr()
    ensures (forall x: Regs, y: Regs ::
               Meaning(core, id, c, l.(x := x), d).data == Meaning(core, id, c, l.(x := y), d).data)
            <==> !Stash(core, c.Csr())
    ensures Stash(core, c.Csr()) ==>
              Meaning(core, id, c, l, d).data[..TransferSize(c)] == ToBytes(l.x[Stashed(c.Csr())], TransferSize(c))
  {
    if Stash(core, c.Csr()) {
      var n, x, y := TransferSize(c), Constant(0), Constant(1);
      assert ToBytes(0, n)[0] == 0 && ToBytes(1, n)[0] == 1;
      assert Meaning(core, id, c, l.(x := x), d).data[0] == 0;
      assert Meaning(core, id, c, l.(x := y), d).data[0] == 1;
    }
  }

  function Constant(v: nat): Regs { seq(32, _ => v) }
}
