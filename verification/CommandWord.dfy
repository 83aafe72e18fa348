/**
 The command register as the debugger writes it (ac_ar_cmd_t and command_t in src/dm_pkg.sv): the number
 made of the fields, the registers regno names, and the commands that are refused.
 */
module CommandWord {
  import opened Bits
  import opened RiscV
  import opened AbstractCommand

  function Flag(b: bool, weight: nat): nat { if b then weight else 0 }

  /** The number a debugger writes for a command; bit 23 is reserved. */
  function Encode(c: Command, reserved: bool): nat {
    c.cmdtype as nat * 0x100_0000 + Flag(reserved, 0x80_0000) + c.aarsize as nat * 0x10_0000
    + Flag(c.postincrement, 0x8_0000) + Flag(c.postexec, 0x4_0000) + Flag(c.transfer, 0x2_0000)
    + Flag(c.write, 0x1_0000) + c.regno as nat
  }

  /** The module takes from that number exactly the command, whatever the reserved bit. */
  lemma ParsesBack(c: Command, reserved: bool)
    ensures Encode(c, reserved) < 0x1_0000_0000 && ParseCommand(ToBits(Encode(c, reserved), 32)) == c
  {
    hide ToBits, FromBits, Encode, Field3, Field8, Field16, Nibble;
    EncodedBits(c, reserved);
    Slices(ToBits(c.regno as nat, 16), ToBits(Nibble(c.write, c.transfer, c.postexec, c.postincrement), 4),
           ToBits(c.aarsize as nat, 3), ToBits(BitOf(reserved), 1), ToBits(c.cmdtype as nat, 8));
    FourBits(c.write, c.transfer, c.postexec, c.postincrement);
    RegnoBack(c.regno);
    SizeBack(c.aarsize);
    KindBack(c.cmdtype);
  }

  lemma EncodedBits(c: Command, reserved: bool)
    ensures Encode(c, reserved) < 0x1_0000_0000
    ensures ToBits(Encode(c, reserved), 32)
            == ToBits(c.regno as nat, 16)
               + (ToBits(Nibble(c.write, c.transfer, c.postexec, c.postincrement), 4)
                  + (ToBits(c.aarsize as nat, 3) + (ToBits(BitOf(reserved), 1) + ToBits(c.cmdtype as nat, 8))))
  {
    hide ToBits;
    FieldBits(c.regno as nat, Nibble(c.write, c.transfer, c.postexec, c.postincrement), c.aarsize as nat,
              BitOf(reserved), c.cmdtype as nat);
  }

  lemma RegnoBack(v: bv16)
    ensures Field16(ToBits(v as nat, 16)) == v
  {
    hide ToBits, FromBits;
    PowersOfTwo();
    BitsOfNumber(v as nat, 16);
  }

  lemma SizeBack(v: bv3)
    ensures Field3(ToBits(v as nat, 3)) == v
  {
    hide ToBits, FromBits;
    PowersOfTwo();
    BitsOfNumber(v as nat, 3);
  }

  lemma KindBack(v: bv8)
    ensures Field8(ToBits(v as nat, 8)) == v
  {
    hide ToBits, FromBits;
    PowersOfTwo();
    BitsOfNumber(v as nat, 8);
  }

  function BitOf(b: bool): (n: nat)
    ensures n < 2
  {
    if b then 1 else 0
  }

  function Nibble(a: bool, b: bool, c: bool, d: bool): (n: nat)
    ensures n < 16
  {
    BitOf(a) + 2 * BitOf(b) + 4 * BitOf(c) + 8 * BitOf(d)
  }

  lemma FourBits(a: bool, b: bool, c: bool, d: bool)
    ensures ToBits(Nibble(a, b, c, d), 4) == [a, b, c, d]
  {
  }

  lemma FieldBits(regno: nat, flags: nat, size: nat, reserved: nat, kind: nat)
    requires regno < 0x1_0000 && flags < 16 && size < 8 && reserved < 2 && kind < 0x100
    ensures ToBits(regno + 0x1_0000 * flags + 0x10_0000 * size + 0x80_0000 * reserved + 0x100_0000 * kind, 32)
            == ToBits(regno, 16) + (ToBits(flags, 4) + (ToBits(size, 3) + (ToBits(reserved, 1) + ToBits(kind, 8))))
  {
    hide ToBits;
    PowersOfTwo();
    assert Pow2(4) == 16 && Pow2(1) == 2;
    BitsOfFields(regno, flags + 16 * (size + 8 * (reserved + 2 * kind)), 16, 16);
    BitsOfFields(flags, size + 8 * (reserved + 2 * kind), 4, 12);
    BitsOfFields(size, reserved + 2 * kind, 3, 9);
    BitsOfFields(reserved, kind, 1, 8);
  }

  lemma Slices(r: seq<bool>, f: seq<bool>, s: seq<bool>, x: seq<bool>, k: seq<bool>)
    requires |r| == 16 && |f| == 4 && |s| == 3 && |x| == 1 && |k| == 8
    ensures var w := r + (f + (s + (x + k)));
            && w[..16] == r && w[20..23] == s && w[24..32] == k
            && w[16] == f[0] && w[17] == f[1] && w[18] == f[2] && w[19] == f[3]
  {
  }

  /** Numbers 0x1000 to 0x101f name the integer registers, 0x1020 to 0x103f the floating-point registers; what
      stands in the other bits of such a number does not matter. */
  lemma RegnoNames(c: Command, n: bv5, others: bv16)
    requires others & 0x103f == 0
    ensures (n as bv16) as nat == n as nat
    ensures c.regno == 0x1000 + n as bv16 + others ==> c.IsGpr() && !c.IsFpr() && !c.IsCsr() && c.Reg() == n
    ensures c.regno == 0x1020 + n as bv16 + others ==> c.IsFpr() && !c.IsGpr() && !c.IsCsr() && c.Reg() == n
  {
  }

  /** Numbers 0 to 0xfff name the CSRs; again the other bits do not matter. */
  lemma RegnoNamesCsr(c: Command, n: bv12, others: bv16)
    requires others & 0x1fff == 0 && c.regno == n as bv16 + others
    ensures (n as bv16) as nat == n as nat && c.IsCsr() && !c.IsGpr() && !c.IsFpr() && c.Csr() == n
  {
  }

  /** Exactly these commands are refused: any other kind of command; a transfer of a size the build does not
      have, or of a register number above 0x3fff; and without a transfer a size it does not have or a
      postincrement. A transfer may ask for postincrement. */
  lemma Refusals(cfg: Config, c: Command)
    ensures Unsupported(cfg, c)
            <==> c.cmdtype as nat != 0 || c.aarsize as nat >= cfg.maxAar as nat
                 || (c.transfer && c.regno as nat > 0x3fff) || (!c.transfer && c.postincrement)
  {
    HighBits(c.regno);
  }

  lemma HighBits(r: bv16)
    ensures (r & 0xc000 != 0) == (r as nat > 0x3fff)
  {
    assert (r & 0xc000 != 0) == (r > 0x3fff);
  }
}
