/**
 What the debugger is told, in numbers: the status of every request by register address, and the register
 words by the weights of their fields (src/dm_pkg.sv).
 */
module DmiAnswers {
  import opened Bits
  import opened Bytes
  import opened DmMem
  import opened DmCsrs
  import opened SbaErrors
  import Haltsum

  function Weight(b: bool, weight: nat): nat { if b then weight else 0 }

  // ----- status

  /** Accesses to data0, data1 and the program buffer, and writes of abstractcs, command and abstractauto. */
  predicate CommandAccess(q: Request) {
    || (!q.op.Nop? && (q.addr == 0x04 || q.addr == 0x05 || 0x20 <= q.addr < 0x28))
    || (q.op.Write? && q.addr in {0x16, 0x17, 0x18})
  }

  /** A request is answered Busy in exactly three cases: such an access while a command runs, an access to
      sbdata or write of sbaddress while the bus master is busy or the busy error is held, and a write of
      sbcs while the bus master is busy. */
  lemma BusyExactly(p: Params, r: RunRegs, s: SbRegs, q: Request, i: RunIn, o: Observed, sbBusy: bool)
    requires p.Valid() && r.Valid(p) && s.Valid() && o.Valid(p)
    ensures Answer(p, r, s, q, i, o, sbBusy).status.Busy?
            <==> (CommandAccess(q) && i.cmdBusy) || (DataOrAddress(q) && (sbBusy || s.busyError))
                 || (WritesSbcs(q) && sbBusy)
  {
    hide ReadData;
  }

  /** An access refused because a command runs changes nothing but cmderr, which becomes Busy if it was
      none; what the harts report or store in the same cycle goes first. */
  lemma RefusedDuringCommand(p: Params, r: RunRegs, q: Request, i: RunIn)
    requires p.Valid() && r.Valid(p) && r.dmactive && (i.hartData.Some? ==> |i.hartData.value| == 8)
    requires CommandAccess(q) && i.cmdBusy
    ensures var t, quiet := RunNext(p, r, Some(q), i), RunNext(p, r, None, i);
            && t == quiet.(cmderr := t.cmderr)
            && t.cmderr == (if i.error.Some? then i.error.value
                            else if r.cmderr == ERR_NONE then ERR_BUSY else r.cmderr)
            && !t.cmdValid && quiet.data == (if i.hartData.Some? then i.hartData.value else r.data)
            && quiet.progbuf == r.progbuf && quiet.command == r.command && quiet.autoexec == r.autoexec
  {
    hide AutoBits, HartselRange, ParseControl, ClearError, WordBytes;
    assert HaveresetNext(p, r, Some(q), i) == HaveresetNext(p, r, None, i);
  }

  /** What a granted access to data0 or data1 returns: the number in its four bytes. */
  lemma DataAnswer(p: Params, r: RunRegs, s: SbRegs, q: Request, i: RunIn, o: Observed, sbBusy: bool)
    requires p.Valid() && r.Valid(p) && s.Valid() && o.Valid(p) && q.op.Read? && q.addr in {0x04, 0x05}
    ensures FromBits(Answer(p, r, s, q, i, o, sbBusy).data)
            == FromBytes(if q.addr == 0x04 then r.data[..4] else r.data[4..])
  {
    hide BytesWord, FromBits, FromBytes, ControlWord, SbcsWord, StatusWord, AbstractcsWord;
    WordNumber(r.data[..4]);
    WordNumber(r.data[4..]);
  }

  // ----- the register words

  function CodeOf(e: CmdErr): nat { Weight(e.b2, 4) + Weight(e.b1, 2) + Weight(e.b0, 1) }

  /** cmderr codes. */
  lemma ErrorCodes()
    ensures CodeOf(ERR_NONE) == 0 && CodeOf(ERR_BUSY) == 1 && CodeOf(ERR_NOT_SUPPORTED) == 2
    ensures CodeOf(ERR_EXCEPTION) == 3 && CodeOf(ERR_HALT_RESUME) == 4
  {
  }

  /** dmstatus: version 2, authenticated, and pairs of any and all bits. */
  lemma StatusNumber(halted: bool, unavailable: bool, resumeack: bool, havereset: bool, nonexistent: bool)
    ensures FromBits(StatusWord(halted, unavailable, resumeack, havereset, nonexistent))
            == 0x82 + Weight(halted && !unavailable, 0x300) + Weight(!halted && !unavailable, 0xc00)
               + Weight(unavailable, 0x3000) + Weight(nonexistent, 0xc000) + Weight(resumeack, 0x3_0000)
               + Weight(havereset, 0xc_0000)
  {
    hide FromBits;
    WordWeights(StatusWord(halted, unavailable, resumeack, havereset, nonexistent));
  }

  /** abstractcs: two data registers, eight program-buffer words, cmderr and busy. */
  lemma AbstractcsNumber(busy: bool, e: CmdErr)
    ensures FromBits(AbstractcsWord(busy, e)) == 2 + 0x100 * CodeOf(e) + Weight(busy, 0x1000) + 8 * 0x100_0000
  {
    hide FromBits, ByteWeights;
    var d := AbstractcsWord(busy, e);
    WordWeights(d);
    assert ByteWeights(d, 0) == 2 && ByteWeights(d, 16) == 0 && ByteWeights(d, 24) == 8 by { ConstantBytes(busy, e); }
    assert ByteWeights(d, 8) == CodeOf(e) + Weight(busy, 16) by { ErrorByte(busy, e); }
  }

  lemma ConstantBytes(busy: bool, e: CmdErr)
    ensures var d := AbstractcsWord(busy, e);
            ByteWeights(d, 0) == 2 && ByteWeights(d, 16) == 0 && ByteWeights(d, 24) == 8
  {
  }

  lemma ErrorByte(busy: bool, e: CmdErr)
    ensures ByteWeights(AbstractcsWord(busy, e), 8) == CodeOf(e) + Weight(busy, 16)
  {
  }

  function ByteWeights(d: Word, k: nat): nat
    requires k + 8 <= 32
  {
    Weight(d[k], 1) + Weight(d[k + 1], 2) + Weight(d[k + 2], 4) + Weight(d[k + 3], 8)
    + Weight(d[k + 4], 16) + Weight(d[k + 5], 32) + Weight(d[k + 6], 64) + Weight(d[k + 7], 128)
  }

  lemma WordWeights(d: Word)
    ensures FromBits(d) == ByteWeights(d, 0) + 0x100 * ByteWeights(d, 8) + 0x1_0000 * ByteWeights(d, 16)
                           + 0x100_0000 * ByteWeights(d, 24)
  {
    hide FromBits, ByteWeights;
    Bytewise(d[..8], d[8..16], d[16..24], d[24..32]);
    assert d == d[..8] + (d[8..16] + (d[16..24] + d[24..32])) && d[..8] == d[0..8];
    EightBits(d, 0);
    EightBits(d, 8);
    EightBits(d, 16);
    EightBits(d, 24);
  }

  /** A field of a few bits and what stands above it. */
  lemma FieldAndRest(x: seq<bool>, y: seq<bool>)
    ensures |x| == 2 ==> FromBits(x + y) == FromBits(x) + 4 * FromBits(y)
    ensures |x| == 3 ==> FromBits(x + y) == FromBits(x) + 8 * FromBits(y)
    ensures |x| == 4 ==> FromBits(x + y) == FromBits(x) + 16 * FromBits(y)
    ensures |x| == 5 ==> FromBits(x + y) == FromBits(x) + 32 * FromBits(y)
    ensures |x| == 6 ==> FromBits(x + y) == FromBits(x) + 64 * FromBits(y)
    ensures |x| == 7 ==> FromBits(x + y) == FromBits(x) + 128 * FromBits(y)
    ensures |x| == 8 ==> FromBits(x + y) == FromBits(x) + 0x100 * FromBits(y)
    ensures |x| == 10 ==> FromBits(x + y) == FromBits(x) + 0x400 * FromBits(y)
    ensures |x| == 14 ==> FromBits(x + y) == FromBits(x) + 0x4000 * FromBits(y)
  {
    hide FromBits;
    NumberOfFields(x, y);
    PowersOfTwo();
    LargePowers();
    assert Pow2(2) == 4 && Pow2(4) == 16 && Pow2(5) == 32 && Pow2(7) == 128;
    assert Pow2(12) == 0x1000 && Pow2(14) == 0x4000;
  }

  lemma Bytewise(a: seq<bool>, b: seq<bool>, c: seq<bool>, d: seq<bool>)
    requires |a| == |b| == |c| == |d| == 8
    ensures FromBits(a + (b + (c + d)))
            == FromBits(a) + 0x100 * FromBits(b) + 0x1_0000 * FromBits(c) + 0x100_0000 * FromBits(d)
  {
    hide FromBits, Pow2;
    FieldAndRest(a, b + (c + d));
    FieldAndRest(b, c + d);
    FieldAndRest(c, d);
  }

  lemma EightBits(d: Word, k: nat)
    requires k + 8 <= 32
    ensures FromBits(d[k..k + 8]) == ByteWeights(d, k)
  {
    hide FromBits, Pow2;
    var x, y := d[k..k + 4], d[k + 4..k + 8];
    assert x + y == d[k..k + 8];
    FieldAndRest(x, y);
    FourBits(x);
    FourBits(y);
  }

  lemma FourBits(b: seq<bool>)
    requires |b| == 4
    ensures FromBits(b) == Weight(b[0], 1) + Weight(b[1], 2) + Weight(b[2], 4) + Weight(b[3], 8)
  {
    assert b[1..][1..] == b[2..] && b[2..][1..] == b[3..] && b[3..][1..] == [];
    assert FromBits(b[3..]) == Weight(b[3], 1);
    assert FromBits(b[2..]) == Weight(b[2], 1) + 2 * FromBits(b[3..]);
    assert FromBits(b[1..]) == Weight(b[1], 1) + 2 * FromBits(b[2..]);
  }

  /** Writing abstractcs: of the code of cmderr exactly the bits written as one are cleared. */
  lemma CmderrMasked(e: CmdErr, d: Word)
    ensures var m, was, now := FromBits(d[8..11]), CodeOf(e), CodeOf(ClearError(e, d));
            forall k :: k in {1, 2, 4} ==> (now / k % 2 == 1 <==> was / k % 2 == 1 && m / k % 2 == 0)
  {
    ThreeBits(d[8..11]);
  }

  lemma ThreeBits(b: seq<bool>)
    requires |b| == 3
    ensures FromBits(b) == Weight(b[0], 1) + Weight(b[1], 2) + Weight(b[2], 4)
  {
    assert b[1..][1..] == b[2..] && b[2..][1..] == [];
    assert FromBits(b[2..]) == Weight(b[2], 1);
    assert FromBits(b[1..]) == Weight(b[1], 1) + 2 * FromBits(b[2..]);
  }

  /** The number a debugger writes to dmcontrol; the fields the module ignores are left zero. */
  function ControlNumber(w: ControlWrite): nat {
    Weight(w.dmactive, 1) + Weight(w.ndmreset, 2) + 0x40 * (w.hartsel / 1024) + 0x1_0000 * (w.hartsel % 1024)
    + Weight(w.ackhavereset, 0x1000_0000) + Weight(w.resumereq, 0x4000_0000) + Weight(w.haltreq, 0x8000_0000)
  }

  /** The bits of that number. */
  function ControlBits(w: ControlWrite): Word
    requires w.hartsel < 0x10_0000
  {
    [w.dmactive, w.ndmreset, false, false, false, false]
    + (ToBits(w.hartsel / 1024, 10)
       + (ToBits(w.hartsel % 1024, 10) + [false, false, w.ackhavereset, false, w.resumereq, w.haltreq]))
  }

  /** The module takes from it exactly those fields. */
  lemma ControlParsesBack(w: ControlWrite)
    requires w.hartsel < 0x10_0000
    ensures ControlNumber(w) < TWO32 && ParseControl(ToBits(ControlNumber(w), 32)) == w
  {
    hide ToBits, FromBits, ControlNumber, ControlBits;
    ControlValue(w);
    NumberOfBits(ControlBits(w));
    ControlFields(w);
  }

  lemma ControlValue(w: ControlWrite)
    requires w.hartsel < 0x10_0000
    ensures FromBits(ControlBits(w)) == ControlNumber(w) < TWO32
  {
    hide ToBits, FromBits;
    var a, b := [w.dmactive, w.ndmreset, false, false, false, false],
                [false, false, w.ackhavereset, false, w.resumereq, w.haltreq];
    ControlFieldNumber(a, ToBits(w.hartsel / 1024, 10), ToBits(w.hartsel % 1024, 10), b);
    LargePowers();
    SixBits(a);
    SixBits(b);
    BitsOfNumber(w.hartsel % 1024, 10);
    BitsOfNumber(w.hartsel / 1024, 10);
  }

  lemma ControlFieldNumber(a: seq<bool>, hi: seq<bool>, lo: seq<bool>, b: seq<bool>)
    requires |a| == 6 && |hi| == 10 && |lo| == 10
    ensures FromBits(a + (hi + (lo + b)))
            == FromBits(a) + 0x40 * FromBits(hi) + 0x1_0000 * FromBits(lo) + 0x400_0000 * FromBits(b)
  {
    hide FromBits, Pow2;
    FieldAndRest(a, hi + (lo + b));
    FieldAndRest(hi, lo + b);
    FieldAndRest(lo, b);
  }

  lemma ControlFields(w: ControlWrite)
    requires w.hartsel < 0x10_0000
    ensures ParseControl(ControlBits(w)) == w
  {
    hide ToBits, FromBits;
    var d, lo, hi := ControlBits(w), ToBits(w.hartsel % 1024, 10), ToBits(w.hartsel / 1024, 10);
    LargePowers();
    BitsOfNumber(w.hartsel % 1024, 10);
    BitsOfNumber(w.hartsel / 1024, 10);
    NumberOfFields(lo, hi);
    assert d[16..26] + d[6..16] == lo + hi;
  }

  lemma LargePowers()
    ensures Pow2(6) == 64 && Pow2(10) == 0x400 && Pow2(20) == 0x10_0000
  {
    assert Pow2(5) == 32 && Pow2(15) == 0x8000;
  }

  lemma SixBits(b: seq<bool>)
    requires |b| == 6
    ensures FromBits(b) == Weight(b[0], 1) + Weight(b[1], 2) + Weight(b[2], 4) + Weight(b[3], 8) + Weight(b[4], 16)
                           + Weight(b[5], 32)
  {
    hide FromBits, Pow2;
    assert b == b[..3] + b[3..];
    FieldAndRest(b[..3], b[3..]);
    ThreeBits(b[..3]);
    ThreeBits(b[3..]);
  }

  /** sbcs: version 1, the bus width as address size and the sizes it supports, and the configuration. */
  function SbcsValue(width: nat, s: SbRegs): nat {
    0x2000_0000 + 7 + Weight(width == 64, 8) + 0x20 * width + 0x1000 * s.error
    + Weight(s.readOnData, 0x8000) + Weight(s.autoIncrement, 0x1_0000) + 0x2_0000 * s.access
    + Weight(s.readOnAddr, 0x10_0000) + Weight(s.busyBit, 0x20_0000) + Weight(s.busyError, 0x40_0000)
  }

  lemma SbcsNumber(width: nat, s: SbRegs)
    requires s.Valid() && width in {32, 64}
    ensures FromBits(SbcsWord(width, s)) == SbcsValue(width, s)
  {
    hide FromBits, ToBits, Weight, SbcsWord, SbcsHead, SbcsFlags, SbcsTail;
    SbcsParts(width, s);
    SbcsFieldNumber(SbcsHead(width), ToBits(width, 7), ToBits(s.error, 3), SbcsFlags(s), ToBits(s.access, 3),
                    SbcsTail(s));
    PowersOfTwo();
    assert Pow2(7) == 128;
    BitsOfNumber(s.error, 3);
    BitsOfNumber(s.access, 3);
    BitsOfNumber(width, 7);
    EndNumbers(width, s);
  }

  function SbcsHead(width: nat): (b: seq<bool>)
    ensures |b| == 5
  {
    [true, true, true, width == 64, false]
  }

  function SbcsFlags(s: SbRegs): (b: seq<bool>)
    ensures |b| == 2
  {
    [s.readOnData, s.autoIncrement]
  }

  function SbcsTail(s: SbRegs): (b: seq<bool>)
    ensures |b| == 12
  {
    [s.readOnAddr, s.busyBit, s.busyError, false, false, false, false, false, false, true, false, false]
  }

  lemma SbcsParts(width: nat, s: SbRegs)
    requires s.Valid() && width in {32, 64}
    ensures SbcsWord(width, s)
            == SbcsHead(width)
               + (ToBits(width, 7) + (ToBits(s.error, 3) + (SbcsFlags(s) + (ToBits(s.access, 3) + SbcsTail(s)))))
  {
    hide ToBits;
  }

  lemma EndNumbers(width: nat, s: SbRegs)
    ensures FromBits(SbcsHead(width)) == 7 + Weight(width == 64, 8)
    ensures 0x8000 * FromBits(SbcsFlags(s)) == Weight(s.readOnData, 0x8000) + Weight(s.autoIncrement, 0x1_0000)
    ensures 0x10_0000 * FromBits(SbcsTail(s))
            == 0x2000_0000 + Weight(s.readOnAddr, 0x10_0000) + Weight(s.busyBit, 0x20_0000)
               + Weight(s.busyError, 0x40_0000)
  {
    hide FromBits, Weight, SbcsTail, SbcsFlags;
    HeadNumber(SbcsHead(width));
    FlagsValue(s);
    TailValue(s);
  }

  lemma FlagsValue(s: SbRegs)
    ensures 0x8000 * FromBits(SbcsFlags(s)) == Weight(s.readOnData, 0x8000) + Weight(s.autoIncrement, 0x1_0000)
  {
    hide FromBits;
    FlagsNumber(SbcsFlags(s));
  }

  lemma TailValue(s: SbRegs)
    ensures 0x10_0000 * FromBits(SbcsTail(s))
            == 0x2000_0000 + Weight(s.readOnAddr, 0x10_0000) + Weight(s.busyBit, 0x20_0000)
               + Weight(s.busyError, 0x40_0000)
  {
    hide FromBits;
    TailNumber(SbcsTail(s));
  }

  lemma SbcsFieldNumber(head: seq<bool>, size: seq<bool>, e: seq<bool>, flags: seq<bool>, a: seq<bool>, tail: seq<bool>)
    requires |head| == 5 && |size| == 7 && |e| == 3 && |flags| == 2 && |a| == 3
    ensures FromBits(head + (size + (e + (flags + (a + tail)))))
            == FromBits(head) + 0x20 * FromBits(size) + 0x1000 * FromBits(e) + 0x8000 * FromBits(flags)
               + 0x2_0000 * FromBits(a) + 0x10_0000 * FromBits(tail)
  {
    hide FromBits, Pow2;
    FieldAndRest(head, size + (e + (flags + (a + tail))));
    FieldAndRest(size, e + (flags + (a + tail)));
    FieldAndRest(e, flags + (a + tail));
    FieldAndRest(flags, a + tail);
    FieldAndRest(a, tail);
  }

  lemma HeadNumber(b: seq<bool>)
    requires |b| == 5 && b[0] && b[1] && b[2] && !b[4]
    ensures FromBits(b) == 7 + Weight(b[3], 8)
  {
    hide FromBits, Pow2;
    assert b == b[..3] + b[3..];
    FieldAndRest(b[..3], b[3..]);
    ThreeBits(b[..3]);
    FlagsNumber(b[3..]);
  }

  lemma FlagsNumber(b: seq<bool>)
    requires |b| == 2
    ensures FromBits(b) == Weight(b[0], 1) + Weight(b[1], 2)
  {
    assert b[1..][1..] == [];
    assert FromBits(b[1..]) == Weight(b[1], 1);
  }

  lemma TailNumber(b: seq<bool>)
    requires |b| == 12 && !b[3] && !b[4] && !b[5] && !b[6] && !b[7] && !b[8] && b[9] && !b[10] && !b[11]
    ensures FromBits(b) == Weight(b[0], 1) + Weight(b[1], 2) + Weight(b[2], 4) + 512
  {
    hide FromBits, Pow2;
    assert b == b[..6] + b[6..];
    FieldAndRest(b[..6], b[6..]);
    SixBits(b[..6]);
    SixBits(b[6..]);
  }

  // ----- the register map

  predicate Mapped(a: nat) {
    a in {0x04, 0x05, 0x10, 0x11, 0x12, 0x13, 0x16, 0x18, 0x1d, 0x34, 0x35, 0x38, 0x39, 0x3a, 0x3c, 0x3d, 0x40}
    || 0x20 <= a < 0x28
  }

  /** What reads return, register by register, in numbers. */
  lemma RegistersRead(p: Params, r: RunRegs, s: SbRegs, a: nat, i: RunIn, o: Observed)
    requires p.Valid() && r.Valid(p) && s.Valid() && o.Valid(p) && p.harts <= 0x10_0000
    ensures var n, sel := FromBits(ReadData(p, r, s, a, i, o)), HartIndex(p, r.hartsel);
            && (a == 0x10 ==>
                  n == ControlNumber(ControlWrite(r.haltreq, r.resumereq, false, r.hartsel, r.ndmreset, r.dmactive)))
            && (a == 0x12 ==> n == if sel < p.harts then FromBits(o.hartinfo[sel]) else 0)
            && (a == 0x16 ==> n == 2 + 0x100 * CodeOf(r.cmderr) + Weight(i.cmdBusy, 0x1000) + 8 * 0x100_0000)
            && (a == 0x18 ==> n == FromBits(r.autoexec)) && (a == 0x1d ==> n == FromBits(o.nextDm))
            && (0x20 <= a < 0x28 ==> n == FromBits(r.progbuf[a - 0x20]))
            && (a == 0x38 ==> n == SbcsValue(p.width, s))
            && (a == 0x39 ==> n == s.addr % TWO32) && (a == 0x3a ==> n == s.addr / TWO32)
            && (a == 0x3c ==> n == FromBytes(s.data[..4])) && (a == 0x3d ==> n == FromBytes(s.data[4..]))
            && (!Mapped(a) ==> n == 0)
  {
    hide FromBits, ToBits, FromBytes, BytesWord, ControlWord, SbcsWord, StatusWord, AbstractcsWord, ControlNumber,
      CodeOf, AlignedFrom, SbcsValue;
    RangeSmall(p);
    ControlReadNumber(r);
    AbstractcsNumber(i.cmdBusy, r.cmderr);
    SbcsNumber(p.width, s);
    ZeroNumber(32);
    PowersOfTwo();
    BitsOfNumber(s.addr % TWO32, 32);
    BitsOfNumber(s.addr / TWO32, 32);
    WordNumber(s.data[..4]);
    WordNumber(s.data[4..]);
  }

  /** The halt summaries are where a debugger looks for them and tell of exactly the halted harts. */
  lemma SummariesRead(p: Params, r: RunRegs, s: SbRegs, i: RunIn, o: Observed)
    requires p.Valid() && r.Valid(p) && s.Valid() && o.Valid(p) && p.harts <= 31 * 0x8000 && p.harts % 0x8000 != 0
    ensures var h := r.hartsel;
            && ReadData(p, r, s, 0x40, i, o) == Haltsum.Harts(o.halted, h)
            && ReadData(p, r, s, 0x13, i, o) == Haltsum.Groups(o.halted, h / 1024 * 1024, 32)
            && ReadData(p, r, s, 0x34, i, o) == Haltsum.Groups(o.halted, h / 0x8000 * 0x8000, 1024)
            && ReadData(p, r, s, 0x35, i, o) == Haltsum.Groups(o.halted, 0, 0x8000)
  {
    hide Haltsum.Summary0, Haltsum.Summary1, Haltsum.Summary2, Haltsum.Summary3, Haltsum.Harts;
    RangeSmall(p);
    Haltsum.AllRight(p.harts);
    assert Haltsum.Defined(Haltsum.Summary3(o.halted)) == Haltsum.Groups(o.halted, 0, 0x8000);
  }

  lemma {:induction false} ZeroNumber(n: nat)
    ensures FromBits(Zeros(n)) == 0
  {
    if n > 0 {
      ZeroNumber(n - 1);
      assert Zeros(n)[1..] == Zeros(n - 1);
    }
  }

  lemma ControlReadNumber(r: RunRegs)
    requires r.hartsel < 0x10_0000
    ensures FromBits(ControlWord(r))
            == ControlNumber(ControlWrite(r.haltreq, r.resumereq, false, r.hartsel, r.ndmreset, r.dmactive))
  {
    hide FromBits, ToBits, ControlNumber;
    var w := ControlWrite(r.haltreq, r.resumereq, false, r.hartsel, r.ndmreset, r.dmactive);
    ControlValue(w);
    ControlHalves(r.hartsel);
    assert ControlWord(r) == ControlBits(w);
  }

  lemma ControlHalves(h: nat)
    requires h < 0x10_0000
    ensures ToBits(h, 20)[10..] == ToBits(h / 1024, 10) && ToBits(h, 20)[..10] == ToBits(h % 1024, 10)
  {
    hide ToBits;
    LargePowers();
    BitsOfFields(h % 1024, h / 1024, 10, 10);
  }

  /** hartsel keeps as many bits as it takes to number the harts: its range is the least power of two that
      covers them, so at most 2^20. */
  lemma RangeSmall(p: Params)
    requires p.Valid() && p.harts <= 0x10_0000
    ensures HartselRange(p) <= 0x10_0000
    ensures IsPower(HartselRange(p)) && p.harts <= HartselRange(p)
    ensures HartselRange(p) == 1 || HartselRange(p) < 2 * p.harts
  {
    assert IsPower(1);
    hide IsPower, AlignedFrom, Pow2;
    AlignedIsLeast(1, p.harts);
    PowersAre(20);
    LargePowers();
    PowerBelow(HartselRange(p), 0x10_0000);
  }

  lemma {:induction false} PowersAre(n: nat)
    ensures IsPower(Pow2(n))
  {
    if n > 0 { PowersAre(n - 1); }
  }

  lemma {:induction false} PowerBelow(a: nat, b: nat)
    requires IsPower(a) && IsPower(b) && a < 2 * b
    ensures a <= b
    decreases b
  {
    if a > 1 && b > 1 { PowerBelow(a / 2, b / 2); }
  }

  // ----- dmcontrol

  /** A dmcontrol write takes effect field by field, hartsel in its range; a resume request that is up goes down
      when some hart acknowledges it. */
  lemma ControlTaken(p: Params, r: RunRegs, w: ControlWrite, i: RunIn)
    requires p.Valid() && r.Valid(p) && r.dmactive && (i.hartData.Some? ==> |i.hartData.value| == 8)
    requires w.hartsel < 0x10_0000
    ensures var t := RunNext(p, r, Some(Request(Write, 0x10, ToBits(ControlNumber(w), 32))), i);
            && t.dmactive == w.dmactive && t.ndmreset == w.ndmreset && t.haltreq == w.haltreq
            && t.hartsel == w.hartsel % HartselRange(p)
            && t.resumereq == (w.resumereq && !(r.resumereq && AnyBit(i.resumeack)))
            && !t.cmdValid && t.command == r.command && t.autoexec == r.autoexec && t.progbuf == r.progbuf
  {
    hide ToBits, ControlNumber, HaveresetNext, HartselRange;
    ControlParsesBack(w);
  }

  /** The acknowledgement is cleared by a write of dmcontrol that takes resumereq from zero to one, not by one
      that leaves it up. */
  lemma AckCleared(r: RunRegs, q: Option<Request>)
    ensures ClearsAck(r, q)
            <==> q.Some? && q.value.op.Write? && q.value.addr == 0x10 && q.value.data[30] && !r.resumereq
  {
    hide FromBits;
  }

  /** Halt and resume requests reach the hart that hartsel names and no other. */
  lemma RequestsGoToOne(p: Params, r: RunRegs, on: bool, h: nat)
    requires p.Valid() && r.Valid(p) && h < p.harts
    ensures |RequestVector(p, r, on)| == p.harts && (RequestVector(p, r, on)[h] <==> on && h == r.hartsel)
  {
    AlignedIsLeast(1, p.harts);
    RangeCovered(p.harts);
    InRange(r.hartsel, Aligned(p.harts));
  }

  lemma RangeCovered(n: nat)
    ensures AlignedFrom(1, n) <= Aligned(n)
  {
  }

  /** Any other request leaves those fields alone. */
  lemma ControlKept(p: Params, r: RunRegs, q: Option<Request>, i: RunIn)
    requires p.Valid() && r.Valid(p) && r.dmactive && (i.hartData.Some? ==> |i.hartData.value| == 8)
    requires q.Some? && q.value.op.Write? ==> q.value.addr != 0x10
    ensures var t := RunNext(p, r, q, i);
            && t.dmactive && t.ndmreset == r.ndmreset && t.haltreq == r.haltreq && t.hartsel == r.hartsel
            && t.resumereq == (r.resumereq && !AnyBit(i.resumeack))
  {
    hide HaveresetNext, HartselRange, ProgbufNext, DataNext, CmderrNext, AutoBits;
  }

  /** While dmactive is zero the registers are held at their reset values; only dmactive itself can be written,
      and resets of harts are still seen. */
  lemma InactiveIsReset(p: Params, r: RunRegs, s: SbRegs, q: Option<Request>, i: RunIn, b: SbIn)
    requires p.Valid() && r.Valid(p) && s.Valid() && b.Valid() && !r.dmactive
    requires i.hartData.Some? ==> |i.hartData.value| == 8
    ensures var t, zero: seq<Byte> := RunNext(p, r, q, i), [0, 0, 0, 0, 0, 0, 0, 0];
            && t.dmactive == (q.Some? && q.value.op.Write? && q.value.addr == 0x10 && q.value.data[0])
            && !t.ndmreset && !t.haltreq && !t.resumereq && t.hartsel == 0 && t.cmderr == ERR_NONE && !t.cmdValid
            && FromBits(t.command) == 0 && FromBits(t.autoexec) == 0 && t.data == zero
            && (forall k :: 0 <= k < 8 ==> FromBits(t.progbuf[k]) == 0)
            && (forall h :: 0 <= h < p.harts ==> (i.resetAck && p.selectable[h] ==> t.havereset[h]))
            && SbStep(r.dmactive, s, q, b) == SbRegs(false, false, false, 2, false, false, 0, 0, zero)
  {
    hide FromBits, HartselRange;
    ZeroNumber(32);
    assert Zeros(32) == ZERO by { AllZero(32); }
  }

  lemma {:induction false} AllZero(n: nat)
    ensures Zeros(n) == seq(n, _ => false)
  {
    if n > 0 { AllZero(n - 1); }
  }

  /** Of a number written to abstractauto the bits for the two data registers and the eight program-buffer
      words are kept. */
  lemma AutoexecKept(p: Params, r: RunRegs, d: Word, i: RunIn)
    requires p.Valid() && r.Valid(p) && r.dmactive && !i.cmdBusy && (i.hartData.Some? ==> |i.hartData.value| == 8)
    ensures FromBits(RunNext(p, r, Some(Request(Write, 0x18, d)), i).autoexec)
            == FromBits(d[..2]) + 0x1_0000 * FromBits(d[16..24])
  {
    hide FromBits, HaveresetNext, CmderrNext, DataNext, ProgbufNext;
    var b := AutoBits(d);
    assert b == d[..2] + (Zeros(14) + (d[16..24] + Zeros(8))) by { AllZero(14); AllZero(8); }
    FieldAndRest(d[..2], Zeros(14) + (d[16..24] + Zeros(8)));
    FieldAndRest(Zeros(14), d[16..24] + Zeros(8));
    ZeroNumber(14);
    FieldAndRest(d[16..24], Zeros(8));
    ZeroNumber(8);
  }
}
