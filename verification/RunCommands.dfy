/**
 What the debugger's own words do: a command written as a number to the command register, the data it
 finds afterwards, and the program-buffer words the hart fetches.
 */
module RunCommands {
  import opened Bits
  import opened Bytes
  import opened RiscV
  import opened AbstractCommand
  import opened CommandWord
  import opened Hart
  import opened ParkLoop
  import opened Transfer
  import TransferLaws
  import opened DmMem
  import Csr = DmCsrs
  import opened RunControl
  import opened RunInvariant
  import opened RunSafety
  import opened RunTheorems

  /** The DMI write of a command's number to the command register. */
  function CommandWrite(c: Command, reserved: bool): Csr.Request {
    Csr.Request(Csr.Write, 0x17, ToBits(Encode(c, reserved), 32))
  }

  /** Accepted at rest, it makes that command the current one. */
  lemma CommandTaken(e: Env, s: Sys, inp: Input, t: Sys, c: Command, reserved: bool)
    requires Inv(e, s) && Step(e, s, inp, t) && s.ctl.fsm.Idle? && inp.req == Some(CommandWrite(c, reserved))
    ensures CommandOf(t) == c && t.regs.cmdValid && t.recent
  {
    hide LocalOk, ParseCommand, Encode;
    ParsesBack(c, reserved);
  }

  /** The command stays the current one in the next tick, which decides what becomes of it. */
  lemma CommandStays(e: Env, s: Sys, inp: Input, t: Sys)
    requires Inv(e, s) && Step(e, s, inp, t) && s.recent
    ensures CommandOf(t) == CommandOf(s)
  {
    hide LocalOk, ParseCommand;
  }

  /** A command started in tick a was the one written in tick a - 1: the theorems about the current command
      are about the fields the debugger wrote. */
  lemma CommandStarted(e: Env, ss: seq<Sys>, ins: seq<Input>, a: nat, c: Command, reserved: bool)
    requires Trace(e, ss, ins) && 0 < a < |ins|
    requires ss[a - 1].ctl.fsm.Idle? && ins[a - 1].req == Some(CommandWrite(c, reserved))
    ensures Inv(e, ss[a + 1]) && CommandOf(ss[a + 1]) == c
  {
    hide Tick, Disciplined, Enabled, Inv, Shape, CommandWrite, CommandOf;
    Always(e, ss, ins, a - 1);
    Always(e, ss, ins, a);
    Always(e, ss, ins, a + 1);
    assert Linked(e, ss, ins, a - 1) && Linked(e, ss, ins, a);
    CommandTaken(e, ss[a - 1], ins[a - 1], ss[a], c, reserved);
    CommandStays(e, ss[a], ins[a], ss[a + 1]);
  }

  /** A command written as a number and started in the next tick leaves its hart, under every interleaving,
      with exactly the meaning of the fields written; if it traps, nothing has changed and cmderr says
      Exception. */
  lemma WrittenCommandMeans(e: Env, ss: seq<Sys>, ins: seq<Input>, a: nat, b: nat, c: Command, reserved: bool)
    requires Trace(e, ss, ins) && 0 < a < b < |ins| && NoReset(ss, a, b + 1) && !c.postexec
    requires ss[a - 1].ctl.fsm.Idle? && ins[a - 1].req == Some(CommandWrite(c, reserved))
    requires ss[a].ctl.fsm.Idle? && ss[a + 1].ctl.fsm.Go? && Occupied(ss, a + 1, b + 1) && ss[b + 1].ctl.fsm.Idle?
    ensures Inv(e, ss[a + 1]) && Inv(e, ss[b + 1]) && Sel(e, ss[a + 1]) < e.p.harts
    ensures var t, u, i := ss[a + 1], ss[b + 1], Sel(e, ss[a + 1]);
            if TrapSeen(e, ss, ins, a + 1, b)
            then LogicalOf(e, u, i) == LogicalOf(e, t, i) && u.regs.data == t.regs.data
                 && u.regs.cmderr == ERR_EXCEPTION
            else Result(LogicalOf(e, u, i), u.regs.data)
                 == Meaning(e.cores[i], i, c, LogicalOf(e, t, i), t.regs.data)
  {
    hide Tick, Disciplined, Enabled, Inv, Shape, Meaning, TrapSeen, Sel, CommandWrite, CommandOf;
    CommandStarted(e, ss, ins, a, c, reserved);
    CommandMeans(e, ss, ins, a, b);
  }

  // ----- reading and writing a register, in numbers

  /** data0 and data1 as a read request finds them. */
  function DataNumber(data: seq<Byte>): nat
    requires |data| == 8
  {
    FromBits(Csr.BytesWord(data[..4])) + TWO32 * FromBits(Csr.BytesWord(data[4..]))
  }

  /** What a 32-bit read of an integer register leaves in data0, and a 64-bit read in both. */
  lemma ReadNumber(core: Core, id: nat, c: Command, l: Logical, d: seq<Byte>)
    requires |d| == 8 && c.transfer && !c.write && c.IsGpr() && c.aarsize in {2, 3}
    ensures var r := Meaning(core, id, c, l, d);
            && r.logical == l
            && (c.aarsize == 2 ==> FromBits(Csr.BytesWord(r.data[..4])) == l.x[c.Reg()] % TWO32)
            && (c.aarsize == 3 ==> DataNumber(r.data) == l.x[c.Reg()] % TWO64)
  {
    hide ToBytes, FromBytes, FromBits, Csr.BytesWord, Pow256;
    var r, v := Meaning(core, id, c, l, d), l.x[c.Reg()];
    TransferLaws.PowersOf256();
    BytesRoundTrip(v, TransferSize(c));
    Csr.WordNumber(r.data[..4]);
    Csr.WordNumber(r.data[4..]);
    if c.aarsize == 2 {
      assert r.data[..4] == ToBytes(v, 4);
    } else {
      assert r.data[..4] + r.data[4..] == ToBytes(v, 8);
      ByteFields(r.data[..4], r.data[4..]);
    }
  }

  lemma ByteFields(x: seq<Byte>, y: seq<Byte>)
    requires |x| == 4
    ensures FromBytes(x + y) == FromBytes(x) + TWO32 * FromBytes(y)
  {
    hide FromBytes;
    TransferLaws.PowersOf256();
    JoinedBytes(x, y);
  }

  /** What writing an integer register leaves in it: the number in data0, sign-extended, or the number in
      both, as far as the register holds it. */
  lemma WrittenNumber(core: Core, id: nat, c: Command, l: Logical, d: seq<Byte>)
    requires core.Valid() && |d| == 8 && c.transfer && c.write && c.IsGpr() && c.aarsize in {2, 3} && c.Reg() != X0
    requires c.aarsize == 3 ==> core.xlen == 64
    ensures var r, v := Meaning(core, id, c, l, d), FromBits(Csr.BytesWord(d[..4]));
            && r.data == d
            && r.logical == l.(x := l.x[c.Reg() :=
                 if c.aarsize == 3 then DataNumber(d)
                 else if core.xlen == 64 && v >= 0x8000_0000 then v + (TWO64 - TWO32)
                 else v])
  {
    hide LoadValue, FromBytes, FromBits, Csr.BytesWord, DataNumber;
    if c.aarsize == 2 { ShortValue(core, d[..4]); } else { LongValue(core, d); }
  }

  lemma ShortValue(core: Core, bs: seq<Byte>)
    requires core.Valid() && |bs| == 4
    ensures var v := FromBits(Csr.BytesWord(bs));
            LoadValue(core, bs) == if core.xlen == 64 && v >= 0x8000_0000 then v + (TWO64 - TWO32) else v
  {
    hide FromBytes, FromBits, Csr.BytesWord, Pow256;
    TransferLaws.PowersOf256();
    Csr.WordNumber(bs);
    FromBytesBound(bs);
  }

  lemma LongValue(core: Core, d: seq<Byte>)
    requires core.Valid() && |d| == 8 && core.xlen == 64
    ensures LoadValue(core, d[..8]) == DataNumber(d)
  {
    hide FromBytes, FromBits, Csr.BytesWord, Pow256;
    TransferLaws.PowersOf256();
    Csr.WordNumber(d[..4]);
    Csr.WordNumber(d[4..]);
    FromBytesBound(d);
    assert d[..4] + d[4..] == d && d[..8] == d;
    ByteFields(d[..4], d[4..]);
  }

  // ----- the program buffer

  /** An instruction word as the debugger writes it. */
  function InstructionBits(v: bv32): Bits.Word { ToBits(v as nat, 32) }

  /** A word written at rest to the k-th program-buffer register is the instruction harts fetch at that
      place, and no other word changes. */
  lemma ProgbufFetched(e: Env, s: Sys, inp: Input, t: Sys, core: Core, k: nat, v: bv32)
    requires Inv(e, s) && Step(e, s, inp, t) && s.ctl.fsm.Idle? && k < 8
    requires inp.req == Some(Csr.Request(Csr.Write, 0x20 + k, InstructionBits(v)))
    ensures Shape(e, t) && Fetch(core, ViewOf(e, t), 0x360 + 4 * k) == v
    ensures t.regs.progbuf == s.regs.progbuf[k := InstructionBits(v)]
  {
    hide LocalOk, ParseCommand, InstructionBits, Instruction, Generate, WhereToWord;
    InstructionNumber(v);
    ProgbufWord(e, t, core, k);
  }

  lemma InstructionNumber(v: bv32)
    ensures Instruction(InstructionBits(v)) == v
  {
    hide ToBits, FromBits;
    PowersOfTwo();
    BitsOfNumber(v as nat, 32);
  }

  lemma ProgbufWord(e: Env, t: Sys, core: Core, k: nat)
    requires Shape(e, t) && k < 8
    ensures Fetch(core, ViewOf(e, t), 0x360 + 4 * k) == Instruction(t.regs.progbuf[k])
  {
    hide ParseCommand, Instruction, Generate, WhereToWord;
  }

  // ----- what the window shows harts

  /** The view the harts of a run have is the one the debug memory puts behind its read port. */
  lemma SameView(e: Env, s: Sys, q: Option<Csr.Request>, bus: Bus)
    requires Shape(e, s)
    ensures DmMem.View(e.p, s.ctl, MemIn(e, s, q, bus)) == ViewOf(e, s)
  {
    hide Instruction, ParseCommand, AlignedFrom;
  }

  /** Without a command at work a hart that fetches from WhereTo while its own resume request is up is sent to
      the resume entry of the ROM, in both images. */
  lemma WhereToResumes(p: Params, c: Control, i: In, row: Row, snd: bool)
    requires p.Valid() && i.Valid(p) && i.bus.BusRead? && i.bus.addr % 0x1000 == 0x300 && !CmdBusy(c)
    requires BitAt(i.resumereq, HartIndex(p, i.bus.tag))
    ensures var instr := Decode(PortWord(p, c, i, row));
            instr.Jal? && instr.rd == X0 && 0x300 + Signed21(instr.jump) == Pc(snd, ResVec)
  {
    hide Generate, FlagsRow, AlignedFrom, BitAt;
    PageOffset(i.bus.addr);
    ResumeJump();
  }

  lemma ResumeJump()
    ensures Decode(EncJal(X0, 0x508)) == Jal(X0, 0x508)
  {
  }
}
