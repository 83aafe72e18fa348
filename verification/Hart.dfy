/**
 A hart as the debug module sees it: an instruction-level machine for the code it fetches from the
 4 KiB debug-memory window, and the words and flag bytes that window shows it.
 */
module Hart {
  import opened Bytes
  import opened RiscV
  import opened AbstractCommand
  import DebugRom

  const TWO32: nat := 0x1_0000_0000
  const TWO64: nat := 0x1_0000_0000_0000_0000

  const HALTED: nat := 0x100
  const GOING: nat := 0x108
  const RESUMING: nat := 0x110
  const EXCEPTION: nat := 0x118
  const FLAGS: nat := 0x400
  const HALT_ADDRESS: nat := 0x800
  const EXCEPTION_ADDRESS: nat := 0x810

  type CsrFile = map<bv12, nat>

  /** What a core brings along: register widths, the bus it sits on and how its CSRs behave.
      csrWrite is arbitrary, so any masking of or aliasing between CSRs is covered. */
  datatype Core = Core(base: nat, xlen: nat, flen: nat, width: nat, maxAar: bv3,
                       csrRead: (CsrFile, bv12) -> nat, csrWrite: (CsrFile, bv12, nat) -> CsrFile)
  {
    predicate Valid() {
      base % 0x1000 == 0 && base + 0x1000 <= TWO32 && xlen in {32, 64} && flen in {32, 64}
      && width in {32, 64} && (maxAar == 3 || maxAar == 4)
    }
    function Snd(): bool { base != 0 }
    function Cfg(): Config { Config(Snd(), maxAar) }
    /** Register values wrap at the register width. */
    function Wrap(v: int): nat { if xlen == 32 then v % TWO32 else v % TWO64 }
  }

  /** The part of the debug module's registers that harts can observe. */
  datatype View = View(hartsel: nat, go: bool, resume: bool, busy: bool, command: Command,
                       progbuf: seq<bv32>, data: seq<Byte>)
  {
    predicate Valid() { |progbuf| == 8 && |data| == 8 }
  }

  /** Thirty-two registers, indexed by their five-bit number. */
  type Regs = x: seq<nat> | |x| == 32 witness seq(32, _ => 0)

  datatype HartState = HartState(id: nat, debug: bool, pc: int, x: Regs, f: Regs,
                                 ds0: nat, ds1: nat, csrs: CsrFile)

  predicate Wf(h: HartState) { h.x[X0] == 0 }

  /** A store into the debug-memory window. */
  datatype Access = Access(off: nat, bytes: seq<Byte>)

  datatype Outcome = Next(h: HartState, store: Option<Access>) | Trap | Unmodelled

  // ----- what the window shows

  function Flag(v: View): Byte { (if v.resume then 2 else 0) + (if v.go then 1 else 0) }

  /** The 64-bit row holding the flag byte at window offset off: every byte is zero but the selected
      hart's, and that one only in its own row. */
  function FlagsRow(v: View, off: nat): (row: seq<Byte>)
    ensures |row| == 8
  {
    var zeros: seq<Byte> := [0, 0, 0, 0, 0, 0, 0, 0];
    if off / 8 * 8 - FLAGS == v.hartsel / 8 * 8 then zeros[v.hartsel % 8 := Flag(v)] else zeros
  }

  /** off is a multiple of the access size n. */
  predicate Natural(off: nat, n: nat) {
    n == 1 || (n == 2 && off % 2 == 0) || (n == 4 && off % 4 == 0) || (n == 8 && off % 8 == 0)
  }

  /** n bytes at an n-aligned offset, as a bus of the given width delivers them from a 64-bit row:
      a 32-bit bus answers with one half of the row, and needs two accesses for eight bytes. */
  function BusBytes(width: nat, row: seq<Byte>, off: nat, n: nat): (bs: seq<Byte>)
    requires |row| == 8 && Natural(off, n)
    ensures |bs| == n
  {
    if width == 64 then row[off % 8..off % 8 + n]
    else if n == 8 then row[..4] + row[4..]
    else
      var half := row[off / 4 % 2 * 4..off / 4 % 2 * 4 + 4];
      half[off % 4..off % 4 + n]
  }

  /** The instruction word at window offset off (a multiple of four). */
  function Fetch(core: Core, v: View, off: int): bv32
    requires v.Valid()
  {
    if HALT_ADDRESS <= off then DebugRom.Word(core.Snd(), (off - HALT_ADDRESS) / 4 % DebugRom.Span(core.Snd()))
    else if off == WHERETO then WhereToWord(v.command)
    else if ABSTRACT_BASE <= off < PROGBUF_BASE then Generate(core.Cfg(), v.command, (off - ABSTRACT_BASE) / 4)
    else if PROGBUF_BASE <= off < DATA_BASE then v.progbuf[(off - PROGBUF_BASE) / 4]
    else ENC_ILLEGAL
  }

  // ----- instruction semantics

  function SetX(x: Regs, rd: bv5, v: nat): Regs {
    if rd == X0 then x else x[rd := v]
  }

  /** Bytes moved by a load or store of the given width code. */
  function Size(k: bv3): (n: nat)
    ensures n in {1, 2, 4, 8}
  {
    if k == 0 then 1 else if k == 1 then 2 else if k == 2 then 4 else 8
  }

  function Signed12(i: bv12): int { if i < 0x800 then i as int else i as int - 0x1000 }
  function Signed13(i: bv13): int { if i < 0x1000 then i as int else i as int - 0x2000 }
  function Signed21(i: bv21): int { if i < 0x10_0000 then i as int else i as int - 0x20_0000 }

  /** A loaded value, sign-extended to the register width. */
  function LoadValue(core: Core, bs: seq<Byte>): nat {
    var v, p := FromBytes(bs), Pow256(|bs|);
    if v >= p / 2 then core.Wrap(v - p) else v
  }

  /** A single-precision value in a wider register has all upper bits set. */
  function FloatValue(core: Core, bs: seq<Byte>): nat {
    if |bs| == 4 && core.flen == 64 then FromBytes(bs) + (TWO64 - TWO32) else FromBytes(bs)
  }

  function ReadCsr(core: Core, h: HartState, csr: bv12): nat {
    if csr == CSR_DSCRATCH0 then h.ds0
    else if csr == CSR_DSCRATCH1 then h.ds1
    else if csr == CSR_MHARTID then h.id
    else core.csrRead(h.csrs, csr)
  }

  function WriteCsr(core: Core, h: HartState, csr: bv12, v: nat): HartState {
    if csr == CSR_DSCRATCH0 then h.(ds0 := v)
    else if csr == CSR_DSCRATCH1 then h.(ds1 := v)
    else h.(csrs := core.csrWrite(h.csrs, csr, v))
  }

  function BitAnd(a: nat, b: nat): nat {
    if a == 0 || b == 0 then 0 else (a % 2) * (b % 2) + 2 * BitAnd(a / 2, b / 2)
  }

  /** Window offset of the address x[rs1] + imm, or a number outside the window. */
  function WindowOffset(core: Core, h: HartState, rs1: bv5, imm: bv12): int {
    core.Wrap(h.x[rs1] + Signed12(imm)) - core.base
  }

  /** The n bytes a load sees at window offset off. Only the flags and the data registers are ever
      loaded by the debug ROM and by generated code. */
  function LoadBytes(core: Core, v: View, off: int, n: nat): (bs: Option<seq<Byte>>)
    requires v.Valid() && n in {1, 2, 4, 8}
    ensures bs.Some? ==> |bs.value| == n
  {
    if off < 0 || !Natural(off, n) then None
    else if FLAGS <= off < 0x800 then Some(BusBytes(core.width, FlagsRow(v, off), off, n))
    else if DATA_BASE <= off < DATA_BASE + 8 then Some(BusBytes(core.width, v.data, off, n))
    else None
  }

  function Write(h: HartState, rd: bv5, v: nat): Outcome {
    Next(h.(x := SetX(h.x, rd, v), pc := h.pc + 4), None)
  }

  function StoreTo(h: HartState, off: int, bytes: seq<Byte>): Outcome {
    if 0 <= off < 0x1000 then Next(h.(pc := h.pc + 4), Some(Access(off, bytes))) else Unmodelled
  }

  /** One instruction of a hart in debug mode. Trap stands for a synchronous exception. */
  function Exec(core: Core, v: View, h: HartState, i: Instr): Outcome
    requires v.Valid()
  {
    match i
    case Jal(rd, jump) => if rd == X0 then Next(h.(pc := h.pc + Signed21(jump)), None) else Unmodelled
    case Bne(rs1, rs2, branch) =>
      Next(h.(pc := h.pc + (if h.x[rs1] != h.x[rs2] then Signed13(branch) else 4)), None)
    case Fence => Next(h.(pc := h.pc + 4), None)
    case Auipc(rd, upper) =>
      if upper == 0 then Write(h, rd, core.Wrap(core.base + h.pc)) else Unmodelled
    case Srli(rd, rs1, n) => if n == 12 then Write(h, rd, h.x[rs1] / 0x1000) else Unmodelled
    case Slli(rd, rs1, n) => if n == 12 then Write(h, rd, core.Wrap(h.x[rs1] * 0x1000)) else Unmodelled
    case Addi(rd, rs1, imm) => Write(h, rd, core.Wrap(h.x[rs1] + Signed12(imm)))
    case Andi(rd, rs1, imm) => Write(h, rd, BitAnd(h.x[rs1], core.Wrap(Signed12(imm))))
    case Add(rd, rs1, rs2) => Write(h, rd, core.Wrap(h.x[rs1] + h.x[rs2]))
    case Lbu(rd, rs1, imm) =>
      var bs := LoadBytes(core, v, WindowOffset(core, h, rs1, imm), 1);
      if bs.None? then Unmodelled else Write(h, rd, bs.value[0])
    case Load(k, rd, rs1, imm) =>
      var bs := LoadBytes(core, v, WindowOffset(core, h, rs1, imm), Size(k));
      if k == 3 && core.xlen == 32 then Trap
      else if bs.None? then Unmodelled
      else Write(h, rd, LoadValue(core, bs.value))
    case Store(k, rs2, rs1, imm) =>
      if k == 3 && core.xlen == 32 then Trap
      else StoreTo(h, WindowOffset(core, h, rs1, imm), ToBytes(h.x[rs2], Size(k)))
    case FloatLoad(k, rd, rs1, imm) =>
      var bs := LoadBytes(core, v, WindowOffset(core, h, rs1, imm), Size(k));
      if k < 2 || (k == 3 && core.flen == 32) then Trap
      else if bs.None? then Unmodelled
      else Next(h.(f := h.f[rd := FloatValue(core, bs.value)], pc := h.pc + 4), None)
    case FloatStore(k, rs2, rs1, imm) =>
      if k < 2 || (k == 3 && core.flen == 32) then Trap
      else StoreTo(h, WindowOffset(core, h, rs1, imm), ToBytes(h.f[rs2], Size(k)))
    case Csrw(csr, rs1) =>
      if csr >> 10 == 3 then Trap else Next(WriteCsr(core, h, csr, h.x[rs1]).(pc := h.pc + 4), None)
    case Csrr(csr, rd) => Write(h, rd, ReadCsr(core, h, csr))
    case Ebreak => Next(h.(pc := HALT_ADDRESS), None)
    case Dret => Next(h.(debug := false), None)
    case Illegal => Trap
    case Other => Unmodelled
  }
}
