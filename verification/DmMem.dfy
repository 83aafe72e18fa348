/**
 The debug memory (src/dm_mem.sv): the hart-control state machine, the halted and resuming bits, the
 4 KiB window harts read and write, and the forwarding of hart stores into the data registers.
 One call of Tick is one clock edge.
 */
module DmMem {
  import opened Bytes
  import opened RiscV
  import opened AbstractCommand
  import opened Hart
  import DebugRom

  /** The three bits of cmderr. */
  datatype CmdErr = Err(b2: bool, b1: bool, b0: bool)

  const ERR_NONE: CmdErr := Err(false, false, false)
  const ERR_BUSY: CmdErr := Err(false, false, true)
  const ERR_NOT_SUPPORTED: CmdErr := Err(false, true, false)
  const ERR_EXCEPTION: CmdErr := Err(false, true, true)
  const ERR_HALT_RESUME: CmdErr := Err(true, false, false)

  datatype Fsm = Idle | Go | Resume | Executing

  /** Build-time parameters. */
  datatype Params = Params(harts: nat, selectable: seq<bool>, width: nat, cfg: Config)
  {
    predicate Valid() {
      0 < harts && |selectable| == harts && width in {32, 64} && cfg.Valid()
    }
  }

  datatype Control = Control(fsm: Fsm, halted: seq<bool>, resuming: seq<bool>)
  {
    predicate Valid(p: Params) { |halted| == p.harts && |resuming| == p.harts }
  }

  /** A slave-port transaction; be and wdata hold one entry per byte lane of the bus. */
  datatype Bus =
    | NoReq
    | BusRead(addr: nat, tag: nat)
    | BusWrite(addr: nat, wdata: seq<Byte>, be: seq<bool>)

  datatype In = In(ndmreset: bool, hartsel: nat, haltreq: seq<bool>, resumereq: seq<bool>, clearAck: bool,
                   progbuf: seq<bv32>, data: seq<Byte>, cmdValid: bool, command: Command, bus: Bus)
  {
    predicate Valid(p: Params) {
      && |progbuf| == 8 && |data| == 8
      && (bus.BusWrite? ==> |bus.wdata| == |bus.be| == p.width / 8)
    }
  }

  /** A bit of a vector that is zero-extended to the aligned number of harts. */
  predicate BitAt(s: seq<bool>, i: nat) { i < |s| && s[i] }

  /** The smallest power of two, at least two, that covers n harts. */
  function Aligned(n: nat): (a: nat)
    ensures a >= 2 && a >= n
  {
    AlignedFrom(2, n)
  }

  function AlignedFrom(p: nat, n: nat): (a: nat)
    requires p > 0
    ensures a >= p && a >= n
    decreases n - p
  {
    if p >= n then p else AlignedFrom(2 * p, n)
  }

  /** One, or twice a power of two. */
  predicate IsPower(a: nat) { a == 1 || (a > 0 && a % 2 == 0 && IsPower(a / 2)) }

  /** It is the least power of two from p on that covers n. */
  lemma {:induction false} AlignedIsLeast(p: nat, n: nat)
    requires p > 0
    ensures AlignedFrom(p, n) == p || AlignedFrom(p, n) < 2 * n
    ensures IsPower(p) ==> IsPower(AlignedFrom(p, n))
    decreases n - p
  {
    if p < n { AlignedIsLeast(2 * p, n); }
  }

  /** Only the low bits of a hart number reach the index. */
  function HartIndex(p: Params, v: nat): nat { v % Aligned(p.harts) }

  /** Hart numbers that differ above those bits are the same hart, and numbers within them are their own. */
  lemma HartNumbersWrap(p: Params, v: nat, k: nat)
    requires p.Valid() && v < Aligned(p.harts)
    ensures HartIndex(p, v + Aligned(p.harts) * k) == v
  {
    hide AlignedFrom;
    Multiple(k, v, Aligned(p.harts));
    InRange(v, Aligned(p.harts));
  }

  /** The control register a write hits, by its low twelve address bits. */
  predicate Hits(bus: Bus, reg: nat) { bus.BusWrite? && bus.addr % 0x1000 == reg }

  /** The hart a write names. */
  function Named(p: Params, bus: Bus): nat
    requires bus.BusWrite?
  {
    HartIndex(p, FromBytes(bus.wdata))
  }

  // ----- next state

  function FsmNext(p: Params, c: Control, i: In): Fsm {
    var sel := HartIndex(p, i.hartsel);
    if i.ndmreset then Idle
    else match c.fsm
      case Idle =>
        if BitAt(i.resumereq, sel) && !BitAt(c.resuming, sel) && !BitAt(i.haltreq, sel) && BitAt(c.halted, sel)
        then Resume
        else if i.cmdValid && BitAt(c.halted, sel) && !Unsupported(p.cfg, i.command) then Go
        else Idle
      case Go => if Hits(i.bus, GOING) then Executing else Go
      case Resume => if BitAt(c.resuming, sel) then Idle else Resume
      case Executing => if Hits(i.bus, HALTED) && Named(p, i.bus) == sel then Idle else Executing
  }

  /** The error reported to the abstract command status, if any. */
  function CommandError(p: Params, c: Control, i: In): Option<CmdErr> {
    if Hits(i.bus, EXCEPTION) then Some(ERR_EXCEPTION)
    else if i.cmdValid && Unsupported(p.cfg, i.command) then Some(ERR_NOT_SUPPORTED)
    else if i.cmdValid && c.fsm.Idle? && !BitAt(c.halted, HartIndex(p, i.hartsel)) then Some(ERR_HALT_RESUME)
    else None
  }

  /** A resume request that will be served in this idle cycle. */
  predicate ResumeWins(p: Params, c: Control, i: In) {
    var sel := HartIndex(p, i.hartsel);
    BitAt(i.resumereq, sel) && !BitAt(c.resuming, sel) && !BitAt(i.haltreq, sel) && BitAt(c.halted, sel)
  }

  /** What becomes of a command that arrives while the state machine is idle: it starts, it is reported, or
      it is dropped without a trace, and which of the three is decided by these conditions alone. It is
      dropped exactly when it could have started but for a resume request in the same cycle. */
  lemma CommandFate(p: Params, c: Control, i: In)
    requires c.fsm.Idle? && i.cmdValid && !i.ndmreset && !Hits(i.bus, EXCEPTION)
    ensures var could := BitAt(c.halted, HartIndex(p, i.hartsel)) && !Unsupported(p.cfg, i.command);
            && (FsmNext(p, c, i).Go? <==> could && !ResumeWins(p, c, i))
            && (CommandError(p, c, i).Some? <==> !could)
            && (!FsmNext(p, c, i).Go? && CommandError(p, c, i).None? <==> could && ResumeWins(p, c, i))
            && (Unsupported(p.cfg, i.command) ==> CommandError(p, c, i) == Some(ERR_NOT_SUPPORTED))
            && (!could && !Unsupported(p.cfg, i.command) ==> CommandError(p, c, i) == Some(ERR_HALT_RESUME))
  {
  }

  /** What is reported in any state: an exception store before all else, then a refused command even while
      another runs, then a command for a hart that is not halted, but that only at rest. */
  lemma ErrorReported(p: Params, c: Control, i: In)
    ensures var error, stored := CommandError(p, c, i), i.bus.BusWrite? && i.bus.addr % 0x1000 == 0x118;
            var halted := BitAt(c.halted, HartIndex(p, i.hartsel));
            && (error == Some(ERR_EXCEPTION) <==> stored)
            && (error == Some(ERR_NOT_SUPPORTED) <==> !stored && i.cmdValid && Unsupported(p.cfg, i.command))
            && (error == Some(ERR_HALT_RESUME)
                <==> !stored && i.cmdValid && !Unsupported(p.cfg, i.command) && c.fsm.Idle? && !halted)
            && (error.Some? ==> error.value in {ERR_EXCEPTION, ERR_NOT_SUPPORTED, ERR_HALT_RESUME})
  {
  }

  /** The same transaction k pages up. */
  function PagesUp(bus: Bus, k: nat): Bus {
    match bus
    case NoReq => NoReq
    case BusRead(addr, tag) => BusRead(addr + 0x1000 * k, tag)
    case BusWrite(addr, wdata, be) => BusWrite(addr + 0x1000 * k, wdata, be)
  }

  /** The window repeats on every page: only the low twelve address bits matter, to reads and to writes. */
  lemma PageBlind(p: Params, c: Control, i: In, row: Row, k: nat)
    requires p.Valid() && c.Valid(p) && i.Valid(p)
    ensures var j := i.(bus := PagesUp(i.bus, k));
            && ControlNext(p, c, j) == ControlNext(p, c, i) && CommandError(p, c, j) == CommandError(p, c, i)
            && DataOut(j) == DataOut(i) && RowNext(p, c, j, row) == RowNext(p, c, i, row)
            && (i.bus.BusRead? ==> PortLanes(p, c, j, row) == PortLanes(p, c, i, row))
  {
    hide Unsupported, Generate, WhereToWord, FlagsRow, AlignedFrom, BitAt, ControlNext, PortRow, Lanes, DataOut;
    if i.bus.BusRead? {
      Multiple(k, i.bus.addr, 0x1000);
      SamePort(p, c, i, row, k);
    }
    if i.bus.BusWrite? {
      Multiple(k, i.bus.addr, 0x1000);
      SameIndex(p, c, i, k);
    } else {
      NoWrite(p, c, i, k);
    }
  }

  lemma SamePort(p: Params, c: Control, i: In, row: Row, k: nat)
    requires p.Valid() && c.Valid(p) && i.Valid(p) && i.bus.BusRead?
    requires (i.bus.addr + 0x1000 * k) % 0x1000 == i.bus.addr % 0x1000
    ensures var j := i.(bus := PagesUp(i.bus, k));
            RowNext(p, c, j, row) == RowNext(p, c, i, row) && PortLanes(p, c, j, row) == PortLanes(p, c, i, row)
  {
    hide RowNext, DebugRom.Word, RowBytes;
    SameRowNext(p, c, i, row, k);
    PageOffset(i.bus.addr);
    PageOffset(i.bus.addr + 0x1000 * k);
  }

  lemma SameRowNext(p: Params, c: Control, i: In, row: Row, k: nat)
    requires p.Valid() && c.Valid(p) && i.Valid(p) && i.bus.BusRead?
    requires (i.bus.addr + 0x1000 * k) % 0x1000 == i.bus.addr % 0x1000
    ensures RowNext(p, c, i.(bus := PagesUp(i.bus, k)), row) == RowNext(p, c, i, row)
  {
    hide AbstractWord, WhereToWord, FlagsRow, AlignedFrom, BitAt, EncJal;
  }

  lemma NoWrite(p: Params, c: Control, i: In, k: nat)
    requires p.Valid() && c.Valid(p) && i.Valid(p) && !i.bus.BusWrite?
    ensures var j := i.(bus := PagesUp(i.bus, k));
            DataOut(j) == DataOut(i) && ControlNext(p, c, j) == ControlNext(p, c, i)
  {
    hide Unsupported, AlignedFrom;
  }

  lemma SameIndex(p: Params, c: Control, i: In, k: nat)
    requires p.Valid() && c.Valid(p) && i.Valid(p) && i.bus.BusWrite?
    requires (i.bus.addr + 0x1000 * k) % 0x1000 == i.bus.addr % 0x1000
    ensures var j := i.(bus := PagesUp(i.bus, k));
            DataOut(j) == DataOut(i) && ControlNext(p, c, j) == ControlNext(p, c, i)
  {
    hide AlignedFrom, Unsupported, FromBytes, DataWritten;
    var j := i.(bus := PagesUp(i.bus, k));
    SameData(i.data, i.bus.addr, j.bus.addr, i.bus.wdata, i.bus.be);
    assert forall reg: nat :: Hits(j.bus, reg) == Hits(i.bus, reg);
    assert Named(p, j.bus) == Named(p, i.bus);
  }

  lemma SameData(data: seq<Byte>, a: nat, b: nat, wdata: seq<Byte>, be: seq<bool>)
    requires |data| == 8 && |wdata| == |be| && a % 0x1000 == b % 0x1000
    ensures DataWritten(data, a, wdata, be) == DataWritten(data, b, wdata, be)
  {
    assert DataIndex(a) == DataIndex(b);
  }

  predicate HaltedNext(p: Params, c: Control, i: In, h: nat)
    requires h < |c.halted|
  {
    BitAt(p.selectable, h) && !i.ndmreset
    && (if Hits(i.bus, HALTED) && Named(p, i.bus) == h then true
        else if Hits(i.bus, RESUMING) && Named(p, i.bus) == h then false
        else c.halted[h])
  }

  predicate ResumingNext(p: Params, c: Control, i: In, h: nat)
    requires h < |c.resuming|
  {
    BitAt(p.selectable, h) && !i.ndmreset
    && (if Hits(i.bus, RESUMING) && Named(p, i.bus) == h then true
        else if i.clearAck && HartIndex(p, i.hartsel) == h then false
        else c.resuming[h])
  }

  function ControlNext(p: Params, c: Control, i: In): (d: Control)
    requires p.Valid() && c.Valid(p)
    ensures d.Valid(p)
  {
    Control(FsmNext(p, c, i),
            seq(p.harts, h requires 0 <= h < p.harts => HaltedNext(p, c, i, h)),
            seq(p.harts, h requires 0 <= h < p.harts => ResumingNext(p, c, i, h)))
  }

  predicate CmdBusy(c: Control) { !c.fsm.Idle? }

  // ----- data registers

  predicate InData(addr: nat) { DATA_BASE <= addr % 0x1000 < DATA_BASE + 8 }

  /** The data register a window address selects; the index wraps at the number of registers. */
  function DataIndex(addr: nat): nat { (addr % 0x1000 / 4 - DATA_BASE / 4) % 2 }

  /** The byte lane that writes byte j of the data registers. */
  function LaneOf(addr: nat, j: nat): int { (j / 4 - DataIndex(addr)) * 4 + j % 4 }

  /** Byte j of the data registers after a write, lane by lane. */
  function DataByte(data: seq<Byte>, addr: nat, wdata: seq<Byte>, be: seq<bool>, j: nat): Byte
    requires |data| == 8 && j < 8 && |wdata| == |be|
  {
    var lane := LaneOf(addr, j);
    if 0 <= lane < |be| && be[lane] then wdata[lane] else data[j]
  }

  function DataWritten(data: seq<Byte>, addr: nat, wdata: seq<Byte>, be: seq<bool>): (d: seq<Byte>)
    requires |data| == 8 && |wdata| == |be|
    ensures |d| == 8
  {
    seq(8, j requires 0 <= j < 8 => DataByte(data, addr, wdata, be, j))
  }

  function DataOut(i: In): seq<Byte>
    requires |i.data| == 8 && (i.bus.BusWrite? ==> |i.bus.wdata| == |i.bus.be|)
  {
    if i.bus.BusWrite? && InData(i.bus.addr) then DataWritten(i.data, i.bus.addr, i.bus.wdata, i.bus.be) else i.data
  }

  // ----- reads

  /** A 64-bit row of the window: two instruction words, or eight bytes. */
  datatype Row = Words(lo: bv32, hi: bv32) | ByteRow(bytes: EightBytes)

  type EightBytes = b: seq<Byte> | |b| == 8 witness [0, 0, 0, 0, 0, 0, 0, 0]

  function View(p: Params, c: Control, i: In): Hart.View {
    Hart.View(HartIndex(p, i.hartsel), c.fsm.Go? && !i.ndmreset, c.fsm.Resume? && !i.ndmreset, CmdBusy(c),
              i.command, i.progbuf, i.data)
  }

  function AbstractWord(p: Params, c: Command, k: nat): bv32 {
    if k < 10 then Generate(p.cfg, c, k) else 0
  }

  /** The row latched by a read; an unmapped address, or WhereTo without a reason to jump, keeps the
      previous row. */
  function RowNext(p: Params, c: Control, i: In, row: Row): Row
    requires |i.progbuf| == 8 == |i.data|
  {
    if !i.bus.BusRead? then row
    else
      var a := i.bus.addr % 0x1000;
      if a == WHERETO then
        if CmdBusy(c) then Words(WhereToWord(i.command), 0)
        else if BitAt(i.resumereq, HartIndex(p, i.bus.tag)) then Words(EncJal(X0, 0x508), 0)
        else row
      else if InData(a) then ByteRow(i.data)
      else if PROGBUF_BASE <= a < DATA_BASE then
        var k := (a / 8 - PROGBUF_BASE / 8) % 8 % 4;
        Words(i.progbuf[2 * k], i.progbuf[2 * k + 1])
      else if ABSTRACT_BASE <= a < PROGBUF_BASE then
        var k := (a / 8 - ABSTRACT_BASE / 8) % 8;
        Words(AbstractWord(p, i.command, 2 * k), AbstractWord(p, i.command, 2 * k + 1))
      else if FLAGS <= a < 0x800 then ByteRow(FlagsRow(View(p, c, i), a))
      else row
  }

  /** The row of the ROM image at an address. As many address bits reach the image as it takes to tell its
      rows apart: 7:3 of the two-scratch image, 6:3 of the other. */
  function RomRow(p: Params, addr: nat): Row {
    var snd := p.cfg.sndScratch;
    var k := addr / 8 % (DebugRom.Span(snd) / 2);
    Words(DebugRom.Word(snd, 2 * k), DebugRom.Word(snd, 2 * k + 1))
  }

  /** The word a row puts on the lanes of addr. */
  function WordAt(row: Row, addr: nat): bv32
  {
    if !row.Words? then 0 else if addr / 4 % 2 == 1 then row.hi else row.lo
  }

  /** The instruction word on the read port in the cycle after a read. */
  function PortWord(p: Params, c: Control, i: In, row: Row): bv32
    requires |i.progbuf| == 8 == |i.data| && i.bus.BusRead?
  {
    WordAt(PortRow(p, c, i, row), i.bus.addr)
  }

  /** The row that is behind the read port in the cycle after a read. */
  function PortRow(p: Params, c: Control, i: In, row: Row): Row
    requires |i.progbuf| == 8 == |i.data| && i.bus.BusRead?
  {
    if i.bus.addr % 0x1000 >= HALT_ADDRESS then RomRow(p, i.bus.addr) else RowNext(p, c, i, row)
  }

  function RowBytes(row: Row): EightBytes {
    match row
    case Words(lo, hi) => ToBytes(lo as nat, 4) + ToBytes(hi as nat, 4)
    case ByteRow(bytes) => bytes
  }

  /** The bytes a row puts on the lanes of the bus: all of it, or the half that addr lies in. */
  function Lanes(width: nat, row: Row, upper: bool): (bs: seq<Byte>)
    requires width in {32, 64}
    ensures |bs| == width / 8
  {
    if width == 64 then RowBytes(row) else if upper then RowBytes(row)[4..] else RowBytes(row)[..4]
  }

  /** The bytes on the read port in the cycle after a read. */
  function PortLanes(p: Params, c: Control, i: In, row: Row): (bs: seq<Byte>)
    requires p.width in {32, 64} && |i.progbuf| == 8 == |i.data| && i.bus.BusRead?
    ensures |bs| == p.width / 8
  {
    Lanes(p.width, PortRow(p, c, i, row), i.bus.addr / 4 % 2 == 1)
  }

  /** The regions of the window harts load data from: the flag bytes and the data registers. */
  predicate Loadable(off: nat) { 0x400 <= off < 0x800 || 0x380 <= off < 0x388 }

  /** A hart that loads a flag byte or data finds on the lanes of its access, on either bus and at any page,
      the bytes the hart model loads. */
  lemma LoadThroughPort(p: Params, core: Core, c: Control, i: In, row: Row, n: nat)
    requires p.Valid() && i.Valid(p) && core.width == p.width && i.bus.BusRead? && n in {1, 2, 4, 8} && 8 * n <= p.width
    requires var off := i.bus.addr % 0x1000; Loadable(off) && off % n == 0
    ensures var off := i.bus.addr % 0x1000;
            var first := off % (p.width / 8);
            && first + n <= p.width / 8
            && LoadBytes(core, View(p, c, i), off, n) == Some(PortLanes(p, c, i, row)[first..first + n])
  {
    hide FlagsRow, LoadBytes, RowNext, Lanes, BusBytes;
    var off, bytes := i.bus.addr % 0x1000, LoadedRow(View(p, c, i), i.bus.addr % 0x1000);
    PageOffset(i.bus.addr);
    LaneOffset(off, n);
    LoadableRow(p, core, c, i, row, n);
    LanesAreBytes(p.width, bytes, off, n);
  }

  /** The row such a load comes from. */
  function LoadedRow(v: Hart.View, off: nat): EightBytes
    requires v.Valid()
  {
    if off < 0x400 then v.data else FlagsRow(v, off)
  }

  lemma LoadableRow(p: Params, core: Core, c: Control, i: In, row: Row, n: nat)
    requires p.Valid() && i.Valid(p) && core.width == p.width && i.bus.BusRead? && n in {1, 2, 4, 8}
    requires var off := i.bus.addr % 0x1000; Loadable(off) && Natural(off, n)
    ensures var off, v := i.bus.addr % 0x1000, View(p, c, i);
            && PortRow(p, c, i, row) == ByteRow(LoadedRow(v, off))
            && LoadBytes(core, v, off, n) == Some(BusBytes(p.width, LoadedRow(v, off), off, n))
  {
    hide FlagsRow, BusBytes, Generate, WhereToWord, BitAt, DebugRom.Word;
  }

  lemma LaneOffset(off: nat, n: nat)
    requires n in {1, 2, 4, 8} && off % n == 0
    ensures Natural(off, n) && off % 8 + n <= 8 && (n < 8 ==> off % 4 + n <= 4)
    ensures off % 8 == off / 4 % 2 * 4 + off % 4
  {
    var q, r := off / 8, off % 8;
    assert off / 4 == 2 * q + r / 4;
  }

  lemma LanesAreBytes(width: nat, bytes: EightBytes, off: nat, n: nat)
    requires width in {32, 64} && n in {1, 2, 4, 8} && 8 * n <= width && off % n == 0
    ensures off % (width / 8) + n <= width / 8 && Natural(off, n)
    ensures var first := off % (width / 8);
            Lanes(width, ByteRow(bytes), off / 4 % 2 == 1)[first..first + n] == BusBytes(width, bytes, off, n)
  {
    hide Lanes, BusBytes, Natural;
    LaneOffset(off, n);
    if width == 32 { NarrowLanes(bytes, off, n); } else { WideLanes(bytes, off, n); }
  }

  lemma NarrowLanes(bytes: EightBytes, off: nat, n: nat)
    requires n in {1, 2, 4} && Natural(off, n) && off % 4 + n <= 4
    ensures Lanes(32, ByteRow(bytes), off / 4 % 2 == 1)[off % 4..off % 4 + n] == BusBytes(32, bytes, off, n)
  {
    hide Lanes, Natural;
    HalfOfRow(bytes, off / 4 % 2);
  }

  lemma WideLanes(bytes: EightBytes, off: nat, n: nat)
    requires n in {1, 2, 4, 8} && Natural(off, n) && off % 8 + n <= 8
    ensures Lanes(64, ByteRow(bytes), off / 4 % 2 == 1)[off % 8..off % 8 + n] == BusBytes(64, bytes, off, n)
  {
    hide Natural;
  }

  lemma HalfOfRow(bytes: EightBytes, half: nat)
    requires half < 2
    ensures bytes[half * 4..half * 4 + 4] == Lanes(32, ByteRow(bytes), half == 1)
  {
  }

  /** Eight bytes over a 32-bit bus come in two reads, each with its half of what the hart model loads. */
  lemma LoadsInHalves(p: Params, core: Core, c: Control, i: In, row: Row)
    requires p.Valid() && i.Valid(p) && core.width == p.width == 32 && i.bus.BusRead? && i.bus.addr % 4 == 0
    requires var off := i.bus.addr % 0x1000; Loadable(off)
    ensures var off := i.bus.addr % 0x1000;
            var whole := LoadBytes(core, View(p, c, i), off / 8 * 8, 8);
            whole.Some? && PortLanes(p, c, i, row) == (if off % 8 == 0 then whole.value[..4] else whole.value[4..])
  {
    hide FlagsRow, RowNext;
    var off := i.bus.addr % 0x1000;
    PageOffset(i.bus.addr);
    LaneOffset(off, 4);
    SameRow(View(p, c, i), off);
    LoadableRow(p, core, c, i, row, 4);
  }

  lemma SameRow(v: Hart.View, off: nat)
    ensures FlagsRow(v, off / 8 * 8) == FlagsRow(v, off)
  {
  }

  /** Wherever the harts take instructions from, what the read port shows is their word-wise fetch. */
  lemma FetchThroughPort(p: Params, core: Core, c: Control, i: In, row: Row)
    requires p.Valid() && i.Valid(p) && core.Cfg() == p.cfg && i.bus.BusRead? && i.bus.addr % 4 == 0 && CmdBusy(c)
    requires var off := i.bus.addr % 0x1000; off == WHERETO || ABSTRACT_BASE <= off < DATA_BASE || HALT_ADDRESS <= off
    ensures PortWord(p, c, i, row) == Fetch(core, View(p, c, i), i.bus.addr % 0x1000)
  {
    var off := i.bus.addr % 0x1000;
    PageOffset(i.bus.addr);
    if off < HALT_ADDRESS {
      FetchThroughRows(p, core, c, i, row);
    } else {
      FetchThroughRom(p, core, View(p, c, i), i.bus.addr);
    }
  }

  /** Reading the window through its rows is the word-wise instruction fetch of the harts. */
  lemma FetchThroughRows(p: Params, core: Core, c: Control, i: In, row: Row)
    requires p.Valid() && i.Valid(p) && core.Cfg() == p.cfg && i.bus.BusRead? && i.bus.addr % 4 == 0 && CmdBusy(c)
    requires var off := i.bus.addr % 0x1000; off == WHERETO || ABSTRACT_BASE <= off < DATA_BASE
    ensures WordAt(RowNext(p, c, i, row), i.bus.addr) == Fetch(core, View(p, c, i), i.bus.addr % 0x1000)
  {
    hide Generate, WhereToWord, FlagsRow, BitAt, DebugRom.Word;
    var off := i.bus.addr % 0x1000;
    PageOffset(i.bus.addr);
    if off != WHERETO {
      if off < PROGBUF_BASE {
        AbstractRow(p, core, c, i, row, off - ABSTRACT_BASE);
      } else {
        ProgbufRow(p, core, c, i, row, off - PROGBUF_BASE);
      }
    }
  }

  lemma AbstractRow(p: Params, core: Core, c: Control, i: In, row: Row, d: nat)
    requires p.Valid() && i.Valid(p) && core.Cfg() == p.cfg && i.bus.BusRead? && d % 4 == 0 && d < 40
    requires i.bus.addr % 0x1000 == ABSTRACT_BASE + d && i.bus.addr / 4 % 2 == (ABSTRACT_BASE + d) / 4 % 2
    ensures WordAt(RowNext(p, c, i, row), i.bus.addr) == Fetch(core, View(p, c, i), ABSTRACT_BASE + d)
  {
    hide Generate, WhereToWord, FlagsRow, BitAt, DebugRom.Word;
    RowIndex(ABSTRACT_BASE / 8, d);
    assert 8 * (ABSTRACT_BASE / 8) == ABSTRACT_BASE;
  }

  lemma ProgbufRow(p: Params, core: Core, c: Control, i: In, row: Row, d: nat)
    requires p.Valid() && i.Valid(p) && core.Cfg() == p.cfg && i.bus.BusRead? && d % 4 == 0 && d < 32
    requires i.bus.addr % 0x1000 == PROGBUF_BASE + d && i.bus.addr / 4 % 2 == (PROGBUF_BASE + d) / 4 % 2
    ensures WordAt(RowNext(p, c, i, row), i.bus.addr) == Fetch(core, View(p, c, i), PROGBUF_BASE + d)
  {
    hide Generate, WhereToWord, FlagsRow, BitAt, DebugRom.Word;
    RowIndex(PROGBUF_BASE / 8, d);
    assert 8 * (PROGBUF_BASE / 8) == PROGBUF_BASE;
  }

  /** The row and the half in which a word of a region of up to eight rows sits. */
  lemma RowIndex(q: nat, d: nat)
    requires d < 64 && d % 4 == 0
    ensures d / 4 == 2 * (((8 * q + d) / 8 - q) % 8) + (if (8 * q + d) / 4 % 2 == 1 then 1 else 0)
    ensures d < 32 ==> ((8 * q + d) / 8 - q) % 8 % 4 == ((8 * q + d) / 8 - q) % 8
  {
    Eighths(q, d);
    Multiple(q, d / 4, 2);
  }

  lemma Eighths(q: nat, d: nat)
    ensures (8 * q + d) / 8 == q + d / 8 && (8 * q + d) / 4 == 2 * q + d / 4
  {
  }

  /** The offset in the window has the low bits of the address. */
  lemma PageOffset(addr: nat)
    ensures addr % 0x1000 / 4 % 2 == addr / 4 % 2 && addr % 0x1000 % 4 == addr % 4
    ensures addr % 0x1000 / 8 % 32 == addr / 8 % 32 && addr % 0x1000 / 8 % 16 == addr / 8 % 16
  {
    var q, r := addr / 0x1000, addr % 0x1000;
    Quotients(q, r);
    Remainders(0x400 * q, r);
    Remainders(0x200 * q, r / 4);
    Remainders(0x10 * q, r / 8);
    Remainders(0x20 * q, r / 8);
  }

  lemma Quotients(q: nat, r: nat)
    ensures (0x1000 * q + r) / 4 == 0x400 * q + r / 4 && (0x1000 * q + r) / 8 == 0x200 * q + r / 8
  {
  }

  lemma Remainders(a: nat, b: nat)
    ensures (2 * a + b) % 2 == b % 2 && (4 * a + b) % 4 == b % 4
    ensures (16 * a + b) % 16 == b % 16 && (32 * a + b) % 32 == b % 32
  {
    Multiple(a, b, 2);
    Multiple(a, b, 4);
    Multiple(a, b, 16);
    Multiple(a, b, 32);
  }

  lemma Multiple(a: nat, b: nat, m: nat)
    requires m > 0
    ensures (m * a + b) % m == b % m
  {
    assert m * a + b == (a + b / m) * m + b % m;
    ModUnique(m * a + b, m, a + b / m, b % m);
  }

  lemma FetchThroughRom(p: Params, core: Core, v: Hart.View, addr: nat)
    requires core.Cfg() == p.cfg && v.Valid() && HALT_ADDRESS <= addr % 0x1000 && addr % 4 == 0
    ensures WordAt(RomRow(p, addr), addr) == Fetch(core, v, addr % 0x1000)
  {
    hide DebugRom.Word, Generate, WhereToWord;
    PageOffset(addr);
    RomWordIndex(addr % 0x1000 - HALT_ADDRESS);
  }

  lemma RomWordIndex(d: nat)
    requires d % 4 == 0 && d < 0x800
    ensures d / 4 % 64 == 2 * ((HALT_ADDRESS + d) / 8 % 32) + (if (HALT_ADDRESS + d) / 4 % 2 == 1 then 1 else 0)
    ensures d / 4 % 32 == 2 * ((HALT_ADDRESS + d) / 8 % 16) + (if (HALT_ADDRESS + d) / 4 % 2 == 1 then 1 else 0)
  {
    var e, h := d / 8, d / 4 % 2;
    assert (HALT_ADDRESS + d) / 8 == 0x100 + e && (HALT_ADDRESS + d) / 4 == 0x200 + d / 4;
    assert d / 4 == 2 * e + h;
    Remainders(8, e);
    Remainders(16, e);
    Remainders(0x100, d / 4);
    Doubled(e, h);
  }

  lemma Doubled(e: nat, h: nat)
    requires h < 2
    ensures (2 * e + h) % 64 == 2 * (e % 32) + h && (2 * e + h) % 32 == 2 * (e % 16) + h
  {
    ModUnique(2 * e + h, 64, e / 32, 2 * (e % 32) + h);
    ModUnique(2 * e + h, 32, e / 16, 2 * (e % 16) + h);
  }

  // ----- hart stores on the bus

  /** A store of up to one bus word at an offset: its bytes on their lanes, the others disabled. */
  function StoreWrite(width: nat, off: nat, bytes: seq<Byte>): (b: Bus)
    requires width in {32, 64}
    ensures b.BusWrite? && |b.wdata| == |b.be| == width / 8
  {
    var n, first := if width == 64 then 8 else 4, if width == 64 then off % 8 else off % 4;
    BusWrite(off - first,
             seq(n, k requires 0 <= k < n => if first <= k < first + |bytes| then bytes[k - first] else 0),
             seq(n, k requires 0 <= k < n => first <= k < first + |bytes|))
  }

  /** The data registers after a hart store of one, two, four or eight bytes. Eight bytes over a
      32-bit bus are two consecutive bus-word accesses. */
  function DataStored(width: nat, data: seq<Byte>, off: nat, bytes: seq<Byte>): (d: seq<Byte>)
    requires width in {32, 64} && |data| == 8
    ensures |d| == 8
  {
    if !InData(off) then data
    else if |bytes| * 8 <= width then
      var b := StoreWrite(width, off, bytes);
      DataWritten(data, b.addr, b.wdata, b.be)
    else
      var lo := StoreWrite(width, off, bytes[..width / 8]);
      var hi := StoreWrite(width, off + width / 8, bytes[width / 8..]);
      DataWritten(DataWritten(data, lo.addr, lo.wdata, lo.be), hi.addr, hi.wdata, hi.be)
  }

  /** What the module forwards to the registers for a hart's store of up to one bus word is the data after that
      store; a store elsewhere leaves them alone. */
  lemma StoreForwarded(p: Params, i: In, off: nat, bytes: seq<Byte>)
    requires p.Valid() && |i.data| == 8 && |bytes| in {1, 2, 4, 8} && 8 * |bytes| <= p.width
    requires off < 0x1000 && off % |bytes| == 0 && i.bus == StoreWrite(p.width, off, bytes)
    ensures DataOut(i) == DataStored(p.width, i.data, off, bytes)
    ensures off == 0x380 ==> DataOut(i) == bytes + i.data[|bytes|..]
    ensures !(0x380 <= off < 0x388) ==> DataOut(i) == i.data
  {
    hide DataWritten;
    SameWindow(p.width, off, |bytes|);
    if off == DATA_BASE { DataStoredAtBase(p.width, i.data, bytes); }
  }

  lemma SameWindow(width: nat, off: nat, n: nat)
    requires width in {32, 64} && off < 0x1000
    ensures InData(off - off % (width / 8)) <==> InData(off)
  {
  }

  /** A store to data0 replaces exactly the bytes stored, on either bus. */
  lemma DataStoredAtBase(width: nat, data: seq<Byte>, bytes: seq<Byte>)
    requires width in {32, 64} && |data| == 8 && |bytes| in {1, 2, 4, 8}
    ensures DataStored(width, data, DATA_BASE, bytes) == bytes + data[|bytes|..]
  {
    assert DataIndex(DATA_BASE) == 0 && DataIndex(DATA_BASE + 4) == 1;
    if |bytes| * 8 <= width {
      OneWordStored(width, data, bytes);
    } else {
      TwoWordsStored(data, bytes);
    }
  }

  lemma OneWordStored(width: nat, data: seq<Byte>, bytes: seq<Byte>)
    requires width in {32, 64} && |data| == 8 && |bytes| in {1, 2, 4, 8} && |bytes| * 8 <= width
    ensures DataStored(width, data, DATA_BASE, bytes) == bytes + data[|bytes|..]
  {
    var b, want := StoreWrite(width, DATA_BASE, bytes), bytes + data[|bytes|..];
    assert DataIndex(DATA_BASE) == 0;
    forall j | 0 <= j < 8 ensures DataByte(data, DATA_BASE, b.wdata, b.be, j) == want[j] {
      assert LaneOf(DATA_BASE, j) == j;
    }
    assert DataWritten(data, DATA_BASE, b.wdata, b.be) == want;
  }

  lemma TwoWordsStored(data: seq<Byte>, bytes: seq<Byte>)
    requires |data| == 8 == |bytes|
    ensures DataStored(32, data, DATA_BASE, bytes) == bytes
  {
    hide StoreWrite, DataWritten;
    LowWordStored(data, bytes[..4]);
    var half := bytes[..4] + data[4..];
    HighWordStored(half, bytes[4..]);
    assert bytes[..4] + bytes[4..] == bytes && half[..4] == bytes[..4];
  }

  lemma LowWordStored(data: seq<Byte>, bytes: seq<Byte>)
    requires |data| == 8 && |bytes| == 4
    ensures var b := StoreWrite(32, DATA_BASE, bytes); DataWritten(data, b.addr, b.wdata, b.be) == bytes + data[4..]
  {
    OneWordStored(32, data, bytes);
  }

  lemma HighWordStored(data: seq<Byte>, bytes: seq<Byte>)
    requires |data| == 8 && |bytes| == 4
    ensures var b := StoreWrite(32, DATA_BASE + 4, bytes); DataWritten(data, b.addr, b.wdata, b.be) == data[..4] + bytes
  {
    var b, want := StoreWrite(32, DATA_BASE + 4, bytes), data[..4] + bytes;
    assert DataIndex(DATA_BASE + 4) == 1;
    forall j | 0 <= j < 8 ensures DataByte(data, DATA_BASE + 4, b.wdata, b.be, j) == want[j] {
      assert LaneOf(DATA_BASE + 4, j) == j - 4;
    }
    assert DataWritten(data, DATA_BASE + 4, b.wdata, b.be) == want;
  }

  // ----- which addresses the data window accepts on a 64-bit bus

  /** Enabled lanes of an aligned 64-bit write land on their own bytes. */
  function OnOwnLanes(data: seq<Byte>, wdata: seq<Byte>, be: seq<bool>): seq<Byte>
    requires |data| == |wdata| == |be| == 8
  {
    seq<Byte>(8, j requires 0 <= j < 8 => if be[j] then wdata[j] else data[j])
  }

  ghost predicate LanesFaithful(addr: nat, be: seq<bool>)
    requires |be| == 8
  {
    forall data: seq<Byte>, wdata: seq<Byte> | |data| == 8 && |wdata| == 8 ::
      DataWritten(data, addr, wdata, be) == OnOwnLanes(data, wdata, be)
  }

  /** On a 64-bit bus a write into the data window is faithful exactly when its address is that of the bus
      word or of its lower half: addressed at the upper half, lower lanes are misplaced and upper lanes
      dropped. */
  lemma UpperHalfAddress(addr: nat, be: seq<bool>)
    requires InData(addr) && |be| == 8
    ensures LanesFaithful(addr, be) <==> DataIndex(addr) == 0 || forall k :: 0 <= k < 8 ==> !be[k]
  {
    var zeros: seq<Byte> := [0, 0, 0, 0, 0, 0, 0, 0];
    var ones: seq<Byte> := [1, 1, 1, 1, 1, 1, 1, 1];
    if DataIndex(addr) != 0 && exists k :: 0 <= k < 8 && be[k] {
      var k :| 0 <= k < 8 && be[k];
      if k < 4 {
        assert DataWritten(zeros, addr, ones, be)[k] != OnOwnLanes(zeros, ones, be)[k];
      } else {
        assert DataWritten(zeros, addr, ones, be) != OnOwnLanes(zeros, ones, be) by {
          MisplacedLanes(addr, be, k);
        }
      }
    }
  }

  lemma MisplacedLanes(addr: nat, be: seq<bool>, k: nat)
    requires InData(addr) && |be| == 8 && DataIndex(addr) != 0 && 4 <= k < 8 && be[k]
    ensures var zeros: seq<Byte> := [0, 0, 0, 0, 0, 0, 0, 0];
            var ones: seq<Byte> := [1, 1, 1, 1, 1, 1, 1, 1];
            DataWritten(zeros, addr, ones, be) != OnOwnLanes(zeros, ones, be)
  {
    var zeros: seq<Byte> := [0, 0, 0, 0, 0, 0, 0, 0];
    var ones: seq<Byte> := [1, 1, 1, 1, 1, 1, 1, 1];
    if be[k - 4] {
      assert DataWritten(zeros, addr, ones, be)[k - 4] != OnOwnLanes(zeros, ones, be)[k - 4];
    } else {
      assert DataWritten(zeros, addr, ones, be)[k] != OnOwnLanes(zeros, ones, be)[k];
    }
  }

  /** The hart a control-register store names is its own number. */
  lemma NamedByStore(p: Params, off: nat, id: nat)
    requires p.Valid() && id < p.harts <= 1024 && off % 8 == 0 && off < 0x1000
    ensures Named(p, StoreWrite(p.width, off, ToBytes(id, 4))) == id
    ensures StoreWrite(p.width, off, ToBytes(id, 4)).addr == off
  {
    hide StoreWrite, FromBytes, ToBytes, AlignedFrom;
    IdLanes(p.width, off, ToBytes(id, 4));
    TrailingZeros(ToBytes(id, 4), if p.width == 64 then 4 else 0);
    IdBytes(id);
    InRange(id, Aligned(p.harts));
  }

  lemma IdLanes(width: nat, off: nat, bs: seq<Byte>)
    requires width in {32, 64} && off % 8 == 0 && |bs| == 4
    ensures StoreWrite(width, off, bs).wdata == bs + seq(if width == 64 then 4 else 0, _ => 0)
    ensures StoreWrite(width, off, bs).addr == off
  {
  }

  lemma InRange(id: nat, m: nat)
    requires id < m
    ensures id % m == id
  {
  }

  lemma IdBytes(id: nat)
    requires id < 1024
    ensures FromBytes(ToBytes(id, 4)) == id
  {
    BytesRoundTrip(id, 4);
    assert Pow256(1) == 0x100;
    assert Pow256(2) == 0x1_0000;
    assert Pow256(3) == 0x100_0000;
    assert Pow256(4) == 0x1_0000_0000;
  }

  lemma {:induction false} TrailingZeros(bs: seq<Byte>, n: nat)
    ensures FromBytes(bs + seq(n, _ => 0)) == FromBytes(bs)
  {
    if bs != [] {
      TrailingZeros(bs[1..], n);
      assert (bs + seq(n, _ => 0))[1..] == bs[1..] + seq(n, _ => 0);
    } else {
      assert bs + seq(n, _ => 0) == seq(n, _ => 0);
      ZeroBytes(n);
    }
  }

  lemma {:induction false} ZeroBytes(n: nat)
    ensures FromBytes(seq(n, _ => 0)) == 0
  {
    if n > 0 {
      ZeroBytes(n - 1);
      assert seq(n, _ => 0)[1..] == seq(n - 1, _ => 0);
    }
  }

  // ----- the module itself

  class DebugMemory {
    const p: Params
    var fsm: Fsm
    var halted: seq<bool>
    var resuming: seq<bool>
    var row: Row
    var romAddr: nat
    var forwardRom: bool
    var upperWord: bool

    ghost predicate Valid()
      reads this
    {
      p.Valid() && State().Valid(p)
    }

    function State(): Control
      reads this
    {
      Control(fsm, halted, resuming)
    }

    /** Reset: no hart is halted, nothing is in progress. */
    constructor (p: Params)
      requires p.Valid()
      ensures this.p == p && Valid()
      ensures State() == Control(Idle, seq(p.harts, _ => false), seq(p.harts, _ => false))
    {
      this.p := p;
      fsm := Idle;
      halted := seq(p.harts, _ => false);
      resuming := seq(p.harts, _ => false);
      row := Words(0, 0);
      romAddr := 0;
      forwardRom := false;
      upperWord := false;
    }

    /** The word on the read port, in the cycle after the read. */
    function ReadWord(): bv32
      reads this
    {
      var r := if forwardRom then RomRow(p, romAddr) else row;
      if !r.Words? then 0 else if upperWord then r.hi else r.lo
    }

    /** The bytes on the read port, in the cycle after the read. */
    function ReadLanes(): seq<Byte>
      requires p.width in {32, 64}
      reads this
    {
      Lanes(p.width, if forwardRom then RomRow(p, romAddr) else row, upperWord)
    }

    /** The hart control queue: next state and the error to report. */
    method HartControl(i: In, going: bool, haltPulse: bool, exception: bool) returns (d: Fsm, error: Option<CmdErr>)
      requires Valid()
      requires going == Hits(i.bus, GOING) && exception == Hits(i.bus, EXCEPTION)
      requires haltPulse == (Hits(i.bus, HALTED) && Named(p, i.bus) == HartIndex(p, i.hartsel))
      ensures d == FsmNext(p, State(), i) && error == CommandError(p, State(), i)
    {
      var sel := HartIndex(p, i.hartsel);
      d, error := fsm, None;
      match fsm {
        case Idle =>
          if i.cmdValid && BitAt(halted, sel) && !Unsupported(p.cfg, i.command) {
            d := Go;
          } else if i.cmdValid {
            error := Some(ERR_HALT_RESUME);
          }
          if BitAt(i.resumereq, sel) && !BitAt(resuming, sel) && !BitAt(i.haltreq, sel) && BitAt(halted, sel) {
            d := Resume;
          }
        case Go => if going { d := Executing; }
        case Resume => if BitAt(resuming, sel) { d := Idle; }
        case Executing => if haltPulse { d := Idle; }
      }
      if i.cmdValid && Unsupported(p.cfg, i.command) { error := Some(ERR_NOT_SUPPORTED); }
      if exception { error := Some(ERR_EXCEPTION); }
      if i.ndmreset { d := Idle; }
    }

    /** Writes to the control registers, as the harts make them. */
    method ReadWrite(i: In) returns (halted': seq<bool>, going: bool, haltPulse: bool, exception: bool)
      requires Valid() && i.Valid(p)
      ensures |halted'| == p.harts
      ensures forall h :: 0 <= h < p.harts ==> (p.selectable[h] && halted'[h]) == HaltedNext(p, State(), i, h)
      ensures going == Hits(i.bus, GOING) && exception == Hits(i.bus, EXCEPTION)
      ensures haltPulse == (Hits(i.bus, HALTED) && Named(p, i.bus) == HartIndex(p, i.hartsel))
    {
      halted', going, haltPulse, exception := halted, false, false, false;
      if i.bus.BusWrite? {
        var who := HartIndex(p, FromBytes(i.bus.wdata));
        match i.bus.addr % 0x1000 {
          case 0x100 =>
            haltPulse := who == HartIndex(p, i.hartsel);
            if who < p.harts { halted' := halted'[who := true]; }
          case 0x108 => going := true;
          case 0x110 => if who < p.harts { halted' := halted'[who := false]; }
          case 0x118 => exception := true;
          case _ =>
        }
      }
      if i.ndmreset { halted' := seq(p.harts, _ => false); }
    }

    /** Resume acknowledgements: a hart's store wins over a clear request. */
    method Resumed(i: In) returns (resuming': seq<bool>)
      requires Valid() && i.Valid(p)
      ensures |resuming'| == p.harts
      ensures forall h :: 0 <= h < p.harts ==> (p.selectable[h] && resuming'[h]) == ResumingNext(p, State(), i, h)
    {
      resuming' := resuming;
      var sel := HartIndex(p, i.hartsel);
      if i.clearAck && sel < p.harts { resuming' := resuming'[sel := false]; }
      if i.bus.BusWrite? && i.bus.addr % 0x1000 == RESUMING {
        var who := HartIndex(p, FromBytes(i.bus.wdata));
        if who < p.harts { resuming' := resuming'[who := true]; }
      }
      if i.ndmreset { resuming' := seq(p.harts, _ => false); }
    }

    /** One clock edge: the combinational blocks, then the registers. */
    method Tick(i: In) returns (error: Option<CmdErr>, dataValid: bool, dataOut: seq<Byte>)
      requires Valid() && i.Valid(p)
      modifies this
      ensures Valid() && State() == ControlNext(p, old(State()), i)
      ensures row == RowNext(p, old(State()), i, old(row))
      ensures error == CommandError(p, old(State()), i)
      ensures dataValid == (i.bus.BusWrite? && InData(i.bus.addr))
      ensures dataOut == DataOut(i)
      ensures i.bus.BusRead? ==> ReadWord() == PortWord(p, old(State()), i, old(row))
      ensures i.bus.BusRead? ==> ReadLanes() == PortLanes(p, old(State()), i, old(row))
    {
      dataValid, dataOut := i.bus.BusWrite? && InData(i.bus.addr), i.data;
      if dataValid {
        dataOut := ForwardBytes(i.data, i.bus.addr, i.bus.wdata, i.bus.be);
      }
      var resuming' := Resumed(i);
      var halted', going, haltPulse, exception := ReadWrite(i);
      var fsm';
      fsm', error := HartControl(i, going, haltPulse, exception);
      row := RowNext(p, State(), i, row);
      romAddr := if i.bus.NoReq? then romAddr else i.bus.addr;
      forwardRom := i.bus.BusRead? && i.bus.addr % 0x1000 >= HALT_ADDRESS;
      upperWord := i.bus.BusRead? && i.bus.addr / 4 % 2 == 1;
      fsm := fsm';
      halted := seq(p.harts, h requires 0 <= h < p.harts => p.selectable[h] && halted'[h]);
      resuming := seq(p.harts, h requires 0 <= h < p.harts => p.selectable[h] && resuming'[h]);
    }
  }

  /** The byte-lane loop that forwards a write into the data registers. */
  method ForwardBytes(data: seq<Byte>, addr: nat, wdata: seq<Byte>, be: seq<bool>) returns (d: seq<Byte>)
    requires |data| == 8 && |wdata| == |be|
    ensures d == DataWritten(data, addr, wdata, be)
  {
    var idx := DataIndex(addr);
    d := data;
    for lane := 0 to |be|
      invariant |d| == 8
      invariant forall j :: 0 <= j < 8 ==>
                  d[j] == if LaneOf(addr, j) < lane then DataByte(data, addr, wdata, be, j) else data[j]
    {
      var target := (idx + lane / 4) * 4 + lane % 4;
      if be[lane] && idx + lane / 4 < 2 {
        d := d[target := wdata[lane]];
      }
      forall j | 0 <= j < 8
        ensures LaneOf(addr, j) == lane <==> j == target
      {
        LaneInverse(addr, j, lane);
      }
    }
  }

  lemma LaneInverse(addr: nat, j: nat, lane: nat)
    requires j < 8
    ensures LaneOf(addr, j) == lane <==> j == (DataIndex(addr) + lane / 4) * 4 + lane % 4
  {
    var idx := DataIndex(addr);
    if j == (idx + lane / 4) * 4 + lane % 4 {
      assert j / 4 == idx + lane / 4 && j % 4 == lane % 4;
    }
  }
}
