/**
 The debug ROM as a labelled program (debug_rom/debug_rom.S), and the proof that fetching, decoding
 and executing the real ROM words does exactly what the labels say, for both images.
 */
module ParkLoop {
  import opened Bytes
  import opened RiscV
  import opened AbstractCommand
  import opened Hart
  import DebugRom

  datatype Point =
    // entry: save s0 (and a0), find the module's base address
    | EntryVec | EntryFence | SaveS0 | SaveA0 | Base1 | Base2 | Base3
    // park loop: report HALTED, poll the go bit, poll the resume bit
    | LoopId | LoopHalt | LoopAdd | LoopFlag | LoopAnd | LoopGo
    | LoopId2 | LoopAdd2 | LoopFlag2 | LoopAnd2 | LoopResume | LoopBack
    // exception
    | ExcVec | Exc1 | Exc2 | Exc3 | ExcStore | ExcA0 | ExcS0 | ExcBreak
    // going
    | GoStore | GoA0 | GoS0 | GoJump
    // resume
    | ResVec | ResId | ResStore | ResA0 | ResS0 | ResDret

  /** Points that exist only in the two-scratch image. */
  predicate NeedsBase(p: Point) {
    (p.SaveA0? || p.Base1? || p.Base2? || p.Base3? || p.LoopAdd? || p.LoopAdd2? || p.Exc1? || p.Exc2? || p.Exc3?
      || p.ExcA0? || p.GoA0? || p.ResA0?)
  }

  predicate Exists(snd: bool, p: Point) { snd || !NeedsBase(p) }

  /** Word index in the image. */
  function Index(snd: bool, p: Point): (k: nat)
    requires Exists(snd, p)
    ensures k < if snd then DebugRom.SIZE_TWO else DebugRom.SIZE_ONE
  {
    match p
    case EntryVec => 0
    case ResVec => 2
    case ExcVec => 4
    case EntryFence => 6
    case SaveS0 => 7
    case SaveA0 => 8
    case Base1 => 9
    case Base2 => 10
    case Base3 => 11
    case LoopId => if snd then 12 else 8
    case LoopHalt => if snd then 13 else 9
    case LoopAdd => 14
    case LoopFlag => if snd then 15 else 10
    case LoopAnd => if snd then 16 else 11
    case LoopGo => if snd then 17 else 12
    case LoopId2 => if snd then 18 else 13
    case LoopAdd2 => 19
    case LoopFlag2 => if snd then 20 else 14
    case LoopAnd2 => if snd then 21 else 15
    case LoopResume => if snd then 22 else 16
    case LoopBack => if snd then 23 else 17
    case Exc1 => 24
    case Exc2 => 25
    case Exc3 => 26
    case ExcStore => if snd then 27 else 18
    case ExcA0 => 28
    case ExcS0 => if snd then 29 else 19
    case ExcBreak => if snd then 30 else 20
    case GoStore => if snd then 31 else 21
    case GoA0 => 32
    case GoS0 => if snd then 33 else 22
    case GoJump => if snd then 34 else 23
    case ResId => if snd then 35 else 24
    case ResStore => if snd then 36 else 25
    case ResA0 => 37
    case ResS0 => if snd then 38 else 26
    case ResDret => if snd then 39 else 27
  }

  function Pc(snd: bool, p: Point): int
    requires Exists(snd, p)
  {
    HALT_ADDRESS + 4 * Index(snd, p)
  }

  /** Where control goes next inside the ROM; taken tells what the branches LoopGo and LoopResume do.
      GoJump leaves for WhereTo and ResDret leaves debug mode: both are their own successors here. */
  function Succ(snd: bool, p: Point, taken: bool): (q: Point)
    requires Exists(snd, p)
    ensures Exists(snd, q)
  {
    match p
    case EntryVec => EntryFence
    case EntryFence => SaveS0
    case SaveS0 => if snd then SaveA0 else LoopId
    case SaveA0 => Base1
    case Base1 => Base2
    case Base2 => Base3
    case Base3 => LoopId
    case LoopId => LoopHalt
    case LoopHalt => if snd then LoopAdd else LoopFlag
    case LoopAdd => LoopFlag
    case LoopFlag => LoopAnd
    case LoopAnd => LoopGo
    case LoopGo => if taken then GoStore else LoopId2
    case LoopId2 => if snd then LoopAdd2 else LoopFlag2
    case LoopAdd2 => LoopFlag2
    case LoopFlag2 => LoopAnd2
    case LoopAnd2 => LoopResume
    case LoopResume => if taken then ResVec else LoopBack
    case LoopBack => LoopId
    case ExcVec => if snd then Exc1 else ExcStore
    case Exc1 => Exc2
    case Exc2 => Exc3
    case Exc3 => ExcStore
    case ExcStore => if snd then ExcA0 else ExcS0
    case ExcA0 => ExcS0
    case ExcS0 => ExcBreak
    case ExcBreak => EntryVec
    case GoStore => if snd then GoA0 else GoS0
    case GoA0 => GoS0
    case GoS0 => GoJump
    case GoJump => GoJump
    case ResVec => ResId
    case ResId => ResStore
    case ResStore => if snd then ResA0 else ResS0
    case ResA0 => ResS0
    case ResS0 => ResDret
    case ResDret => ResDret
  }

  // ----- register facts the code relies on

  predicate S0Stashed(p: Point) {
    !(p.EntryVec? || p.EntryFence? || p.SaveS0? || p.ExcBreak? || p.GoJump? || p.ResDret?)
  }

  predicate A0Stashed(p: Point) {
    S0Stashed(p) && !(p.SaveA0? || p.GoS0? || p.ResS0? || p.ExcS0?)
  }

  /** Points at which a0 holds the module's base address (two-scratch image). */
  predicate A0IsBase(p: Point) {
    (p.LoopId? || p.LoopHalt? || p.LoopAdd? || p.LoopFlag? || p.LoopAnd? || p.LoopGo? || p.LoopId2?
      || p.LoopAdd2? || p.LoopFlag2? || p.LoopAnd2? || p.LoopResume? || p.LoopBack? || p.ExcStore? || p.GoStore?
      || p.ResVec? || p.ResId? || p.ResStore?)
  }

  /** What s0 and a0 hold at each point, beyond the stashed values. */
  predicate Scratch(core: Core, p: Point, h: HartState) {
    var s0, a0 := h.x[S0], h.x[A0];
    && (core.Snd() && A0IsBase(p) ==> a0 == core.base)
    && (core.Snd() && (p.Base2? || p.Exc2?) ==> core.base <= a0 < core.base + 0x1000)
    && (core.Snd() && (p.Base3? || p.Exc3?) ==> a0 == core.base / 0x1000)
    && ((p.LoopHalt? || p.LoopAdd? || p.LoopAdd2? || p.ResStore?) ==> s0 == h.id)
    && ((p.LoopFlag? || p.LoopFlag2?) ==> s0 == core.base + h.id)
    && ((p.LoopAnd? || p.LoopAnd2?) ==> s0 < 4)
    && (p == LoopGo ==> s0 < 2)
    && (p == LoopResume ==> s0 in {0, 2})
  }

  /** A hart inside the ROM at p. */
  predicate At(core: Core, p: Point, h: HartState) {
    && Exists(core.Snd(), p) && h.debug && h.pc == Pc(core.Snd(), p)
    && Wf(h) && h.id < 1024 && Scratch(core, p, h)
  }

  /** The registers a debugger is entitled to see: while the ROM borrows s0 and a0, the hart's own
      values are in the scratch CSRs. With one scratch register dscratch1 is an ordinary CSR. */
  datatype Logical = Logical(x: Regs, f: Regs, csrs: CsrFile, scratch1: nat)

  function LogicalAt(core: Core, p: Point, h: HartState): Logical {
    var x1 := if S0Stashed(p) then h.x[S0 := h.ds0] else h.x;
    var x2 := if core.Snd() && A0Stashed(p) then x1[A0 := h.ds1] else x1;
    Logical(x2, h.f, h.csrs, if core.Snd() then 0 else h.ds1)
  }

  // ----- what one instruction does, by label

  function FlagOf(v: View, id: nat): nat {
    if id == v.hartsel then (if v.resume then 2 else 0) + (if v.go then 1 else 0) else 0
  }

  function Taken(p: Point, h: HartState): bool {
    (p.LoopGo? || p.LoopResume?) && h.x[S0] != 0
  }

  /** The store a point makes into the window, if any. */
  function StoreAt(p: Point, h: HartState): Option<Access> {
    match p
    case LoopHalt => Some(Access(HALTED, ToBytes(h.id, 4)))
    case ResStore => Some(Access(RESUMING, ToBytes(h.id, 4)))
    case GoStore => Some(Access(GOING, ToBytes(0, 4)))
    case ExcStore => Some(Access(EXCEPTION, ToBytes(0, 4)))
    case _ => None
  }

  function NextPc(core: Core, p: Point, h: HartState): int
    requires Exists(core.Snd(), p)
  {
    if p.GoJump? then WHERETO
    else if p.ResDret? then h.pc
    else Pc(core.Snd(), Succ(core.Snd(), p, Taken(p, h)))
  }

  /** The new value of s0 or a0, whichever the point assigns. */
  function NewX(core: Core, v: View, p: Point, h: HartState): Regs
    requires Exists(core.Snd(), p)
  {
    match p
    case Base1 | Exc1 => h.x[A0 := core.base + Pc(core.Snd(), p)]
    case Base2 | Exc2 => h.x[A0 := core.base / 0x1000]
    case Base3 | Exc3 => h.x[A0 := core.base]
    case LoopId | LoopId2 | ResId => h.x[S0 := h.id]
    case LoopAdd | LoopAdd2 => h.x[S0 := core.base + h.id]
    case LoopFlag | LoopFlag2 => h.x[S0 := FlagOf(v, h.id)]
    case LoopAnd => h.x[S0 := h.x[S0] % 2]
    case LoopAnd2 => h.x[S0 := h.x[S0] / 2 * 2]
    case ExcA0 | GoA0 | ResA0 => h.x[A0 := h.ds1]
    case ExcS0 | GoS0 | ResS0 => h.x[S0 := h.ds0]
    case _ => h.x
  }

  /** The hart after the instruction at p. */
  function Effect(core: Core, v: View, p: Point, h: HartState): HartState
    requires Exists(core.Snd(), p)
  {
    h.(pc := NextPc(core, p, h),
       debug := h.debug && !p.ResDret?,
       x := NewX(core, v, p, h),
       ds0 := if p.SaveS0? then h.x[S0] else h.ds0,
       ds1 := if p.SaveA0? then h.x[A0] else h.ds1)
  }

  // ----- the ROM words do what the labels say

  /** The instruction at a label, as debug_rom.S assembles to. */
  function InstrAt(snd: bool, p: Point): Instr
    requires Exists(snd, p)
  {
    match p
    case EntryVec => Jal(X0, 0x18)
    case ResVec => if snd then Jal(X0, 0x84) else Jal(X0, 0x58)
    case ExcVec => if snd then Jal(X0, 0x50) else Jal(X0, 0x38)
    case EntryFence => Fence
    case SaveS0 => Csrw(CSR_DSCRATCH0, S0)
    case SaveA0 => Csrw(CSR_DSCRATCH1, A0)
    case Base1 => Auipc(A0, 0)
    case Base2 => Srli(A0, A0, 12)
    case Base3 => Slli(A0, A0, 12)
    case LoopId => Csrr(CSR_MHARTID, S0)
    case LoopHalt => if snd then Store(2, S0, A0, 0x100) else Store(2, S0, X0, 0x100)
    case LoopAdd => Add(S0, S0, A0)
    case LoopFlag => Lbu(S0, S0, 0x400)
    case LoopAnd => Andi(S0, S0, 1)
    case LoopGo => if snd then Bne(S0, X0, 0x38) else Bne(S0, X0, 0x24)
    case LoopId2 => Csrr(CSR_MHARTID, S0)
    case LoopAdd2 => Add(S0, S0, A0)
    case LoopFlag2 => Lbu(S0, S0, 0x400)
    case LoopAnd2 => Andi(S0, S0, 2)
    case LoopResume => if snd then Bne(S0, X0, 0x1fb0) else Bne(S0, X0, 0x1fc8)
    case LoopBack => if snd then Jal(X0, 0x1fffd4) else Jal(X0, 0x1fffdc)
    case Exc1 => Auipc(A0, 0)
    case Exc2 => Srli(A0, A0, 12)
    case Exc3 => Slli(A0, A0, 12)
    case ExcStore => if snd then Store(2, X0, A0, 0x118) else Store(2, X0, X0, 0x118)
    case ExcA0 => Csrr(CSR_DSCRATCH1, A0)
    case ExcS0 => Csrr(CSR_DSCRATCH0, S0)
    case ExcBreak => Ebreak
    case GoStore => if snd then Store(2, X0, A0, 0x108) else Store(2, X0, X0, 0x108)
    case GoA0 => Csrr(CSR_DSCRATCH1, A0)
    case GoS0 => Csrr(CSR_DSCRATCH0, S0)
    case GoJump => if snd then Jal(X0, 0x1ffa78) else Jal(X0, 0x1ffaa4)
    case ResId => Csrr(CSR_MHARTID, S0)
    case ResStore => if snd then Store(2, S0, A0, 0x110) else Store(2, S0, X0, 0x110)
    case ResA0 => Csrr(CSR_DSCRATCH1, A0)
    case ResS0 => Csrr(CSR_DSCRATCH0, S0)
    case ResDret => Dret
  }

  lemma FetchAt(core: Core, v: View, p: Point)
    requires v.Valid() && Exists(core.Snd(), p)
    ensures Decode(Fetch(core, v, Pc(core.Snd(), p))) == InstrAt(core.Snd(), p)
  {
    hide InstrAt, Decode, DebugRom.Word, Fetch, Index;
    FetchesImage(core, v, Index(core.Snd(), p));
    var k := Index(core.Snd(), p);
    if k < 5 { VectorWords(core.Snd(), p); }
    else if k < 9 { EntryWords(core.Snd(), p); }
    else if k < 12 { BaseWords(core.Snd(), p); }
    else if k < 16 { LoopWords(core.Snd(), p); }
    else if k < 22 { ResumePollWords(core.Snd(), p); }
    else if k < 26 { LateWords(core.Snd(), p); }
    else if k < 31 { ExceptionWords(core.Snd(), p); }
    else { LeaveWords(core.Snd(), p); }
  }

  lemma FetchesImage(core: Core, v: View, k: nat)
    requires v.Valid() && k < (if core.Snd() then DebugRom.SIZE_TWO else DebugRom.SIZE_ONE)
    ensures Fetch(core, v, HALT_ADDRESS + 4 * k) == DebugRom.Word(core.Snd(), k)
  {
    hide DebugRom.Word, Generate, WhereToWord;
  }

  lemma VectorWords(snd: bool, p: Point)
    requires Exists(snd, p) && 0 <= Index(snd, p) < 5
    ensures Decode(DebugRom.Word(snd, Index(snd, p))) == InstrAt(snd, p)
  {
  }

  lemma EntryWords(snd: bool, p: Point)
    requires Exists(snd, p) && 5 <= Index(snd, p) < 9
    ensures Decode(DebugRom.Word(snd, Index(snd, p))) == InstrAt(snd, p)
  {
  }

  lemma BaseWords(snd: bool, p: Point)
    requires Exists(snd, p) && 9 <= Index(snd, p) < 12
    ensures Decode(DebugRom.Word(snd, Index(snd, p))) == InstrAt(snd, p)
  {
  }

  lemma LoopWords(snd: bool, p: Point)
    requires Exists(snd, p) && 12 <= Index(snd, p) < 16
    ensures Decode(DebugRom.Word(snd, Index(snd, p))) == InstrAt(snd, p)
  {
  }

  lemma ResumePollWords(snd: bool, p: Point)
    requires Exists(snd, p) && 16 <= Index(snd, p) < 22
    ensures Decode(DebugRom.Word(snd, Index(snd, p))) == InstrAt(snd, p)
  {
  }

  lemma LateWords(snd: bool, p: Point)
    requires Exists(snd, p) && 22 <= Index(snd, p) < 26
    ensures Decode(DebugRom.Word(snd, Index(snd, p))) == InstrAt(snd, p)
  {
  }

  lemma ExceptionWords(snd: bool, p: Point)
    requires Exists(snd, p) && 26 <= Index(snd, p) < 31
    ensures Decode(DebugRom.Word(snd, Index(snd, p))) == InstrAt(snd, p)
  {
  }

  lemma LeaveWords(snd: bool, p: Point)
    requires Exists(snd, p) && 31 <= Index(snd, p) < 40
    ensures Decode(DebugRom.Word(snd, Index(snd, p))) == InstrAt(snd, p)
  {
  }

  /** An aligned access gets the same bytes of the 64-bit row over a 32-bit bus as over a 64-bit one. */
  lemma WidthIndependent(width: nat, row: seq<Byte>, off: nat, n: nat)
    requires |row| == 8 && Natural(off, n) && width in {32, 64}
    ensures off % 8 + n <= 8 && BusBytes(width, row, off, n) == row[off % 8..off % 8 + n]
  {
    hide Natural;
    RowOffset(off, n);
    if width == 32 {
      if n < 8 {
        HalfRow(row, off / 4 % 2 * 4, off % 4, n);
      } else {
        assert row[..4] + row[4..] == row;
      }
    }
  }

  lemma RowOffset(off: nat, n: nat)
    requires Natural(off, n)
    ensures off % 8 + n <= 8 && off % 8 == off / 4 % 2 * 4 + off % 4 && (n < 8 ==> off % 4 + n <= 4)
  {
    WithinRow(off / 8, off % 8, n);
  }

  /** The same for row q and position r in it. */
  lemma WithinRow(q: nat, r: nat, n: nat)
    requires r < 8 && Natural(8 * q + r, n)
    ensures r + n <= 8 && (8 * q + r) % 4 == r % 4 && (8 * q + r) / 4 % 2 == r / 4 && (n < 8 ==> r % 4 + n <= 4)
  {
    assert (8 * q + r) / 4 == 2 * q + r / 4;
    if n == 2 {
      assert (8 * q + r) % 2 == r % 2;
    } else if n == 4 {
      assert (8 * q + r) % 4 == r % 4;
    } else if n == 8 {
      assert (8 * q + r) % 8 == r;
    }
  }

  lemma HalfRow(row: seq<Byte>, lo: nat, at: nat, n: nat)
    requires |row| == 8 && lo <= 4 && at + n <= 4
    ensures row[lo..lo + 4][at..at + n] == row[lo + at..lo + at + n]
  {
    var a, b := row[lo..lo + 4][at..at + n], row[lo + at..lo + at + n];
    forall k | 0 <= k < n ensures a[k] == b[k] {
      assert row[lo..lo + 4][at + k] == row[lo + (at + k)];
    }
  }

  /** On either bus a hart sees its own flag byte, and it is zero unless the hart is selected. */
  lemma FlagByte(width: nat, v: View, id: nat)
    requires width in {32, 64} && id < 1024 && v.hartsel < 1024
    ensures BusBytes(width, FlagsRow(v, FLAGS + id), FLAGS + id, 1)[0] == FlagOf(v, id)
  {
    hide FlagsRow, BusBytes, FlagOf;
    WidthIndependent(width, FlagsRow(v, FLAGS + id), FLAGS + id, 1);
    assert (FLAGS + id) % 8 == id % 8;
    FlagInRow(v, id);
  }

  lemma FlagInRow(v: View, id: nat)
    requires id < 1024 && v.hartsel < 1024
    ensures FlagsRow(v, FLAGS + id)[id % 8] == FlagOf(v, id)
  {
    assert (FLAGS + id) / 8 * 8 - FLAGS == id / 8 * 8;
    assert id == id / 8 * 8 + id % 8;
    assert v.hartsel == v.hartsel / 8 * 8 + v.hartsel % 8;
  }

  lemma AndBits(s: nat)
    requires s < 4
    ensures BitAnd(s, 1) == s % 2 && BitAnd(s, 2) == s / 2 * 2
  {
    assert s == 0 || s == 1 || s == 2 || s == 3;
  }

  /** Executing the listed instruction at p is the labelled effect of p. */
  predicate Refines(core: Core, v: View, p: Point, h: HartState)
    requires v.Valid() && Exists(core.Snd(), p)
  {
    Exec(core, v, h, InstrAt(core.Snd(), p)) == Next(Effect(core, v, p, h), StoreAt(p, h))
  }

  /** Polling reads FlagOf, whatever the bus width. */
  lemma PollReads(core: Core, v: View, h: HartState)
    requires core.Valid() && v.Valid() && v.hartsel < 1024 && h.id < 1024 && h.x[S0] == core.base + h.id
    ensures Exec(core, v, h, Lbu(S0, S0, 0x400)) == Next(h.(x := h.x[S0 := FlagOf(v, h.id)], pc := h.pc + 4), None)
  {
    FlagByte(core.width, v, h.id);
    assert WindowOffset(core, h, S0, 0x400) == FLAGS + h.id;
    assert LoadBytes(core, v, FLAGS + h.id, 1)
           == Some(BusBytes(core.width, FlagsRow(v, FLAGS + h.id), FLAGS + h.id, 1));
  }

  /** The address base + off of a control register, reached from a0 or from x0. */
  lemma ControlOffset(core: Core, h: HartState)
    requires core.Valid() && Wf(h) && h.x[if core.Snd() then A0 else X0] == core.base
    ensures WindowOffset(core, h, core.Cfg().LoadBase(), 0x100) == HALTED
    ensures WindowOffset(core, h, core.Cfg().LoadBase(), 0x108) == GOING
    ensures WindowOffset(core, h, core.Cfg().LoadBase(), 0x110) == RESUMING
    ensures WindowOffset(core, h, core.Cfg().LoadBase(), 0x118) == EXCEPTION
    ensures WindowOffset(core, h, core.Cfg().LoadBase(), DATA_ADDR) == DATA_BASE
  {
  }

  lemma JumpRefines(core: Core, v: View, p: Point, h: HartState)
    requires core.Valid() && v.Valid() && At(core, p, h) && (p.EntryVec? || p.LoopBack?)
    ensures Refines(core, v, p, h)
  {
    hide LoadBytes, BitAnd, StoreTo, ToBytes, FlagOf, WindowOffset, LoadValue, FloatValue;
    match p case EntryVec => case LoopBack =>
  }

  lemma VectorRefines(core: Core, v: View, p: Point, h: HartState)
    requires core.Valid() && v.Valid() && At(core, p, h) && (p.ResVec? || p.ExcVec?)
    ensures Refines(core, v, p, h)
  {
    hide LoadBytes, BitAnd, StoreTo, ToBytes, FlagOf, WindowOffset, LoadValue, FloatValue;
    match p case ResVec => case ExcVec =>
  }

  lemma BranchRefines(core: Core, v: View, p: Point, h: HartState)
    requires core.Valid() && v.Valid() && At(core, p, h) && (p.LoopGo? || p.LoopResume? || p.GoJump?)
    ensures Refines(core, v, p, h)
  {
    match p case LoopGo => case LoopResume => case GoJump =>
  }

  lemma SaveRefines(core: Core, v: View, p: Point, h: HartState)
    requires core.Valid() && v.Valid() && At(core, p, h) && (p.EntryFence? || p.SaveS0? || p.SaveA0?)
    ensures Refines(core, v, p, h)
  {
    match p case EntryFence => case SaveS0 => case SaveA0 =>
  }

  lemma IdRuns(core: Core, v: View, h: HartState)
    requires core.Valid() && v.Valid() && Wf(h)
    ensures Exec(core, v, h, Csrr(CSR_MHARTID, S0)) == Next(h.(x := h.x[S0 := h.id], pc := h.pc + 4), None)
  {
  }

  lemma IdRefines(core: Core, v: View, p: Point, h: HartState)
    requires core.Valid() && v.Valid() && At(core, p, h) && (p.LoopId? || p.LoopId2? || p.ResId?)
    ensures Refines(core, v, p, h)
  {
    hide Exec, FlagOf;
    IdRuns(core, v, h);
    match p case LoopId => case LoopId2 => case ResId =>
  }

  lemma AuipcRefines(core: Core, v: View, p: Point, h: HartState)
    requires core.Valid() && v.Valid() && At(core, p, h) && (p.Base1? || p.Exc1?)
    ensures Refines(core, v, p, h)
  {
    hide LoadBytes, BitAnd, StoreTo, ToBytes, FlagOf, WindowOffset, LoadValue, FloatValue;
    match p case Base1 => case Exc1 =>
  }

  /** Dropping the low twelve bits of an address in the window's page, and putting them back as zeros. */
  lemma PageNumber(core: Core, a: nat)
    requires core.Valid()
    ensures core.base <= a < core.base + 0x1000 ==> a / 0x1000 == core.base / 0x1000
    ensures core.Wrap(core.base / 0x1000 * 0x1000) == core.base
  {
  }

  lemma ShiftDownRefines(core: Core, v: View, p: Point, h: HartState)
    requires core.Valid() && v.Valid() && At(core, p, h) && (p.Base2? || p.Exc2?)
    ensures Refines(core, v, p, h)
  {
    hide LoadBytes, BitAnd, StoreTo, ToBytes, FlagOf, WindowOffset, LoadValue, FloatValue;
    PageNumber(core, h.x[A0]);
    match p case Base2 => case Exc2 =>
  }

  lemma ShiftUpRefines(core: Core, v: View, p: Point, h: HartState)
    requires core.Valid() && v.Valid() && At(core, p, h) && (p.Base3? || p.Exc3?)
    ensures Refines(core, v, p, h)
  {
    hide LoadBytes, BitAnd, StoreTo, ToBytes, FlagOf, WindowOffset, LoadValue, FloatValue;
    PageNumber(core, h.x[A0]);
    match p case Base3 => case Exc3 =>
  }

  lemma AddRuns(core: Core, v: View, h: HartState)
    requires core.Valid() && v.Valid() && Wf(h) && h.id < 1024 && h.x[S0] == h.id && h.x[A0] == core.base
    ensures Exec(core, v, h, Add(S0, S0, A0)) == Next(h.(x := h.x[S0 := core.base + h.id], pc := h.pc + 4), None)
  {
  }

  lemma AddRefines(core: Core, v: View, p: Point, h: HartState)
    requires core.Valid() && v.Valid() && At(core, p, h) && (p.LoopAdd? || p.LoopAdd2?)
    ensures Refines(core, v, p, h)
  {
    hide Exec, FlagOf;
    AddRuns(core, v, h);
    match p case LoopAdd => case LoopAdd2 =>
  }

  lemma RestoreA0Refines(core: Core, v: View, p: Point, h: HartState)
    requires core.Valid() && v.Valid() && At(core, p, h) && (p.ExcA0? || p.GoA0? || p.ResA0?)
    ensures Refines(core, v, p, h)
  {
    match p case ExcA0 => case GoA0 => case ResA0 =>
  }

  lemma RestoreS0Refines(core: Core, v: View, p: Point, h: HartState)
    requires core.Valid() && v.Valid() && At(core, p, h) && (p.GoS0? || p.ResS0?)
    ensures Refines(core, v, p, h)
  {
    hide LoadBytes, BitAnd, StoreTo, ToBytes, FlagOf, WindowOffset, LoadValue, FloatValue;
    match p case GoS0 => case ResS0 =>
  }

  lemma RestoreInExcRefines(core: Core, v: View, p: Point, h: HartState)
    requires core.Valid() && v.Valid() && At(core, p, h) && p.ExcS0?
    ensures Refines(core, v, p, h)
  {
    hide LoadBytes, BitAnd, StoreTo, ToBytes, FlagOf, WindowOffset, LoadValue, FloatValue;
  }

  lemma LeaveRefines(core: Core, v: View, p: Point, h: HartState)
    requires core.Valid() && v.Valid() && At(core, p, h) && (p.ExcBreak? || p.ResDret?)
    ensures Refines(core, v, p, h)
  {
    match p case ExcBreak => case ResDret =>
  }

  lemma PollRefines(core: Core, v: View, p: Point, h: HartState)
    requires core.Valid() && v.Valid() && v.hartsel < 1024 && At(core, p, h) && (p.LoopFlag? || p.LoopFlag2?)
    ensures Refines(core, v, p, h)
  {
    hide Exec, FlagOf;
    PollReads(core, v, h);
    match p case LoopFlag => case LoopFlag2 =>
  }

  lemma MaskRefines(core: Core, v: View, p: Point, h: HartState)
    requires core.Valid() && v.Valid() && At(core, p, h) && (p.LoopAnd? || p.LoopAnd2?)
    ensures Refines(core, v, p, h)
  {
    hide LoadBytes, BitAnd, StoreTo, ToBytes, FlagOf, WindowOffset, LoadValue, FloatValue;
    AndBits(h.x[S0]);
    match p case LoopAnd => case LoopAnd2 =>
  }

  lemma HaltRefines(core: Core, v: View, p: Point, h: HartState)
    requires core.Valid() && v.Valid() && At(core, p, h) && p.LoopHalt?
    ensures Refines(core, v, p, h)
  {
    ControlOffset(core, h);
  }

  lemma ResumingRefines(core: Core, v: View, p: Point, h: HartState)
    requires core.Valid() && v.Valid() && At(core, p, h) && p.ResStore?
    ensures Refines(core, v, p, h)
  {
    hide LoadBytes, BitAnd, FlagOf, WindowOffset, ToBytes, LoadValue, FloatValue, ReadCsr, WriteCsr,
      Signed12, Signed13, Signed21;
    ControlOffset(core, h);
  }

  lemma GoingRefines(core: Core, v: View, p: Point, h: HartState)
    requires core.Valid() && v.Valid() && At(core, p, h) && p.GoStore?
    ensures Refines(core, v, p, h)
  {
    ControlOffset(core, h);
  }

  lemma ExceptionRefines(core: Core, v: View, p: Point, h: HartState)
    requires core.Valid() && v.Valid() && At(core, p, h) && p.ExcStore?
    ensures Refines(core, v, p, h)
  {
    ControlOffset(core, h);
  }

  lemma PointRefines(core: Core, v: View, p: Point, h: HartState)
    requires core.Valid() && v.Valid() && v.hartsel < 1024 && At(core, p, h)
    ensures Refines(core, v, p, h)
  {
    hide Refines, At;
    match p
    case EntryVec | LoopBack => JumpRefines(core, v, p, h);
    case ResVec | ExcVec => VectorRefines(core, v, p, h);
    case LoopGo | LoopResume | GoJump => BranchRefines(core, v, p, h);
    case EntryFence | SaveS0 | SaveA0 => SaveRefines(core, v, p, h);
    case LoopId | LoopId2 | ResId => IdRefines(core, v, p, h);
    case Base1 | Exc1 => AuipcRefines(core, v, p, h);
    case Base2 | Exc2 => ShiftDownRefines(core, v, p, h);
    case Base3 | Exc3 => ShiftUpRefines(core, v, p, h);
    case LoopAdd | LoopAdd2 => AddRefines(core, v, p, h);
    case ExcA0 | GoA0 | ResA0 => RestoreA0Refines(core, v, p, h);
    case GoS0 | ResS0 => RestoreS0Refines(core, v, p, h);
    case ExcS0 => RestoreInExcRefines(core, v, p, h);
    case ExcBreak | ResDret => LeaveRefines(core, v, p, h);
    case LoopFlag | LoopFlag2 => PollRefines(core, v, p, h);
    case LoopAnd | LoopAnd2 => MaskRefines(core, v, p, h);
    case LoopHalt => HaltRefines(core, v, p, h);
    case ResStore => ResumingRefines(core, v, p, h);
    case GoStore => GoingRefines(core, v, p, h);
    case ExcStore => ExceptionRefines(core, v, p, h);
  }

  /** One instruction of a hart inside the ROM, fetched from the real image. */
  lemma RomStep(core: Core, v: View, p: Point, h: HartState)
    requires core.Valid() && v.Valid() && v.hartsel < 1024 && At(core, p, h)
    ensures Exec(core, v, h, Decode(Fetch(core, v, h.pc))) == Next(Effect(core, v, p, h), StoreAt(p, h))
  {
    FetchAt(core, v, p);
    PointRefines(core, v, p, h);
  }

  /** Inside the ROM the register facts carry over to the next point, and the hart's logical registers
      never change. */
  lemma RomKeeps(core: Core, v: View, p: Point, h: HartState)
    requires core.Valid() && At(core, p, h) && !p.GoJump? && !p.ResDret?
    ensures At(core, Succ(core.Snd(), p, Taken(p, h)), Effect(core, v, p, h))
    ensures LogicalAt(core, Succ(core.Snd(), p, Taken(p, h)), Effect(core, v, p, h)) == LogicalAt(core, p, h)
  {
    ScratchCarries(core, v, p, h);
    if Restores(p) {
      RestoringKeeps(core, v, p, h);
    } else {
      BorrowingKeeps(core, v, p, h);
    }
  }

  lemma ScratchCarries(core: Core, v: View, p: Point, h: HartState)
    requires core.Valid() && At(core, p, h) && !p.GoJump? && !p.ResDret?
    ensures Scratch(core, Succ(core.Snd(), p, Taken(p, h)), Effect(core, v, p, h))
  {
    hide Scratch, Effect, Succ;
    if InLoop(p) { LoopScratch(core, v, p, h); } else { PathScratch(core, v, p, h); }
  }

  predicate InLoop(p: Point) {
    (p.LoopHalt? || p.LoopAdd? || p.LoopFlag? || p.LoopAnd? || p.LoopGo? || p.LoopId2? || p.LoopAdd2? || p.LoopFlag2?
      || p.LoopAnd2? || p.LoopResume? || p.LoopBack?)
  }

  lemma LoopScratch(core: Core, v: View, p: Point, h: HartState)
    requires core.Valid() && At(core, p, h) && InLoop(p)
    ensures Scratch(core, Succ(core.Snd(), p, Taken(p, h)), Effect(core, v, p, h))
  {
  }

  lemma PathScratch(core: Core, v: View, p: Point, h: HartState)
    requires core.Valid() && At(core, p, h) && !InLoop(p) && !p.GoJump? && !p.ResDret?
    ensures Scratch(core, Succ(core.Snd(), p, Taken(p, h)), Effect(core, v, p, h))
  {
  }

  /** Points that move a register into its scratch CSR or back. */
  predicate Restores(p: Point) {
    p.SaveS0? || p.SaveA0? || p.ExcA0? || p.ExcS0? || p.GoA0? || p.GoS0? || p.ResA0? || p.ResS0?
  }

  lemma RestoringKeeps(core: Core, v: View, p: Point, h: HartState)
    requires core.Valid() && At(core, p, h) && Restores(p)
    ensures LogicalAt(core, Succ(core.Snd(), p, Taken(p, h)), Effect(core, v, p, h)) == LogicalAt(core, p, h)
  {
  }

  lemma BorrowingKeeps(core: Core, v: View, p: Point, h: HartState)
    requires core.Valid() && At(core, p, h) && !Restores(p) && !p.GoJump? && !p.ResDret?
    ensures LogicalAt(core, Succ(core.Snd(), p, Taken(p, h)), Effect(core, v, p, h)) == LogicalAt(core, p, h)
  {
    hide Scratch, Index, FlagOf, NextPc, NewX, S0Stashed, A0Stashed;
    OnlyBorrowed(core, v, p, h);
    StashStays(core.Snd(), p, Taken(p, h));
  }

  lemma OnlyBorrowed(core: Core, v: View, p: Point, h: HartState)
    requires Exists(core.Snd(), p) && !Restores(p)
    ensures var x := NewX(core, v, p, h);
            x == h.x || (S0Stashed(p) && x == h.x[S0 := x[S0]])
            || (core.Snd() && A0Stashed(p) && x == h.x[A0 := x[A0]])
  {
  }

  lemma StashStays(snd: bool, p: Point, taken: bool)
    requires Exists(snd, p) && !Restores(p) && !p.GoJump? && !p.ResDret?
    ensures S0Stashed(Succ(snd, p, taken)) == S0Stashed(p)
    ensures snd ==> A0Stashed(Succ(snd, p, taken)) == A0Stashed(p)
  {
  }
}
