/**
 The debug module registers (src/dm_csrs.sv): reads and writes from the DMI, the busy and error
 discipline of abstract commands and of the system bus, autoexec, and run-control requests.
 One call of Tick is one clock edge.
 */
module DmCsrs {
  import opened Bits
  import opened Bytes
  import opened AbstractCommand
  import opened DmMem
  import Haltsum

  // register addresses
  const DATA0: nat := 0x04
  const DATA1: nat := 0x05
  const DMCONTROL: nat := 0x10
  const DMSTATUS: nat := 0x11
  const HARTINFO: nat := 0x12
  const HALTSUM1: nat := 0x13
  const ABSTRACTCS: nat := 0x16
  const COMMAND: nat := 0x17
  const ABSTRACTAUTO: nat := 0x18
  const NEXTDM: nat := 0x1d
  const PROGBUF0: nat := 0x20
  const HALTSUM2: nat := 0x34
  const HALTSUM3: nat := 0x35
  const SBCS: nat := 0x38
  const SBADDRESS0: nat := 0x39
  const SBADDRESS1: nat := 0x3a
  const SBDATA0: nat := 0x3c
  const SBDATA1: nat := 0x3d
  const HALTSUM0: nat := 0x40

  datatype Op = Nop | Read | Write

  datatype Request = Request(op: Op, addr: nat, data: Word)

  datatype Status = Success | Busy

  datatype Response = Response(data: Word, status: Status)

  // ----- words and bytes

  /** The four bytes of a word. */
  function WordBytes(d: Word): (bs: seq<Byte>)
    ensures |bs| == 4
  {
    [ByteOf(d[..8]), ByteOf(d[8..16]), ByteOf(d[16..24]), ByteOf(d[24..])]
  }

  function ByteOf(b: seq<bool>): Byte
    requires |b| == 8
  {
    assert Pow2(3) == 8 && Pow2(5) == 32 && Pow2(8) == 256;
    FromBits(b)
  }

  function BytesWord(bs: seq<Byte>): Word
    requires |bs| == 4
  {
    ToBits(bs[0], 8) + ToBits(bs[1], 8) + ToBits(bs[2], 8) + ToBits(bs[3], 8)
  }

  /** A data register is the little-endian number in its bytes. */
  lemma WordNumber(bs: seq<Byte>)
    requires |bs| == 4
    ensures FromBits(BytesWord(bs)) == FromBytes(bs)
  {
    hide FromBits, ToBits;
    PowersOfTwo();
    var a, b, c, d := ToBits(bs[0], 8), ToBits(bs[1], 8), ToBits(bs[2], 8), ToBits(bs[3], 8);
    assert a + b + c + d == a + (b + (c + d));
    NumberOfFields(a, b + (c + d));
    NumberOfFields(b, c + d);
    NumberOfFields(c, d);
    BitsOfNumber(bs[0], 8);
    BitsOfNumber(bs[1], 8);
    BitsOfNumber(bs[2], 8);
    BitsOfNumber(bs[3], 8);
    FourBytes(bs);
  }

  lemma FourBytes(bs: seq<Byte>)
    requires |bs| == 4
    ensures FromBytes(bs) == bs[0] as nat + 0x100 * bs[1] as nat + 0x1_0000 * bs[2] as nat + 0x100_0000 * bs[3] as nat
  {
    assert bs[1..][1..] == bs[2..] && bs[2..][1..] == bs[3..] && bs[3..][1..] == [];
    assert FromBytes(bs[3..]) == bs[3];
    assert FromBytes(bs[2..]) == bs[2] + 256 * FromBytes(bs[3..]);
    assert FromBytes(bs[1..]) == bs[1] + 256 * FromBytes(bs[2..]);
  }

  const TWO32: nat := 0x1_0000_0000
  const TWO64: nat := 0x1_0000_0000_0000_0000

  function Num(d: Word): (n: nat)
    ensures n < TWO32
  {
    assert Pow2(8) == 0x100 && Pow2(16) == 0x1_0000 && Pow2(24) == 0x100_0000
           && Pow2(28) == 0x1000_0000 && Pow2(32) == TWO32;
    FromBits(d)
  }

  function Num3(b: seq<bool>): (n: nat)
    requires |b| == 3
    ensures n < 8
  {
    FromBits(b)
  }

  /** A 64-bit number with its lower or upper half replaced. */
  function WithLow(a: nat, d: nat): (b: nat)
    requires a < TWO64 && d < TWO32
    ensures b < TWO64
  {
    a / TWO32 * TWO32 + d
  }

  function WithHigh(a: nat, d: nat): (b: nat)
    requires a < TWO64 && d < TWO32
    ensures b < TWO64
  {
    d * TWO32 + a % TWO32
  }

  // ----- run control and abstract commands

  datatype RunRegs = RunRegs(dmactive: bool, ndmreset: bool, haltreq: bool, resumereq: bool, hartsel: nat,
                             cmderr: CmdErr, command: Word, cmdValid: bool, autoexec: Word,
                             progbuf: seq<Word>, data: seq<Byte>, havereset: seq<bool>)
  {
    predicate Valid(p: Params) {
      |progbuf| == 8 && |data| == 8 && |havereset| == p.harts && hartsel < HartselRange(p)
    }
  }

  /** hartsel keeps only the bits needed for the harts there are. */
  function HartselRange(p: Params): (n: nat)
    ensures n > 0
  {
    AlignedFrom(1, p.harts)
  }

  /** What the rest of the module tells the registers in one cycle. */
  datatype RunIn = RunIn(cmdBusy: bool, error: Option<CmdErr>, hartData: Option<seq<Byte>>, resumeack: seq<bool>,
                         resetAck: bool)

  datatype ControlWrite = ControlWrite(haltreq: bool, resumereq: bool, ackhavereset: bool, hartsel: nat,
                                       ndmreset: bool, dmactive: bool)

  function ParseControl(d: Word): ControlWrite {
    ControlWrite(d[31], d[30], d[28], FromBits(d[16..26] + d[6..16]), d[1], d[0])
  }

  predicate IsData(a: nat) { a == DATA0 || a == DATA1 }
  predicate IsProgbuf(a: nat) { PROGBUF0 <= a < PROGBUF0 + 8 }

  /** Accesses refused while a command is executing. */
  predicate Guarded(q: Request) {
    || (!q.op.Nop? && (IsData(q.addr) || IsProgbuf(q.addr)))
    || (q.op.Write? && (q.addr == ABSTRACTCS || q.addr == COMMAND || q.addr == ABSTRACTAUTO))
  }

  /** A guarded access that goes through. */
  predicate Granted(q: Option<Request>, busy: bool) { q.Some? && Guarded(q.value) && !busy }

  predicate Writes(q: Option<Request>, busy: bool, a: nat) {
    Granted(q, busy) && q.value.op.Write? && q.value.addr == a
  }

  /** The dmcontrol write of this cycle; ignored fields are not listed. */
  function ControlWritten(q: Option<Request>): Option<ControlWrite> {
    if q.Some? && q.value.op.Write? && q.value.addr == DMCONTROL then Some(ParseControl(q.value.data)) else None
  }

  /** The implemented bits of abstractauto. */
  function AutoBits(d: Word): Word {
    seq(32, k requires 0 <= k < 32 => d[k] && (k < 2 || 16 <= k < 24))
  }

  /** Whether an access to a data or program-buffer register restarts the command. */
  predicate Autoexecutes(r: RunRegs, q: Request) {
    (IsData(q.addr) && r.autoexec[q.addr - DATA0]) || (IsProgbuf(q.addr) && r.autoexec[16 + (q.addr - PROGBUF0)])
  }

  /** cmderr bits are cleared by writing ones. */
  function ClearError(e: CmdErr, d: Word): CmdErr {
    Err(e.b2 && !d[10], e.b1 && !d[9], e.b0 && !d[8])
  }

  function CmderrNext(r: RunRegs, q: Option<Request>, i: RunIn): CmdErr {
    if i.error.Some? then i.error.value
    else if q.Some? && Guarded(q.value) && i.cmdBusy && r.cmderr == ERR_NONE then ERR_BUSY
    else if Writes(q, i.cmdBusy, ABSTRACTCS) then ClearError(r.cmderr, q.value.data)
    else r.cmderr
  }

  function ProgbufNext(r: RunRegs, q: Option<Request>, busy: bool): (b: seq<Word>)
    requires |r.progbuf| == 8
    ensures |b| == 8
  {
    if Granted(q, busy) && q.value.op.Write? && IsProgbuf(q.value.addr)
    then r.progbuf[q.value.addr - PROGBUF0 := q.value.data] else r.progbuf
  }

  function DataNext(r: RunRegs, q: Option<Request>, i: RunIn): (d: seq<Byte>)
    requires |r.data| == 8 && (i.hartData.Some? ==> |i.hartData.value| == 8)
    ensures |d| == 8
  {
    if i.hartData.Some? then i.hartData.value
    else if Writes(q, i.cmdBusy, DATA0) then WordBytes(q.value.data) + r.data[4..]
    else if Writes(q, i.cmdBusy, DATA1) then r.data[..4] + WordBytes(q.value.data)
    else r.data
  }

  /** Whether this cycle's dmcontrol write raises resumereq, which clears the acknowledgement of the
      hart selected so far. */
  predicate ClearsAck(r: RunRegs, q: Option<Request>) {
    var w := ControlWritten(q);
    !r.resumereq && w.Some? && w.value.resumereq
  }

  predicate AnyBit(s: seq<bool>) { exists h :: 0 <= h < |s| && s[h] }

  function HaveresetNext(p: Params, r: RunRegs, q: Option<Request>, i: RunIn): (v: seq<bool>)
    requires p.Valid() && |r.havereset| == p.harts
    ensures |v| == p.harts
  {
    var w := ControlWritten(q);
    seq(p.harts, h requires 0 <= h < p.harts =>
      p.selectable[h]
      && (i.resetAck || (r.havereset[h] && !(w.Some? && w.value.ackhavereset && h == HartIndex(p, r.hartsel)))))
  }

  function RunNext(p: Params, r: RunRegs, q: Option<Request>, i: RunIn): (s: RunRegs)
    requires p.Valid() && r.Valid(p) && (i.hartData.Some? ==> |i.hartData.value| == 8)
    ensures s.Valid(p)
  {
    var w, g := ControlWritten(q), Granted(q, i.cmdBusy);
    var active := if w.Some? then w.value.dmactive else r.dmactive;
    if !r.dmactive then
      RunReset(p).(dmactive := active, havereset := HaveresetNext(p, r, q, i))
    else
      RunRegs(active,
              if w.Some? then w.value.ndmreset else r.ndmreset,
              if w.Some? then w.value.haltreq else r.haltreq,
              (if w.Some? then w.value.resumereq else r.resumereq) && !(r.resumereq && AnyBit(i.resumeack)),
              if w.Some? then w.value.hartsel % HartselRange(p) else r.hartsel,
              CmderrNext(r, q, i),
              if Writes(q, i.cmdBusy, COMMAND) then q.value.data else r.command,
              g && (q.value.addr == COMMAND || Autoexecutes(r, q.value)),
              if Writes(q, i.cmdBusy, ABSTRACTAUTO) then AutoBits(q.value.data) else r.autoexec,
              ProgbufNext(r, q, i.cmdBusy),
              DataNext(r, q, i),
              HaveresetNext(p, r, q, i))
  }

  /** Whether a command is started does not depend on cmderr, and an error reported by the harts replaces
      whatever cmderr held. */
  lemma CmderrGatesNothing(p: Params, r: RunRegs, q: Option<Request>, i: RunIn, e: CmdErr)
    requires p.Valid() && r.Valid(p) && (i.hartData.Some? ==> |i.hartData.value| == 8)
    ensures var s, t := RunNext(p, r, q, i), RunNext(p, r.(cmderr := e), q, i);
            && t == s.(cmderr := t.cmderr)
            && (r.dmactive && i.error.Some? ==> s.cmderr == i.error.value == t.cmderr)
  {
    hide Guarded, AutoBits, HartselRange, ParseControl;
    var r' := r.(cmderr := e);
    assert ProgbufNext(r', q, i.cmdBusy) == ProgbufNext(r, q, i.cmdBusy) && DataNext(r', q, i) == DataNext(r, q, i);
    assert HaveresetNext(p, r', q, i) == HaveresetNext(p, r, q, i);
    assert q.Some? ==> Autoexecutes(r', q.value) == Autoexecutes(r, q.value);
  }

  function RunReset(p: Params): (r: RunRegs)
    requires p.Valid()
    ensures r.Valid(p)
  {
    RunRegs(false, false, false, false, 0, ERR_NONE, ZERO, false, ZERO,
            seq(8, _ => ZERO), seq(8, _ => 0), seq(p.harts, _ => true))
  }

  /** The run-control inputs of the debug memory. */
  function RequestVector(p: Params, r: RunRegs, on: bool): seq<bool> {
    seq(p.harts, h => on && h == HartIndex(p, r.hartsel))
  }

  // ----- system bus registers

  /** sbdata is kept as its eight bytes; sbcs without its read-only fields. */
  datatype SbRegs = SbRegs(busyError: bool, busyBit: bool, readOnAddr: bool, access: nat, autoIncrement: bool,
                           readOnData: bool, error: nat, addr: nat, data: seq<Byte>)
  {
    predicate Valid() { access < 8 && error < 8 && addr < TWO64 && |data| == 8 }
  }

  /** What the bus master tells the registers in one cycle. */
  datatype SbIn = SbIn(busy: bool, addr: nat, error: Option<nat>, data: Option<seq<Byte>>)
  {
    predicate Valid() {
      addr < TWO64 && (error.Some? ==> error.value < 8) && (data.Some? ==> |data.value| == 8)
    }
  }

  datatype SbcsWrite = SbcsWrite(busyError: bool, readOnAddr: bool, access: nat, autoIncrement: bool,
                                 readOnData: bool, error: bool)

  function ParseSbcs(d: Word): SbcsWrite {
    SbcsWrite(d[22], d[20], Num3(d[17..20]), d[16], d[15], d[12] || d[13] || d[14])
  }

  /** Accesses refused while the bus master is busy or the busy error is held. */
  predicate SbGuarded(q: Request) {
    || (!q.op.Nop? && (q.addr == SBDATA0 || q.addr == SBDATA1))
    || (q.op.Write? && (q.addr == SBADDRESS0 || q.addr == SBADDRESS1))
  }

  predicate SbRefused(s: SbRegs, q: Request, busy: bool) {
    (SbGuarded(q) && (busy || s.busyError)) || (q.op.Write? && q.addr == SBCS && busy)
  }

  predicate SbGranted(s: SbRegs, q: Option<Request>, busy: bool, op: Op, a: nat) {
    q.Some? && q.value.op == op && q.value.addr == a && !SbRefused(s, q.value, busy)
  }

  function SbNext(s: SbRegs, q: Option<Request>, i: SbIn): (t: SbRegs)
    requires s.Valid() && i.Valid()
    ensures t.Valid()
  {
    var c := if SbGranted(s, q, i.busy, Write, SBCS) then Configured(s, ParseSbcs(q.value.data)) else s;
    SbRegs(c.busyError || (q.Some? && SbRefused(s, q.value, i.busy)),
           i.busy,
           c.readOnAddr, c.access, c.autoIncrement, c.readOnData,
           if i.error.Some? then i.error.value else c.error,
           if SbGranted(s, q, i.busy, Write, SBADDRESS0) then WithLow(i.addr, Num(q.value.data))
           else if SbGranted(s, q, i.busy, Write, SBADDRESS1) then WithHigh(i.addr, Num(q.value.data))
           else i.addr,
           if i.data.Some? then i.data.value
           else if SbGranted(s, q, i.busy, Write, SBDATA0) then WordBytes(q.value.data) + s.data[4..]
           else if SbGranted(s, q, i.busy, Write, SBDATA1) then s.data[..4] + WordBytes(q.value.data)
           else s.data)
  }

  /** Writing sbcs: the two error fields are cleared by writing ones. */
  function Configured(s: SbRegs, w: SbcsWrite): (t: SbRegs)
    ensures s.Valid() && w.access < 8 ==> t.Valid()
  {
    s.(busyError := s.busyError && !w.busyError, readOnAddr := w.readOnAddr, access := w.access,
       autoIncrement := w.autoIncrement, readOnData := w.readOnData, error := if w.error then 0 else s.error)
  }

  /** The registers are held in reset while the module is inactive. */
  function SbStep(active: bool, s: SbRegs, q: Option<Request>, i: SbIn): (t: SbRegs)
    requires s.Valid() && i.Valid()
    ensures t.Valid()
  {
    if active then SbNext(s, q, i) else SbReset()
  }

  function SbReset(): (s: SbRegs)
    ensures s.Valid()
  {
    SbRegs(false, false, false, 2, false, false, 0, 0, seq(8, _ => 0))
  }

  // ----- responses

  function Zeros(n: nat): (b: seq<bool>)
    ensures |b| == n
  {
    if n == 0 then [] else [false] + Zeros(n - 1)
  }

  /** What the registers see of the harts and the platform. */
  datatype Observed = Observed(halted: seq<bool>, unavailable: seq<bool>, hartinfo: seq<Word>, nextDm: Word)
  {
    predicate Valid(p: Params) { |halted| == |unavailable| == |hartinfo| == p.harts }
  }

  /** dmstatus: version 2, authenticated, and the state of the selected hart; an unavailable hart is
      neither halted nor running. */
  function StatusWord(halted: bool, unavailable: bool, resumeack: bool, havereset: bool, nonexistent: bool): Word {
    var stopped, running := halted && !unavailable, !halted && !unavailable;
    [false, true, false, false, false, false, false, true, stopped, stopped, running, running,
     unavailable, unavailable, nonexistent, nonexistent, resumeack, resumeack, havereset, havereset,
     false, false, false, false, false, false, false, false, false, false, false, false]
  }

  /** abstractcs: two data registers, eight program-buffer words, busy and cmderr. */
  function AbstractcsWord(busy: bool, e: CmdErr): Word {
    [false, true, false, false, false, false, false, false, e.b0, e.b1, e.b2, false, busy, false, false, false,
     false, false, false, false, false, false, false, false, false, false, false, true, false, false, false, false]
  }

  /** dmcontrol as read back: hartsel in its two halves, the write-only fields zero. */
  function ControlWord(r: RunRegs): Word {
    var h := ToBits(r.hartsel, 20);
    [r.dmactive, r.ndmreset, false, false, false, false] + h[10..] + h[..10]
    + [false, false, false, false, r.resumereq, r.haltreq]
  }

  /** Reading dmcontrol returns what a write has set. */
  lemma ControlReadsBack(r: RunRegs)
    requires r.hartsel < 0x10_0000
    ensures ParseControl(ControlWord(r))
            == ControlWrite(r.haltreq, r.resumereq, false, r.hartsel, r.ndmreset, r.dmactive)
  {
    var h, d := ToBits(r.hartsel, 20), ControlWord(r);
    assert d[16..26] + d[6..16] == h;
    assert Pow2(5) == 32 && Pow2(10) == 0x400 && Pow2(15) == 0x8000 && Pow2(20) == 0x10_0000;
    BitsOfNumber(r.hartsel, 20);
  }

  /** sbcs: version 1, bus width as address size, and the access sizes the bus supports. */
  function SbcsWord(width: nat, s: SbRegs): Word {
    var e, a := ToBits(s.error, 3), ToBits(s.access, 3);
    [true, true, true, width >= 64, false] + ToBits(width, 7) + e + [s.readOnData, s.autoIncrement] + a
    + [s.readOnAddr, s.busyBit, s.busyError, false, false, false, false, false, false, true, false, false]
  }

  predicate Refused(r: RunRegs, s: SbRegs, q: Request, cmdBusy: bool, sbBusy: bool) {
    (Guarded(q) && cmdBusy) || SbRefused(s, q, sbBusy)
  }

  /** The value a read returns; addresses without a register read as zero. */
  function ReadData(p: Params, r: RunRegs, s: SbRegs, a: nat, i: RunIn, o: Observed): Word
    requires p.Valid() && r.Valid(p) && s.Valid() && o.Valid(p)
  {
    var sel := HartIndex(p, r.hartsel);
    if a == DATA0 then BytesWord(r.data[..4])
    else if a == DATA1 then BytesWord(r.data[4..])
    else if IsProgbuf(a) then r.progbuf[a - PROGBUF0]
    else if a == ABSTRACTCS then AbstractcsWord(i.cmdBusy, r.cmderr)
    else if a == ABSTRACTAUTO then r.autoexec
    else if a == DMSTATUS then
      StatusWord(BitAt(o.halted, sel), BitAt(o.unavailable, sel), BitAt(i.resumeack, sel), BitAt(r.havereset, sel),
                 r.hartsel >= p.harts)
    else if a == HARTINFO then if sel < p.harts then o.hartinfo[sel] else Zeros(32)
    else if a == NEXTDM then o.nextDm
    else if a == DMCONTROL then ControlWord(r)
    else if a == HALTSUM0 then Haltsum.Summary0(o.halted, r.hartsel)
    else if a == HALTSUM1 then Haltsum.Summary1(o.halted, r.hartsel)
    else if a == HALTSUM2 then Haltsum.Summary2(o.halted, r.hartsel)
    else if a == HALTSUM3 then Haltsum.Defined(Haltsum.Summary3(o.halted))
    else if a == SBCS then SbcsWord(p.width, s)
    else if a == SBDATA0 then BytesWord(s.data[..4])
    else if a == SBDATA1 then BytesWord(s.data[4..])
    else if a == SBADDRESS0 then ToBits(s.addr % TWO32, 32)
    else if a == SBADDRESS1 then ToBits(s.addr / TWO32, 32)
    else Zeros(32)
  }

  /** The answer to an accepted request. */
  function Answer(p: Params, r: RunRegs, s: SbRegs, q: Request, i: RunIn, o: Observed, sbBusy: bool): Response
    requires p.Valid() && r.Valid(p) && s.Valid() && o.Valid(p)
  {
    var value := if q.op.Read? && !SbRefused(s, q, sbBusy) then ReadData(p, r, s, q.addr, i, o) else Zeros(32);
    Response(value, if Refused(r, s, q, i.cmdBusy, sbBusy) then Busy else Success)
  }

  /** The registers after the request alone. */
  function Requested(p: Params, r: RunRegs, q: Option<Request>, busy: bool): RunRegs
    requires p.Valid() && r.Valid(p)
  {
    var w := ControlWritten(q);
    if q.Some? && Guarded(q.value) then
      r.(cmderr := CmderrNext(r, q, Quiet(busy)),
         command := if Writes(q, busy, COMMAND) then q.value.data else r.command,
         cmdValid := !busy && (q.value.addr == COMMAND || Autoexecutes(r, q.value)),
         autoexec := if Writes(q, busy, ABSTRACTAUTO) then AutoBits(q.value.data) else r.autoexec,
         progbuf := ProgbufNext(r, q, busy),
         data := DataNext(r, q, Quiet(busy)))
    else if w.Some? then
      r.(cmdValid := false, dmactive := w.value.dmactive, ndmreset := w.value.ndmreset, haltreq := w.value.haltreq,
         resumereq := w.value.resumereq, hartsel := w.value.hartsel % HartselRange(p))
    else r.(cmdValid := false)
  }

  /** What the harts, ndmreset and reset then add. */
  function Settled(p: Params, r: RunRegs, t: RunRegs, q: Option<Request>, i: RunIn): RunRegs
    requires p.Valid() && r.Valid(p)
  {
    var havereset := HaveresetNext(p, r, q, i);
    if !r.dmactive then RunReset(p).(dmactive := t.dmactive, havereset := havereset)
    else
      t.(havereset := havereset,
         resumereq := t.resumereq && !(r.resumereq && AnyBit(i.resumeack)),
         cmderr := if i.error.Some? then i.error.value else t.cmderr,
         data := if i.hartData.Some? then i.hartData.value else t.data)
  }

  lemma GuardedSplits(p: Params, r: RunRegs, q: Request, i: RunIn)
    requires p.Valid() && r.Valid(p) && (i.hartData.Some? ==> |i.hartData.value| == 8)
    requires Guarded(q)
    ensures RunNext(p, r, Some(q), i) == Settled(p, r, Requested(p, r, Some(q), i.cmdBusy), Some(q), i)
  {
    hide Guarded, HaveresetNext, AutoBits, HartselRange, RunReset, Autoexecutes,
      CmderrNext, DataNext, ProgbufNext, Writes;
    GuardedRequest(r, q, i);
  }

  lemma ControlSplits(p: Params, r: RunRegs, q: Option<Request>, i: RunIn)
    requires p.Valid() && r.Valid(p) && (i.hartData.Some? ==> |i.hartData.value| == 8)
    requires q.Some? ==> !Guarded(q.value)
    requires ControlWritten(q).Some?
    ensures RunNext(p, r, q, i) == Settled(p, r, Requested(p, r, q, i.cmdBusy), q, i)
  {
    hide Granted, Guarded, HaveresetNext, AutoBits, HartselRange, RunReset, Autoexecutes,
      CmderrNext, DataNext, ProgbufNext, Writes, ControlWritten;
    OtherRequest(r, q, i);
  }

  lemma OtherSplits(p: Params, r: RunRegs, q: Option<Request>, i: RunIn)
    requires p.Valid() && r.Valid(p) && (i.hartData.Some? ==> |i.hartData.value| == 8)
    requires q.Some? ==> !Guarded(q.value)
    requires ControlWritten(q).None?
    ensures RunNext(p, r, q, i) == Settled(p, r, Requested(p, r, q, i.cmdBusy), q, i)
  {
    hide Granted, Guarded, HaveresetNext, AutoBits, HartselRange, RunReset, Autoexecutes,
      CmderrNext, DataNext, ProgbufNext, Writes, ControlWritten;
    OtherRequest(r, q, i);
  }

  /** One step is the request followed by its side effects. */
  lemma StepSplits(p: Params, r: RunRegs, q: Option<Request>, i: RunIn)
    requires p.Valid() && r.Valid(p) && (i.hartData.Some? ==> |i.hartData.value| == 8)
    ensures RunNext(p, r, q, i) == Settled(p, r, Requested(p, r, q, i.cmdBusy), q, i)
  {
    hide RunNext, Settled, Requested;
    if q.Some? && Guarded(q.value) { GuardedSplits(p, r, q.value, i); }
    else if ControlWritten(q).Some? { ControlSplits(p, r, q, i); }
    else { OtherSplits(p, r, q, i); }
  }

  /** A guarded request: news from the harts overrides what it does. */
  lemma GuardedRequest(r: RunRegs, q: Request, i: RunIn)
    requires Guarded(q) && |r.data| == 8 && (i.hartData.Some? ==> |i.hartData.value| == 8)
    ensures ControlWritten(Some(q)).None?
    ensures DataNext(r, Some(q), i)
            == if i.hartData.Some? then i.hartData.value else DataNext(r, Some(q), Quiet(i.cmdBusy))
    ensures CmderrNext(r, Some(q), i)
            == if i.error.Some? then i.error.value else CmderrNext(r, Some(q), Quiet(i.cmdBusy))
  {
    hide WordBytes, ClearError, ParseControl;
  }

  /** Any other request leaves these registers to the harts. */
  lemma OtherRequest(r: RunRegs, q: Option<Request>, i: RunIn)
    requires (q.Some? ==> !Guarded(q.value)) && |r.data| == 8 && |r.progbuf| == 8
    requires i.hartData.Some? ==> |i.hartData.value| == 8
    ensures DataNext(r, q, i) == if i.hartData.Some? then i.hartData.value else r.data
    ensures CmderrNext(r, q, i) == if i.error.Some? then i.error.value else r.cmderr
    ensures ProgbufNext(r, q, i.cmdBusy) == r.progbuf && !Writes(q, i.cmdBusy, COMMAND)
            && !Writes(q, i.cmdBusy, ABSTRACTAUTO)
    ensures !Granted(q, i.cmdBusy)
  {
    hide WordBytes, ClearError;
  }

  // ----- what a debugger reads back

  lemma WordOfBytes(d: Word)
    ensures BytesWord(WordBytes(d)) == d
  {
    hide FromBits, ToBits;
    NumberOfBits(d[..8]);
    NumberOfBits(d[8..16]);
    NumberOfBits(d[16..24]);
    NumberOfBits(d[24..]);
    assert d == d[..8] + d[8..16] + d[16..24] + d[24..];
  }

  /** A data or program-buffer register written while no command runs reads back as written, and all the
      others as before; written while one runs, it is refused and every one of them reads as before. */
  lemma StorageReadsBack(p: Params, r: RunRegs, s: SbRegs, i: RunIn, o: Observed, a: nat, d: Word, b: nat)
    requires p.Valid() && r.Valid(p) && s.Valid() && o.Valid(p) && r.dmactive && i.hartData.None?
    requires (IsData(a) || IsProgbuf(a)) && (IsData(b) || IsProgbuf(b))
    ensures var t := RunNext(p, r, Some(Request(Write, a, d)), i);
            ReadData(p, t, s, b, i, o) == if a == b && !i.cmdBusy then d else ReadData(p, r, s, b, i, o)
  {
    hide BytesWord, WordBytes, ControlWord, SbcsWord, StatusWord, AbstractcsWord, CmderrNext,
      HaveresetNext, ParseControl;
    WordOfBytes(d);
    assert (WordBytes(d) + r.data[4..])[..4] == WordBytes(d) && (WordBytes(d) + r.data[4..])[4..] == r.data[4..];
    assert (r.data[..4] + WordBytes(d))[..4] == r.data[..4] && (r.data[..4] + WordBytes(d))[4..] == WordBytes(d);
  }

  /** Once abstractauto has been written, an access to a data or program-buffer register restarts the
      command exactly if the register's bit was set and no command is running. */
  lemma AutoexecRestarts(p: Params, r: RunRegs, d: Word, i: RunIn, q: Request, j: RunIn)
    requires p.Valid() && r.Valid(p) && r.dmactive && i.hartData.None? && j.hartData.None? && !i.cmdBusy
    requires !q.op.Nop? && (IsData(q.addr) || IsProgbuf(q.addr))
    ensures var s := RunNext(p, r, Some(Request(Write, ABSTRACTAUTO, d)), i);
            RunNext(p, s, Some(q), j).cmdValid
            <==> !j.cmdBusy && d[if IsData(q.addr) then q.addr - DATA0 else 16 + q.addr - PROGBUF0]
  {
    hide CmderrNext, HaveresetNext, ParseControl, WordBytes;
  }

  /** Writing abstractcs back as it was read clears cmderr, whatever it was. */
  lemma CmderrClears(busy: bool, e: CmdErr)
    ensures ClearError(e, AbstractcsWord(busy, e)) == ERR_NONE
    ensures AbstractcsWord(busy, e)[12] == busy
  {
  }

  /** The fields of sbcs as read are those of the registers. */
  lemma SbcsFields(width: nat, s: SbRegs)
    requires s.Valid()
    ensures ParseSbcs(SbcsWord(width, s))
            == SbcsWrite(s.busyError, s.readOnAddr, s.access, s.autoIncrement, s.readOnData, s.error != 0)
  {
    var d, e, a := SbcsWord(width, s), ToBits(s.error, 3), ToBits(s.access, 3);
    assert Pow2(3) == 8;
    assert d[17..20] == a && d[12..15] == e;
    BitsOfNumber(s.access, 3);
    BitsOfNumber(s.error, 3);
    assert e[0] == d[12] && e[1] == d[13] && e[2] == d[14];
    NoneSet(e);
  }

  /** Writing sbcs back as it was read clears both errors and keeps the rest of the configuration. */
  lemma SbcsReadsBack(width: nat, s: SbRegs)
    requires s.Valid()
    ensures Configured(s, ParseSbcs(SbcsWord(width, s))) == s.(busyError := false, error := 0)
  {
    SbcsFields(width, s);
  }

  lemma NoneSet(e: seq<bool>)
    requires |e| == 3
    ensures FromBits(e) == 0 <==> !e[0] && !e[1] && !e[2]
  {
    assert e[1..][1..] == e[2..] && e[2..][1..] == e[3..] == [];
    assert FromBits(e[2..]) == if e[2] then 1 else 0;
    assert FromBits(e[1..]) == (if e[1] then 1 else 0) + 2 * FromBits(e[2..]);
  }

  // ----- the module itself

  class Registers {
    const p: Params
    var run: RunRegs
    var sb: SbRegs
    var responses: seq<Response>

    ghost predicate Valid()
      reads this
    {
      p.Valid() && run.Valid(p) && sb.Valid() && |responses| <= 2
    }

    constructor (p: Params)
      requires p.Valid()
      ensures this.p == p && Valid() && run == RunReset(p) && sb == SbReset() && responses == []
    {
      this.p := p;
      run := RunReset(p);
      sb := SbReset();
      responses := [];
    }

    /** A request is taken while there is room for its response. */
    predicate Ready()
      reads this
    {
      |responses| < 2
    }

    /** A data or program-buffer register, which may restart the command. */
    method AccessStorage(q: Request) returns (r: RunRegs)
      requires Valid() && !q.op.Nop? && (IsData(q.addr) || IsProgbuf(q.addr))
      ensures r == Requested(p, run, Some(q), false)
    {
      hide ParseControl, ClearError, AutoBits, WordBytes, HartselRange;
      r := run.(cmdValid := Autoexecutes(run, q));
      if q.op.Write? {
        if q.addr == DATA0 {
          r := r.(data := WordBytes(q.data) + run.data[4..]);
        } else if q.addr == DATA1 {
          r := r.(data := run.data[..4] + WordBytes(q.data));
        } else {
          r := r.(progbuf := run.progbuf[q.addr - PROGBUF0 := q.data]);
        }
      }
    }

    /** The guarded cases of one request: data, program buffer and abstract command registers. */
    method AccessGuarded(q: Request, busy: bool) returns (r: RunRegs)
      requires Valid() && Guarded(q)
      ensures r == Requested(p, run, Some(q), busy)
    {
      hide ParseControl, ClearError, AutoBits, WordBytes, HartselRange;
      r := run.(cmdValid := false);
      if busy {
        if run.cmderr == ERR_NONE { r := r.(cmderr := ERR_BUSY); }
      } else if q.addr == COMMAND {
        r := r.(cmdValid := true, command := q.data);
      } else if q.addr == ABSTRACTCS {
        r := r.(cmderr := ClearError(run.cmderr, q.data));
      } else if q.addr == ABSTRACTAUTO {
        r := r.(autoexec := AutoBits(q.data));
      } else {
        r := AccessStorage(q);
      }
    }

    /** The system bus cases of one request. */
    method AccessBus(q: Request, b: SbIn) returns (s: SbRegs)
      requires Valid() && b.Valid() && b.error.None? && b.data.None?
      ensures s == SbNext(sb, Some(q), b)
    {
      s := sb.(busyBit := b.busy, addr := b.addr);
      if SbRefused(sb, q, b.busy) {
        s := s.(busyError := true);
      } else if q.op.Write? {
        match q.addr
        case 0x38 => s := Configured(s, ParseSbcs(q.data));
        case 0x39 => s := s.(addr := WithLow(b.addr, Num(q.data)));
        case 0x3a => s := s.(addr := WithHigh(b.addr, Num(q.data)));
        case 0x3c => s := s.(data := WordBytes(q.data) + sb.data[4..]);
        case 0x3d => s := s.(data := sb.data[..4] + WordBytes(q.data));
        case _ =>
      }
    }

    /** dmcontrol, when a request writes it. */
    method AccessControl(w: ControlWrite) returns (r: RunRegs)
      requires Valid()
      ensures r == run.(cmdValid := false, dmactive := w.dmactive, ndmreset := w.ndmreset, haltreq := w.haltreq,
                        resumereq := w.resumereq, hartsel := w.hartsel % HartselRange(p))
    {
      r := run.(cmdValid := false, dmactive := w.dmactive, ndmreset := w.ndmreset, haltreq := w.haltreq,
                resumereq := w.resumereq, hartsel := w.hartsel % HartselRange(p));
    }

    /** What the harts, ndmreset and reset do after the request has been taken. */
    method SideEffects(r: RunRegs, q: Option<Request>, i: RunIn) returns (s: RunRegs)
      requires Valid()
      ensures s == Settled(p, run, r, q, i)
    {
      s := r.(havereset := HaveresetNext(p, run, q, i));
      if run.resumereq && AnyBit(i.resumeack) { s := s.(resumereq := false); }
      if i.error.Some? { s := s.(cmderr := i.error.value); }
      if i.hartData.Some? { s := s.(data := i.hartData.value); }
      if !run.dmactive { s := RunReset(p).(dmactive := s.dmactive, havereset := s.havereset); }
    }

    /** Run-control registers: the request, then hart and dmcontrol side effects, then reset. */
    method RunStep(q: Option<Request>, i: RunIn) returns (r: RunRegs)
      requires Valid() && (i.hartData.Some? ==> |i.hartData.value| == 8)
      ensures r == RunNext(p, run, q, i)
    {
      hide ParseControl, HaveresetNext, HartselRange, Settled, RunNext, CmderrNext, DataNext, ProgbufNext, Writes;
      StepSplits(p, run, q, i);
      r := run.(cmdValid := false);
      var w := ControlWritten(q);
      if q.Some? && Guarded(q.value) {
        r := AccessGuarded(q.value, i.cmdBusy);
      } else if w.Some? {
        r := AccessControl(w.value);
      }
      r := SideEffects(r, q, i);
    }

    /** System bus registers: the request, then the bus results, then reset. */
    method BusStep(q: Option<Request>, b: SbIn) returns (s: SbRegs)
      requires Valid() && b.Valid()
      ensures s == SbStep(run.dmactive, sb, q, b)
    {
      s := sb.(busyBit := b.busy, addr := b.addr);
      if q.Some? { s := AccessBus(q.value, b.(error := None, data := None)); }
      if b.error.Some? { s := s.(error := b.error.value); }
      if b.data.Some? { s := s.(data := b.data.value); }
      if !run.dmactive { s := SbReset(); }
    }

    /** One clock edge. A request is considered only while there is room for its response. */
    method Tick(valid: Option<Request>, pop: bool, flush: bool, i: RunIn, b: SbIn, o: Observed)
      returns (clearAck: bool)
      requires Valid() && b.Valid() && o.Valid(p) && (i.hartData.Some? ==> |i.hartData.value| == 8)
      modifies this
      ensures Valid()
      ensures var q := if old(Ready()) then valid else None;
              && run == RunNext(p, old(run), q, i)
              && sb == SbStep(old(run).dmactive, old(sb), q, b)
              && clearAck == ClearsAck(old(run), q)
              && responses == if flush then [] else
                   (if pop && |old(responses)| > 0 then old(responses)[1..] else old(responses))
                   + (if q.Some? then [Answer(p, old(run), old(sb), q.value, i, o, b.busy)] else [])
    {
      var q := if Ready() then valid else None;
      var queue := if pop && |responses| > 0 then responses[1..] else responses;
      if q.Some? { queue := queue + [Answer(p, run, sb, q.value, i, o, b.busy)]; }
      clearAck := ClearsAck(run, q);
      var r := RunStep(q, i);
      var s := BusStep(q, b);
      responses := if flush then [] else queue;
      run, sb := r, s;
    }
  }

  /** No news from the harts. */
  function Quiet(busy: bool): RunIn { RunIn(busy, None, None, [], false) }
}
