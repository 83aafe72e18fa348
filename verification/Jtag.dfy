/**
 The JTAG debug transport: the TAP controller with its registers (src/dmi_jtag_tap.sv) and the DMI request
 machine behind it (src/dmi_jtag.sv). One call of Tick is one rising edge of TCK.
 */
module Jtag {
  import opened Bits
  import opened Bytes

  type Word5 = b: seq<bool> | |b| == 5 witness seq(5, _ => false)
  type Word7 = b: seq<bool> | |b| == 7 witness seq(7, _ => false)
  type Word41 = b: seq<bool> | |b| == 41 witness seq(41, _ => false)

  function Falses(n: nat): (b: seq<bool>)
    ensures |b| == n
  {
    seq(n, _ => false)
  }

  // ----- TAP controller

  datatype TapState =
    | TestLogicReset | RunTestIdle | SelectDrScan | CaptureDr | ShiftDr | Exit1Dr | PauseDr | Exit2Dr | UpdateDr
    | SelectIrScan | CaptureIr | ShiftIr | Exit1Ir | PauseIr | Exit2Ir | UpdateIr

  function TapNext(s: TapState, tms: bool): TapState {
    match s
    case TestLogicReset => if tms then TestLogicReset else RunTestIdle
    case RunTestIdle => if tms then SelectDrScan else RunTestIdle
    case SelectDrScan => if tms then SelectIrScan else CaptureDr
    case CaptureDr => if tms then Exit1Dr else ShiftDr
    case ShiftDr => if tms then Exit1Dr else ShiftDr
    case Exit1Dr => if tms then UpdateDr else PauseDr
    case PauseDr => if tms then Exit2Dr else PauseDr
    case Exit2Dr => if tms then UpdateDr else ShiftDr
    case UpdateDr => if tms then SelectDrScan else RunTestIdle
    case SelectIrScan => if tms then TestLogicReset else CaptureIr
    case CaptureIr => if tms then Exit1Ir else ShiftIr
    case ShiftIr => if tms then Exit1Ir else ShiftIr
    case Exit1Ir => if tms then UpdateIr else PauseIr
    case PauseIr => if tms then Exit2Ir else PauseIr
    case Exit2Ir => if tms then UpdateIr else ShiftIr
    case UpdateIr => if tms then SelectDrScan else RunTestIdle
  }

  const IDCODE: Word5 := [true, false, false, false, false]
  const DTMCSR: Word5 := [false, false, false, false, true]
  const DMIACCESS: Word5 := [true, false, false, false, true]

  /** The data register the instruction selects. */
  datatype Selected = Idcode | Dtmcs | Dmi | Bypass

  function Select(ir: Word5): Selected {
    if ir == IDCODE then Idcode else if ir == DTMCSR then Dtmcs else if ir == DMIACCESS then Dmi else Bypass
  }

  /** TDI enters at the top; the lowest bit leaves. */
  function ShiftIn(r: seq<bool>, tdi: bool): (t: seq<bool>)
    requires |r| > 0
    ensures |t| == |r|
  {
    r[1..] + [tdi]
  }

  datatype Tap = Tap(state: TapState, irShift: Word5, ir: Word5, idcode: Word, bypass: bool)

  function TapTick(t: Tap, id: Word, tms: bool, tdi: bool): Tap {
    var reset, select := t.state.TestLogicReset?, Select(t.ir);
    Tap(TapNext(t.state, tms),
        if reset then Falses(5)
        else if t.state.CaptureIr? then [true, false, true, false, false]
        else if t.state.ShiftIr? then ShiftIn(t.irShift, tdi)
        else t.irShift,
        if reset then IDCODE else if t.state.UpdateIr? then t.irShift else t.ir,
        if reset then id
        else if select.Idcode? && t.state.ShiftDr? then ShiftIn(t.idcode, tdi)
        else if select.Idcode? && t.state.CaptureDr? then id
        else t.idcode,
        if reset then false
        else if select.Bypass? && t.state.ShiftDr? then tdi
        else if select.Bypass? && t.state.CaptureDr? then false
        else t.bypass)
  }

  // ----- DMI request machine

  datatype Phase = Idle | Read | WaitRead | Write | WaitWrite

  datatype Error = NoError | OpFailed | Busy

  datatype Status = Success | Failed | TooFast | Reserved

  datatype Reply = Reply(data: Word, status: Status)

  datatype Request = Request(write: bool, address: Word7, data: Word)

  datatype Exchange = Exchange(request: Request, reply: Reply)

  /** What the clock-domain crossing shows in one cycle: room for a request, and the answer to the one it
      has taken. */
  datatype Cdc = Cdc(ready: bool, reply: Option<Reply>)

  /** The registers of the request machine, and what has crossed the port so far. */
  datatype Fsm = Fsm(phase: Phase, address: Word7, data: Word, error: Error, sent: seq<Request>, got: seq<Exchange>)

  /** What the TAP does to the request machine in one cycle. */
  datatype Event = Quiet | Capture | UpdateDmi(w: Word41) | UpdateDtmcs(hard: bool, reset: bool) | UpdateOther | Clear

  const DEADBEEF: Word := ToBits(0xDEADBEEF, 32)
  const B051B051: Word := ToBits(0xB051B051, 32)
  const BAADC0DE: Word := ToBits(0xBAADC0DE, 32)

  function OpOf(w: Word41): (bool, bool) { (w[0], w[1]) }
  function DataOf(w: Word41): Word { w[2..34] }
  function AddressOf(w: Word41): Word7 { w[34..] }

  predicate Updates(ev: Event) { ev.UpdateDmi? || ev.UpdateDtmcs? || ev.UpdateOther? }

  predicate Clears(ev: Event) { ev.Clear? || (ev.UpdateDtmcs? && ev.hard) }

  predicate Waiting(p: Phase) { p.WaitRead? || p.WaitWrite? }

  /** An answer arrives. */
  predicate Answered(f: Fsm, c: Cdc) { Waiting(f.phase) && c.reply.Some? }

  /** The busy condition of this cycle. */
  predicate BusyNow(f: Fsm, ev: Event, c: Cdc) {
    || (Answered(f, c) && c.reply.value.status.TooFast?)
    || (Updates(ev) && !f.phase.Idle?)
    || (ev.Capture? && (f.phase.Read? || f.phase.WaitRead?))
  }

  function PhaseNext(f: Fsm, ev: Event, c: Cdc): Phase {
    match f.phase
    case Idle =>
      if !ev.UpdateDmi? || !f.error.NoError? then Idle
      else if OpOf(ev.w) == (true, false) then Read
      else if OpOf(ev.w) == (false, true) then Write
      else Idle
    case Read => if c.ready then WaitRead else Read
    case WaitRead => if c.reply.Some? then Idle else WaitRead
    case Write => if c.ready then WaitWrite else Write
    case WaitWrite => if c.reply.Some? then Idle else WaitWrite
  }

  function DataNext(f: Fsm, ev: Event, c: Cdc): Word {
    if f.phase.Idle? && ev.UpdateDmi? && f.error.NoError? then DataOf(ev.w)
    else if f.phase.WaitRead? && c.reply.Some? then
      match c.reply.value.status
      case Success => c.reply.value.data
      case Failed => DEADBEEF
      case TooFast => B051B051
      case Reserved => BAADC0DE
    else f.data
  }

  function ErrorNext(f: Fsm, ev: Event, c: Cdc): Error {
    if ev.UpdateDtmcs? && ev.reset then NoError
    else if !f.error.NoError? then f.error
    else if Answered(f, c) && c.reply.value.status.Failed? then OpFailed
    else if BusyNow(f, ev, c) then Busy
    else NoError
  }

  /** The request on the port. */
  function Current(f: Fsm): Request { Request(f.phase.Write? || f.phase.WaitWrite?, f.address, f.data) }

  predicate Sends(f: Fsm, c: Cdc) { (f.phase.Read? || f.phase.Write?) && c.ready }

  /** The request machine after a clear; the traffic record is history. */
  function Cleared(f: Fsm): Fsm { Fsm(Idle, Falses(7), Falses(32), NoError, f.sent, f.got) }

  function FsmNext(f: Fsm, ev: Event, c: Cdc): Fsm {
    var sent := if Sends(f, c) then f.sent + [Current(f)] else f.sent;
    var got := if Answered(f, c) then f.got + [Exchange(Current(f), c.reply.value)] else f.got;
    if Clears(ev) then Cleared(f)
    else
      Fsm(PhaseNext(f, ev, c),
          if f.phase.Idle? && ev.UpdateDmi? && f.error.NoError? then AddressOf(ev.w) else f.address,
          DataNext(f, ev, c), ErrorNext(f, ev, c), sent, got)
  }

  /** The DMI shift register: cleared with the machine, loaded by Capture-DR unless a failed operation is
      held, shifted in Shift-DR. */
  function DrNext(dr: Word41, f: Fsm, ev: Event, c: Cdc, select: Selected, shift: bool, tdi: bool): Word41 {
    if Clears(ev) then Falses(41)
    else if !select.Dmi? then dr
    else if shift then ShiftIn(dr, tdi)
    else if !ev.Capture? then dr
    else if f.error.NoError? && !BusyNow(f, ev, c) then [false, false] + f.data + f.address
    else if f.error.Busy? || BusyNow(f, ev, c) then [true, true] + f.data + f.address
    else dr
  }

  // ----- the whole transport module

  datatype Dtm = Dtm(tap: Tap, dtmcs: Word, dr: Word41, fsm: Fsm)

  /** dtmcs as captured: version 1, seven address bits, the error, idle hint 1. */
  function DtmcsCaptured(e: Error): Word {
    [true, false, false, false] + [true, true, true, false, false, false]
    + [e.Busy?, e.Busy? || e.OpFailed?] + [true, false, false] + Falses(17)
  }

  function EventOf(d: Dtm): Event {
    match d.tap.state
    case TestLogicReset => Clear
    case CaptureDr => Capture
    case UpdateDr =>
      if Select(d.tap.ir).Dmi? then UpdateDmi(d.dr)
      else if Select(d.tap.ir).Dtmcs? then UpdateDtmcs(d.dtmcs[17], d.dtmcs[16])
      else UpdateOther
    case _ => Quiet
  }

  function DtmcsNext(d: Dtm, tdi: bool): Word {
    if !Select(d.tap.ir).Dtmcs? then d.dtmcs
    else if d.tap.state.ShiftDr? then ShiftIn(d.dtmcs, tdi)
    else if d.tap.state.CaptureDr? then DtmcsCaptured(d.fsm.error)
    else d.dtmcs
  }

  function DtmTick(d: Dtm, id: Word, tms: bool, tdi: bool, c: Cdc): Dtm {
    var ev := EventOf(d);
    Dtm(TapTick(d.tap, id, tms, tdi), DtmcsNext(d, tdi),
        DrNext(d.dr, d.fsm, ev, c, Select(d.tap.ir), d.tap.state.ShiftDr?, tdi),
        FsmNext(d.fsm, ev, c))
  }

  /** TDO during a cycle: the lowest bit of the register being shifted. */
  function Tdo(d: Dtm): bool {
    if d.tap.state.ShiftIr? then d.tap.irShift[0]
    else match Select(d.tap.ir)
      case Idcode => d.tap.idcode[0]
      case Dtmcs => d.dtmcs[0]
      case Dmi => d.dr[0]
      case Bypass => d.tap.bypass
  }

  /** After a pulse on TRST. */
  function Reset(d: Dtm, id: Word): Dtm {
    Dtm(Tap(TestLogicReset, Falses(5), IDCODE, id, false), Falses(32), Falses(41), Cleared(d.fsm))
  }

  class DmiJtag {
    const id: Word
    var tap: Tap
    var dtmcs: Word
    var dr: Word41
    var fsm: Fsm

    function State(): Dtm
      reads this
    {
      Dtm(tap, dtmcs, dr, fsm)
    }

    /** Power-on reset. */
    constructor (id: Word)
      ensures this.id == id
      ensures State() == Dtm(Tap(TestLogicReset, Falses(5), IDCODE, id, false), Falses(32), Falses(41),
                             Fsm(Idle, Falses(7), Falses(32), NoError, [], []))
    {
      this.id := id;
      tap := Tap(TestLogicReset, Falses(5), IDCODE, id, false);
      dtmcs := Falses(32);
      dr := Falses(41);
      fsm := Fsm(Idle, Falses(7), Falses(32), NoError, [], []);
    }

    /** Asynchronous reset. */
    method Trst()
      modifies this
      ensures State() == Reset(old(State()), id)
    {
      tap := Tap(TestLogicReset, Falses(5), IDCODE, id, false);
      dtmcs := Falses(32);
      dr := Falses(41);
      fsm := Cleared(fsm);
    }

    /** The request machine for one cycle: the state case, then the sticky errors. */
    method RequestMachine(ev: Event, c: Cdc) returns (f: Fsm, busy: bool)
      ensures f == FsmNext(fsm, ev, c)
      ensures !Clears(ev) ==> busy == BusyNow(fsm, ev, c)
    {
      f, busy := fsm, false;
      var failed := false;
      if Clears(ev) {
        f := f.(phase := Idle, data := Falses(32), error := NoError, address := Falses(7));
      } else {
        match fsm.phase {
          case Idle =>
            if ev.UpdateDmi? && fsm.error.NoError? {
              f := f.(address := AddressOf(ev.w), data := DataOf(ev.w));
              if OpOf(ev.w) == (true, false) {
                f := f.(phase := Read);
              } else if OpOf(ev.w) == (false, true) {
                f := f.(phase := Write);
              }
            }
          case Read => if c.ready { f := f.(phase := WaitRead, sent := fsm.sent + [Current(fsm)]); }
          case Write => if c.ready { f := f.(phase := WaitWrite, sent := fsm.sent + [Current(fsm)]); }
          case WaitRead =>
            if c.reply.Some? {
              f := f.(phase := Idle, got := fsm.got + [Exchange(Current(fsm), c.reply.value)]);
              match c.reply.value.status
              case Success => f := f.(data := c.reply.value.data);
              case Failed => f := f.(data := DEADBEEF); failed := true;
              case TooFast => f := f.(data := B051B051); busy := true;
              case Reserved => f := f.(data := BAADC0DE);
            }
          case WaitWrite =>
            if c.reply.Some? {
              f := f.(phase := Idle, got := fsm.got + [Exchange(Current(fsm), c.reply.value)]);
              failed := c.reply.value.status.Failed?;
              busy := c.reply.value.status.TooFast?;
            }
        }
        if Updates(ev) && !fsm.phase.Idle? { busy := true; }
        if ev.Capture? && (fsm.phase.Read? || fsm.phase.WaitRead?) { busy := true; }
        if busy && fsm.error.NoError? { f := f.(error := Busy); }
        if failed && fsm.error.NoError? { f := f.(error := OpFailed); }
        if ev.UpdateDtmcs? && ev.reset { f := f.(error := NoError); }
      }
    }

    /** One rising edge of TCK. */
    method Tick(tms: bool, tdi: bool, c: Cdc) returns (tdo: bool)
      modifies this
      ensures State() == DtmTick(old(State()), id, tms, tdi, c) && tdo == Tdo(old(State()))
    {
      var ev, select, shift := EventOf(State()), Select(tap.ir), tap.state.ShiftDr?;
      tdo := Tdo(State());
      var f, busy := RequestMachine(ev, c);
      var dr', dtmcs' := dr, dtmcs;
      if select.Dtmcs? && tap.state.CaptureDr? { dtmcs' := DtmcsCaptured(fsm.error); }
      if select.Dtmcs? && shift { dtmcs' := ShiftIn(dtmcs, tdi); }
      if Clears(ev) {
        dr' := Falses(41);
      } else {
        if ev.Capture? && select.Dmi? {
          if fsm.error.NoError? && !busy {
            dr' := [false, false] + fsm.data + fsm.address;
          } else if fsm.error.Busy? || busy {
            dr' := [true, true] + fsm.data + fsm.address;
          }
        }
        if shift && select.Dmi? { dr' := ShiftIn(dr, tdi); }
      }
      tap, dtmcs, dr, fsm := TapTick(tap, id, tms, tdi), dtmcs', dr', f;
    }
  }
}
