/**
 The system bus master (src/dm_sba.sv): request state machine, byte lanes, address increment and error
 reporting. One call of Tick is one clock edge.
 */
module Sba {
  import opened Bytes
  import opened DmCsrs

  datatype BusState = Resting | Reading | Writing | WaitRead | WaitWrite

  /** The three strobes of dm_csrs. */
  datatype Strobes = Strobes(addressWritten: bool, dataRead: bool, dataWritten: bool)

  datatype Return = Return(err: bool, other: bool, rdata: seq<Byte>)

  /** What the bus does in one cycle. */
  datatype BusIn = BusIn(gnt: bool, valid: Option<Return>)
  {
    predicate Valid(w: nat) { valid.Some? ==> |valid.value.rdata| == w / 8 }
  }

  /** A request on the bus; be and wdata hold one entry per byte lane. */
  datatype BusRequest = BusRequest(address: nat, we: bool, be: seq<bool>, wdata: seq<Byte>)

  const ERROR_BUS: nat := 2
  const ERROR_ALIGNMENT: nat := 3
  const ERROR_SIZE: nat := 4
  const ERROR_OTHER: nat := 7

  predicate IsWidth(w: nat) { w == 32 || w == 64 }

  /** Number of addresses on a bus as wide as its addresses. */
  function Addresses(w: nat): (m: nat)
    ensures m == TWO32 || m == TWO64
  {
    if w == 32 then TWO32 else TWO64
  }

  /** Bytes moved by an access of the given size code. */
  function AccessSize(access: nat): (n: nat)
    requires access < 8
    ensures n in {1, 2, 4, 8, 16, 32, 64, 128}
  {
    match access case 0 => 1 case 1 => 2 case 2 => 4 case 3 => 8 case 4 => 16 case 5 => 32 case 6 => 64 case _ => 128
  }

  predicate Supported(w: nat, s: SbRegs)
    requires s.Valid() && IsWidth(w)
  {
    AccessSize(s.access) <= w / 8
  }

  predicate IsAligned(s: SbRegs)
    requires s.Valid()
  {
    s.addr % AccessSize(s.access) == 0
  }

  // ----- byte lanes

  /** Byte lanes enabled for an access; larger sizes than the bus enable none or all of them. */
  predicate LaneOn(w: nat, access: nat, index: nat, k: nat) {
    match access
    case 0 => k == index
    case 1 => k / 2 == index / 2
    case 2 => w == 32 || k / 4 == index / 4
    case 3 => true
    case _ => false
  }

  function ByteEnable(w: nat, s: SbRegs): (be: seq<bool>)
    requires IsWidth(w)
    ensures |be| == w / 8
  {
    seq(w / 8, k requires 0 <= k < w / 8 => LaneOn(w, s.access, s.addr % (w / 8), k))
  }

  /** The first lane of an access. */
  function FirstLane(w: nat, s: SbRegs): (k: nat)
    requires IsWidth(w) && s.Valid()
    ensures k < w / 8
  {
    var index := s.addr % (w / 8);
    match AccessSize(s.access) case 1 => index case 2 => index / 2 * 2 case 4 => index / 4 * 4 case _ => 0
  }

  /** sbdata moved up to the lanes of the access. */
  function ShiftUp(w: nat, data: seq<Byte>, first: nat): (r: seq<Byte>)
    requires IsWidth(w) && |data| == 8 && first < w / 8
    ensures |r| == w / 8
  {
    seq(first, _ => 0) + data[..w / 8 - first]
  }

  /** Read data moved down from its lanes, zero-extended to the sbdata registers. */
  function ShiftDown(rdata: seq<Byte>, first: nat): (r: seq<Byte>)
    requires |rdata| <= 8 && first < |rdata|
    ensures |r| == 8
  {
    rdata[first..] + seq(8 - (|rdata| - first), _ => 0)
  }

  // ----- one cycle

  /** The request on the bus; a build may leave the byte enables off for reads. */
  function RequestOf(w: nat, readEnable: bool, state: BusState, s: SbRegs): Option<BusRequest>
    requires IsWidth(w) && s.Valid()
  {
    if (state.Reading? || state.Writing?) && Supported(w, s) && IsAligned(s) then
      Some(BusRequest(s.addr % Addresses(w), state.Writing?,
                      if state.Writing? || readEnable then ByteEnable(w, s) else seq(w / 8, _ => false),
                      ShiftUp(w, s.data, FirstLane(w, s))))
    else None
  }

  predicate Completes(state: BusState, i: BusIn) { (state.WaitRead? || state.WaitWrite?) && i.valid.Some? }

  function StateNext(w: nat, state: BusState, s: SbRegs, t: Strobes, i: BusIn): BusState
    requires IsWidth(w) && s.Valid()
  {
    if state.Resting? then
      if t.dataRead && s.readOnData then Reading
      else if t.dataWritten then Writing
      else if t.addressWritten && s.readOnAddr then Reading
      else Resting
    else if !Supported(w, s) || !IsAligned(s) || Completes(state, i) then Resting
    else if state.Reading? && i.gnt then WaitRead
    else if state.Writing? && i.gnt then WaitWrite
    else state
  }

  /** What the registers are told: busy, the new address, an error, read data. */
  function Report(w: nat, state: BusState, s: SbRegs, i: BusIn): (r: SbIn)
    requires IsWidth(w) && s.Valid() && i.Valid(w)
    ensures r.Valid()
  {
    var done := Completes(state, i);
    SbIn(!state.Resting?,
         (s.addr % Addresses(w) + (if done && s.autoIncrement then AccessSize(s.access) else 0)) % Addresses(w),
         if !state.Resting? && !IsAligned(s) then Some(ERROR_ALIGNMENT)
         else if !state.Resting? && !Supported(w, s) then Some(ERROR_SIZE)
         else if done && i.valid.value.other then Some(ERROR_OTHER)
         else if done && i.valid.value.err then Some(ERROR_BUS)
         else None,
         if i.valid.Some? then Some(ShiftDown(i.valid.value.rdata, FirstLane(w, s))) else None)
  }

  /** The strobes dm_csrs raises for a request; none while an error is held. */
  function StrobesOf(s: SbRegs, q: Option<Request>, busy: bool): Strobes {
    var ready := s.error == 0;
    Strobes(ready && SbGranted(s, q, busy, Write, SBADDRESS0),
            ready && SbGranted(s, q, busy, Read, SBDATA0),
            ready && SbGranted(s, q, busy, Write, SBDATA0))
  }

  class BusMaster {
    const w: nat
    const readEnable: bool
    var state: BusState

    ghost predicate Valid()
      reads this
    {
      IsWidth(w)
    }

    constructor (w: nat, readEnable: bool)
      requires IsWidth(w)
      ensures this.w == w && this.readEnable == readEnable && Valid() && state == Resting
    {
      this.w := w;
      this.readEnable := readEnable;
      state := Resting;
    }

    /** The byte-enable mask, case by case. */
    method Mask(s: SbRegs) returns (mask: seq<bool>)
      requires Valid() && s.Valid()
      ensures mask == ByteEnable(w, s)
    {
      var n, index := w / 8, s.addr % (w / 8);
      mask := seq(n, _ => false);
      match s.access
      case 0 => mask := mask[index := true];
      case 1 => mask := mask[index / 2 * 2 := true][index / 2 * 2 + 1 := true];
      case 2 => mask := if w == 64 then seq(n, k => k / 4 == index / 4) else seq(n, _ => true);
      case 3 => mask := seq(n, _ => true);
      case _ =>
    }

    /** One clock edge: outputs of this cycle, then the new state. */
    method Tick(s: SbRegs, t: Strobes, i: BusIn) returns (request: Option<BusRequest>, report: SbIn)
      requires Valid() && s.Valid() && i.Valid(w)
      modifies this
      ensures Valid() && state == StateNext(w, old(state), s, t, i)
      ensures request == RequestOf(w, readEnable, old(state), s) && report == Report(w, old(state), s, i)
    {
      var next, req, we, increment := state, false, false, false;
      var error: Option<nat> := None;
      match state {
        case Resting =>
          if t.addressWritten && s.readOnAddr { next := Reading; }
          if t.dataWritten { next := Writing; }
          if t.dataRead && s.readOnData { next := Reading; }
        case Reading => req := true; if i.gnt { next := WaitRead; }
        case Writing => req, we := true, true; if i.gnt { next := WaitWrite; }
        case WaitRead | WaitWrite =>
          if i.valid.Some? {
            next, increment := Resting, s.autoIncrement;
            error := if i.valid.value.other then Some(ERROR_OTHER)
                    else if i.valid.value.err then Some(ERROR_BUS) else None;
          }
      }
      if !state.Resting? && !Supported(w, s) { req, next, error := false, Resting, Some(ERROR_SIZE); }
      if !state.Resting? && !IsAligned(s) { req, next, error := false, Resting, Some(ERROR_ALIGNMENT); }
      var be := Mask(s);
      if !we && !readEnable { be := seq(w / 8, _ => false); }
      var first := FirstLane(w, s);
      request := if req then Some(BusRequest(s.addr % Addresses(w), we, be, ShiftUp(w, s.data, first))) else None;
      report := SbIn(!state.Resting?,
                     (s.addr % Addresses(w) + (if increment then AccessSize(s.access) else 0)) % Addresses(w),
                     error,
                     if i.valid.Some? then Some(ShiftDown(i.valid.value.rdata, first)) else None);
      state := next;
    }
  }
}
