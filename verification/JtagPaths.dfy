/**
 The less usual ways through the TAP controller: scans that pause, scans without a shift, updates that run
 straight into the next scan, and the instruction column of the controller, which is built like the other.
 */
module JtagPaths {
  import opened Bits
  import opened Bytes
  import opened Jtag
  import opened JtagScan
  import opened JtagTasks
  import opened DmiAnswers

  // ----- the two columns

  predicate InColumn(s: TapState) {
    s.CaptureDr? || s.ShiftDr? || s.Exit1Dr? || s.PauseDr? || s.Exit2Dr? || s.UpdateDr?
  }

  /** The state at the same place in the instruction column. */
  function Across(s: TapState): TapState {
    match s
    case CaptureDr => CaptureIr
    case ShiftDr => ShiftIr
    case Exit1Dr => Exit1Ir
    case PauseDr => PauseIr
    case Exit2Dr => Exit2Ir
    case UpdateDr => UpdateIr
    case _ => s
  }

  /** In the instruction column the controller moves as in the data column. */
  lemma {:induction false} ColumnsAlike(s: TapState, pins: seq<Pin>)
    requires InColumn(s) && forall k :: 0 <= k < |pins| ==> InColumn(Path(s, pins[..k]))
    ensures Path(Across(s), pins) == Across(Path(s, pins))
    decreases |pins|
  {
    var n := |pins| - 1;
    if n >= 0 {
      forall k | 0 <= k < n ensures pins[..n][..k] == pins[..k] { }
      assert InColumn(Path(s, pins[..n]));
      ColumnsAlike(s, pins[..n]);
    }
  }

  // ----- a scan with a pause

  /** From Exit1-DR through a pause of any length back to Shift-DR, with any bits on TDI. */
  function PausePins(tdi: seq<bool>): (p: seq<Pin>)
    requires |tdi| >= 3
    ensures |p| == |tdi|
  {
    seq(|tdi|, k requires 0 <= k < |tdi| => Pin(k == |tdi| - 2, tdi[k]))
  }

  lemma {:induction false} PausePath(tdi: seq<bool>, k: nat)
    requires |tdi| >= 3 && k <= |tdi|
    ensures Path(Exit1Dr, PausePins(tdi)[..k])
            == if k == 0 then Exit1Dr else if k < |tdi| - 1 then PauseDr else if k < |tdi| then Exit2Dr else ShiftDr
    ensures BitsIn(Exit1Dr, PausePins(tdi)[..k]) == []
  {
    if k > 0 {
      assert PausePins(tdi)[..k][..k - 1] == PausePins(tdi)[..k - 1];
      PausePath(tdi, k - 1);
    }
  }

  /** A pause leaves the register as it is and the request machine running. */
  lemma PauseKeeps(env: Crossing, id: Word, t: nat, d: Dtm, tdi: seq<bool>)
    requires d.tap.state.Exit1Dr? && |tdi| >= 3
    ensures var e := Drive(env, id, t, d, PausePins(tdi));
            && e.tap.state.ShiftDr? && OthersKept(d, e) && Register(e) == Register(d)
            && e.fsm == Settle(env, t, d.fsm, |tdi|)
  {
    hide Drive, Tdo, Settle, Register, OthersKept;
    var p := PausePins(tdi);
    forall k | 0 <= k < |p| ensures InScan(Path(d.tap.state, p[..k])) { PausePath(tdi, k); }
    ScanKeeps(env, id, t, d, p);
    ScanIsQueue(env, id, t, d, p);
    PausePath(tdi, |tdi|);
    assert p[..|tdi|] == p && Register(d) + [] == Register(d);
  }

  /** Bits shifted in two parts with a pause between them go through the register as in one. */
  lemma PausedScan(env: Crossing, id: Word, t: nat, d: Dtm, x: seq<bool>, tdi: seq<bool>, y: seq<bool>)
    requires d.tap.state.ShiftDr? && |x| > 0 && |y| > 0 && |tdi| >= 3
    ensures var p, q := BitPins(x, true), PausePins(tdi);
            var m := Drive(env, id, t, d, p + q);
            var e := Drive(env, id, t, d, p + q + BitPins(y, true));
            && e.tap.state.Exit1Dr? && OthersKept(d, e) && e.fsm == Settle(env, t, d.fsm, |x| + |tdi| + |y|)
            && Register(e) == (Register(d) + (x + y))[|x + y|..]
            && Outputs(env, id, t, d, p) + Outputs(env, id, t + |x| + |tdi|, m, BitPins(y, true))
               == (Register(d) + (x + y))[..|x + y|]
  {
    hide Drive, Settle, Register, OthersKept, Outputs;
    var p, q, r := BitPins(x, true), PausePins(tdi), Register(d);
    var d1, m := Drive(env, id, t, d, p), Drive(env, id, t, d, p + q);
    DriveConcat(env, id, t, d, p + q, BitPins(y, true));
    DriveConcat(env, id, t, d, p, q);
    ShiftThrough(env, id, t, d, x);
    PauseKeeps(env, id, t + |x|, d1, tdi);
    ShiftThrough(env, id, t + |x| + |tdi|, m, y);
    SettleMore(env, t, d.fsm, |x|, |tdi|);
    SettleMore(env, t, d.fsm, |x| + |tdi|, |y|);
    KeptTwice(d, d1, m);
    KeptTwice(d, m, Drive(env, id, t, d, p + q + BitPins(y, true)));
    TwoQueues(r, x, y);
  }

  lemma TwoQueues(r: seq<bool>, x: seq<bool>, y: seq<bool>)
    ensures ((r + x)[|x|..] + y)[|y|..] == (r + (x + y))[|x + y|..]
    ensures (r + x)[..|x|] + ((r + x)[|x|..] + y)[..|y|] == (r + (x + y))[..|x + y|]
  {
    var s, n, m := r + (x + y), |x|, |y|;
    assert (r + x)[n..] + y == s[n..] by { Joined(r, x, y); }
    Dropped(s, n, m);
    assert (r + x)[..n] == s[..n] by { Joined(r, x, y); }
  }

  lemma Joined(r: seq<bool>, x: seq<bool>, y: seq<bool>)
    ensures (r + x)[|x|..] + y == (r + (x + y))[|x|..] && (r + x)[..|x|] == (r + (x + y))[..|x|]
  {
    assert (r + x) + y == r + (x + y);
  }

  lemma Dropped(s: seq<bool>, n: nat, m: nat)
    requires n + m <= |s|
    ensures s[n..][m..] == s[n + m..] && s[..n] + s[n..][..m] == s[..n + m]
  {
  }

  // ----- updates

  /** An update takes place whichever way the controller leaves it: to Run-Test/Idle or into the next scan. */
  lemma UpdateEitherWay(d: Dtm, id: Word, pin: Pin, c: Cdc)
    requires d.tap.state.UpdateDr?
    ensures var e := DtmTick(d, id, pin.tms, pin.tdi, c);
            && e.tap.state == (if pin.tms then SelectDrScan else RunTestIdle) && e.tap.ir == d.tap.ir
            && e.fsm == FsmNext(d.fsm, UpdateOf(d.tap.ir, Register(d)), c)
  {
    hide FsmNext;
  }

  /** From a pause the controller reaches the update as well, and from a capture without any shift. */
  lemma WaysToUpdate(a: bool, b: bool)
    ensures Path(PauseDr, [Pin(true, a), Pin(true, b)]) == UpdateDr
    ensures Path(CaptureDr, [Pin(true, a), Pin(true, b)]) == UpdateDr
  {
    var p := [Pin(true, a), Pin(true, b)];
    assert p[..1][..0] == [] && p[..1][0].tms;
    assert Path(PauseDr, p[..1]) == Exit2Dr && Path(CaptureDr, p[..1]) == Exit1Dr;
  }

  /** A scan without a shift updates with what it has captured. */
  lemma EmptyScan(env: Crossing, id: Word, t: nat, d: Dtm, tdi: bool)
    requires d.tap.state.RunTestIdle?
    ensures var hi, lo := Pin(true, tdi), Pin(false, tdi);
            var e := Drive(env, id, t, d, [hi, lo] + ([hi] + UpdatePins(tdi)));
            && e.tap.state.RunTestIdle?
            && e.fsm == FsmNext(Settle(env, t + 3, FsmNext(Settle(env, t, d.fsm, 2), Capture, env(t + 2)), 1),
                                UpdateOf(d.tap.ir, CapturedAt(env, id, t, d)), env(t + 4))
  {
    hide Drive, FsmNext, UpdateOf, Captured, Settle, Register;
    var hi, lo := Pin(true, tdi), Pin(false, tdi);
    DriveConcat(env, id, t, d, [hi, lo], [hi] + UpdatePins(tdi));
    var c := Drive(env, id, t, d, [hi, lo]);
    DriveConcat(env, id, t + 2, c, [hi], UpdatePins(tdi));
    ToCapture(env, id, t, d, tdi);
    DriveOne(env, id, t + 2, c, hi);
    CaptureAndLeave(c, id, hi, env(t + 2));
    ToIdle(env, id, t + 3, Drive(env, id, t + 2, c, [hi]), tdi);
    SameCapture(d, c, id, c.fsm, env(t + 2));
  }

  lemma ToCapture(env: Crossing, id: Word, t: nat, d: Dtm, tdi: bool)
    requires d.tap.state.RunTestIdle?
    ensures var e := Drive(env, id, t, d, [Pin(true, tdi), Pin(false, tdi)]);
            && e.tap.state.CaptureDr? && SameData(d, e) && e.tap.ir == d.tap.ir && e.fsm == Settle(env, t, d.fsm, 2)
  {
    hide DtmTick, FsmNext;
    var hi, lo := Pin(true, tdi), Pin(false, tdi);
    DriveTwo(env, id, t, d, hi, lo);
    StillTick(d, id, hi, env(t));
    StillTick(DtmTick(d, id, true, tdi, env(t)), id, lo, env(t + 1));
    Settle4(env, t, d.fsm);
  }

  lemma SameCapture(d: Dtm, e: Dtm, id: Word, f: Fsm, c: Cdc)
    requires SameData(d, e) && e.tap.ir == d.tap.ir
    ensures Captured(e, id, f, c) == Captured(d, id, f, c)
  {
  }

  lemma CaptureAndLeave(d: Dtm, id: Word, pin: Pin, c: Cdc)
    requires d.tap.state.CaptureDr? && pin.tms
    ensures var e := DtmTick(d, id, pin.tms, pin.tdi, c);
            && e.tap.state.Exit1Dr? && OthersKept(d, e) && e.fsm == FsmNext(d.fsm, Capture, c)
            && Register(e) == Captured(d, id, d.fsm, c)
  {
    hide FsmNext, DtmcsCaptured;
  }

  // ----- codes

  /** IDCODE is instruction 1, dtmcs 0x10 and DMI access 0x11; every other instruction selects BYPASS. */
  lemma InstructionCodes(ir: Word5)
    ensures var n := FromBits(ir);
            && (Select(ir).Idcode? <==> n == 1) && (Select(ir).Dtmcs? <==> n == 0x10)
            && (Select(ir).Dmi? <==> n == 0x11)
  {
    FiveBits(ir);
  }

  lemma FiveBits(b: seq<bool>)
    requires |b| == 5
    ensures FromBits(b) == (if b[0] then 1 else 0) + (if b[1] then 2 else 0) + (if b[2] then 4 else 0)
                           + (if b[3] then 8 else 0) + (if b[4] then 16 else 0)
  {
    assert b[1..][1..] == b[2..] && b[2..][1..] == b[3..] && b[3..][1..] == b[4..] && b[4..][1..] == [];
    assert FromBits(b[4..]) == if b[4] then 1 else 0;
    assert FromBits(b[3..]) == (if b[3] then 1 else 0) + 2 * FromBits(b[4..]);
    assert FromBits(b[2..]) == (if b[2] then 1 else 0) + 2 * FromBits(b[3..]);
    assert FromBits(b[1..]) == (if b[1] then 1 else 0) + 2 * FromBits(b[2..]);
  }

  /** dtmcs as captured: version 1, seven address bits, the error as 3, 2 or 0, and idle hint 1. */
  lemma DtmcsNumber(e: Error)
    ensures FromBits(DtmcsCaptured(e))
            == 1 + 0x10 * 7 + 0x400 * (match e case NoError => 0 case OpFailed => 2 case Busy => 3) + 0x1000
  {
    hide FromBits;
    WordWeights(DtmcsCaptured(e));
  }

  /** Writing dtmcs with dmihardreset, bit 17, clears the request machine whatever it was doing; with dmireset
      alone, bit 16, only the error goes. */
  lemma DtmcsWritten(f: Fsm, w: Word, c: Cdc)
    ensures var g := FsmNext(f, UpdateOf(DTMCSR, w), c);
            && (w[17] ==> g == Fsm(Idle, Falses(7), Falses(32), NoError, f.sent, f.got))
            && (!w[17] && w[16] ==> g == FsmNext(f, Quiet, c).(error := NoError))
            && (!w[17] && !w[16] ==> g == FsmNext(f, UpdateOther, c))
  {
    InstructionCodes(DTMCSR);
  }

  /** With dmihardreset the DMI register is cleared as well. */
  lemma HardResetClears(d: Dtm, id: Word, pin: Pin, c: Cdc)
    requires d.tap.state.UpdateDr? && Select(d.tap.ir).Dtmcs?
    ensures var e := DtmTick(d, id, pin.tms, pin.tdi, c); e.dr == if d.dtmcs[17] then Falses(41) else d.dr
  {
    hide FsmNext;
  }

  /** What an answer leaves behind when no error is held: Busy and Failed their errors, and a read moreover the
      data or a number that says why there are none. */
  lemma AnswerOutcome(f: Fsm, c: Cdc)
    requires Waiting(f.phase) && f.error.NoError? && c.reply.Some?
    ensures var g, status := FsmNext(f, Quiet, c), c.reply.value.status;
            && g.phase.Idle? && g.got == f.got + [Exchange(Current(f), c.reply.value)]
            && (g.error.Busy? <==> status.TooFast?) && (g.error.OpFailed? <==> status.Failed?)
            && (f.phase.WaitWrite? ==> g.data == f.data)
            && (f.phase.WaitRead? ==>
                  if status.Success? then g.data == c.reply.value.data
                  else FromBits(g.data) == if status.Failed? then 0xdead_beef
                                           else if status.TooFast? then 0xb051_b051 else 0xbaad_c0de)
  {
    hide FromBits, ToBits;
    PowersOfTwo();
    BitsOfNumber(0xdead_beef, 32);
    BitsOfNumber(0xb051_b051, 32);
    BitsOfNumber(0xbaad_c0de, 32);
  }

  // ----- the instruction register

  /** The bits an instruction scan shifts out: the number 5 captured, its lowest bits one and zero as the
      standard asks. */
  lemma {:induction false} IrBitsOut(env: Crossing, id: Word, t: nat, d: Dtm, ir: Word5, n: nat)
    requires d.tap.state.ShiftIr? && n <= 5
    ensures Outputs(env, id, t, d, BitPins(ir, true)[..n]) == d.tap.irShift[..n]
  {
    hide DtmTick, FsmNext, Drive;
    if n > 0 {
      assert BitPins(ir, true)[..n][..n - 1] == BitPins(ir, true)[..n - 1];
      IrBitsOut(env, id, t, d, ir, n - 1);
      IrBits(env, id, t, d, ir, n - 1);
      assert (d.tap.irShift + ir[..n - 1])[n - 1..][0] == d.tap.irShift[n - 1];
      assert d.tap.irShift[..n - 1] + [d.tap.irShift[n - 1]] == d.tap.irShift[..n];
    }
  }

  lemma IrScanReads(env: Crossing, id: Word, t: nat, d: Dtm, ir: Word5, tdi: bool)
    requires d.tap.state.RunTestIdle?
    ensures var e := Drive(env, id, t, d, ToShiftIrPins(tdi));
            FromBits(Outputs(env, id, t + 4, e, BitPins(ir, true))) == 5
  {
    hide Drive, Outputs, Settle, FromBits;
    var e := Drive(env, id, t, d, ToShiftIrPins(tdi));
    ToShiftIr(env, id, t, d, tdi);
    IrCaptured(env, id, t, d, tdi);
    IrBitsOut(env, id, t + 4, e, ir, 5);
    assert BitPins(ir, true)[..5] == BitPins(ir, true) && e.tap.irShift[..5] == e.tap.irShift;
    FiveBits(e.tap.irShift);
  }

  lemma IrCaptured(env: Crossing, id: Word, t: nat, d: Dtm, tdi: bool)
    requires d.tap.state.RunTestIdle?
    ensures Drive(env, id, t, d, ToShiftIrPins(tdi)).tap.irShift == [true, false, true, false, false]
  {
    hide DtmTick, FsmNext, Drive;
    var hi, lo := Pin(true, tdi), Pin(false, tdi);
    DriveTwo(env, id, t, d, hi, hi);
    DriveThree(env, id, t, d, hi, hi, lo);
    DriveFour(env, id, t, d, hi, hi, lo, lo);
    StillTick(d, id, hi, env(t));
    StillTick(DtmTick(d, id, true, tdi, env(t)), id, hi, env(t + 1));
    StillTick(Drive(env, id, t, d, [hi, hi]), id, lo, env(t + 2));
    CaptureIrTick(Drive(env, id, t, d, [hi, hi, lo]), id, lo, env(t + 3));
  }

  lemma CaptureIrTick(d: Dtm, id: Word, pin: Pin, c: Cdc)
    requires d.tap.state.CaptureIr? && !pin.tms
    ensures var e := DtmTick(d, id, pin.tms, pin.tdi, c);
            e.tap.state.ShiftIr? && e.tap.irShift == [true, false, true, false, false]
  {
    hide FsmNext;
  }
}
