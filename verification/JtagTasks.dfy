/**
 The pin sequences of the debugger's driver tasks (tb/jtag_dmi/jtag_test.sv) and what each of them does.
 */
module JtagTasks {
  import opened Bits
  import opened Bytes
  import opened Jtag
  import opened JtagScan

  // ----- sequences

  /** Bits on TDI, TMS low except, if last is set, with the last bit. */
  function BitPins(w: seq<bool>, last: bool): (p: seq<Pin>)
    ensures |p| == |w|
  {
    seq(|w|, k requires 0 <= k < |w| => Pin(last && k == |w| - 1, w[k]))
  }

  /** From Run-Test/Idle to Shift-DR. */
  function ToShiftPins(tdi: bool): seq<Pin> { [Pin(true, tdi), Pin(false, tdi), Pin(false, tdi)] }

  /** From Run-Test/Idle to Shift-IR. */
  function ToShiftIrPins(tdi: bool): seq<Pin> { [Pin(true, tdi), Pin(true, tdi), Pin(false, tdi), Pin(false, tdi)] }

  /** From Exit1 through Update to Run-Test/Idle. */
  function UpdatePins(tdi: bool): seq<Pin> { [Pin(true, tdi), Pin(false, tdi)] }

  function LastOf(w: seq<bool>, tdi: bool): bool { if w == [] then tdi else w[|w| - 1] }

  /** A whole instruction scan. */
  function IrPins(ir: Word5, tdi: bool): seq<Pin> { ToShiftIrPins(tdi) + BitPins(ir, true) + UpdatePins(ir[4]) }

  /** A whole data scan. */
  function ScanPins(w: seq<bool>, tdi: bool): seq<Pin> {
    ToShiftPins(tdi) + BitPins(w, true) + UpdatePins(LastOf(w, tdi))
  }

  function IdlePins(n: nat, tdi: bool): (p: seq<Pin>)
    ensures |p| == n
  {
    seq(n, _ => Pin(false, tdi))
  }

  // ----- unrolling short sequences

  lemma DriveOne(env: Crossing, id: Word, t: nat, d: Dtm, a: Pin)
    ensures Drive(env, id, t, d, [a]) == DtmTick(d, id, a.tms, a.tdi, env(t))
    ensures Outputs(env, id, t, d, [a]) == [Tdo(d)]
  {
    assert [a][..0] == [];
  }

  lemma DriveTwo(env: Crossing, id: Word, t: nat, d: Dtm, a: Pin, b: Pin)
    ensures Drive(env, id, t, d, [a, b]) == DtmTick(DtmTick(d, id, a.tms, a.tdi, env(t)), id, b.tms, b.tdi, env(t + 1))
  {
    hide DtmTick;
    DriveOne(env, id, t, d, a);
    assert [a, b][..1] == [a];
  }

  lemma DriveThree(env: Crossing, id: Word, t: nat, d: Dtm, a: Pin, b: Pin, c: Pin)
    ensures Drive(env, id, t, d, [a, b, c])
            == DtmTick(Drive(env, id, t, d, [a, b]), id, c.tms, c.tdi, env(t + 2))
  {
    hide DtmTick;
    assert [a, b, c][..2] == [a, b];
  }

  lemma DriveFour(env: Crossing, id: Word, t: nat, d: Dtm, a: Pin, b: Pin, c: Pin, x: Pin)
    ensures Drive(env, id, t, d, [a, b, c, x])
            == DtmTick(Drive(env, id, t, d, [a, b, c]), id, x.tms, x.tdi, env(t + 3))
  {
    hide DtmTick;
    assert [a, b, c, x][..3] == [a, b, c];
  }

  /** TAP states in which no data register moves. */
  predicate Still(s: TapState) { !s.TestLogicReset? && !s.CaptureDr? && !s.ShiftDr? && !s.UpdateDr? }

  lemma StillTick(d: Dtm, id: Word, pin: Pin, c: Cdc)
    requires Still(d.tap.state)
    ensures var e := DtmTick(d, id, pin.tms, pin.tdi, c);
            && e.tap.state == TapNext(d.tap.state, pin.tms) && e.fsm == FsmNext(d.fsm, Quiet, c)
            && e.dr == d.dr && e.dtmcs == d.dtmcs && e.tap.idcode == d.tap.idcode && e.tap.bypass == d.tap.bypass
            && (!d.tap.state.UpdateIr? ==> e.tap.ir == d.tap.ir)
            && (d.tap.state.UpdateIr? ==> e.tap.ir == d.tap.irShift)
            && (d.tap.state.ShiftIr? ==> e.tap.irShift == ShiftIn(d.tap.irShift, pin.tdi))
            && (!d.tap.state.ShiftIr? && !d.tap.state.CaptureIr? ==> e.tap.irShift == d.tap.irShift)
  {
    hide FsmNext;
  }

  /** Two modules that agree on every data register. */
  predicate SameData(d: Dtm, e: Dtm) {
    e.dr == d.dr && e.dtmcs == d.dtmcs && e.tap.idcode == d.tap.idcode && e.tap.bypass == d.tap.bypass
  }

  // ----- waiting

  lemma {:induction false} IdleWaits(env: Crossing, id: Word, t: nat, d: Dtm, n: nat, tdi: bool)
    requires d.tap.state.RunTestIdle?
    ensures var e := Drive(env, id, t, d, IdlePins(n, tdi));
            && e.tap.state.RunTestIdle? && e.tap.ir == d.tap.ir && SameData(d, e) && e.fsm == Settle(env, t, d.fsm, n)
  {
    hide DtmTick, FsmNext;
    if n > 0 {
      assert IdlePins(n, tdi)[..n - 1] == IdlePins(n - 1, tdi);
      IdleWaits(env, id, t, d, n - 1, tdi);
      StillTick(Drive(env, id, t, d, IdlePins(n - 1, tdi)), id, Pin(false, tdi), env(t + n - 1));
    }
  }

  // ----- the instruction scan

  lemma ToShiftIr(env: Crossing, id: Word, t: nat, d: Dtm, tdi: bool)
    requires d.tap.state.RunTestIdle?
    ensures var e := Drive(env, id, t, d, ToShiftIrPins(tdi));
            && e.tap.state.ShiftIr? && e.tap.ir == d.tap.ir && SameData(d, e) && e.fsm == Settle(env, t, d.fsm, 4)
  {
    hide DtmTick, FsmNext;
    var hi, lo := Pin(true, tdi), Pin(false, tdi);
    DriveTwo(env, id, t, d, hi, hi);
    DriveThree(env, id, t, d, hi, hi, lo);
    DriveFour(env, id, t, d, hi, hi, lo, lo);
    StillTick(d, id, hi, env(t));
    var d1 := DtmTick(d, id, true, tdi, env(t));
    StillTick(d1, id, hi, env(t + 1));
    StillTick(Drive(env, id, t, d, [hi, hi]), id, lo, env(t + 2));
    StillTick(Drive(env, id, t, d, [hi, hi, lo]), id, lo, env(t + 3));
    Settle4(env, t, d.fsm);
  }

  lemma Settle4(env: Crossing, t: nat, f: Fsm)
    ensures Settle(env, t, f, 1) == FsmNext(f, Quiet, env(t))
    ensures Settle(env, t, f, 2) == FsmNext(Settle(env, t, f, 1), Quiet, env(t + 1))
    ensures Settle(env, t, f, 3) == FsmNext(Settle(env, t, f, 2), Quiet, env(t + 2))
    ensures Settle(env, t, f, 4) == FsmNext(Settle(env, t, f, 3), Quiet, env(t + 3))
  {
    hide FsmNext;
    assert Settle(env, t, f, 0) == f;
  }

  /** The first n bits of an instruction, TMS low but for the last of five. */
  lemma {:induction false} IrBits(env: Crossing, id: Word, t: nat, d: Dtm, ir: Word5, n: nat)
    requires d.tap.state.ShiftIr? && n <= 5
    ensures var e := Drive(env, id, t, d, BitPins(ir, true)[..n]);
            && e.tap.state == (if n < 5 then ShiftIr else Exit1Ir) && e.tap.ir == d.tap.ir && SameData(d, e)
            && e.fsm == Settle(env, t, d.fsm, n) && e.tap.irShift == (d.tap.irShift + ir[..n])[n..]
  {
    hide DtmTick, FsmNext;
    if n > 0 {
      assert BitPins(ir, true)[..n][..n - 1] == BitPins(ir, true)[..n - 1];
      IrBits(env, id, t, d, ir, n - 1);
      StillTick(Drive(env, id, t, d, BitPins(ir, true)[..n - 1]), id, BitPins(ir, true)[n - 1], env(t + n - 1));
      QueueStep(d.tap.irShift, ir[..n - 1], ir[n - 1]);
      assert ir[..n - 1] + [ir[n - 1]] == ir[..n];
    }
  }

  lemma UpdateIrPins(env: Crossing, id: Word, t: nat, d: Dtm, tdi: bool)
    requires d.tap.state.Exit1Ir?
    ensures var e := Drive(env, id, t, d, UpdatePins(tdi));
            && e.tap.state.RunTestIdle? && e.tap.ir == d.tap.irShift && SameData(d, e)
            && e.fsm == Settle(env, t, d.fsm, 2)
  {
    hide DtmTick, FsmNext;
    DriveTwo(env, id, t, d, Pin(true, tdi), Pin(false, tdi));
    StillTick(d, id, Pin(true, tdi), env(t));
    StillTick(DtmTick(d, id, true, tdi, env(t)), id, Pin(false, tdi), env(t + 1));
    Settle4(env, t, d.fsm);
  }

  /** An instruction scan from Run-Test/Idle selects the instruction and touches no data register; the
      request machine just goes on. */
  lemma IrScan(env: Crossing, id: Word, t: nat, d: Dtm, ir: Word5, tdi: bool)
    requires d.tap.state.RunTestIdle?
    ensures var e := Drive(env, id, t, d, IrPins(ir, tdi));
            && e.tap.state.RunTestIdle? && e.tap.ir == ir && SameData(d, e) && e.fsm == Settle(env, t, d.fsm, 11)
  {
    hide Drive, FsmNext, Settle;
    var a, b, c := ToShiftIrPins(tdi), BitPins(ir, true), UpdatePins(ir[4]);
    DriveConcat(env, id, t, d, a + b, c);
    DriveConcat(env, id, t, d, a, b);
    ToShiftIr(env, id, t, d, tdi);
    var d1 := Drive(env, id, t, d, a);
    IrBits(env, id, t + 4, d1, ir, 5);
    assert b[..5] == b && ir[..5] == ir && (d1.tap.irShift + ir)[5..] == ir;
    UpdateIrPins(env, id, t + 9, Drive(env, id, t + 4, d1, b), ir[4]);
    SettleMore(env, t, d.fsm, 4, 5);
    SettleMore(env, t, d.fsm, 9, 2);
  }

  // ----- the data scan

  /** What Capture-DR loads into the selected register. */
  function Captured(d: Dtm, id: Word, f: Fsm, c: Cdc): seq<bool> {
    match Select(d.tap.ir)
    case Idcode => id
    case Dtmcs => DtmcsCaptured(f.error)
    case Dmi => DrNext(d.dr, f, Capture, c, Dmi, false, false)
    case Bypass => [false]
  }

  /** What Update-DR tells the request machine after w has been shifted into the selected register. */
  function UpdateOf(ir: Word5, w: seq<bool>): Event {
    if Select(ir).Dmi? && |w| == 41 then UpdateDmi(w)
    else if Select(ir).Dtmcs? && |w| == 32 then UpdateDtmcs(w[17], w[16])
    else UpdateOther
  }

  /** The request machine through a data scan of n bits. */
  function ScanFsm(env: Crossing, t: nat, f: Fsm, n: nat, update: Event): Fsm {
    FsmNext(Settle(env, t + 3, FsmNext(Settle(env, t, f, 2), Capture, env(t + 2)), n + 1), update, env(t + n + 4))
  }

  lemma CaptureTick(d: Dtm, id: Word, pin: Pin, c: Cdc)
    requires d.tap.state.CaptureDr? && !pin.tms
    ensures var e := DtmTick(d, id, pin.tms, pin.tdi, c);
            && e.tap.state.ShiftDr? && OthersKept(d, e) && e.fsm == FsmNext(d.fsm, Capture, c)
            && Register(e) == Captured(d, id, d.fsm, c)
  {
    hide FsmNext, DtmcsCaptured;
  }

  lemma ToShift(env: Crossing, id: Word, t: nat, d: Dtm, tdi: bool)
    requires d.tap.state.RunTestIdle?
    ensures var e := Drive(env, id, t, d, ToShiftPins(tdi));
            && e.tap.state.ShiftDr? && OthersKept(d, e)
            && e.fsm == FsmNext(Settle(env, t, d.fsm, 2), Capture, env(t + 2))
            && Register(e) == Captured(d, id, Settle(env, t, d.fsm, 2), env(t + 2))
  {
    hide DtmTick, FsmNext, DrNext, DtmcsCaptured;
    var hi, lo := Pin(true, tdi), Pin(false, tdi);
    DriveTwo(env, id, t, d, hi, lo);
    DriveThree(env, id, t, d, hi, lo, lo);
    StillTick(d, id, hi, env(t));
    StillTick(DtmTick(d, id, true, tdi, env(t)), id, lo, env(t + 1));
    var e := Drive(env, id, t, d, [hi, lo]);
    CaptureTick(e, id, lo, env(t + 2));
    Settle4(env, t, d.fsm);
  }

  lemma {:induction false} BitPath(w: seq<bool>, k: nat)
    requires k <= |w|
    ensures Path(ShiftDr, BitPins(w, true)[..k]) == if 0 < k == |w| then Exit1Dr else ShiftDr
    ensures BitsIn(ShiftDr, BitPins(w, true)[..k]) == w[..k]
  {
    if k > 0 {
      assert BitPins(w, true)[..k][..k - 1] == BitPins(w, true)[..k - 1];
      BitPath(w, k - 1);
      assert w[..k - 1] + [w[k - 1]] == w[..k];
    }
  }

  lemma {:induction false} AllOut(env: Crossing, id: Word, t: nat, d: Dtm, w: seq<bool>, k: nat)
    requires d.tap.state.ShiftDr? && k <= |w|
    ensures BitsOut(env, id, t, d, BitPins(w, true)[..k]) == Outputs(env, id, t, d, BitPins(w, true)[..k])
  {
    hide Drive, Tdo;
    if k > 0 {
      assert BitPins(w, true)[..k][..k - 1] == BitPins(w, true)[..k - 1];
      AllOut(env, id, t, d, w, k - 1);
      BitPath(w, k - 1);
    }
  }

  /** Shifting bits through the register from Shift-DR to Exit1-DR. */
  lemma ShiftThrough(env: Crossing, id: Word, t: nat, d: Dtm, w: seq<bool>)
    requires d.tap.state.ShiftDr? && |w| > 0
    ensures var e := Drive(env, id, t, d, BitPins(w, true));
            && e.tap.state.Exit1Dr? && OthersKept(d, e) && e.fsm == Settle(env, t, d.fsm, |w|)
            && Register(e) == (Register(d) + w)[|w|..]
            && Outputs(env, id, t, d, BitPins(w, true)) == (Register(d) + w)[..|w|]
  {
    hide Drive, Tdo, Settle, Register, OthersKept, Outputs, BitsOut;
    var p, r := BitPins(w, true), Register(d);
    forall k | 0 <= k < |p| ensures InScan(Path(d.tap.state, p[..k])) { BitPath(w, k); }
    ScanKeeps(env, id, t, d, p);
    ScanIsQueue(env, id, t, d, p);
    BitPath(w, |w|);
    AllOut(env, id, t, d, w, |w|);
    assert p[..|w|] == p && w[..|w|] == w;
  }

  lemma UpdateTick(d: Dtm, id: Word, pin: Pin, c: Cdc)
    requires d.tap.state.UpdateDr? && !pin.tms
    ensures var e := DtmTick(d, id, pin.tms, pin.tdi, c);
            && e.tap.state.RunTestIdle? && e.tap.ir == d.tap.ir
            && e.fsm == FsmNext(d.fsm, UpdateOf(d.tap.ir, Register(d)), c)
            && (!Clears(UpdateOf(d.tap.ir, Register(d))) ==> Register(e) == Register(d) && OthersKept(d, e))
  {
    hide FsmNext;
  }

  lemma ToIdle(env: Crossing, id: Word, t: nat, d: Dtm, tdi: bool)
    requires d.tap.state.Exit1Dr?
    ensures var e := Drive(env, id, t, d, UpdatePins(tdi));
            && e.tap.state.RunTestIdle? && e.tap.ir == d.tap.ir
            && e.fsm == FsmNext(Settle(env, t, d.fsm, 1), UpdateOf(d.tap.ir, Register(d)), env(t + 1))
            && (!Clears(UpdateOf(d.tap.ir, Register(d))) ==> Register(e) == Register(d) && OthersKept(d, e))
  {
    hide DtmTick, FsmNext, UpdateOf;
    DriveTwo(env, id, t, d, Pin(true, tdi), Pin(false, tdi));
    StillTick(d, id, Pin(true, tdi), env(t));
    UpdateTick(DtmTick(d, id, true, tdi, env(t)), id, Pin(false, tdi), env(t + 1));
    Settle4(env, t, d.fsm);
  }

  /** What Capture-DR loads in a scan that starts in cycle t. */
  function CapturedAt(env: Crossing, id: Word, t: nat, d: Dtm): seq<bool> {
    Captured(d, id, Settle(env, t, d.fsm, 2), env(t + 2))
  }

  /** The register after w has been shifted through what was captured. */
  function Pushed(r: seq<bool>, w: seq<bool>): seq<bool> { (r + w)[|w|..] }

  /** A whole data scan from Run-Test/Idle: TDO shows what was captured, and the request machine sees the
      capture, the cycles in between, and the update with what has been shifted in. */
  lemma DataScan(env: Crossing, id: Word, t: nat, d: Dtm, w: seq<bool>, tdi: bool)
    requires d.tap.state.RunTestIdle? && |w| > 0
    ensures var e, r := Drive(env, id, t, d, ScanPins(w, tdi)), CapturedAt(env, id, t, d);
            var update := UpdateOf(d.tap.ir, Pushed(r, w));
            && e.tap.state.RunTestIdle? && e.tap.ir == d.tap.ir && e.fsm == ScanFsm(env, t, d.fsm, |w|, update)
            && (!Clears(update) ==> Register(e) == Pushed(r, w) && OthersKept(d, e))
    ensures Outputs(env, id, t + 3, Drive(env, id, t, d, ToShiftPins(tdi)), BitPins(w, true))
            == (CapturedAt(env, id, t, d) + w)[..|w|]
  {
    hide Drive, FsmNext, Settle, UpdateOf, DrNext, Outputs, DtmcsCaptured;
    var a, b, c := ToShiftPins(tdi), BitPins(w, true), UpdatePins(LastOf(w, tdi));
    DriveConcat(env, id, t, d, a + b, c);
    DriveConcat(env, id, t, d, a, b);
    ToShift(env, id, t, d, tdi);
    var d1 := Drive(env, id, t, d, a);
    ShiftThrough(env, id, t + 3, d1, w);
    var d2 := Drive(env, id, t + 3, d1, b);
    ToIdle(env, id, t + 3 + |w|, d2, LastOf(w, tdi));
    SettleMore(env, t + 3, d1.fsm, |w|, 1);
    KeptTwice(d, d1, d2);
    if !Clears(UpdateOf(d.tap.ir, Register(d2))) { KeptTwice(d, d2, Drive(env, id, t, d, ScanPins(w, tdi))); }
  }

  /** A scan as long as the register replaces and returns all of it. */
  lemma WholeScan(env: Crossing, id: Word, t: nat, d: Dtm, w: seq<bool>)
    requires |w| == |Register(d)|
    ensures Pushed(CapturedAt(env, id, t, d), w) == w
    ensures (CapturedAt(env, id, t, d) + w)[..|w|] == CapturedAt(env, id, t, d)
  {
    hide Settle, DrNext, DtmcsCaptured;
  }
}
