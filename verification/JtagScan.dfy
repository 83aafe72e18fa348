/**
 Driving the JTAG pins: what sequences of TMS and TDI do to the TAP and to the registers behind it.
 */
module JtagScan {
  import opened Bits
  import opened Bytes
  import opened Jtag

  datatype Pin = Pin(tms: bool, tdi: bool)

  /** The crossing, cycle by cycle. */
  type Crossing = nat -> Cdc

  /** The module after a pin sequence that starts in cycle t. */
  function Drive(env: Crossing, id: Word, t: nat, d: Dtm, pins: seq<Pin>): Dtm {
    var n := |pins| - 1;
    if n < 0 then d else DtmTick(Drive(env, id, t, d, pins[..n]), id, pins[n].tms, pins[n].tdi, env(t + n))
  }

  /** What TDO shows in each of those cycles. */
  function Outputs(env: Crossing, id: Word, t: nat, d: Dtm, pins: seq<Pin>): (o: seq<bool>)
    ensures |o| == |pins|
  {
    var n := |pins| - 1;
    if n < 0 then [] else Outputs(env, id, t, d, pins[..n]) + [Tdo(Drive(env, id, t, d, pins[..n]))]
  }

  lemma {:induction false} DriveConcat(env: Crossing, id: Word, t: nat, d: Dtm, p: seq<Pin>, q: seq<Pin>)
    ensures Drive(env, id, t, d, p + q) == Drive(env, id, t + |p|, Drive(env, id, t, d, p), q)
    ensures Outputs(env, id, t, d, p + q)
            == Outputs(env, id, t, d, p) + Outputs(env, id, t + |p|, Drive(env, id, t, d, p), q)
    decreases |q|
  {
    hide DtmTick, Tdo;
    if q == [] {
      assert p + q == p;
    } else {
      var n := |q| - 1;
      assert (p + q)[..|p| + n] == p + q[..n];
      DriveConcat(env, id, t, d, p, q[..n]);
    }
  }

  lemma DriveMore(env: Crossing, id: Word, t: nat, d: Dtm, pins: seq<Pin>, pin: Pin)
    ensures var e := Drive(env, id, t, d, pins);
            && Drive(env, id, t, d, pins + [pin]) == DtmTick(e, id, pin.tms, pin.tdi, env(t + |pins|))
            && Outputs(env, id, t, d, pins + [pin]) == Outputs(env, id, t, d, pins) + [Tdo(e)]
  {
    hide DtmTick, Tdo;
    assert (pins + [pin])[..|pins|] == pins;
  }

  /** The request machine over n cycles in which the TAP leaves it alone. */
  function Settle(env: Crossing, t: nat, f: Fsm, n: nat): Fsm {
    if n == 0 then f else FsmNext(Settle(env, t, f, n - 1), Quiet, env(t + n - 1))
  }

  lemma {:induction false} SettleMore(env: Crossing, t: nat, f: Fsm, m: nat, n: nat)
    ensures Settle(env, t, f, m + n) == Settle(env, t + m, Settle(env, t, f, m), n)
  {
    hide FsmNext;
    if n > 0 { SettleMore(env, t, f, m, n - 1); }
  }

  // ----- a scan is a bit-exact queue

  /** The TAP state after a pin sequence. */
  function Path(s: TapState, pins: seq<Pin>): TapState {
    var n := |pins| - 1;
    if n < 0 then s else TapNext(Path(s, pins[..n]), pins[n].tms)
  }

  /** Between Capture-DR and Update-DR. */
  predicate InScan(s: TapState) { s.ShiftDr? || s.Exit1Dr? || s.PauseDr? || s.Exit2Dr? }

  ghost predicate StaysInScan(s: TapState, pins: seq<Pin>) {
    forall k :: 0 <= k < |pins| ==> InScan(Path(s, pins[..k]))
  }

  /** TDI in the Shift-DR cycles. */
  function BitsIn(s: TapState, pins: seq<Pin>): seq<bool> {
    var n := |pins| - 1;
    if n < 0 then [] else BitsIn(s, pins[..n]) + (if Path(s, pins[..n]).ShiftDr? then [pins[n].tdi] else [])
  }

  /** TDO in the Shift-DR cycles. */
  function BitsOut(env: Crossing, id: Word, t: nat, d: Dtm, pins: seq<Pin>): seq<bool> {
    var n := |pins| - 1;
    if n < 0 then []
    else BitsOut(env, id, t, d, pins[..n])
         + (if Path(d.tap.state, pins[..n]).ShiftDr? then [Tdo(Drive(env, id, t, d, pins[..n]))] else [])
  }

  /** The register between TDI and TDO in a data scan. */
  function Register(d: Dtm): (r: seq<bool>)
    ensures |r| > 0
  {
    match Select(d.tap.ir)
    case Idcode => d.tap.idcode
    case Dtmcs => d.dtmcs
    case Dmi => d.dr
    case Bypass => [d.tap.bypass]
  }

  /** Everything a data scan does not touch: the instruction and the other registers. */
  predicate OthersKept(d: Dtm, e: Dtm) {
    && e.tap.ir == d.tap.ir && e.tap.irShift == d.tap.irShift
    && (!Select(d.tap.ir).Idcode? ==> e.tap.idcode == d.tap.idcode)
    && (!Select(d.tap.ir).Dtmcs? ==> e.dtmcs == d.dtmcs)
    && (!Select(d.tap.ir).Dmi? ==> e.dr == d.dr)
    && (!Select(d.tap.ir).Bypass? ==> e.tap.bypass == d.tap.bypass)
  }

  /** One cycle between Capture-DR and Update-DR. */
  lemma ScanTick(d: Dtm, id: Word, pin: Pin, c: Cdc)
    requires InScan(d.tap.state)
    ensures var e := DtmTick(d, id, pin.tms, pin.tdi, c);
            && e.tap.state == TapNext(d.tap.state, pin.tms) && OthersKept(d, e) && e.fsm == FsmNext(d.fsm, Quiet, c)
            && Register(e) == (if d.tap.state.ShiftDr? then ShiftIn(Register(d), pin.tdi) else Register(d))
            && (d.tap.state.ShiftDr? ==> Tdo(d) == Register(d)[0])
  {
    hide FsmNext;
  }

  lemma ShorterStays(s: TapState, pins: seq<Pin>)
    requires StaysInScan(s, pins) && |pins| > 0
    ensures StaysInScan(s, pins[..|pins| - 1]) && InScan(Path(s, pins[..|pins| - 1]))
  {
    var p := pins[..|pins| - 1];
    forall k | 0 <= k < |p| ensures InScan(Path(s, p[..k])) { assert p[..k] == pins[..k]; }
  }

  /** Where a scan leaves the TAP, the other registers and the request machine. */
  lemma {:induction false} ScanKeeps(env: Crossing, id: Word, t: nat, d: Dtm, pins: seq<Pin>)
    requires StaysInScan(d.tap.state, pins)
    ensures var e := Drive(env, id, t, d, pins);
            e.tap.state == Path(d.tap.state, pins) && OthersKept(d, e) && e.fsm == Settle(env, t, d.fsm, |pins|)
    decreases |pins|
  {
    hide DtmTick, FsmNext, TapNext, Register, OthersKept, StaysInScan, InScan;
    var n := |pins| - 1;
    if n < 0 {
      AllKept(d);
    } else {
      ShorterStays(d.tap.state, pins);
      ScanKeeps(env, id, t, d, pins[..n]);
      var e := Drive(env, id, t, d, pins[..n]);
      ScanTick(e, id, pins[n], env(t + n));
      KeptTwice(d, e, Drive(env, id, t, d, pins));
    }
  }

  /** For every pin sequence between Capture-DR and Update-DR, with any pauses and re-entries: TDO emits the
      first bits of the captured register followed by TDI, and the register holds the last ones. */
  lemma {:induction false} ScanIsQueue(env: Crossing, id: Word, t: nat, d: Dtm, pins: seq<Pin>)
    requires StaysInScan(d.tap.state, pins)
    ensures var b := BitsIn(d.tap.state, pins);
            && Register(Drive(env, id, t, d, pins)) == (Register(d) + b)[|b|..]
            && BitsOut(env, id, t, d, pins) == (Register(d) + b)[..|b|]
    decreases |pins|
  {
    hide DtmTick, FsmNext, Tdo, TapNext, Register, ShiftIn, OthersKept, StaysInScan, InScan, Path;
    var n := |pins| - 1;
    if n >= 0 {
      var p, r, b := pins[..n], Register(d), BitsIn(d.tap.state, pins[..n]);
      var e := Drive(env, id, t, d, p);
      ShorterStays(d.tap.state, pins);
      ScanIsQueue(env, id, t, d, p);
      ScanKeeps(env, id, t, d, p);
      ScanTick(e, id, pins[n], env(t + n));
      if e.tap.state.ShiftDr? {
        QueueStep(r, b, pins[n].tdi);
        assert BitsIn(d.tap.state, pins) == b + [pins[n].tdi];
      } else {
        assert BitsIn(d.tap.state, pins) == b + [] == b;
        assert BitsOut(env, id, t, d, pins) == BitsOut(env, id, t, d, p) + [] == BitsOut(env, id, t, d, p);
      }
    }
  }

  lemma AllKept(d: Dtm)
    ensures OthersKept(d, d)
  {
  }

  lemma KeptTwice(d: Dtm, e: Dtm, f: Dtm)
    requires OthersKept(d, e) && OthersKept(e, f)
    ensures OthersKept(d, f)
  {
  }

  /** One more bit through the queue. */
  lemma QueueStep(r: seq<bool>, b: seq<bool>, x: bool)
    requires |r| > 0
    ensures ShiftIn((r + b)[|b|..], x) == (r + (b + [x]))[|b| + 1..]
    ensures (r + b)[..|b|] + [(r + b)[|b|..][0]] == (r + (b + [x]))[..|b| + 1]
  {
  }

  // ----- reset

  /** Cycles with TMS high until Test-Logic-Reset. */
  function ToReset(s: TapState): nat {
    match s
    case TestLogicReset => 0
    case SelectIrScan => 1
    case SelectDrScan => 2
    case RunTestIdle | UpdateDr | UpdateIr => 3
    case Exit1Dr | Exit2Dr | Exit1Ir | Exit2Ir => 4
    case _ => 5
  }

  lemma HighStep(s: TapState)
    ensures ToReset(TapNext(s, true)) == if s.TestLogicReset? then 0 else ToReset(s) - 1
    ensures ToReset(s) == 0 <==> s.TestLogicReset?
  {
  }

  lemma {:induction false} HighsReset(s: TapState, pins: seq<Pin>)
    requires forall k :: 0 <= k < |pins| ==> pins[k].tms
    ensures ToReset(Path(s, pins)) + |pins| <= ToReset(s) || Path(s, pins).TestLogicReset?
    decreases |pins|
  {
    hide TapNext, ToReset;
    var n := |pins| - 1;
    if n >= 0 {
      HighsReset(s, pins[..n]);
      HighStep(Path(s, pins[..n]));
      HighStep(Path(s, pins));
    }
  }

  /** Six cycles with TMS high, from any state: the TAP is in Test-Logic-Reset with IDCODE selected, the
      request machine is idle and holds no error. */
  lemma SixHighs(env: Crossing, id: Word, t: nat, d: Dtm, pins: seq<Pin>)
    requires |pins| == 6 && forall k :: 0 <= k < 6 ==> pins[k].tms
    ensures var e := Drive(env, id, t, d, pins);
            e.tap.state.TestLogicReset? && e.tap.ir == IDCODE && e.fsm.phase.Idle? && e.fsm.error.NoError?
            && e.dr == Falses(41) && e.tap.idcode == id
  {
    hide DtmTick;
    HighsReset(d.tap.state, pins[..5]);
    PathOfDrive(env, id, t, d, pins[..5]);
    assert ToReset(d.tap.state) <= 5;
    HighStep(Path(d.tap.state, pins[..5]));
    ResetTick(Drive(env, id, t, d, pins[..5]), id, pins[5], env(t + 5));
  }

  lemma ResetTick(d: Dtm, id: Word, pin: Pin, c: Cdc)
    requires d.tap.state.TestLogicReset? && pin.tms
    ensures var e := DtmTick(d, id, pin.tms, pin.tdi, c);
            e.tap.state.TestLogicReset? && e.tap.ir == IDCODE && e.fsm.phase.Idle? && e.fsm.error.NoError?
            && e.dr == Falses(41) && e.tap.idcode == id
  {
  }

  lemma {:induction false} PathOfDrive(env: Crossing, id: Word, t: nat, d: Dtm, pins: seq<Pin>)
    ensures Drive(env, id, t, d, pins).tap.state == Path(d.tap.state, pins)
    decreases |pins|
  {
    hide TapNext;
    if |pins| > 0 { PathOfDrive(env, id, t, d, pins[..|pins| - 1]); }
  }
}
