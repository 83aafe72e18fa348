/**
 The debugger's driver (tb/jtag_dmi/jtag_test.sv): tasks that wiggle the JTAG pins, with a cached copy of
 the selected instruction, wired to the transport module.
 */
module JtagDriver {
  import opened Bits
  import opened Bytes
  import opened Jtag
  import opened JtagScan
  import opened JtagTasks
  import opened JtagDmi

  class Driver {
    const port: DmiJtag
    const env: Crossing
    var tms: bool
    var tdi: bool
    var irSelect: Word5
    var now: nat

    /** Between tasks the TAP is in Run-Test/Idle with TMS low, and the cache is the instruction. */
    ghost predicate Valid()
      reads this, port
    {
      !tms && port.tap.state.RunTestIdle? && port.tap.ir == irSelect
    }

    /** Since cycle t, in which the module was in state d, exactly these pins have been driven. */
    ghost predicate Drove(t: nat, d: Dtm, pins: seq<Pin>)
      reads this, port
    {
      now == t + |pins| && port.State() == Drive(env, port.id, t, d, pins)
    }

    constructor (port: DmiJtag, env: Crossing)
      ensures this.port == port && this.env == env && now == 0 && irSelect == IDCODE
    {
      this.port := port;
      this.env := env;
      tms := false;
      tdi := false;
      irSelect := IDCODE;
      now := 0;
    }

    method Clock() returns (tdo: bool)
      modifies this`now, port
      ensures Drove(old(now), old(port.State()), [Pin(tms, tdi)])
      ensures tdo == Tdo(old(port.State()))
    {
      DriveOne(env, port.id, now, port.State(), Pin(tms, tdi));
      tdo := port.Tick(tms, tdi, env(now));
      now := now + 1;
    }

    method WriteTms(v: bool)
      modifies this`tms, this`now, port
      ensures tms == v && Drove(old(now), old(port.State()), [Pin(v, tdi)])
    {
      tms := v;
      var _ := Clock();
    }

    /** One bit after another, TMS taking its last value with the last bit. */
    method WriteBits(w: seq<bool>, last: bool)
      requires !tms
      modifies this`tms, this`tdi, this`now, port
      ensures !tms && tdi == LastOf(w, old(tdi)) && Drove(old(now), old(port.State()), BitPins(w, last))
    {
      var _ := ReadWriteBits(w, last);
    }

    method ReadWriteBits(w: seq<bool>, last: bool) returns (r: seq<bool>)
      requires !tms
      modifies this`tms, this`tdi, this`now, port
      ensures !tms && tdi == LastOf(w, old(tdi)) && Drove(old(now), old(port.State()), BitPins(w, last))
      ensures r == Outputs(env, port.id, old(now), old(port.State()), BitPins(w, last))
    {
      hide Drive, Outputs, Tdo, DtmTick;
      r := [];
      ghost var p := BitPins(w, last);
      assert p[..0] == [];
      Nothing(env, port.id, now, port.State());
      for i := 0 to |w|
        invariant Drove(old(now), old(port.State()), p[..i])
        invariant r == Outputs(env, port.id, old(now), old(port.State()), p[..i])
        invariant tdi == if i == 0 then old(tdi) else w[i - 1]
        invariant i < |w| ==> !tms
      {
        tdi := w[i];
        if i == |w| - 1 { tms := last; }
        DriveMore(env, port.id, old(now), old(port.State()), p[..i], p[i]);
        DriveOne(env, port.id, now, port.State(), p[i]);
        var bit := Clock();
        r := r + [bit];
        assert p[..i] + [p[i]] == p[..i + 1];
      }
      assert p[..|w|] == p;
      tms := false;
    }

    /** From Run-Test/Idle to Shift-DR. */
    method ShiftDr()
      modifies this`tms, this`now, port
      ensures !tms && Drove(old(now), old(port.State()), ToShiftPins(tdi))
    {
      hide Drive;
      ghost var id, t, d := port.id, now, port.State();
      WriteTms(true);
      WriteTms(false);
      DriveConcat(env, id, t, d, [Pin(true, tdi)], [Pin(false, tdi)]);
      WriteTms(false);
      DriveConcat(env, id, t, d, [Pin(true, tdi)] + [Pin(false, tdi)], [Pin(false, tdi)]);
      assert [Pin(true, tdi)] + [Pin(false, tdi)] + [Pin(false, tdi)] == ToShiftPins(tdi);
    }

    /** From Run-Test/Idle to Shift-IR. */
    method ShiftIr()
      modifies this`tms, this`now, port
      ensures !tms && Drove(old(now), old(port.State()), ToShiftIrPins(tdi))
    {
      hide Drive;
      ghost var id, t, d := port.id, now, port.State();
      ghost var hi, lo := Pin(true, tdi), Pin(false, tdi);
      WriteTms(true);
      WriteTms(true);
      DriveConcat(env, id, t, d, [hi], [hi]);
      WriteTms(false);
      DriveConcat(env, id, t, d, [hi] + [hi], [lo]);
      WriteTms(false);
      DriveConcat(env, id, t, d, [hi] + [hi] + [lo], [lo]);
      assert [hi] + [hi] + [lo] + [lo] == ToShiftIrPins(tdi);
    }

    /** Back to Run-Test/Idle; with exit set, Shift-DR has still to be left. */
    method UpdateDr(exit: bool)
      modifies this`tms, this`now, port
      ensures !tms
      ensures Drove(old(now), old(port.State()), (if exit then [Pin(true, tdi)] else []) + UpdatePins(tdi))
    {
      hide Drive;
      ghost var id, t, d := port.id, now, port.State();
      Nothing(env, id, t, d);
      ghost var p: seq<Pin> := [];
      if exit {
        WriteTms(true);
        p := [Pin(true, tdi)];
      }
      WriteTms(true);
      DriveConcat(env, id, t, d, p, [Pin(true, tdi)]);
      WriteTms(false);
      DriveConcat(env, id, t, d, p + [Pin(true, tdi)], [Pin(false, tdi)]);
      assert p + [Pin(true, tdi)] + [Pin(false, tdi)] == p + UpdatePins(tdi);
    }

    /** Let n cycles pass. */
    method WaitIdle(n: nat)
      requires Valid()
      modifies this`now, port
      ensures Valid() && now == old(now) + n && SameData(old(port.State()), port.State())
      ensures port.fsm == Settle(env, old(now), old(port.fsm), n) && port.dr == old(port.dr)
    {
      hide Drive, Settle, Outputs, DtmTick, Tdo;
      ghost var id, t, d := port.id, now, port.State();
      Nothing(env, id, t, d);
      assert IdlePins(0, tdi) == [];
      for i := 0 to n
        invariant Drove(t, d, IdlePins(i, tdi))
      {
        var _ := Clock();
        DriveConcat(env, id, t, d, IdlePins(i, tdi), [Pin(false, tdi)]);
        assert IdlePins(i, tdi) + [Pin(false, tdi)] == IdlePins(i + 1, tdi);
      }
      IdleWaits(env, id, t, d, n, tdi);
    }

    /** Select an instruction, unless the cache says it is selected already. */
    method SetIr(ir: Word5)
      requires Valid()
      modifies this, port
      ensures Valid() && irSelect == ir && SameData(old(port.State()), port.State())
      ensures now == old(now) + Gap(old(irSelect), ir)
      ensures port.fsm == Settle(env, old(now), old(port.fsm), Gap(old(irSelect), ir))
    {
      hide Drive, Settle, Outputs, Tdo, DtmTick;
      if irSelect == ir {
        assert Settle(env, now, port.fsm, 0) == port.fsm by { SettleNone(env, now, port.fsm); }
        return;
      }
      ghost var id, t, d, hold := port.id, now, port.State(), tdi;
      ShiftIr();
      WriteBits(ir, true);
      DriveConcat(env, id, t, d, ToShiftIrPins(hold), BitPins(ir, true));
      UpdateDr(false);
      assert [] + UpdatePins(tdi) == UpdatePins(ir[4]);
      DriveConcat(env, id, t, d, ToShiftIrPins(hold) + BitPins(ir, true), UpdatePins(ir[4]));
      irSelect := ir;
      IrScan(env, id, t, d, ir, hold);
    }

    /** A data scan of the selected register. */
    method Scan(w: seq<bool>) returns (r: seq<bool>)
      requires Valid() && |w| == |Register(port.State())|
      modifies this`tms, this`tdi, this`now, port
      ensures Valid() && now == old(now) + |w| + 5
      ensures port.fsm == ScanFsm(env, old(now), old(port.fsm), |w|, UpdateOf(irSelect, w))
      ensures !Clears(UpdateOf(irSelect, w)) ==>
                Register(port.State()) == w && OthersKept(old(port.State()), port.State())
      ensures r == CapturedAt(env, port.id, old(now), old(port.State()))
    {
      hide Drive, ScanFsm, UpdateOf, CapturedAt, Pushed, Register, Outputs, Settle;
      ghost var id, t, d, hold := port.id, now, port.State(), tdi;
      ShiftDr();
      r := ReadWriteBits(w, true);
      DriveConcat(env, id, t, d, ToShiftPins(hold), BitPins(w, true));
      UpdateDr(false);
      assert [] + UpdatePins(tdi) == UpdatePins(LastOf(w, hold));
      DriveConcat(env, id, t, d, ToShiftPins(hold) + BitPins(w, true), UpdatePins(LastOf(w, hold)));
      DataScan(env, id, t, d, w, hold);
      WholeScan(env, id, t, d, w);
    }

    // ----- reset

    /** Six cycles with TMS high and one low, from any state. */
    method SoftReset()
      modifies this, port
      ensures Valid() && irSelect == IDCODE && port.fsm == Cleared(port.fsm)
    {
      hide Drive;
      ghost var id, t, d := port.id, now, port.State();
      Nothing(env, id, t, d);
      tms, tdi := true, false;
      ghost var p: seq<Pin> := [];
      for i := 0 to 6
        invariant tms && Drove(t, d, p) && |p| == i && forall k :: 0 <= k < i ==> p[k].tms
      {
        var _ := Clock();
        DriveConcat(env, id, t, d, p, [Pin(true, tdi)]);
        p := p + [Pin(true, tdi)];
      }
      SixHighs(env, id, t, d, p);
      ghost var e, s := port.State(), now;
      tms := false;
      var _ := Clock();
      DriveOne(env, id, s, e, Pin(false, tdi));
      irSelect := IDCODE;
    }

    /** A pulse on TRST, then a soft reset. */
    method ResetMaster()
      modifies this, port
      ensures Valid() && irSelect == IDCODE && port.fsm == Cleared(port.fsm)
    {
      tms, tdi := true, false;
      port.Trst();
      now := now + 2;
      irSelect := IDCODE;
      var _ := Clock();
      SoftReset();
    }

    // ----- tasks of the debugger

    /** IDCODE comes out, whatever was selected before. */
    method GetIdcode() returns (idcode: seq<bool>)
      requires Valid()
      modifies this, port
      ensures Valid() && irSelect == IDCODE && idcode == port.id
    {
      hide Drive, Outputs, Settle, ScanFsm, UpdateOf, Tdo, DtmTick;
      SetIr(IDCODE);
      ghost var id, t, d, hold := port.id, now, port.State(), tdi;
      var zeros := Falses(32);
      ShiftDr();
      ghost var s := port.State();
      idcode := ReadWriteBits(zeros, false);
      ghost var x := tdi;
      ghost var w: seq<bool> := zeros + [x];
      DriveConcat(env, id, t, d, ToShiftPins(hold), BitPins(zeros, false));
      UpdateDr(true);
      DriveConcat(env, id, t, d, ToShiftPins(hold) + BitPins(zeros, false), [Pin(true, x)] + UpdatePins(x));
      assert BitPins(zeros, false) + [Pin(true, x)] == BitPins(w, true);
      assert ToShiftPins(hold) + BitPins(zeros, false) + ([Pin(true, x)] + UpdatePins(x)) == ScanPins(w, hold);
      DataScan(env, id, t, d, w, hold);
      DriveConcat(env, id, t + 3, s, BitPins(zeros, false), [Pin(true, x)]);
      assert (id + w)[..33][..32] == id;
    }

    method WriteDtmcs(data: Word)
      requires Valid()
      modifies this, port
      ensures Valid() && irSelect == DTMCSR && now == old(now) + Gap(old(irSelect), DTMCSR) + 37
      ensures var gap := Gap(old(irSelect), DTMCSR);
              port.fsm == ScanFsm(env, old(now) + gap, Settle(env, old(now), old(port.fsm), gap),
                      32, UpdateDtmcs(data[17], data[16]))
    {
      hide Settle, ScanFsm, CapturedAt;
      SetIr(DTMCSR);
      var _ := Scan(data);
    }

    /** The value returned shows the error held when the register was captured. */
    method ReadDtmcs() returns (data: seq<bool>)
      requires Valid()
      modifies this, port
      ensures Valid() && irSelect == DTMCSR
      ensures var gap := Gap(old(irSelect), DTMCSR);
              var f := Settle(env, old(now), old(port.fsm), gap);
              data == DtmcsCaptured(Settle(env, old(now) + gap, f, 2).error)
              && port.fsm == ScanFsm(env, old(now) + gap, f, 32, UpdateDtmcs(false, false))
    {
      hide Settle, ScanFsm, DtmcsCaptured;
      SetIr(DTMCSR);
      data := Scan(Falses(32));
    }

    /** Clear the sticky error. */
    method ResetDmi()
      requires Valid()
      modifies this, port
      ensures Valid() && irSelect == DTMCSR && now == old(now) + Gap(old(irSelect), DTMCSR) + 37
      ensures var gap := Gap(old(irSelect), DTMCSR);
              port.fsm == ScanFsm(env, old(now) + gap, Settle(env, old(now), old(port.fsm), gap),
                      32, UpdateDtmcs(false, true))
    {
      WriteDtmcs(seq(32, k => k == 16));
    }

    /** Write d to address a: on an idle, error-free module exactly this request is offered, and nothing has
        been sent before it. */
    method WriteDmi(a: Word7, d: Word)
      requires Valid()
      modifies this, port
      ensures Valid() && irSelect == DMIACCESS && now == old(now) + Gap(old(irSelect), DMIACCESS) + 46
      ensures var gap := Gap(old(irSelect), DMIACCESS);
              port.fsm == ScanFsm(env, old(now) + gap, Settle(env, old(now), old(port.fsm), gap),
                      41, UpdateDmi(WriteWord(a, d)))
      ensures old(port.fsm.phase.Idle? && port.fsm.error.NoError?) ==>
                port.fsm == Fsm(Write, a, d, NoError, old(port.fsm.sent), old(port.fsm.got))
    {
      hide Settle, ScanFsm, CapturedAt;
      SetIr(DMIACCESS);
      if old(port.fsm.phase.Idle? && port.fsm.error.NoError?) {
        IdleSettles(env, old(now), old(port.fsm), Gap(old(irSelect), DMIACCESS));
        WriteIssues(env, now, port.fsm, a, d);
      }
      var _ := Scan(WriteWord(a, d));
    }

    /** Read address a: issue the read, wait, read back. Status 0 means that the module has answered this
        read with the data returned. */
    method ReadDmi(a: Word7, wait: nat) returns (data: Word, op: (bool, bool))
      requires Valid()
      modifies this, port
      ensures Valid() && irSelect == DMIACCESS
      ensures var gap := Gap(old(irSelect), DMIACCESS);
              var t, f := old(now) + gap, Settle(env, old(now), old(port.fsm), gap);
              var g := ScanFsm(env, t, f, 41, UpdateDmi(ReadWord(a)));
              && now == t + wait + 92
              && op == OpOf(ReadResult(env, t, f, a, wait)) && data == DataOf(ReadResult(env, t, f, a, wait))
              && port.fsm == ScanFsm(env, t + 46 + wait, Settle(env, t + 46, g, wait), 41, UpdateDmi(NopWord(a)))
      ensures Orderly(env) && op == (false, false) ==> ReadAnswered(old(port.fsm.got), port.fsm.got, a, data)
    {
      hide Settle, ScanFsm, DrNext, Orderly, ReadAnswered, DtmTick, Drive, Outputs, DtmcsCaptured, Tdo, OthersKept;
      SetIr(DMIACCESS);
      ghost var t, f := now, port.fsm;
      var _ := Scan(ReadWord(a));
      WaitIdle(wait);
      var r := Scan(NopWord(a));
      assert r == ReadResult(env, t, f, a, wait);
      data, op := DataOf(r), OpOf(r);
      if op == (false, false) {
        GotGrows(env, old(now), old(port.fsm), Gap(old(irSelect), DMIACCESS));
        if Orderly(env) {
          ReadTask(env, t, f, a, wait);
          MoreAnswered(old(port.fsm.got), f.got, port.fsm.got, a, data);
        }
      }
    }

    /** One round of the backoff loop: clear the error of the round before, then read. */
    method Trial(a: Word7, wait: nat, first: bool, ghost l: nat) returns (data: Word, op: (bool, bool))
      requires Valid() && Prompt(env, l) && !port.fsm.error.OpFailed?
      modifies this, port
      ensures Valid() && irSelect == DMIACCESS && !port.fsm.error.OpFailed? && old(port.fsm.got) <= port.fsm.got
      ensures op == (false, false) || op == (true, true)
      ensures op == (false, false) ==> ReadAnswered(old(port.fsm.got), port.fsm.got, a, data)
      ensures wait >= 2 * l ==> port.fsm.phase.Idle?
      ensures wait >= 2 * l && !first && old(port.fsm.phase.Idle?) ==> op == (false, false)
    {
      hide Settle, ScanFsm, ReadResult, ReadAnswered, Prompt, Orderly, DrNext;
      PromptIsOrderly(env, l);
      if !first {
        ghost var gap := Gap(irSelect, DTMCSR);
        AfterReset(env, now, port.fsm, gap);
        ResetDmi();
      }
      ghost var t0, f0, gap := now, port.fsm, Gap(irSelect, DMIACCESS);
      data, op := ReadDmi(a, wait);
      AfterRead(env, l, t0, f0, gap, a, wait);
      if op == (false, false) { MoreAnswered(old(port.fsm.got), f0.got, port.fsm.got, a, data); }
    }

    /** Read with exponential backoff. If answers come within l cycles and say Success, the loop ends with
        the module's answer to this read, after at most three trials more than it takes to double eight
        cycles up to twice l. */
    method ReadDmiExpBackoff(a: Word7, ghost l: nat) returns (data: Word, trials: nat)
      requires Valid() && Prompt(env, l) && !port.fsm.error.OpFailed?
      modifies this, port
      ensures Valid() && irSelect == DMIACCESS
      ensures ReadAnswered(old(port.fsm.got), port.fsm.got, a, data)
      ensures trials >= 3 ==> 8 * Pow2(trials - 3) < 2 * l
    {
      hide Settle, ScanFsm, ReadResult, ReadAnswered, Prompt, Orderly;
      trials := 0;
      var wait, op := 8, (true, true);
      data := Falses(32);
      while op == (true, true)
        invariant Valid() && !port.fsm.error.OpFailed? && wait == 8 * Pow2(trials)
        invariant old(port.fsm.got) <= port.fsm.got
        invariant trials >= 1 && 8 * Pow2(trials - 1) >= 2 * l ==> port.fsm.phase.Idle?
        invariant op == (true, true) && trials >= 2 ==> 8 * Pow2(trials - 2) < 2 * l
        invariant op != (true, true) ==> trials >= 1 && irSelect == DMIACCESS
        invariant op != (true, true) ==> ReadAnswered(old(port.fsm.got), port.fsm.got, a, data)
        invariant op != (true, true) && trials >= 3 ==> 8 * Pow2(trials - 3) < 2 * l
        decreases 2 * l + 3 - trials, op == (true, true)
      {
        if trials >= 2 { PowerGrows(trials - 2); }
        ghost var before := port.fsm.got;
        data, op := Trial(a, wait, trials == 0, l);
        if op == (false, false) { MoreAnswered(old(port.fsm.got), before, port.fsm.got, a, data); }
        wait := wait * 2;
        trials := trials + 1;
      }
    }
  }

  /** Cycles an instruction change takes. */
  function Gap(was: Word5, ir: Word5): nat { if was == ir then 0 else 11 }

  lemma SettleNone(env: Crossing, t: nat, f: Fsm)
    ensures Settle(env, t, f, 0) == f
  {
  }

  lemma MoreAnswered(before: seq<Exchange>, middle: seq<Exchange>, after: seq<Exchange>, a: Word7, d: Word)
    requires before <= middle && ReadAnswered(middle, after, a, d)
    ensures ReadAnswered(before, after, a, d)
  {
  }

  lemma PromptIsOrderly(env: Crossing, l: nat)
    requires Prompt(env, l)
    ensures Orderly(env)
  {
  }

  lemma Nothing(env: Crossing, id: Word, t: nat, d: Dtm)
    ensures Drive(env, id, t, d, []) == d && Outputs(env, id, t, d, []) == []
  {
  }
}
