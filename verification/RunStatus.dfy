/**
 dmstatus tells history: the halted and resumeack bits against the stores the harts have made.
 */
module RunStatus {
  import opened Bits
  import opened Bytes
  import opened Hart
  import opened ParkLoop
  import opened DmMem
  import opened DmCsrs
  import opened RunControl
  import opened RunInvariant
  import opened RunSafety
  import opened RunTheorems

  /** In this tick hart i stores to the control register reg. */
  ghost predicate Reports(e: Env, s: Sys, inp: Input, i: nat, reg: nat)
    requires Shape(e, s) && Enabled(e, s, inp.actor)
  {
    !s.regs.ndmreset && !inp.actor.Nobody? && inp.actor.hart == i && Hits(Act(e, s, inp.actor).bus, reg)
  }

  /** The last of hart i's HALTED and RESUMING stores in the first k ticks, since the hart was last
      reset, was HALTED. */
  ghost predicate LastSaidHalted(e: Env, ss: seq<Sys>, ins: seq<Input>, i: nat, k: nat)
    requires Trace(e, ss, ins) && k <= |ins|
    decreases k
  {
    k > 0 && Linked(e, ss, ins, k - 1) && !ss[k - 1].regs.ndmreset
    && (Reports(e, ss[k - 1], ins[k - 1], i, HALTED)
        || (!Reports(e, ss[k - 1], ins[k - 1], i, RESUMING) && LastSaidHalted(e, ss, ins, i, k - 1)))
  }

  /** One tick of the two status bits. */
  lemma StatusTick(e: Env, s: Sys, inp: Input, t: Sys, i: nat)
    requires Inv(e, s) && Step(e, s, inp, t) && i < e.p.harts && e.p.selectable[i]
    ensures |t.ctl.halted| == |t.ctl.resuming| == e.p.harts
    ensures t.ctl.halted[i] <==>
              !s.regs.ndmreset
              && (Reports(e, s, inp, i, HALTED) || (!Reports(e, s, inp, i, RESUMING) && s.ctl.halted[i]))
    ensures t.ctl.resuming[i] <==>
              !s.regs.ndmreset
              && (Reports(e, s, inp, i, RESUMING)
                  || (!(ClearsAck(s.regs, inp.req) && i == Sel(e, s)) && s.ctl.resuming[i]))
  {
    hide LocalOk;
    if !s.regs.ndmreset && !inp.actor.Nobody? { ActorMarks(e, s, inp.actor); }
  }

  /** A hart is shown as halted exactly when its last HALTED or RESUMING store was HALTED. */
  lemma {:induction false} HaltedIsHistory(e: Env, ss: seq<Sys>, ins: seq<Input>, i: nat, k: nat)
    requires Trace(e, ss, ins) && k <= |ins| && Start(e, ss[0]) && i < e.p.harts && e.p.selectable[i]
    ensures |ss[k].ctl.halted| == e.p.harts && (ss[k].ctl.halted[i] <==> LastSaidHalted(e, ss, ins, i, k))
  {
    hide Inv, Tick, Disciplined, Enabled, Reports;
    if k > 0 {
      HaltedIsHistory(e, ss, ins, i, k - 1);
      Always(e, ss, ins, k - 1);
      assert Linked(e, ss, ins, k - 1);
      StatusTick(e, ss[k - 1], ins[k - 1], ss[k], i);
    }
  }

  /** Hart i stores to RESUMING in one of the ticks from a up to, not including, b. */
  ghost predicate HasResumed(e: Env, ss: seq<Sys>, ins: seq<Input>, i: nat, a: nat, b: nat)
    requires Trace(e, ss, ins) && b <= |ins|
  {
    exists m :: a <= m < b && Linked(e, ss, ins, m) && Reports(e, ss[m], ins[m], i, RESUMING)
  }

  /** Once a dmcontrol write has raised resumereq for the selected hart, that hart's resumeack reads one
      only if it has resumed since. */
  lemma {:induction false} ResumeackIsFresh(e: Env, ss: seq<Sys>, ins: seq<Input>, i: nat, a: nat, b: nat)
    requires Trace(e, ss, ins) && a < b <= |ins| && Inv(e, ss[a])
    requires i == Sel(e, ss[a]) && i < e.p.harts && e.p.selectable[i] && ClearsAck(ss[a].regs, ins[a].req)
    ensures |ss[b].ctl.resuming| == e.p.harts
    ensures ss[b].ctl.resuming[i] ==> HasResumed(e, ss, ins, i, a, b)
  {
    hide Inv, Tick, Disciplined, Enabled, Reports;
    if b > a + 1 { ResumeackIsFresh(e, ss, ins, i, a, b - 1); }
    Always(e, ss, ins, b - 1);
    assert Linked(e, ss, ins, b - 1);
    StatusTick(e, ss[b - 1], ins[b - 1], ss[b], i);
  }

  /** A write of dmcontrol with ackhavereset set, bit 28, while hart i is selected. */
  predicate Acknowledged(e: Env, s: Sys, inp: Input, i: nat) {
    inp.req.Some? && inp.req.value.op.Write? && inp.req.value.addr == 0x10 && inp.req.value.data[28] && i == Sel(e, s)
  }

  /** Hart i has been reset since its last acknowledgement: power-on counts as a reset, and a reset that ends
      in the cycle of an acknowledgement as the later of the two. */
  ghost predicate ResetSeen(e: Env, ss: seq<Sys>, ins: seq<Input>, i: nat, k: nat)
    requires k <= |ins| < |ss|
    decreases k
  {
    k == 0 || ins[k - 1].resetAck
    || (ResetSeen(e, ss, ins, i, k - 1) && !Acknowledged(e, ss[k - 1], ins[k - 1], i))
  }

  lemma ResetTick(e: Env, s: Sys, inp: Input, t: Sys, i: nat)
    requires Step(e, s, inp, t) && i < e.p.harts && e.p.selectable[i]
    ensures |s.regs.havereset| == |t.regs.havereset| == e.p.harts
    ensures t.regs.havereset[i] <==> inp.resetAck || (s.regs.havereset[i] && !Acknowledged(e, s, inp, i))
  {
    hide ControlNext, CmderrNext, DataNext, ProgbufNext, AutoBits, HartselRange, Act, CommandError, Disciplined;
  }

  /** havereset is shown for a hart exactly if it has been reset since its last acknowledgement. */
  lemma {:induction false} HaveresetIsHistory(e: Env, ss: seq<Sys>, ins: seq<Input>, i: nat, k: nat)
    requires Trace(e, ss, ins) && k <= |ins| && Start(e, ss[0]) && i < e.p.harts && e.p.selectable[i]
    ensures |ss[k].regs.havereset| == e.p.harts && (ss[k].regs.havereset[i] <==> ResetSeen(e, ss, ins, i, k))
  {
    hide Inv, Tick, Disciplined, Enabled, Acknowledged;
    if k > 0 {
      HaveresetIsHistory(e, ss, ins, i, k - 1);
      assert Linked(e, ss, ins, k - 1);
      ResetTick(e, ss[k - 1], ins[k - 1], ss[k], i);
    }
  }

  /** A read of dmstatus returns those bits of the selected hart, in the any and the all positions; halted
      and running are masked for an unavailable hart. */
  lemma StatusShows(e: Env, s: Sys, b: SbRegs, q: Request, i: RunIn, o: Observed, sbBusy: bool)
    requires Shape(e, s) && b.Valid() && q.op.Read? && q.addr == DMSTATUS
    requires i.resumeack == s.ctl.resuming && o.Valid(e.p) && o.halted == s.ctl.halted
    ensures var d, sel := Answer(e.p, s.regs, b, q, i, o, sbBusy).data, Sel(e, s);
            var halted, gone := BitAt(s.ctl.halted, sel), BitAt(o.unavailable, sel);
            && d[8] == d[9] == (halted && !gone) && d[10] == d[11] == (!halted && !gone) && d[12] == d[13] == gone
            && d[14] == d[15] == (s.regs.hartsel >= e.p.harts)
            && d[16] == d[17] == BitAt(s.ctl.resuming, sel) && d[18] == d[19] == BitAt(s.regs.havereset, sel)
  {
    hide AbstractcsWord, BytesWord, StatusWord, ControlWord, SbcsWord;
    var sel := Sel(e, s);
    StatusBits(BitAt(s.ctl.halted, sel), BitAt(o.unavailable, sel), BitAt(s.ctl.resuming, sel),
               BitAt(s.regs.havereset, sel), s.regs.hartsel >= e.p.harts);
  }

  lemma StatusBits(halted: bool, unavailable: bool, resumeack: bool, havereset: bool, nonexistent: bool)
    ensures var d := StatusWord(halted, unavailable, resumeack, havereset, nonexistent);
            && d[8] == d[9] == (halted && !unavailable) && d[10] == d[11] == (!halted && !unavailable)
            && d[12] == d[13] == unavailable && d[14] == d[15] == nonexistent
            && d[16] == d[17] == resumeack && d[18] == d[19] == havereset
  {
  }
}
