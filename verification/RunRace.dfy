/**
 Which hart a resume request reaches. The request is taken in the first idle cycle in which the hart
 selected is halted, which may be long after the debugger has raised it; a dmcontrol write that moves
 hartsel in that very cycle hands the request to another hart.
 */
module RunRace {
  import opened Bits
  import opened Bytes
  import opened AbstractCommand
  import opened Hart
  import opened ParkLoop
  import opened DmMem
  import opened DmCsrs
  import opened RunControl
  import opened RunInvariant
  import opened RunSafety
  import opened RunTheorems
  import opened RunProgress

  /** A resume request is about to be taken: the guard of the state machine, before the cycle. */
  predicate AboutToResume(e: Env, s: Sys, q: Option<Request>) {
    ResumeWins(e.p, s.ctl, MemIn(e, s, q, NoReq))
  }

  /** That is: the request is up, no halt request is, and the selected hart is halted and not acknowledged. */
  lemma AboutToResumeMeans(e: Env, s: Sys, q: Option<Request>)
    requires Inv(e, s)
    ensures var i := Sel(e, s);
            AboutToResume(e, s, q)
            <==> s.regs.resumereq && !s.regs.haltreq && i < e.p.harts && s.ctl.halted[i] && !s.ctl.resuming[i]
  {
    hide LocalOk;
  }

  /** While a dmcontrol write is processed at rest, the request that is taken reaches the hart it was made
      for if and only if none is about to be taken, the harts are in reset, or hartsel stays the same.
      Otherwise it goes to the hart the write selects. */
  lemma ResumeReachesItsHart(e: Env, s: Sys, inp: Input, w: ControlWrite)
    requires Inv(e, s) && Enabled(e, s, inp.actor) && Disciplined(e, s, inp) && s.ctl.fsm.Idle?
    requires ControlWritten(inp.req) == Some(w)
    ensures var t, same := Tick(e, s, inp), w.hartsel % HartselRange(e.p) == s.regs.hartsel;
            && (t.ctl.fsm.Resume? <==> !s.regs.ndmreset && AboutToResume(e, s, inp.req))
            && ((t.ctl.fsm.Resume? ==> Sel(e, t) == Sel(e, s))
                <==> s.regs.ndmreset || !AboutToResume(e, s, inp.req) || same)
            && t.regs.hartsel == w.hartsel % HartselRange(e.p)
  {
    hide LocalOk, Instruction, ParseCommand;
    SmallIndex(e.p, s.regs.hartsel);
    SmallIndex(e.p, w.hartsel % HartselRange(e.p));
  }

  /** Numbers hartsel can hold are their own index. */
  lemma SmallIndex(p: Params, v: nat)
    requires p.Valid() && v < HartselRange(p)
    ensures HartIndex(p, v) == v
  {
    RangeFits(p.harts);
    InRange(v, Aligned(p.harts));
  }

  lemma RangeFits(n: nat)
    ensures AlignedFrom(1, n) <= Aligned(n)
  {
  }

  // ----- the race can be reached

  /** Some disciplined run leads from s to t. */
  ghost predicate Reaches(e: Env, s: Sys, t: Sys) {
    exists ss: seq<Sys>, ins: seq<Input> :: Trace(e, ss, ins) && ss[0] == s && ss[|ins|] == t
  }

  lemma ReachesItself(e: Env, s: Sys)
    requires Inv(e, s)
    ensures Reaches(e, s, s)
  {
    hide Inv;
    var ss, ins: seq<Input> := [s], [];
    assert Trace(e, ss, ins) && ss[0] == s && ss[|ins|] == s;
  }

  lemma ReachesNext(e: Env, s: Sys, t: Sys, inp: Input, u: Sys)
    requires Reaches(e, s, t) && Step(e, t, inp, u)
    ensures Reaches(e, s, u) && Inv(e, u)
  {
    hide Inv, Step;
    var ss: seq<Sys>, ins: seq<Input> :| Trace(e, ss, ins) && ss[0] == s && ss[|ins|] == t;
    var ss', ins' := ss + [u], ins + [inp];
    forall k | 0 <= k < |ins'| ensures Linked(e, ss', ins', k) {
      if k < |ins| { assert Linked(e, ss, ins, k); }
    }
    assert Trace(e, ss', ins') && ss'[0] == s && ss'[|ins'|] == u;
    Always(e, ss', ins', |ins'|);
  }

  /** The state of the debugger's request while hart 0 is on its way to its first HALTED store. */
  predicate Asked(e: Env, s: Sys)
    requires Shape(e, s)
  {
    && s.ctl.fsm.Idle? && s.regs.resumereq && !s.regs.haltreq && !s.regs.ndmreset && s.regs.hartsel == 0
    && !s.regs.cmdValid && !AnyBit(s.ctl.resuming)
    && (forall i :: 0 < i < e.p.harts ==> !s.ctl.halted[i])
  }

  /** The dmcontrol write that selects hart h and raises resumereq. */
  function ResumeWrite(e: Env, h: nat): Option<Request>
    requires e.p.Valid()
  {
    Some(Request(Write, DMCONTROL, ControlWord(RunReset(e.p).(dmactive := true, resumereq := true, hartsel := h))))
  }

  lemma ResumeWritten(e: Env, h: nat)
    requires e.p.Valid() && h < 0x10_0000
    ensures ControlWritten(ResumeWrite(e, h)) == Some(ControlWrite(false, true, false, h, false, true))
  {
    hide ControlWord, ParseControl;
    ControlReadsBack(RunReset(e.p).(dmactive := true, resumereq := true, hartsel := h));
  }

  /** The debugger raises resumereq for the running hart 0. */
  lemma Ask(e: Env, s: Sys) returns (t: Sys)
    requires Start(e, s) && !s.recent
    ensures Reaches(e, s, t) && Inv(e, t) && Asked(e, t) && t.places[0].Out? && !t.ctl.halted[0]
  {
    var inp := Input(ResumeWrite(e, 0), Nobody, false);
    StartOk(e, s);
    ReachesItself(e, s);
    ResumeWritten(e, 0);
    t := AskTick(e, s, inp);
    ReachesNext(e, s, s, inp, t);
  }

  lemma AskTick(e: Env, s: Sys, inp: Input) returns (t: Sys)
    requires Start(e, s) && !s.recent && inp == Input(ResumeWrite(e, 0), Nobody, false)
    requires ControlWritten(inp.req) == Some(ControlWrite(false, true, false, 0, false, true))
    ensures Step(e, s, inp, t) && Asked(e, t) && t.places[0].Out? && !t.ctl.halted[0]
  {
    hide ResumeWrite;
    t := Tick(e, s, inp);
  }

  lemma Halt(e: Env, t: Sys, regs: HartState) returns (u: Sys)
    requires Inv(e, t) && Asked(e, t) && t.places[0].Out? && !t.ctl.halted[0]
    ensures Step(e, t, Input(None, Enter(0, regs), false), u) && Asked(e, u) && !u.recent
    ensures u.places[0] == Rom(EntryVec) && !u.ctl.halted[0]
  {
    hide LocalOk, AlignedFrom;
    u := Tick(e, t, Input(None, Enter(0, regs), false));
    SmallIndex(e.p, 0);
  }

  /** One instruction of hart 0 on the way from its entry to its HALTED store. */
  lemma Walk(e: Env, t: Sys) returns (u: Sys)
    requires Inv(e, t) && Asked(e, t) && t.places[0].Rom? && Returning(t.places[0].point) && !t.ctl.halted[0]
    ensures Step(e, t, Input(None, Run(0, false), false), u) && Asked(e, u) && !u.recent
    ensures var p, snd := t.places[0].point, e.cores[0].Snd();
            && Exists(snd, p) && u.places[0] == Rom(Succ(snd, p, false))
            && (u.ctl.halted[0] <==> p.LoopHalt? && e.p.selectable[0])
  {
    hide LocalOk, AlignedFrom, NextClaim, Succ, RunHart, RunNext;
    var inp := Input(None, Run(0, false), false);
    u := Tick(e, t, inp);
    SmallIndex(e.p, 0);
    RomRuns(e, t, 0, false);
    AskedRegs(e, t, inp, RunHart(e, t, 0, false).bus);
    NotTaken(t.places[0].point, t.harts[0]);
  }

  lemma NotTaken(p: Point, h: HartState)
    requires Returning(p)
    ensures !Taken(p, h) && !p.GoJump? && !p.ResDret?
  {
  }

  /** Without a request the registers that matter here stay as they are. */
  lemma AskedRegs(e: Env, t: Sys, inp: Input, bus: Bus)
    requires Inv(e, t) && Asked(e, t) && inp.req.None?
    ensures var r := RegsAfter(e, t, inp, bus, None);
            r.resumereq && !r.haltreq && !r.ndmreset && r.hartsel == 0 && !r.cmdValid
  {
    hide LocalOk;
  }

  /** Hart 0 reaches its HALTED store with the request still up. */
  lemma {:induction false} WalkOn(e: Env, s: Sys, t: Sys) returns (u: Sys)
    requires Reaches(e, s, t) && Inv(e, t) && Asked(e, t) && !t.recent && e.p.selectable[0]
    requires t.places[0].Rom? && Returning(t.places[0].point) && !t.ctl.halted[0]
    ensures Reaches(e, s, u) && Inv(e, u) && Asked(e, u) && !u.recent && u.ctl.halted[0]
    decreases ToReport(t.places[0].point)
  {
    hide Reaches, LocalOk, Asked, Step, Succ, ToReport, Returning;
    var p := t.places[0].point;
    u := Walk(e, t);
    ReachesNext(e, s, t, Input(None, Run(0, false), false), u);
    if !p.LoopHalt? {
      Closer(e.cores[0].Snd(), p);
      u := WalkOn(e, s, u);
    }
  }

  lemma Closer(snd: bool, p: Point)
    requires Exists(snd, p) && Returning(p) && !p.LoopHalt?
    ensures Returning(Succ(snd, p, false)) && ToReport(Succ(snd, p, false)) < ToReport(p)
  {
  }

  /** In every system of at least two harts, started from rest, the debugger can ask hart 0 to resume while
      it is running, hart 0 can halt, and then a disciplined dmcontrol write in the wrong cycle hands the
      request to hart 1, which is running. */
  lemma RaceIsReachable(e: Env, s: Sys, regs: HartState) returns (t: Sys, inp: Input)
    requires Start(e, s) && !s.recent && e.p.harts >= 2 && e.p.selectable[0]
    ensures Reaches(e, s, t) && Inv(e, t) && Enabled(e, t, inp.actor) && Disciplined(e, t, inp)
    ensures Sel(e, t) == 0 && t.ctl.halted[0] && AboutToResume(e, t, inp.req)
    ensures var u := Tick(e, t, inp); u.ctl.fsm.Resume? && Sel(e, u) == 1 && !u.ctl.halted[1]
  {
    hide LocalOk, Reaches, ControlWord, ParseControl;
    t := Ask(e, s);
    var u := Halt(e, t, regs);
    ReachesNext(e, s, t, Input(None, Enter(0, regs), false), u);
    t := u;
    t := WalkOn(e, s, t);
    inp := Input(ResumeWrite(e, 1), Nobody, false);
    ResumeWritten(e, 1);
    Race(e, t, inp);
  }

  lemma Race(e: Env, t: Sys, inp: Input)
    requires Inv(e, t) && Asked(e, t) && !t.recent && t.ctl.halted[0] && e.p.harts >= 2
    requires inp == Input(ResumeWrite(e, 1), Nobody, false)
    requires ControlWritten(inp.req) == Some(ControlWrite(false, true, false, 1, false, true))
    ensures Disciplined(e, t, inp) && Sel(e, t) == 0 && AboutToResume(e, t, inp.req)
    ensures var u := Tick(e, t, inp); u.ctl.fsm.Resume? && Sel(e, u) == 1 && !u.ctl.halted[1]
  {
    hide LocalOk, ResumeWrite, ControlWritten;
    InRange(1, HartselRange(e.p));
    SmallIndex(e.p, 0);
    SmallIndex(e.p, 1);
  }

  /** A system at rest exists for every valid configuration. */
  lemma StartExists(e: Env) returns (s: Sys)
    requires e.Valid()
    ensures Start(e, s) && !s.recent
  {
    var n, zeros := e.p.harts, seq<nat>(32, _ => 0);
    var off := seq(n, _ => false);
    s := Sys(Control(Idle, off, off), RunReset(e.p).(dmactive := true),
             seq(n, i requires 0 <= i < n => HartState(i, false, 0, zeros, zeros, 0, 0, map[])),
             seq(n, _ => Out), seq(n, _ => Free),
             Snapshot(ParseCommand(ZERO), Logical(zeros, zeros, map[], 0), seq(8, _ => 0)), false);
  }
}
