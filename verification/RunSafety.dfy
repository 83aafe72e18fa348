/**
 The run-control invariant over the whole system, its preservation by every disciplined clock tick, and
 what follows from it on every run.
 */
module RunSafety {
  import opened Bits
  import opened Bytes
  import opened RiscV
  import opened AbstractCommand
  import opened Hart
  import opened ParkLoop
  import opened Transfer
  import opened DmMem
  import opened DmCsrs
  import opened RunControl
  import opened RunInvariant

  function LocalOf(e: Env, s: Sys, i: nat): Local
    requires Shape(e, s) && i < e.p.harts
  {
    Local(i == Sel(e, s), s.ctl.fsm, s.ctl.halted[i], s.ctl.resuming[i], s.harts[i], s.places[i], s.claims[i])
  }

  function SharedOf(s: Sys): Shared { Shared(s.regs.data, s.regs.cmderr, s.snap) }

  ghost predicate Global(e: Env, s: Sys) {
    && Shape(e, s) && s.regs.dmactive
    && (s.regs.cmdValid ==> s.recent && (s.ctl.fsm.Idle? || s.ctl.fsm.Resume?))
    && (s.ctl.fsm.Go? || s.ctl.fsm.Executing? ==> Sel(e, s) < e.p.harts)
    && (s.ctl.fsm.Go? || s.ctl.fsm.Executing? ==>
          CommandOf(s) == s.snap.command && !Unsupported(e.p.cfg, s.snap.command))
    && (forall i :: 0 <= i < e.p.harts ==> s.ctl.halted[i] || s.ctl.resuming[i] ==> e.p.selectable[i])
    && (forall i :: 0 <= i < e.p.harts ==> s.harts[i].id == i)
    && NoStaleAck(s)
  }

  /** A resume request that is still up, and not freshly made, has no acknowledgement against it: any
      acknowledgement takes the request down in the next cycle. */
  predicate NoStaleAck(s: Sys) {
    s.regs.resumereq && !s.recent && s.ctl.fsm.Idle? ==> !AnyBit(s.ctl.resuming)
  }

  ghost predicate Inv(e: Env, s: Sys) {
    && Global(e, s)
    && forall i :: 0 <= i < e.p.harts ==> LocalOk(e.cores[i], LocalOf(e, s, i), SharedOf(s))
  }

  // ----- control-register stores on the bus

  /** The transaction hits exactly the control register of m, and names hart i. */
  predicate BusMarks(p: Params, bus: Bus, m: Mark, i: nat) {
    && (Hits(bus, HALTED) <==> m.Halts?) && (Hits(bus, GOING) <==> m.Goes?)
    && (Hits(bus, RESUMING) <==> m.Resumes?) && (Hits(bus, EXCEPTION) <==> m.Excepts?)
    && (m.Halts? || m.Resumes? ==> Named(p, bus) == i)
  }

  lemma StoreMarks(p: Params, place: Place, h: HartState)
    requires p.Valid() && p.harts <= 1024 && h.id < p.harts && place.Rom?
    ensures BusMarks(p, BusOf(p.width, StoreAt(place.point, h)), MarkOf(place), h.id)
    ensures StoreAt(place.point, h).Some? ==> !InData(StoreAt(place.point, h).value.off)
  {
    var q := place.point;
    if q.LoopHalt? {
      NamedByStore(p, HALTED, h.id);
    } else if q.ResStore? {
      NamedByStore(p, RESUMING, h.id);
    } else if q.GoStore? {
      NamedByStore(p, GOING, 0);
    } else if q.ExcStore? {
      NamedByStore(p, EXCEPTION, 0);
    }
  }

  // ----- one tick, seen by hart j

  /** How hartsel may move in a tick: from rest, and never together with the start of a command. If a
      resume request is taken in the same tick, no acknowledgement is left over. */
  predicate HartselMoves(s: Sys, t: Sys) {
    t.regs.hartsel == s.regs.hartsel
    || (s.ctl.fsm.Idle? && (t.ctl.fsm.Idle? || (t.ctl.fsm.Resume? && !AnyBit(t.ctl.resuming))))
  }

  /** Acknowledgements and hartsel in one tick. */
  lemma AckTick(e: Env, s: Sys, inp: Input, bus: Bus, data: Option<seq<Byte>>, m: Mark, i: nat, t: Sys)
    requires Global(e, s) && Disciplined(e, s, inp) && Shape(e, t) && (data.Some? ==> |data.value| == 8)
    requires BusMarks(e.p, bus, m, i) && (m.Resumes? ==> s.ctl.fsm.Resume? && !BitAt(s.ctl.resuming, Sel(e, s)))
    requires t.ctl == ControlAfter(e, s, inp.req, bus) && t.regs == RegsAfter(e, s, inp, bus, data)
    requires t.recent == inp.req.Some?
    ensures NoStaleAck(t) && HartselMoves(s, t)
    ensures t.regs.hartsel != s.regs.hartsel ==> s.ctl.fsm.Idle? && inp.req.Some?
  {
    if t.regs.hartsel != s.regs.hartsel && !t.ctl.fsm.Idle? {
      assert s.regs.resumereq && !s.recent;
    }
  }

  lemma ControlTick(e: Env, s: Sys, q: Option<Request>, bus: Bus, m: Mark, i: nat, j: nat, t: Sys)
    requires Global(e, s) && !s.regs.ndmreset && i < e.p.harts && j < e.p.harts && Shape(e, t)
    requires BusMarks(e.p, bus, m, i) && t.ctl == ControlAfter(e, s, q, bus)
    requires HartselMoves(s, t)
    requires m.Goes? && j != i ==> j != Sel(e, s)
    ensures ControlMoves(LocalOf(e, s, j), if j == i then m else Nothing, LocalOf(e, t, j))
  {
  }

  /** The registers while the module is busy, and in the tick that starts a command. */
  lemma SharedTick(e: Env, s: Sys, inp: Input, bus: Bus, data: Option<seq<Byte>>, m: Mark, j: nat, t: Sys)
    requires Global(e, s) && Shape(e, t) && j < e.p.harts && (data.Some? ==> |data.value| == 8)
    requires Hits(bus, EXCEPTION) <==> m.Excepts?
    requires t.ctl == ControlAfter(e, s, inp.req, bus) && t.regs == RegsAfter(e, s, inp, bus, data)
    requires inp.req.Some? ==> !s.recent
    requires HartselMoves(s, t)
    requires t.snap == NewSnap(e, s, t)
    ensures SharedMoves(e.cores[j], LocalOf(e, s, j), SharedOf(s), m, data, LocalOf(e, t, j), SharedOf(t))
  {
  }

  /** The snapshot taken when a command starts. */
  function NewSnap(e: Env, s: Sys, t: Sys): Snapshot
    requires Shape(e, s) && Shape(e, t)
  {
    var sel := Sel(e, t);
    if s.ctl.fsm.Idle? && t.ctl.fsm.Go? && sel < e.p.harts
    then Snapshot(CommandOf(t), LogicalNow(e.cores[sel], t.places[sel], t.harts[sel]), t.regs.data)
    else s.snap
  }

  /** The facts about the system as a whole carry over. */
  lemma GlobalTick(e: Env, s: Sys, inp: Input, bus: Bus, data: Option<seq<Byte>>, t: Sys)
    requires Global(e, s) && Shape(e, t) && (data.Some? ==> |data.value| == 8)
    requires t.ctl == ControlAfter(e, s, inp.req, bus) && t.regs == RegsAfter(e, s, inp, bus, data)
    requires t.snap == NewSnap(e, s, t) && t.recent == inp.req.Some?
    requires inp.req.Some? ==> !s.recent
    requires var w := ControlWritten(inp.req); w.Some? ==> w.value.dmactive
    requires t.regs.hartsel != s.regs.hartsel ==> s.ctl.fsm.Idle? && inp.req.Some?
    requires NoStaleAck(t)
    requires forall i :: 0 <= i < e.p.harts ==> t.harts[i].id == i
    ensures Global(e, t)
  {
  }

  lemma SelectedBelow1024(e: Env, s: Sys)
    requires Shape(e, s)
    ensures Sel(e, s) < 1024
  {
    AlignedBound(2, e.p.harts);
  }

  lemma {:induction false} AlignedBound(p: nat, n: nat)
    requires p in {1, 2, 4, 8, 16, 32, 64, 128, 256, 512, 1024} && n <= 1024
    ensures AlignedFrom(p, n) <= 1024
    decreases 1024 - p
  {
    if p < n { AlignedBound(2 * p, n); }
  }

  // ----- the actor

  /** Instruction at a ROM label: the effect of the label, and the mark it makes on the bus. */
  lemma RomRuns(e: Env, s: Sys, i: nat, fault: bool)
    requires Inv(e, s) && !s.regs.ndmreset && i < e.p.harts && s.places[i].Rom?
    ensures var f, p, v := RunHart(e, s, i, fault), s.places[i].point, ViewOf(e, s);
            && Exists(e.cores[i].Snd(), p)
            && f == Turn(ParkLoop.Effect(e.cores[i], v, p, s.harts[i]),
                           NextPlace(e.cores[i], Rom(p), s.harts[i], CommandOf(s)),
                           NextClaim(Rom(p), s.claims[i], Flags(LocalOf(e, s, i)), CommandOf(s)), f.bus, None)
            && BusMarks(e.p, f.bus, MarkOf(s.places[i]), i)
            && FlagOf(v, i) == Flags(LocalOf(e, s, i))
  {
    SelectedBelow1024(e, s);
    RomStep(e.cores[i], ViewOf(e, s), s.places[i].point, s.harts[i]);
    StoreMarks(e.p, s.places[i], s.harts[i]);
  }

  /** The tick as the acting hart sees it: t and th are its new local state and the new shared state. */
  predicate Acted(e: Env, s: Sys, a: Actor, t: Local, th: Shared)
    requires Shape(e, s) && Enabled(e, s, a) && !a.Nobody?
  {
    var i, f := a.hart, Act(e, s, a);
    && t.h == f.hart && t.place == f.place && t.claim == f.claim
    && ControlMoves(LocalOf(e, s, i), MarkOf(s.places[i]), t)
    && SharedMoves(e.cores[i], LocalOf(e, s, i), SharedOf(s), MarkOf(s.places[i]), f.data, t, th)
  }

  /** The store an actor makes is the one its place announces. */
  lemma ActorMarks(e: Env, s: Sys, a: Actor)
    requires Inv(e, s) && !s.regs.ndmreset && Enabled(e, s, a) && !a.Nobody?
    ensures BusMarks(e.p, Act(e, s, a).bus, MarkOf(s.places[a.hart]), a.hart) && Act(e, s, a).hart.id == a.hart
  {
    hide Instruction, ParseCommand;
    var i := a.hart;
    assert LocalOk(e.cores[i], LocalOf(e, s, i), SharedOf(s));
    if a.Run? {
      match s.places[i]
      case Rom(_) => RomRuns(e, s, i, a.fault);
      case AtWhereTo => WhereToRuns(e, s, i, a.fault);
      case Word(k) => WordRuns(e, s, i, a.fault);
    }
  }

  lemma WhereToRuns(e: Env, s: Sys, i: nat, fault: bool)
    requires Inv(e, s) && i < e.p.harts && s.places[i].AtWhereTo?
    ensures var f, c, h := RunHart(e, s, i, fault), CommandOf(s), s.harts[i];
            f == Turn(h.(pc := if SkipsWords(c) then PROGBUF_BASE else ABSTRACT_BASE),
                                   NextPlace(e.cores[i], AtWhereTo, h, c),
                                   NextClaim(AtWhereTo, s.claims[i], Flags(LocalOf(e, s, i)), c), NoReq, None)
  {
    var l, sh := LocalOf(e, s, i), SharedOf(s);
    assert LocalOk(e.cores[i], l, sh);
    WhereToActs(e.cores[i], ViewOf(e, s), l, sh, l, sh);
  }

  /** A generated word runs as the listing says, or traps; its stores go to the data registers only. */
  lemma WordRuns(e: Env, s: Sys, i: nat, fault: bool)
    requires Inv(e, s) && i < e.p.harts && s.places[i].Word?
    ensures RunHart(e, s, i, fault).bus == NoReq && RunHart(e, s, i, fault).hart.id == i
    ensures !Executed(e, s, i, fault).Unmodelled?
    ensures Executed(e, s, i, fault).Trap? ==> s.places[i].k < 9 && MayTrap(e.p.cfg, CommandOf(s), s.places[i].k)
    ensures Executed(e, s, i, fault).Next? ==>
              Executed(e, s, i, fault)
              == Exec(e.cores[i], ViewOf(e, s), s.harts[i], Decode(Fetch(e.cores[i], ViewOf(e, s), s.harts[i].pc)))
    ensures Executed(e, s, i, fault).Next? && s.places[i].k == 9 ==>
              Executed(e, s, i, fault)
              == Next(s.harts[i].(pc := if CommandOf(s).postexec then PROGBUF_BASE else HALT_ADDRESS), None)
  {
    var core, v, k, l, sh := e.cores[i], ViewOf(e, s), s.places[i].k, LocalOf(e, s, i), SharedOf(s);
    var c := sh.snap;
    assert LocalOk(core, l, sh);
    if k == 9 {
      LastWord(core, v, c.command, c.logical, c.data, l.h);
    } else {
      WordStep(core, v, c.command, c.logical, c.data, k, l.h);
      WordKeepsId(core, v, l.h, k);
    }
  }

  /** Instructions do not change the number of the hart they run on. */
  lemma WordKeepsId(core: Core, v: View, h: HartState, k: nat)
    requires v.Valid()
    ensures var o := Exec(core, v, h, Decode(Fetch(core, v, h.pc))); o.Next? ==> o.h.id == h.id
  {
    hide Decode, Fetch, LoadBytes, LoadValue, FloatValue, BitAnd, SetX, ToBytes, ReadCsr;
  }

  lemma RunKeeps(e: Env, s: Sys, i: nat, fault: bool, t: Local, th: Shared)
    requires Inv(e, s) && !s.regs.ndmreset && Enabled(e, s, Run(i, fault)) && |th.snap.data| == 8
    requires Acted(e, s, Run(i, fault), t, th)
    ensures LocalOk(e.cores[i], t, th)
  {
    var core, l, sh, v := e.cores[i], LocalOf(e, s, i), SharedOf(s), ViewOf(e, s);
    assert LocalOk(core, l, sh);
    match s.places[i]
    case Rom(p) =>
      RomRuns(e, s, i, fault);
      RomKeepsOk(core, v, CommandOf(s), l, sh, p, t, th);
    case AtWhereTo =>
      WhereToRuns(e, s, i, fault);
      WhereToActs(core, v, l, sh, t, th);
    case Word(k) =>
      WordKeeps(e, s, i, fault, k, t, th);
  }

  lemma WordKeeps(e: Env, s: Sys, i: nat, fault: bool, k: nat, t: Local, th: Shared)
    requires Inv(e, s) && Enabled(e, s, Run(i, fault)) && |th.snap.data| == 8 && s.places[i] == Word(k)
    requires Acted(e, s, Run(i, fault), t, th)
    ensures LocalOk(e.cores[i], t, th)
  {
    hide Goal, Saved, Exec, Decode, Fetch;
    var core, l, sh, v := e.cores[i], LocalOf(e, s, i), SharedOf(s), ViewOf(e, s);
    assert LocalOk(core, l, sh);
    WordRuns(e, s, i, fault);
    match Executed(e, s, i, fault)
    case Next(h, st) =>
      if k == 9 { LastActs(core, v, l, sh, t, th); } else { WordActs(core, v, l, sh, k, st, t, th); }
    case Trap => TrapActs(core, l, sh, k, t, th);
  }

  lemma ActorKeeps(e: Env, s: Sys, a: Actor, t: Local, th: Shared)
    requires Inv(e, s) && !s.regs.ndmreset && Enabled(e, s, a) && !a.Nobody? && |th.snap.data| == 8
    requires Acted(e, s, a, t, th)
    ensures LocalOk(e.cores[a.hart], t, th)
  {
    var core, l, sh := e.cores[a.hart], LocalOf(e, s, a.hart), SharedOf(s);
    assert LocalOk(core, l, sh);
    match a
    case Run(i, fault) => RunKeeps(e, s, i, fault, t, th);
    case Enter(i, regs) => EnterActs(core, l, sh, regs, t, th);
    case BufferRun(i, regs, _, exit) => BufferActs(core, l, sh, regs, Act(e, s, a).data, exit, t, th);
  }

  // ----- every tick

  lemma ActorTick(e: Env, s: Sys, inp: Input)
    requires Inv(e, s) && Enabled(e, s, inp.actor) && Disciplined(e, s, inp)
    requires !s.regs.ndmreset && !inp.actor.Nobody?
    ensures Inv(e, Tick(e, s, inp))
  {
    hide LocalOk, ControlMoves, SharedMoves, RunHart, BufferHart, Adopt, ControlNext, RunNext, Instruction,
      ParseCommand;
    var t, i, f, m := Tick(e, s, inp), inp.actor.hart, Act(e, s, inp.actor), MarkOf(s.places[inp.actor.hart]);
    ActorMarks(e, s, inp.actor);
    OthersLeaveAlone(e, s, inp.actor);
    AckTick(e, s, inp, f.bus, f.data, m, i, t);
    GlobalTick(e, s, inp, f.bus, f.data, t);
    forall j | 0 <= j < e.p.harts
      ensures LocalOk(e.cores[j], LocalOf(e, t, j), SharedOf(t))
    {
      assert LocalOk(e.cores[j], LocalOf(e, s, j), SharedOf(s));
      ControlTick(e, s, inp.req, f.bus, m, i, j, t);
      SharedTick(e, s, inp, f.bus, f.data, m, j, t);
      if j == i {
        ActorKeeps(e, s, inp.actor, LocalOf(e, t, j), SharedOf(t));
      } else {
        BystanderKeeps(e.cores[j], LocalOf(e, s, j), SharedOf(s), LocalOf(e, t, j), SharedOf(t));
      }
    }
  }

  /** Only the selected hart stores to GOING, and only it touches the data registers. */
  lemma OthersLeaveAlone(e: Env, s: Sys, a: Actor)
    requires Inv(e, s) && !s.regs.ndmreset && Enabled(e, s, a) && !a.Nobody?
    ensures MarkOf(s.places[a.hart]).Goes? ==> a.hart == Sel(e, s)
    ensures Act(e, s, a).data.Some? ==> a.hart == Sel(e, s)
    ensures MarkOf(s.places[a.hart]).Resumes? ==> s.ctl.fsm.Resume? && !BitAt(s.ctl.resuming, Sel(e, s))
  {
    var i := a.hart;
    assert LocalOk(e.cores[i], LocalOf(e, s, i), SharedOf(s));
    if a.Run? && s.places[i].Rom? { RomRuns(e, s, i, a.fault); }
  }

  lemma QuietTick(e: Env, s: Sys, inp: Input)
    requires Inv(e, s) && Enabled(e, s, inp.actor) && Disciplined(e, s, inp)
    requires !s.regs.ndmreset && inp.actor.Nobody?
    ensures Inv(e, Tick(e, s, inp))
  {
    hide LocalOk, ControlMoves, SharedMoves;
    var t := Tick(e, s, inp);
    AckTick(e, s, inp, NoReq, None, Nothing, 0, t);
    GlobalTick(e, s, inp, NoReq, None, t);
    forall j | 0 <= j < e.p.harts
      ensures LocalOk(e.cores[j], LocalOf(e, t, j), SharedOf(t))
    {
      assert LocalOk(e.cores[j], LocalOf(e, s, j), SharedOf(s));
      ControlTick(e, s, inp.req, NoReq, Nothing, j, j, t);
      SharedTick(e, s, inp, NoReq, None, Nothing, j, t);
      BystanderKeeps(e.cores[j], LocalOf(e, s, j), SharedOf(s), LocalOf(e, t, j), SharedOf(t));
    }
  }

  lemma ResetTick(e: Env, s: Sys, inp: Input)
    requires Inv(e, s) && Enabled(e, s, inp.actor) && Disciplined(e, s, inp) && s.regs.ndmreset
    ensures Inv(e, Tick(e, s, inp))
  {
    hide Instruction, ParseCommand;
    var t := Tick(e, s, inp);
    AckTick(e, s, inp, NoReq, None, Nothing, 0, t);
    GlobalTick(e, s, inp, NoReq, None, t);
  }

  lemma TickKeeps(e: Env, s: Sys, inp: Input)
    requires Inv(e, s) && Enabled(e, s, inp.actor) && Disciplined(e, s, inp)
    ensures Inv(e, Tick(e, s, inp))
  {
    if s.regs.ndmreset { ResetTick(e, s, inp); }
    else if inp.actor.Nobody? { QuietTick(e, s, inp); }
    else { ActorTick(e, s, inp); }
  }
}
