/**
 What holds on every run of the run-control protocol: mutual exclusion, frozen code, and the meaning of
 abstract commands under every interleaving of harts and debugger requests.
 */
module RunTheorems {
  import opened Bits
  import opened Bytes
  import opened RiscV
  import opened AbstractCommand
  import opened Hart
  import opened ParkLoop
  import opened Transfer
  import opened DmMem
  import opened DmCsrs
  import opened RunControl
  import opened RunInvariant
  import opened RunSafety

  /** One disciplined tick. */
  ghost predicate Step(e: Env, s: Sys, inp: Input, t: Sys) {
    Shape(e, s) && Enabled(e, s, inp.actor) && Disciplined(e, s, inp) && t == Tick(e, s, inp)
  }

  ghost predicate Linked(e: Env, ss: seq<Sys>, ins: seq<Input>, k: nat)
    requires k < |ins| && |ss| == |ins| + 1
  {
    Step(e, ss[k], ins[k], ss[k + 1])
  }

  /** A run: its states and the inputs of the ticks between them. */
  ghost predicate Trace(e: Env, ss: seq<Sys>, ins: seq<Input>) {
    && |ss| == |ins| + 1 && Inv(e, ss[0])
    && forall k :: 0 <= k < |ins| ==> Linked(e, ss, ins, k)
  }

  /** The module has just been activated: it knows of no halted hart, and every hart is running. */
  ghost predicate Start(e: Env, s: Sys) {
    && Shape(e, s) && s.regs == RunReset(e.p).(dmactive := true)
    && s.ctl == Control(Idle, seq(e.p.harts, _ => false), seq(e.p.harts, _ => false))
    && (forall i :: 0 <= i < e.p.harts ==> s.harts[i].id == i && !s.harts[i].debug)
    && (forall i :: 0 <= i < e.p.harts ==> s.places[i].Out? && s.claims[i].Free?)
  }

  lemma StartOk(e: Env, s: Sys)
    requires Start(e, s)
    ensures Inv(e, s)
  {
  }

  /** The invariant holds in every state of a run. */
  lemma {:induction false} Always(e: Env, ss: seq<Sys>, ins: seq<Input>, k: nat)
    requires Trace(e, ss, ins) && k <= |ins|
    ensures Inv(e, ss[k])
  {
    hide Inv, Shape, Tick, Disciplined, Enabled;
    if k > 0 {
      Always(e, ss, ins, k - 1);
      assert Linked(e, ss, ins, k - 1);
      TickKeeps(e, ss[k - 1], ins[k - 1]);
    }
  }

  /** At most one hart has taken on a command or a resume request and not yet answered; it is the
      selected one, there is none while the state machine is idle, and there is one while it executes. */
  ghost predicate Exclusive(e: Env, s: Sys)
    requires Shape(e, s)
  {
    && (forall i :: 0 <= i < e.p.harts ==>
          && (!s.claims[i].Free? ==> i == Sel(e, s))
          && (s.claims[i].Cmd? ==> s.ctl.fsm.Go? || s.ctl.fsm.Executing?)
          && (s.claims[i].Res? ==> s.ctl.fsm.Resume? && !s.ctl.resuming[i]))
    && (s.ctl.fsm.Executing? ==> Sel(e, s) < e.p.harts && s.claims[Sel(e, s)].Cmd?)
  }

  lemma MutualExclusion(e: Env, ss: seq<Sys>, ins: seq<Input>, k: nat)
    requires Trace(e, ss, ins) && k <= |ins|
    ensures Inv(e, ss[k]) && Exclusive(e, ss[k])
  {
    Always(e, ss, ins, k);
    var t := ss[k];
    forall i | 0 <= i < e.p.harts
      ensures !t.claims[i].Free? ==> i == Sel(e, t)
      ensures t.claims[i].Cmd? ==> t.ctl.fsm.Go? || t.ctl.fsm.Executing?
      ensures t.claims[i].Res? ==> t.ctl.fsm.Resume? && !t.ctl.resuming[i]
    {
      assert LocalOk(e.cores[i], LocalOf(e, t, i), SharedOf(t));
    }
    if t.ctl.fsm.Executing? {
      assert LocalOk(e.cores[Sel(e, t)], LocalOf(e, t, Sel(e, t)), SharedOf(t));
    }
  }

  // ----- frozen code

  /** The state machine is busy in the states from a up to, not including, b. */
  ghost predicate Occupied(ss: seq<Sys>, a: nat, b: nat)
    requires b <= |ss|
  {
    forall m :: a <= m < b ==> !ss[m].ctl.fsm.Idle?
  }

  /** In this tick a hart stores to the data registers. */
  ghost predicate HartStores(e: Env, s: Sys, inp: Input)
    requires Shape(e, s) && Enabled(e, s, inp.actor)
  {
    !s.regs.ndmreset && !inp.actor.Nobody? && Act(e, s, inp.actor).data.Some?
  }

  /** What a tick of a busy module leaves alone, whatever the debugger asks for. */
  lemma BusyTick(e: Env, s: Sys, inp: Input)
    requires Inv(e, s) && Enabled(e, s, inp.actor) && Disciplined(e, s, inp) && !s.ctl.fsm.Idle?
    ensures var t := Tick(e, s, inp);
            && t.regs.command == s.regs.command && t.regs.progbuf == s.regs.progbuf
            && t.regs.hartsel == s.regs.hartsel && t.snap == s.snap
            && t.regs.data == if HartStores(e, s, inp) then Act(e, s, inp.actor).data.value else s.regs.data
  {
  hide Instruction, ParseCommand;
  }

  predicate Code(off: int) { off == WHERETO || ABSTRACT_BASE <= off < DATA_BASE }

  lemma {:induction false} FrozenRegisters(e: Env, ss: seq<Sys>, ins: seq<Input>, a: nat, b: nat)
    requires Trace(e, ss, ins) && a <= b < |ss| && Occupied(ss, a, b)
    ensures Inv(e, ss[a]) && Inv(e, ss[b])
    ensures Sel(e, ss[b]) == Sel(e, ss[a]) && ss[b].snap == ss[a].snap
    ensures ss[b].regs.command == ss[a].regs.command && ss[b].regs.progbuf == ss[a].regs.progbuf
  {
    hide Inv, Shape, Tick, Disciplined, Enabled;
    Always(e, ss, ins, b);
    if a < b {
      FrozenRegisters(e, ss, ins, a, b - 1);
      assert Linked(e, ss, ins, b - 1);
      BusyTick(e, ss[b - 1], ins[b - 1]);
    }
  }

  /** From the cycle in which the state machine is busy until it is idle again, every word harts can
      fetch at WhereTo, in the AbstractCmd slots and in the program buffer stays the same. */
  lemma FrozenCode(e: Env, ss: seq<Sys>, ins: seq<Input>, a: nat, b: nat, core: Core, off: int)
    requires Trace(e, ss, ins) && a <= b < |ss| && Occupied(ss, a, b) && Code(off)
    ensures Inv(e, ss[a]) && Inv(e, ss[b])
    ensures Fetch(core, ViewOf(e, ss[b]), off) == Fetch(core, ViewOf(e, ss[a]), off)
  {
    hide Tick, Disciplined, Enabled, LocalOk;
    FrozenRegisters(e, ss, ins, a, b);
    SameCode(core, ViewOf(e, ss[a]), ViewOf(e, ss[b]), off);
  }

  lemma SameCode(core: Core, v: View, w: View, off: int)
    requires v.Valid() && w.Valid() && v.command == w.command && v.progbuf == w.progbuf && Code(off)
    ensures Fetch(core, v, off) == Fetch(core, w, off)
  {
  }

  // ----- commands

  /** Hart i's registers as a debugger is entitled to see them. */
  function LogicalOf(e: Env, s: Sys, i: nat): Logical
    requires Shape(e, s) && i < e.p.harts
  {
    LogicalNow(e.cores[i], s.places[i], s.harts[i])
  }

  /** In this tick a hart takes an exception. */
  ghost predicate TrapNow(e: Env, s: Sys, inp: Input)
    requires Shape(e, s) && Enabled(e, s, inp.actor)
  {
    match inp.actor
    case Run(i, fault) => Executed(e, s, i, fault).Trap?
    case BufferRun(_, _, _, exit) => exit.Fault?
    case _ => false
  }

  /** A hart takes an exception in one of the ticks from a up to, not including, b. */
  ghost predicate TrapSeen(e: Env, ss: seq<Sys>, ins: seq<Input>, a: nat, b: nat)
    requires Trace(e, ss, ins) && b <= |ins|
  {
    exists m :: a <= m < b && Linked(e, ss, ins, m) && TrapNow(e, ss[m], ins[m])
  }

  lemma TrapExtends(e: Env, ss: seq<Sys>, ins: seq<Input>, a: nat, b: nat)
    requires Trace(e, ss, ins) && a < b <= |ins| && Linked(e, ss, ins, b - 1)
    ensures TrapSeen(e, ss, ins, a, b) <==> TrapSeen(e, ss, ins, a, b - 1) || TrapNow(e, ss[b - 1], ins[b - 1])
  {
    hide Inv, Shape, Tick, Disciplined, Enabled;
  }

  /** No hart is held in reset. */
  ghost predicate NoReset(ss: seq<Sys>, a: nat, b: nat)
    requires b <= |ss|
  {
    forall m :: a <= m < b ==> !ss[m].regs.ndmreset
  }

  predicate HasTrapped(c: Claim) { c.Cmd? && (c.phase.Trapped? || c.phase.Crashed?) }

  predicate CommandActive(s: Sys) { s.ctl.fsm.Go? || s.ctl.fsm.Executing? }

  /** An instruction records a trap in the claim of the hart, which is then the selected one. */
  lemma ActorTraps(e: Env, s: Sys, inp: Input)
    requires Inv(e, s) && Enabled(e, s, inp.actor) && !s.regs.ndmreset && !inp.actor.Nobody?
    ensures var i, f := inp.actor.hart, Act(e, s, inp.actor);
            && (TrapNow(e, s, inp) ==> i == Sel(e, s) && HasTrapped(f.claim) && MarkOf(s.places[i]).Nothing?)
            && (HasTrapped(f.claim) ==> HasTrapped(s.claims[i]) || TrapNow(e, s, inp))
            && (HasTrapped(s.claims[i]) ==> HasTrapped(f.claim) || MarkOf(s.places[i]).Halts?)
  {
    hide AtWord, Goal, RomMeans, Saved, Exec, Decode, Fetch, Effect, LogicalAt, BusMarks, Instruction, ParseCommand;
    var j := inp.actor.hart;
    assert LocalOk(e.cores[j], LocalOf(e, s, j), SharedOf(s));
    if inp.actor.Run? {
      match s.places[j]
      case Rom(_) => RomNeverTraps(e, s, j, inp.actor.fault);
      case AtWhereTo => WhereToNeverTraps(e, s, j, inp.actor.fault);
      case Word(_) => WordRuns(e, s, j, inp.actor.fault);
    }
  }

  /** While a command is active, its hart's claim records whether it has trapped. */
  lemma TrapRecorded(e: Env, s: Sys, inp: Input)
    requires Inv(e, s) && Enabled(e, s, inp.actor) && Disciplined(e, s, inp) && !s.regs.ndmreset && CommandActive(s)
    ensures var t, i := Tick(e, s, inp), Sel(e, s);
            && (t.ctl.fsm.Idle? || CommandActive(t))
            && (!t.ctl.fsm.Idle? ==> (HasTrapped(t.claims[i]) <==> HasTrapped(s.claims[i]) || TrapNow(e, s, inp)))
            && (t.ctl.fsm.Idle? ==> !TrapNow(e, s, inp))
  {
    hide AtWord, Goal, RomMeans, Saved, Exec, Decode, Fetch, LogicalAt;
    var i := Sel(e, s);
    assert LocalOk(e.cores[i], LocalOf(e, s, i), SharedOf(s));
    if !inp.actor.Nobody? {
      ActorMarks(e, s, inp.actor);
      ActorTraps(e, s, inp);
    }
  }

  lemma RomNeverTraps(e: Env, s: Sys, i: nat, fault: bool)
    requires Inv(e, s) && !s.regs.ndmreset && i < e.p.harts && s.places[i].Rom?
    ensures Executed(e, s, i, fault).Next?
  {
    SelectedBelow1024(e, s);
    assert LocalOk(e.cores[i], LocalOf(e, s, i), SharedOf(s));
    RomStep(e.cores[i], ViewOf(e, s), s.places[i].point, s.harts[i]);
  }

  lemma WhereToNeverTraps(e: Env, s: Sys, i: nat, fault: bool)
    requires Inv(e, s) && i < e.p.harts && s.places[i].AtWhereTo?
    ensures Executed(e, s, i, fault).Next?
  {
    var l, sh := LocalOf(e, s, i), SharedOf(s);
    assert LocalOk(e.cores[i], l, sh);
    WhereToActs(e.cores[i], ViewOf(e, s), l, sh, l, sh);
  }

  /** How a command without program-buffer code has left its hart: done, or untouched with an error. */
  ghost predicate Concluded(e: Env, u: Sys, i: nat, snap: Snapshot, trapped: bool)
    requires Shape(e, u) && i < e.p.harts && |snap.data| == 8
  {
    && u.places[i].Rom?
    && if trapped then Untouched(e.cores[i], Shared(u.regs.data, u.regs.cmderr, snap), LogicalOf(e, u, i))
                       && u.regs.cmderr == ERR_EXCEPTION
       else Result(LogicalOf(e, u, i), u.regs.data) == Goal(e.cores[i], i, snap)
  }

  /** The tick in which an active command ends: the selected hart reports HALTED, its registers and the
      data registers as its claim says. */
  lemma CommandEnds(e: Env, s: Sys, inp: Input)
    requires Inv(e, s) && Enabled(e, s, inp.actor) && Disciplined(e, s, inp) && !s.regs.ndmreset && CommandActive(s)
    requires Tick(e, s, inp).ctl.fsm.Idle?
    ensures var t, i := Tick(e, s, inp), Sel(e, s);
            && s.claims[i].Cmd? && t.places[i].Rom?
            && LogicalOf(e, t, i) == LogicalOf(e, s, i) && t.regs.data == s.regs.data
            && PhaseMeans(e.cores[i], SharedOf(t), s.harts[i], s.claims[i].phase, LoopHalt)
            && PhaseAt(s.claims[i].phase, LoopHalt)
  {
    hide AtWord, Goal, Saved, Exec, Decode, Fetch, Effect, Instruction, ParseCommand;
    var i := Sel(e, s);
    assert LocalOk(e.cores[i], LocalOf(e, s, i), SharedOf(s));
    EndsByHalting(e, s, inp);
    ActorMarks(e, s, inp.actor);
    RomRuns(e, s, i, inp.actor.fault);
    RomKeeps(e.cores[i], ViewOf(e, s), s.places[i].point, s.harts[i]);
  }

  lemma ConcludedAtEnd(e: Env, s: Sys, inp: Input)
    requires Inv(e, s) && Enabled(e, s, inp.actor) && Disciplined(e, s, inp) && !s.regs.ndmreset && CommandActive(s)
    requires Tick(e, s, inp).ctl.fsm.Idle? && !s.snap.command.postexec
    ensures Concluded(e, Tick(e, s, inp), Sel(e, s), s.snap, HasTrapped(s.claims[Sel(e, s)]))
  {
    hide LocalOk, Disciplined, Exec, Decode, Fetch;
    CommandEnds(e, s, inp);
    EndsByHalting(e, s, inp);
    BusyTick(e, s, inp);
  }

  lemma EndsByHalting(e: Env, s: Sys, inp: Input)
    requires Inv(e, s) && Enabled(e, s, inp.actor) && !s.regs.ndmreset && CommandActive(s)
    requires Tick(e, s, inp).ctl.fsm.Idle?
    ensures s.ctl.fsm.Executing? && !inp.actor.Nobody? && inp.actor.hart == Sel(e, s)
    ensures inp.actor.Run? && s.places[inp.actor.hart] == Rom(LoopHalt)
  {
    if !inp.actor.Nobody? { ActorMarks(e, s, inp.actor); }
  }

  /** From the start of a command to any later point before its end. */
  lemma {:induction false} CommandContinues(e: Env, ss: seq<Sys>, ins: seq<Input>, a: nat, b: nat)
    requires Trace(e, ss, ins) && a <= b < |ss| && CommandActive(ss[a]) && Occupied(ss, a, b + 1) && NoReset(ss, a, b)
    ensures Inv(e, ss[a]) && Inv(e, ss[b]) && CommandActive(ss[b])
    ensures Sel(e, ss[b]) == Sel(e, ss[a]) < e.p.harts && ss[b].snap == ss[a].snap
    ensures var i := Sel(e, ss[a]);
            HasTrapped(ss[b].claims[i]) <==> HasTrapped(ss[a].claims[i]) || TrapSeen(e, ss, ins, a, b)
  {
    hide Tick, Disciplined, Enabled, LocalOk;
    FrozenRegisters(e, ss, ins, a, b);
    if a < b {
      CommandContinues(e, ss, ins, a, b - 1);
      assert Linked(e, ss, ins, b - 1);
      StillActive(e, ss[b - 1], ins[b - 1], ss[b]);
      TrapExtends(e, ss, ins, a, b);
    }
  }

  lemma StillActive(e: Env, s: Sys, inp: Input, t: Sys)
    requires Inv(e, s) && Step(e, s, inp, t) && !s.regs.ndmreset && CommandActive(s) && !t.ctl.fsm.Idle?
    ensures CommandActive(t) && Sel(e, s) < e.p.harts
    ensures HasTrapped(t.claims[Sel(e, s)]) <==> HasTrapped(s.claims[Sel(e, s)]) || TrapNow(e, s, inp)
  {
    TrapRecorded(e, s, inp);
  }

  /** The compiler is correct under every interleaving. A command accepted for a parked hart, whatever
      other harts and the debugger do meanwhile, leaves that hart parked with exactly the command's
      meaning applied to its logical registers and to the data registers; if it traps, nothing has
      changed and cmderr says Exception. The command starts in tick a and ends in tick b. */
  lemma CommandMeans(e: Env, ss: seq<Sys>, ins: seq<Input>, a: nat, b: nat)
    requires Trace(e, ss, ins) && a < b < |ins| && NoReset(ss, a, b + 1)
    requires ss[a].ctl.fsm.Idle? && ss[a + 1].ctl.fsm.Go? && Occupied(ss, a + 1, b + 1) && ss[b + 1].ctl.fsm.Idle?
    requires !CommandOf(ss[a + 1]).postexec
    ensures Inv(e, ss[a + 1]) && Inv(e, ss[b + 1]) && Sel(e, ss[a + 1]) < e.p.harts
    ensures var t, u, i := ss[a + 1], ss[b + 1], Sel(e, ss[a + 1]);
            && t.places[i].Rom? && u.places[i].Rom?
            && if TrapSeen(e, ss, ins, a + 1, b)
               then LogicalOf(e, u, i) == LogicalOf(e, t, i) && u.regs.data == t.regs.data
                   && u.regs.cmderr == ERR_EXCEPTION
               else Result(LogicalOf(e, u, i), u.regs.data)
                    == Meaning(e.cores[i], i, CommandOf(t), LogicalOf(e, t, i), t.regs.data)
  {
    hide Tick, Disciplined, Enabled, Inv, Shape, Meaning, LogicalAt, TrapSeen, Sel;
    Always(e, ss, ins, a);
    Always(e, ss, ins, b + 1);
    assert Linked(e, ss, ins, a) && Linked(e, ss, ins, b);
    StartsClean(e, ss[a], ins[a]);
    CommandContinues(e, ss, ins, a + 1, b);
    ConcludedAtEnd(e, ss[b], ins[b]);
  }

  /** A command that asks for neither a transfer nor program-buffer code runs the illegal word, so it never
      completes: it always ends with an exception. */
  lemma EmptyCommandFails(e: Env, ss: seq<Sys>, ins: seq<Input>, a: nat, b: nat)
    requires Trace(e, ss, ins) && a < b < |ins| && NoReset(ss, a, b + 1)
    requires ss[a].ctl.fsm.Idle? && ss[a + 1].ctl.fsm.Go? && Occupied(ss, a + 1, b + 1) && ss[b + 1].ctl.fsm.Idle?
    requires !CommandOf(ss[a + 1]).postexec && !CommandOf(ss[a + 1]).transfer
    ensures TrapSeen(e, ss, ins, a + 1, b) && ss[b + 1].regs.cmderr == ERR_EXCEPTION
  {
    hide Tick, Disciplined, Enabled, Inv, Shape, LogicalAt;
    Always(e, ss, ins, a);
    assert Linked(e, ss, ins, a) && Linked(e, ss, ins, b);
    StartsClean(e, ss[a], ins[a]);
    CommandContinues(e, ss, ins, a + 1, b);
    BusyTick(e, ss[b], ins[b]);
    CommandEnds(e, ss[b], ins[b]);
  }

  /** The selected hart is parked and has not taken on anything when a command starts. */
  lemma StartsClean(e: Env, s: Sys, inp: Input)
    requires Inv(e, s) && Enabled(e, s, inp.actor) && Disciplined(e, s, inp)
    requires s.ctl.fsm.Idle? && Tick(e, s, inp).ctl.fsm.Go?
    ensures var t := Tick(e, s, inp);
            var i := Sel(e, t);
            i < e.p.harts && t.places[i].Rom? && !HasTrapped(t.claims[i])
            && t.snap == Snapshot(CommandOf(t), LogicalOf(e, t, i), t.regs.data)
  {
    hide AtWord, Goal, RomMeans, Saved, Exec, Decode, Fetch, At;
    var t := Tick(e, s, inp);
    TickKeeps(e, s, inp);
    var i := Sel(e, t);
    assert LocalOk(e.cores[i], LocalOf(e, t, i), SharedOf(t));
  }

  // ----- the program buffer

  /** When the selected hart reaches the program buffer, its first instruction finds the registers and the
      data as they were when the command started, with the transfer applied. */
  lemma BufferSees(e: Env, ss: seq<Sys>, ins: seq<Input>, a: nat, b: nat)
    requires Trace(e, ss, ins) && a < b < |ss| && ss[a].ctl.fsm.Idle? && ss[a + 1].ctl.fsm.Go? && Occupied(ss, a + 1, b)
    requires Inv(e, ss[a + 1]) && Inv(e, ss[b])
    requires var i := Sel(e, ss[a + 1]); i < e.p.harts && ss[b].claims[i] == Cmd(Entering)
    ensures var t, u, i := ss[a + 1], ss[b], Sel(e, ss[a + 1]);
            && u.places[i].Buffer? && u.harts[i].debug && u.harts[i].pc == PROGBUF_BASE && CommandOf(t).postexec
            && Result(LogicalAt(e.cores[i], EntryVec, u.harts[i]), u.regs.data)
               == Meaning(e.cores[i], i, CommandOf(t), LogicalOf(e, t, i), t.regs.data)
  {
    hide Tick, Disciplined, Enabled;
    var i := Sel(e, ss[a + 1]);
    Always(e, ss, ins, a);
    assert Linked(e, ss, ins, a);
    StartsClean(e, ss[a], ins[a]);
    FrozenRegisters(e, ss, ins, a + 1, b);
    assert LocalOk(e.cores[i], LocalOf(e, ss[b], i), SharedOf(ss[b]));
  }

  /** What program-buffer code leaves in the registers at its ebreak is what the debugger finds once the
      hart is parked again. */
  lemma BufferLeaves(e: Env, ss: seq<Sys>, ins: seq<Input>, a: nat, b: nat, i: nat, regs: HartState,
                    data: Option<seq<Byte>>)
    requires Trace(e, ss, ins) && a < b < |ins| && NoReset(ss, a, b + 1)
    requires Occupied(ss, a, b + 1) && ss[b + 1].ctl.fsm.Idle? && ins[a].actor == BufferRun(i, regs, data, Break)
    ensures Inv(e, ss[a]) && Inv(e, ss[b + 1]) && i < e.p.harts && ss[b + 1].places[i].Rom?
    ensures LogicalOf(e, ss[b + 1], i) == LogicalAt(e.cores[i], EntryVec, ss[a].harts[i])
  {
    hide Tick, Disciplined, Enabled, LocalOk, PhaseMeans, LogicalAt;
    assert Linked(e, ss, ins, a) && Linked(e, ss, ins, b);
    Always(e, ss, ins, a);
    Always(e, ss, ins, b);
    Always(e, ss, ins, b + 1);
    BreakRecords(e, ss[a], ins[a], ss[a + 1]);
    var at := LogicalAt(e.cores[i], EntryVec, ss[a].harts[i]);
    LeftStays(e, ss, ins, a + 1, b, i, at);
    LeftAtEnd(e, ss[b], ins[b], ss[b + 1], i, at);
  }

  lemma BreakRecords(e: Env, s: Sys, inp: Input, t: Sys)
    requires Inv(e, s) && Step(e, s, inp, t) && !s.regs.ndmreset && inp.actor.BufferRun? && inp.actor.exit.Break?
    ensures inp.actor.hart < e.p.harts
    ensures t.claims[inp.actor.hart] == Cmd(Left(LogicalAt(e.cores[inp.actor.hart], EntryVec, s.harts[inp.actor.hart])))
  {
    hide AtWord, Goal, RomMeans, Saved, Exec, Decode, Fetch, Instruction, ParseCommand;
  }

  lemma LeftAtEnd(e: Env, s: Sys, inp: Input, t: Sys, i: nat, at: Logical)
    requires Inv(e, s) && Step(e, s, inp, t) && !s.regs.ndmreset && !s.ctl.fsm.Idle? && t.ctl.fsm.Idle?
    requires i < e.p.harts && s.claims[i] == Cmd(Left(at))
    ensures Inv(e, t) && LogicalOf(e, t, i) == at && t.places[i].Rom?
  {
    TickKeeps(e, s, inp);
    assert LocalOk(e.cores[i], LocalOf(e, s, i), SharedOf(s));
    CommandEnds(e, s, inp);
  }

  /** The record of what the code left stays until the command ends. */
  lemma {:induction false} LeftStays(e: Env, ss: seq<Sys>, ins: seq<Input>, a: nat, b: nat, i: nat, at: Logical)
    requires Trace(e, ss, ins) && a <= b < |ss| && NoReset(ss, a, b) && Occupied(ss, a, b + 1)
    requires i < e.p.harts == |ss[a].claims| && ss[a].claims[i] == Cmd(Left(at))
    ensures |ss[b].claims| == e.p.harts && ss[b].claims[i] == Cmd(Left(at))
  {
    hide Inv, Shape, Tick, Disciplined, Enabled;
    if a < b {
      LeftStays(e, ss, ins, a, b - 1, i, at);
      Always(e, ss, ins, b - 1);
      assert Linked(e, ss, ins, b - 1);
      LeftStep(e, ss[b - 1], ins[b - 1], ss[b], i, at);
    }
  }

  lemma LeftStep(e: Env, s: Sys, inp: Input, t: Sys, i: nat, at: Logical)
    requires Inv(e, s) && Step(e, s, inp, t) && !s.regs.ndmreset && !t.ctl.fsm.Idle?
    requires i < e.p.harts && s.claims[i] == Cmd(Left(at))
    ensures |t.claims| == e.p.harts && t.claims[i] == Cmd(Left(at))
  {
    hide AtWord, Goal, RomMeans, Saved, Exec, Decode, Fetch, Instruction, ParseCommand;
    assert LocalOk(e.cores[i], LocalOf(e, s, i), SharedOf(s));
    if !inp.actor.Nobody? && inp.actor.hart == i {
      ActorMarks(e, s, inp.actor);
      RomNeverTraps(e, s, i, inp.actor.fault);
    }
  }
}
