/**
 The invariant of the run-control protocol, stated hart by hart, and the proof that every clock tick
 keeps it.
 */
module RunInvariant {
  import opened Bits
  import opened Bytes
  import opened RiscV
  import opened AbstractCommand
  import opened Hart
  import opened ParkLoop
  import opened Transfer
  import opened DmMem
  import opened DmCsrs
  import opened RunControl

  /** One hart and the part of the module it depends on. */
  datatype Local = Local(mine: bool, fsm: Fsm, halted: bool, resuming: bool, h: HartState, place: Place, claim: Claim)

  datatype Shared = Shared(data: seq<Byte>, cmderr: CmdErr, snap: Snapshot)

  // ----- where a claim may be

  /** From ebreak back to the HALTED store. */
  predicate Returning(p: Point) {
    (p.EntryVec? || p.EntryFence? || p.SaveS0? || p.SaveA0? || p.Base1? || p.Base2?
     || p.Base3? || p.LoopId? || p.LoopHalt?)
  }

  predicate Excepting(p: Point) {
    p.ExcVec? || p.Exc1? || p.Exc2? || p.Exc3? || p.ExcStore? || p.ExcA0? || p.ExcS0? || p.ExcBreak?
  }

  predicate BeforeReport(p: Point) { p.ExcVec? || p.Exc1? || p.Exc2? || p.Exc3? || p.ExcStore? }

  predicate Leaving(p: Point) { p.GoA0? || p.GoS0? || p.GoJump? }

  predicate PhaseAt(ph: Phase, p: Point) {
    match ph
    case Started => Leaving(p)
    case Done | Left(_) => Returning(p)
    case Trapped | Crashed => Excepting(p) || Returning(p)
    case _ => false
  }

  /** A claim on a command: before the GOING store the state machine is in Go, after it in Executing. */
  predicate CmdAt(l: Local, p: Point)
    requires l.claim.Cmd?
  {
    l.mine
    && ((l.fsm.Go? && l.claim.phase.Started? && (p.LoopAnd? || p.LoopGo? || p.GoStore?))
        || (l.fsm.Executing? && PhaseAt(l.claim.phase, p)))
  }

  predicate ResAt(l: Local, p: Point) {
    l.mine && l.fsm.Resume? && !l.resuming
    && (p.LoopAnd2? || p.LoopResume? || p.ResVec? || p.ResId? || p.ResStore?)
  }

  /** The polled value held in s0 is the claim. */
  predicate Polled(l: Local, p: Point) {
    var s0 := l.h.x[S0];
    && (p.LoopAnd? ==> (s0 % 2 == 1 <==> l.claim.Cmd?))
    && (p.LoopGo? ==> (s0 == 1 <==> l.claim.Cmd?))
    && (p.LoopAnd2? ==> (s0 / 2 == 1 <==> l.claim.Res?))
    && (p.LoopResume? ==> (s0 == 2 <==> l.claim.Res?))
  }

  predicate RomOk(l: Local, p: Point) {
    && (l.claim.Cmd? ==> CmdAt(l, p))
    && (l.claim.Res? ==> ResAt(l, p))
    && (p.GoStore? || Leaving(p) || Excepting(p) ==> l.claim.Cmd?)
    && (p.ResVec? || p.ResId? || p.ResStore? ==> l.claim.Res?)
    && Polled(l, p)
    && (l.halted ==> !p.ResA0? && !p.ResS0? && !p.ResDret?)
    && (l.mine && l.fsm.Resume? && l.resuming ==> p.ResA0? || p.ResS0?)
  }

  // ----- what the registers mean meanwhile

  function Goal(core: Core, id: nat, s: Snapshot): Result
    requires |s.data| == 8
  {
    Meaning(core, id, s.command, s.logical, s.data)
  }

  predicate Untouched(core: Core, sh: Shared, l: Logical) { l == sh.snap.logical && sh.data == sh.snap.data }

  predicate PhaseMeans(core: Core, sh: Shared, h: HartState, ph: Phase, p: Point)
    requires |sh.snap.data| == 8
  {
    var l := LogicalAt(core, p, h);
    match ph
    case Started => Untouched(core, sh, l) && Saved(core, sh.snap.logical, h)
    case Done => !sh.snap.command.postexec && sh.snap.command.transfer
               && Result(l, sh.data) == Goal(core, h.id, sh.snap)
    case Trapped => Untouched(core, sh, l) && (BeforeReport(p) || sh.cmderr == ERR_EXCEPTION)
    case Left(at) => sh.snap.command.postexec && l == at
    case Crashed => sh.snap.command.postexec && (BeforeReport(p) || sh.cmderr == ERR_EXCEPTION)
    case _ => true
  }

  predicate RomMeans(core: Core, l: Local, sh: Shared, p: Point)
    requires |sh.snap.data| == 8
  {
    && (l.mine && l.fsm.Go? ==> Untouched(core, sh, LogicalAt(core, p, l.h)))
    && (l.claim.Cmd? && l.fsm.Executing? ==> PhaseMeans(core, sh, l.h, l.claim.phase, p))
  }

  /** The selected hart is outside the ROM, carrying out the command. */
  predicate Carrying(l: Local) { l.claim.Cmd? && l.mine && l.fsm.Executing? && l.h.debug }

  predicate LocalOk(core: Core, l: Local, sh: Shared)
    requires |sh.snap.data| == 8
  {
    && (l.mine && l.fsm.Go? ==> l.halted)
    && (l.mine && l.fsm.Executing? ==> l.claim.Cmd?)
    && match l.place
       case Out => !l.h.debug && l.claim.Free? && !l.halted && !(l.mine && l.fsm.Resume? && l.resuming)
       case Rom(p) => At(core, p, l.h) && RomOk(l, p) && RomMeans(core, l, sh, p)
       case AtWhereTo =>
         && Carrying(l) && l.claim.phase.Started? && l.h.pc == WHERETO && Wf(l.h) && l.h.id < 1024
         && Untouched(core, sh, LogicalAt(core, EntryVec, l.h)) && Saved(core, sh.snap.logical, l.h)
       case Word(k) =>
         && Carrying(l) && l.claim.phase.Started? && k < 10
         && (sh.snap.command.transfer || k == 0)
         && AtWord(core, sh.snap.command, sh.snap.logical, sh.snap.data, k, l.h, sh.data)
       case Buffer =>
         && Carrying(l) && sh.snap.command.postexec && Wf(l.h) && l.h.id < 1024
         && (l.claim.phase.Entering? || l.claim.phase.Running?)
         && (l.claim.phase.Entering? ==>
               l.h.pc == PROGBUF_BASE
               && Result(LogicalAt(core, EntryVec, l.h), sh.data) == Goal(core, l.h.id, sh.snap))
  }

  // ----- what the rest of the module does in a tick

  /** The control-register store of a tick. */
  datatype Mark = Nothing | Halts | Goes | Resumes | Excepts

  function MarkOf(place: Place): Mark {
    match place
    case Rom(p) =>
      if p.LoopHalt? then Halts else if p.GoStore? then Goes else if p.ResStore? then Resumes
      else if p.ExcStore? then Excepts else Nothing
    case _ => Nothing
  }

  /** How the control bits of one hart move when m is the store this hart itself makes. */
  predicate ControlMoves(l: Local, m: Mark, t: Local) {
    && (t.mine == l.mine
        || (l.fsm.Idle? && !t.fsm.Go? && !t.fsm.Executing? && (t.fsm.Resume? ==> !t.resuming)))
    && (t.halted ==> l.halted || m.Halts?)
    && (l.halted && !m.Resumes? ==> t.halted)
    && (m.Resumes? ==> !t.halted)
    && (t.resuming ==> l.resuming || m.Resumes?)
    && (m.Resumes? && l.halted ==> t.resuming)
    && (l.mine ==>
          match l.fsm
          case Idle => !t.fsm.Executing? && (t.fsm.Go? ==> l.halted) && (t.fsm.Resume? ==> l.halted && !l.resuming)
          case Go => t.fsm == if m.Goes? then Executing else Go
          case Resume => t.fsm == if l.resuming then Idle else Resume
          case Executing => t.fsm == if m.Halts? then Idle else Executing)
  }

  /** How data, cmderr and the snapshot move, as far as the selected hart depends on them. */
  predicate SharedMoves(core: Core, l: Local, sh: Shared, m: Mark, data: Option<seq<Byte>>, t: Local, th: Shared) {
    && (l.mine && !l.fsm.Idle? ==>
          && th.data == (if data.Some? then data.value else sh.data) && th.snap == sh.snap
          && (l.fsm.Executing? && m.Excepts? ==> th.cmderr == ERR_EXCEPTION)
          && (l.fsm.Executing? && sh.cmderr == ERR_EXCEPTION ==> th.cmderr == ERR_EXCEPTION))
    && (l.mine && l.fsm.Idle? && t.fsm.Go? ==>
          Untouched(core, th, LogicalNow(core, t.place, t.h)))
  }

  predicate Same(l: Local, t: Local) { t.h == l.h && t.place == l.place && t.claim == l.claim }

  // ----- harts that do nothing in this tick

  lemma BystanderKeeps(core: Core, l: Local, sh: Shared, t: Local, th: Shared)
    requires |sh.snap.data| == 8 == |th.snap.data|
    requires LocalOk(core, l, sh) && Same(l, t) && ControlMoves(l, Nothing, t)
    requires SharedMoves(core, l, sh, Nothing, None, t, th)
    ensures LocalOk(core, t, th)
  {
  }

  // ----- the hart that executes an instruction

  /** The flag byte a hart polls: the state machine's request if the hart is selected, else zero. */
  function Flags(l: Local): nat { if !l.mine then 0 else if l.fsm.Resume? then 2 else if l.fsm.Go? then 1 else 0 }

  predicate RomActed(core: Core, v: View, c: Command, l: Local, p: Point, t: Local)
    requires Exists(core.Snd(), p)
  {
    && t.h == ParkLoop.Effect(core, v, p, l.h)
    && t.place == NextPlace(core, Rom(p), l.h, c)
    && t.claim == NextClaim(Rom(p), l.claim, Flags(l), c)
    && FlagOf(v, l.h.id) == Flags(l)
  }

  /** A step that stays inside the ROM keeps the claim discipline. */
  lemma RomClaims(core: Core, v: View, c: Command, l: Local, sh: Shared, p: Point, t: Local)
    requires core.Valid() && |sh.snap.data| == 8
    requires LocalOk(core, l, sh) && l.place == Rom(p) && !p.GoJump? && !p.ResDret? && RomActed(core, v, c, l, p, t)
    requires ControlMoves(l, MarkOf(l.place), t)
    ensures t.place == Rom(Succ(core.Snd(), p, Taken(p, l.h))) && RomOk(t, t.place.point)
    ensures t.mine && t.fsm.Go? ==> t.halted
    ensures t.mine && t.fsm.Executing? ==> t.claim.Cmd?
  {
    if p.LoopFlag? || p.LoopFlag2? {
      ReadClaims(core, v, c, l, p, t);
    } else if Testing(p) {
      TestClaims(core, v, c, l, p, t);
    } else if p.GoStore? || Leaving(p) || Excepting(p) {
      CommandClaims(core, v, c, l, p, t);
    } else {
      PlainClaims(core, v, c, l, p, t);
    }
  }

  /** Masking and testing the flag byte. */
  predicate Testing(p: Point) { p.LoopAnd? || p.LoopAnd2? || p.LoopGo? || p.LoopResume? }

  lemma ReadClaims(core: Core, v: View, c: Command, l: Local, p: Point, t: Local)
    requires core.Valid() && At(core, p, l.h) && RomOk(l, p) && l.place == Rom(p) && RomActed(core, v, c, l, p, t)
    requires p.LoopFlag? || p.LoopFlag2?
    requires ControlMoves(l, Nothing, t)
    ensures RomOk(t, Succ(core.Snd(), p, Taken(p, l.h)))
  {
  }

  lemma TestClaims(core: Core, v: View, c: Command, l: Local, p: Point, t: Local)
    requires core.Valid() && At(core, p, l.h) && RomOk(l, p) && l.place == Rom(p) && RomActed(core, v, c, l, p, t)
    requires Testing(p) && ControlMoves(l, Nothing, t)
    ensures RomOk(t, Succ(core.Snd(), p, Taken(p, l.h)))
  {
    hide FlagOf, NextPc;
  }

  lemma CommandClaims(core: Core, v: View, c: Command, l: Local, p: Point, t: Local)
    requires core.Valid() && At(core, p, l.h) && RomOk(l, p) && l.place == Rom(p) && RomActed(core, v, c, l, p, t)
    requires (p.GoStore? || Leaving(p) || Excepting(p)) && !p.GoJump? && ControlMoves(l, MarkOf(l.place), t)
    ensures RomOk(t, Succ(core.Snd(), p, Taken(p, l.h)))
  {
    hide Effect, FlagOf, Index, Scratch;
  }

  lemma PlainClaims(core: Core, v: View, c: Command, l: Local, p: Point, t: Local)
    requires core.Valid() && At(core, p, l.h) && RomOk(l, p) && l.place == Rom(p) && RomActed(core, v, c, l, p, t)
    requires !p.LoopFlag? && !p.LoopFlag2? && !Testing(p) && !p.GoStore? && !Leaving(p) && !Excepting(p)
    requires !p.ResDret? && ControlMoves(l, MarkOf(l.place), t)
    requires l.mine && l.fsm.Go? ==> l.halted
    ensures RomOk(t, Succ(core.Snd(), p, Taken(p, l.h)))
  {
    hide Effect, FlagOf, Index, Scratch, Flags;
  }

  /** From the GOING store on, the hart's own s0 and a0 are in the scratch registers. */
  lemma StillSaved(core: Core, v: View, c: Command, l: Local, sh: Shared, p: Point, t: Local)
    requires core.Valid() && |sh.snap.data| == 8
    requires LocalOk(core, l, sh) && l.place == Rom(p) && RomActed(core, v, c, l, p, t)
    ensures p.GoStore? && l.mine && l.fsm.Go? ==> Saved(core, sh.snap.logical, t.h)
    ensures Leaving(p) && !p.GoJump? && Saved(core, sh.snap.logical, l.h) ==> Saved(core, sh.snap.logical, t.h)
  {
    hide FlagOf, Flags, Goal, Index;
  }

  /** ... and what the registers mean: while an exception is being reported, */
  lemma ReportMeaning(core: Core, v: View, c: Command, l: Local, sh: Shared, p: Point, t: Local, th: Shared)
    requires core.Valid() && |sh.snap.data| == 8 == |th.snap.data|
    requires LocalOk(core, l, sh) && l.place == Rom(p) && Excepting(p) && RomActed(core, v, c, l, p, t)
    requires ControlMoves(l, MarkOf(l.place), t) && SharedMoves(core, l, sh, MarkOf(l.place), None, t, th)
    requires t.place.Rom? && RomOk(t, t.place.point)
    requires LogicalAt(core, t.place.point, t.h) == LogicalAt(core, p, l.h)
    ensures RomMeans(core, t, th, t.place.point)
  {
    hide Goal, FlagOf, Index, Flags, LogicalAt, Scratch, Polled, Saved;
  }

  /** and everywhere else in the ROM. */
  lemma RomMeaning(core: Core, v: View, c: Command, l: Local, sh: Shared, p: Point, t: Local, th: Shared)
    requires core.Valid() && |sh.snap.data| == 8 == |th.snap.data|
    requires LocalOk(core, l, sh) && l.place == Rom(p) && !p.GoJump? && !p.ResDret? && !Excepting(p)
    requires RomActed(core, v, c, l, p, t)
    requires ControlMoves(l, MarkOf(l.place), t) && SharedMoves(core, l, sh, MarkOf(l.place), None, t, th)
    requires t.place.Rom? && RomOk(t, t.place.point)
    requires LogicalAt(core, t.place.point, t.h) == LogicalAt(core, p, l.h)
    ensures RomMeans(core, t, th, t.place.point)
  {
    hide Goal, FlagOf, Index, Flags, LogicalAt, Scratch, Polled, Saved, Succ;
    StillSaved(core, v, c, l, sh, p, t);
  }

  lemma RomKeepsOk(core: Core, v: View, c: Command, l: Local, sh: Shared, p: Point, t: Local, th: Shared)
    requires core.Valid() && |sh.snap.data| == 8 == |th.snap.data|
    requires LocalOk(core, l, sh) && l.place == Rom(p) && RomActed(core, v, c, l, p, t)
    requires ControlMoves(l, MarkOf(l.place), t) && SharedMoves(core, l, sh, MarkOf(l.place), None, t, th)
    ensures LocalOk(core, t, th)
  {
    if p.GoJump? {
    } else if p.ResDret? {
    } else {
      RomKeeps(core, v, p, l.h);
      RomClaims(core, v, c, l, sh, p, t);
      if Excepting(p) {
        ReportMeaning(core, v, c, l, sh, p, t, th);
      } else {
        RomMeaning(core, v, c, l, sh, p, t, th);
      }
    }
  }

  /** WhereTo sends the hart to the generated words, or straight to the program buffer. */
  lemma WhereToActs(core: Core, v: View, l: Local, sh: Shared, t: Local, th: Shared)
    requires core.Valid() && v.Valid() && |sh.snap.data| == 8 == |th.snap.data|
    requires LocalOk(core, l, sh) && l.place.AtWhereTo? && v.command == sh.snap.command
    requires !Unsupported(core.Cfg(), v.command)
    ensures Exec(core, v, l.h, Decode(Fetch(core, v, l.h.pc)))
            == Next(l.h.(pc := if SkipsWords(v.command) then PROGBUF_BASE else ABSTRACT_BASE), None)
    ensures t.h == l.h.(pc := if SkipsWords(v.command) then PROGBUF_BASE else ABSTRACT_BASE)
            && t.place == NextPlace(core, l.place, l.h, v.command)
            && t.claim == NextClaim(l.place, l.claim, Flags(l), v.command)
            && ControlMoves(l, Nothing, t) && SharedMoves(core, l, sh, Nothing, None, t, th)
            ==> LocalOk(core, t, th)
  {
    ConstantWords();
  }

  /** One generated word before the last that does not trap. */
  lemma WordActs(core: Core, v: View, l: Local, sh: Shared, k: nat, st: Option<Access>, t: Local, th: Shared)
    requires core.Valid() && v.Valid() && |sh.snap.data| == 8 == |th.snap.data|
    requires LocalOk(core, l, sh) && l.place == Word(k) && k < 9 && v.command == sh.snap.command && v.data == sh.data
    requires !Unsupported(core.Cfg(), v.command)
    requires Exec(core, v, l.h, Decode(Fetch(core, v, l.h.pc))) == Next(t.h, st)
    requires t.place == Word(k + 1) && t.claim == l.claim
    requires ControlMoves(l, Nothing, t) && SharedMoves(core, l, sh, Nothing, DataOf(core.width, v.data, st), t, th)
    ensures LocalOk(core, t, th) && (st.Some? ==> st.value.off == DATA_BASE)
  {
    var s := sh.snap;
    WordStep(core, v, s.command, s.logical, s.data, k, l.h);
    NextWord(core, v, s.command, s.logical, s.data, k, t.h, st, th.data);
  }

  /** What a word leaves behind, said of the data registers as the bus updates them. */
  lemma NextWord(core: Core, v: View, c: Command, l: Logical, d: seq<Byte>, k: nat, h: HartState, st: Option<Access>,
                 data: seq<Byte>)
    requires core.Valid() && v.Valid() && |d| == 8 && k < 9 && Continues(core, c, l, d, k, v, Next(h, st))
    requires var stored := DataOf(core.width, v.data, st); data == if stored.Some? then stored.value else v.data
    ensures AtWord(core, c, l, d, k + 1, h, data) && h.debug && (st.Some? ==> st.value.off == DATA_BASE)
  {
    assert data == DataAfter(core, v.data, st);
  }

  /** The last generated word. */
  lemma LastActs(core: Core, v: View, l: Local, sh: Shared, t: Local, th: Shared)
    requires core.Valid() && v.Valid() && |sh.snap.data| == 8 == |th.snap.data|
    requires LocalOk(core, l, sh) && l.place == Word(9) && v.command == sh.snap.command && v.data == sh.data
    requires !Unsupported(core.Cfg(), v.command)
    requires t.h == l.h.(pc := if v.command.postexec then PROGBUF_BASE else HALT_ADDRESS)
    requires t.place == NextPlace(core, l.place, l.h, v.command)
    requires t.claim == NextClaim(l.place, l.claim, Flags(l), v.command)
    requires ControlMoves(l, Nothing, t) && SharedMoves(core, l, sh, Nothing, None, t, th)
    ensures LocalOk(core, t, th)
  {
    hide Exec, Decode, Fetch, Meaning, Before, After, Carried, Borrowed, Unsupported;
    var s := sh.snap;
    LastWord(core, v, s.command, s.logical, s.data, l.h);
  }

  /** A trap in a generated word. */
  lemma TrapActs(core: Core, l: Local, sh: Shared, k: nat, t: Local, th: Shared)
    requires core.Valid() && |sh.snap.data| == 8 == |th.snap.data|
    requires LocalOk(core, l, sh) && l.place == Word(k) && k < 9 && MayTrap(core.Cfg(), sh.snap.command, k)
    requires t.h == l.h.(pc := EXCEPTION_ADDRESS) && t.place == Rom(ExcVec) && t.claim == Cmd(Trapped)
    requires ControlMoves(l, Nothing, t) && SharedMoves(core, l, sh, Nothing, None, t, th)
    ensures LocalOk(core, t, th)
  {
    TrapRestores(core, sh.snap.command, sh.snap.logical, sh.snap.data, k, l.h, sh.data);
  }

  /** Program-buffer code, however it ends. */
  lemma BufferActs(core: Core, l: Local, sh: Shared, regs: HartState, data: Option<seq<Byte>>, exit: Exit,
                   t: Local, th: Shared)
    requires core.Valid() && |sh.snap.data| == 8 == |th.snap.data|
    requires LocalOk(core, l, sh) && l.place.Buffer?
    requires match exit
             case Stay(pc) => t.h == Adopt(l.h, regs, pc) && t.place == Buffer && t.claim == Cmd(Running)
             case Break =>
               t.h == l.h.(pc := HALT_ADDRESS) && t.place == Rom(EntryVec)
               && t.claim == Cmd(Left(LogicalAt(core, EntryVec, t.h)))
             case Fault => t.h == l.h.(pc := EXCEPTION_ADDRESS) && t.place == Rom(ExcVec) && t.claim == Cmd(Crashed)
    requires ControlMoves(l, Nothing, t) && SharedMoves(core, l, sh, Nothing, data, t, th)
    ensures LocalOk(core, t, th)
  {
    hide Goal, AtWord, Saved, Flags;
  }

  /** A running hart halts. */
  lemma EnterActs(core: Core, l: Local, sh: Shared, regs: HartState, t: Local, th: Shared)
    requires core.Valid() && |sh.snap.data| == 8 == |th.snap.data|
    requires LocalOk(core, l, sh) && l.place.Out? && l.h.id < 1024
    requires t.h == Adopt(l.h, regs, HALT_ADDRESS) && t.place == Rom(EntryVec) && t.claim == l.claim
    requires ControlMoves(l, Nothing, t) && SharedMoves(core, l, sh, Nothing, None, t, th)
    ensures LocalOk(core, t, th)
  {
  }
}
