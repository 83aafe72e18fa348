/**
 The run-control protocol: up to 1024 harts in the park loop, the debug memory and the register file,
 wired as in src/dm_top.sv, one clock tick at a time. In a tick at most one hart executes one
 instruction and at most one DMI request is taken.
 */
module RunControl {
  import opened Bits
  import opened Bytes
  import opened RiscV
  import opened AbstractCommand
  import opened Hart
  import opened ParkLoop
  import opened Transfer
  import opened DmMem
  import opened DmCsrs

  /** Where a hart's program counter is. */
  datatype Place = Out | Rom(point: Point) | AtWhereTo | Word(k: nat) | Buffer

  /** How far the command a hart has taken on has come. */
  datatype Phase = Started | Done | Trapped | Entering | Running | Left(at: Logical) | Crashed

  /** What a hart has read from its flag byte and not yet answered with its next HALTED or RESUMING store. */
  datatype Claim = Free | Cmd(phase: Phase) | Res

  datatype Snapshot = Snapshot(command: Command, logical: Logical, data: seq<Byte>)

  datatype Sys = Sys(ctl: Control, regs: RunRegs, harts: seq<HartState>, places: seq<Place>, claims: seq<Claim>,
                     snap: Snapshot, recent: bool)

  datatype Env = Env(p: Params, cores: seq<Core>)
  {
    ghost predicate Valid() {
      && p.Valid() && p.harts <= 1024 && |cores| == p.harts
      && forall i :: 0 <= i < p.harts ==> cores[i].Valid() && cores[i].Cfg() == p.cfg && cores[i].width == p.width
    }
  }

  ghost predicate Shape(e: Env, s: Sys) {
    && e.Valid() && s.ctl.Valid(e.p) && s.regs.Valid(e.p)
    && |s.harts| == |s.places| == |s.claims| == e.p.harts && |s.snap.data| == 8
  }

  // ----- what may happen in a tick

  /** How an instruction of program-buffer code ends. */
  datatype Exit = Stay(pc: int) | Break | Fault

  /** Run executes one instruction of the ROM, WhereTo or the generated words; fault asks for a trap
      where one is possible. Enter is a hart halting, with arbitrary registers. BufferRun is one
      instruction of a program buffer that leaves the module's control registers alone. */
  datatype Actor =
    | Nobody
    | Run(hart: nat, fault: bool)
    | Enter(hart: nat, regs: HartState)
    | BufferRun(hart: nat, regs: HartState, data: Option<seq<Byte>>, exit: Exit)

  datatype Input = Input(req: Option<Request>, actor: Actor, resetAck: bool)

  function Sel(e: Env, s: Sys): nat { HartIndex(e.p, s.regs.hartsel) }

  function ProgbufWords(b: seq<Bits.Word>): seq<bv32>
  {
    seq(|b|, k requires 0 <= k < |b| => Instruction(b[k]))
  }

  function CommandOf(s: Sys): Command { ParseCommand(s.regs.command) }

  function ViewOf(e: Env, s: Sys): View {
    var on := !s.regs.ndmreset;
    Hart.View(Sel(e, s), s.ctl.fsm.Go? && on, s.ctl.fsm.Resume? && on, CmdBusy(s.ctl), CommandOf(s),
              ProgbufWords(s.regs.progbuf), s.regs.data)
  }

  // ----- one hart

  /** One hart's part of a tick. */
  datatype Turn = Turn(hart: HartState, place: Place, claim: Claim, bus: Bus, data: Option<seq<Byte>>)

  predicate SkipsWords(c: Command) { c.cmdtype == 0 && !c.transfer && c.postexec }

  function NextPlace(core: Core, place: Place, h: HartState, c: Command): Place {
    match place
    case Rom(p) =>
      if p.GoJump? then AtWhereTo
      else if p.ResDret? then Out
      else if Exists(core.Snd(), p) then Rom(Succ(core.Snd(), p, Taken(p, h)))
      else place
    case AtWhereTo => if SkipsWords(c) then Buffer else Word(0)
    case Word(k) => if k < 9 then Word(k + 1) else if c.postexec then Buffer else Rom(EntryVec)
    case _ => place
  }

  function NextClaim(place: Place, claim: Claim, flag: nat, c: Command): Claim {
    match place
    case Rom(p) =>
      if p.LoopFlag? && flag % 2 == 1 then Cmd(Started)
      else if p.LoopFlag2? && flag / 2 == 1 then Res
      else if p.LoopHalt? || p.ResStore? then Free
      else claim
    case AtWhereTo => if SkipsWords(c) then Cmd(Entering) else claim
    case Word(k) => if k < 9 then claim else if c.postexec then Cmd(Entering) else Cmd(Done)
    case _ => claim
  }

  /** The slave-port transaction of a store outside the data registers. */
  function BusOf(width: nat, st: Option<Access>): Bus
    requires width in {32, 64}
  {
    if st.Some? && !InData(st.value.off) then StoreWrite(width, st.value.off, st.value.bytes) else NoReq
  }

  /** The data registers after a store into them; the two bus cycles of an eight-byte store over a
      32-bit bus count as one step. */
  function DataOf(width: nat, data: seq<Byte>, st: Option<Access>): (d: Option<seq<Byte>>)
    requires width in {32, 64} && |data| == 8
    ensures d.Some? ==> |d.value| == 8
  {
    if st.Some? && InData(st.value.off) then Some(DataStored(width, data, st.value.off, st.value.bytes)) else None
  }

  /** What executing hart i's next instruction does. */
  function Executed(e: Env, s: Sys, i: nat, fault: bool): Outcome
    requires Shape(e, s) && i < e.p.harts
  {
    var core, v, h := e.cores[i], ViewOf(e, s), s.harts[i];
    if fault && s.places[i].Word? && MayTrap(core.Cfg(), v.command, s.places[i].k) then Trap
    else Exec(core, v, h, Decode(Fetch(core, v, h.pc)))
  }

  function RunHart(e: Env, s: Sys, i: nat, fault: bool): (f: Turn)
    requires Shape(e, s) && i < e.p.harts
    ensures f.data.Some? ==> |f.data.value| == 8
  {
    var core, h, place, claim := e.cores[i], s.harts[i], s.places[i], s.claims[i];
    match Executed(e, s, i, fault)
    case Next(h', st) =>
      Turn(h', NextPlace(core, place, h, CommandOf(s)),
             NextClaim(place, claim, FlagOf(ViewOf(e, s), h.id), CommandOf(s)),
             BusOf(e.p.width, st), DataOf(e.p.width, s.regs.data, st))
    case Trap =>
      Turn(h.(pc := EXCEPTION_ADDRESS), Rom(ExcVec), if claim.Cmd? then Cmd(Trapped) else claim, NoReq, None)
    case Unmodelled => Turn(h, place, claim, NoReq, None)
  }

  /** Registers as code left them; x0 is hard-wired. */
  function Adopt(h: HartState, regs: HartState, pc: int): HartState {
    regs.(id := h.id, debug := true, pc := pc, x := regs.x[X0 := 0])
  }

  function BufferHart(e: Env, s: Sys, i: nat, regs: HartState, data: Option<seq<Byte>>, exit: Exit): Turn
    requires Shape(e, s) && i < e.p.harts
  {
    var core, h := e.cores[i], s.harts[i];
    match exit
    case Stay(pc) => Turn(Adopt(h, regs, pc), Buffer, Cmd(Running), NoReq, data)
    case Break =>
      var b := h.(pc := HALT_ADDRESS);
      Turn(b, Rom(EntryVec), Cmd(Left(LogicalAt(core, EntryVec, b))), NoReq, None)
    case Fault => Turn(h.(pc := EXCEPTION_ADDRESS), Rom(ExcVec), Cmd(Crashed), NoReq, None)
  }

  function Act(e: Env, s: Sys, a: Actor): (f: Turn)
    requires Shape(e, s) && !a.Nobody? && a.hart < e.p.harts
    requires a.BufferRun? && a.data.Some? ==> |a.data.value| == 8
    ensures f.data.Some? ==> |f.data.value| == 8
  {
    match a
    case Run(i, fault) => RunHart(e, s, i, fault)
    case Enter(i, regs) => Turn(Adopt(s.harts[i], regs, HALT_ADDRESS), Rom(EntryVec), s.claims[i], NoReq, None)
    case BufferRun(i, regs, data, exit) => BufferHart(e, s, i, regs, data, exit)
  }

  // ----- the whole module

  /** The actor's hart exists and is where the action applies. */
  predicate Enabled(e: Env, s: Sys, a: Actor)
    requires |s.places| == e.p.harts
  {
    match a
    case Nobody => true
    case Run(i, _) => i < e.p.harts && !s.places[i].Out? && !s.places[i].Buffer?
    case Enter(i, _) => i < e.p.harts && s.places[i].Out?
    case BufferRun(i, _, data, exit) =>
      i < e.p.harts && s.places[i].Buffer? && (data.Some? ==> |data.value| == 8)
  }

  function MemIn(e: Env, s: Sys, q: Option<Request>, bus: Bus): In {
    In(s.regs.ndmreset, s.regs.hartsel, RequestVector(e.p, s.regs, s.regs.haltreq),
       RequestVector(e.p, s.regs, s.regs.resumereq), ClearsAck(s.regs, q), ProgbufWords(s.regs.progbuf),
       s.regs.data, s.regs.cmdValid, CommandOf(s), bus)
  }

  function ControlAfter(e: Env, s: Sys, q: Option<Request>, bus: Bus): (c: Control)
    requires Shape(e, s)
    ensures c.Valid(e.p)
  {
    ControlNext(e.p, s.ctl, MemIn(e, s, q, bus))
  }

  function RegsAfter(e: Env, s: Sys, inp: Input, bus: Bus, data: Option<seq<Byte>>): (r: RunRegs)
    requires Shape(e, s) && (data.Some? ==> |data.value| == 8)
    ensures r.Valid(e.p)
  {
    RunNext(e.p, s.regs, inp.req,
            RunIn(CmdBusy(s.ctl), CommandError(e.p, s.ctl, MemIn(e, s, inp.req, bus)), data,
                  s.ctl.resuming, inp.resetAck))
  }

  /** The logical registers of a hart that is inside the ROM. */
  function LogicalNow(core: Core, place: Place, h: HartState): Logical {
    LogicalAt(core, if place.Rom? then place.point else EntryVec, h)
  }

  function Assemble(e: Env, s: Sys, inp: Input, harts: seq<HartState>, places: seq<Place>, claims: seq<Claim>,
                    bus: Bus, data: Option<seq<Byte>>): (t: Sys)
    requires Shape(e, s) && (data.Some? ==> |data.value| == 8) && |harts| == |places| == |claims| == e.p.harts
    ensures Shape(e, t)
  {
    var ctl, regs := ControlAfter(e, s, inp.req, bus), RegsAfter(e, s, inp, bus, data);
    var sel := HartIndex(e.p, regs.hartsel);
    var snap := if s.ctl.fsm.Idle? && ctl.fsm.Go? && sel < e.p.harts
                then Snapshot(ParseCommand(regs.command), LogicalNow(e.cores[sel], places[sel], harts[sel]), regs.data)
                else s.snap;
    Sys(ctl, regs, harts, places, claims, snap, inp.req.Some?)
  }

  /** One clock tick. While ndmreset is asserted every hart is held outside debug mode. */
  function Tick(e: Env, s: Sys, inp: Input): (t: Sys)
    requires Shape(e, s) && Enabled(e, s, inp.actor)
    ensures Shape(e, t)
  {
    if s.regs.ndmreset then
      var n := e.p.harts;
      Assemble(e, s, inp, seq(n, i requires 0 <= i < n => s.harts[i].(debug := false)), seq(n, _ => Out),
               seq(n, _ => Free), NoReq, None)
    else if inp.actor.Nobody? then
      Assemble(e, s, inp, s.harts, s.places, s.claims, NoReq, None)
    else
      var i, f := inp.actor.hart, Act(e, s, inp.actor);
      Assemble(e, s, inp, s.harts[i := f.hart], s.places[i := f.place], s.claims[i := f.claim], f.bus, f.data)
  }

  /** The debugger's side of the protocol, which it can check before each cycle: one transaction at a
      time, with a cycle between a response and the next request; the module stays active; hartsel is not
      changed while the hart control is busy. */
  predicate Disciplined(e: Env, s: Sys, inp: Input)
    requires Shape(e, s)
  {
    var w := ControlWritten(inp.req);
    && (inp.req.Some? ==> !s.recent)
    && (w.Some? ==> w.value.dmactive)
    && (w.Some? && w.value.hartsel % HartselRange(e.p) != s.regs.hartsel ==> s.ctl.fsm.Idle?)
  }
}
