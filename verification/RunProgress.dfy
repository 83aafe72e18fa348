/**
 Bounded progress: counting only the selected hart's own instructions, a command without program-buffer
 code and a resume request end within a fixed number of them, whatever the other harts do.
 */
module RunProgress {
  import opened Bits
  import opened Bytes
  import opened RiscV
  import opened AbstractCommand
  import opened Hart
  import opened ParkLoop
  import opened Transfer
  import opened DmMem
  import opened DmCsrs
  import opened RunControl
  import opened RunInvariant
  import opened RunSafety
  import opened RunTheorems

  const COMMAND_BOUND: nat := 43
  const RESUME_BOUND: nat := 21
  const LATE_RESUME_BOUND: nat := 24

  /** Instructions from p to the poll of the go bit, on the way a hart without a claim takes. */
  function ToGoPoll(p: Point): nat {
    match p
    case EntryVec => 11
    case EntryFence => 10
    case SaveS0 => 9
    case SaveA0 => 8
    case Base1 => 7
    case Base2 => 6
    case Base3 => 5
    case LoopId => 4
    case LoopHalt => 3
    case LoopAdd => 2
    case LoopFlag => 1
    case LoopAnd => 12
    case LoopGo => 11
    case LoopId2 => 10
    case LoopAdd2 => 9
    case LoopFlag2 => 8
    case LoopAnd2 => 7
    case LoopResume => 6
    case LoopBack => 5
    case _ => 0
  }

  /** Instructions from p to the end of a command that has been claimed. */
  function ToReport(p: Point): nat {
    match p
    case LoopAnd => 31
    case LoopGo => 30
    case GoStore => 29
    case GoA0 => 28
    case GoS0 => 27
    case GoJump => 26
    case ExcVec => 17
    case Exc1 => 16
    case Exc2 => 15
    case Exc3 => 14
    case ExcStore => 13
    case ExcA0 => 12
    case ExcS0 => 11
    case ExcBreak => 10
    case EntryVec => 9
    case EntryFence => 8
    case SaveS0 => 7
    case SaveA0 => 6
    case Base1 => 5
    case Base2 => 4
    case Base3 => 3
    case LoopId => 2
    case LoopHalt => 1
    case _ => 0
  }

  /** An upper bound on the instructions the selected hart still needs for an active command. */
  function CommandRank(place: Place, claim: Claim): nat {
    match place
    case Rom(p) => if claim.Cmd? then ToReport(p) else ToGoPoll(p) + 31
    case AtWhereTo => 25
    case Word(k) => if k <= 6 then 24 - k else if k < 10 then 19 - k else 0
    case _ => 0
  }

  /** Instructions from p to the poll of the resume bit. */
  function ToResumePoll(p: Point): nat {
    match p
    case EntryVec => 16
    case EntryFence => 15
    case SaveS0 => 14
    case SaveA0 => 13
    case Base1 => 12
    case Base2 => 11
    case Base3 => 10
    case LoopId => 9
    case LoopHalt => 8
    case LoopAdd => 7
    case LoopFlag => 6
    case LoopAnd => 5
    case LoopGo => 4
    case LoopId2 => 3
    case LoopAdd2 => 2
    case LoopFlag2 => 1
    case LoopAnd2 => 12
    case LoopResume => 11
    case LoopBack => 10
    case _ => 0
  }

  function ToAnswer(p: Point): nat {
    match p
    case LoopAnd2 => 5
    case LoopResume => 4
    case ResVec => 3
    case ResId => 2
    case ResStore => 1
    case _ => 0
  }

  /** The same for a resume request; zero once the hart has answered. A hart that was on its way out when
      the request came has to halt again first. */
  function ResumeRank(place: Place, claim: Claim, resuming: bool): nat {
    if resuming then 0
    else match place
      case Out => 21
      case Rom(ResA0) => 24
      case Rom(ResS0) => 23
      case Rom(ResDret) => 22
      case Rom(p) => if claim.Res? then ToAnswer(p) else ToResumePoll(p) + 5
      case _ => 0
  }

  predicate TurnOf(a: Actor, i: nat) { a.Run? && a.hart == i }

  /** Instructions hart i executes in the ticks from a up to, not including, b. */
  function Turns(ins: seq<Input>, i: nat, a: nat, b: nat): nat
    requires a <= b <= |ins|
  {
    if a == b then 0 else Turns(ins, i, a, b - 1) + (if TurnOf(ins[b - 1].actor, i) then 1 else 0)
  }

  // ----- one tick

  /** At a ROM label, one instruction of an active command costs one unit of rank. */
  lemma RomRankFalls(core: Core, l: Local, sh: Shared, p: Point, c: Command)
    requires |sh.snap.data| == 8 && LocalOk(core, l, sh) && l.place == Rom(p) && l.mine
    requires l.fsm.Go? || (l.fsm.Executing? && !p.LoopHalt?)
    ensures Exists(core.Snd(), p)
    ensures CommandRank(NextPlace(core, l.place, l.h, c), NextClaim(l.place, l.claim, Flags(l), c))
            < CommandRank(l.place, l.claim)
  {
    if l.claim.Cmd? { ClaimedRankFalls(core, l, p, c); } else { FreeRankFalls(core, l, p, c); }
  }

  lemma FreeRankFalls(core: Core, l: Local, p: Point, c: Command)
    requires At(core, p, l.h) && RomOk(l, p) && l.place == Rom(p) && l.mine && l.fsm.Go? && l.claim.Free? && l.halted
    ensures CommandRank(NextPlace(core, l.place, l.h, c), NextClaim(l.place, l.claim, Flags(l), c))
            < CommandRank(l.place, l.claim)
  {
  }

  lemma ClaimedRankFalls(core: Core, l: Local, p: Point, c: Command)
    requires At(core, p, l.h) && RomOk(l, p) && l.place == Rom(p) && l.claim.Cmd?
    requires l.fsm.Go? || (l.fsm.Executing? && !p.LoopHalt?)
    ensures CommandRank(NextPlace(core, l.place, l.h, c), NextClaim(l.place, l.claim, Flags(l), c))
            < CommandRank(l.place, l.claim)
  {
    hide Index, Scratch;
  }

  lemma RomResumeFalls(core: Core, l: Local, sh: Shared, p: Point, c: Command)
    requires |sh.snap.data| == 8 && LocalOk(core, l, sh) && l.place == Rom(p) && l.mine
    requires l.fsm.Resume? && !l.resuming
    ensures Exists(core.Snd(), p)
    ensures p.ResStore? || ResumeRank(NextPlace(core, l.place, l.h, c), NextClaim(l.place, l.claim, Flags(l), c), false)
                           < ResumeRank(l.place, l.claim, false)
  {
    if l.claim.Res? { ClaimedResumeFalls(core, l, p, c); } else { FreeResumeFalls(core, l, p, c); }
  }

  lemma FreeResumeFalls(core: Core, l: Local, p: Point, c: Command)
    requires At(core, p, l.h) && RomOk(l, p) && l.place == Rom(p) && l.mine && l.fsm.Resume? && l.claim.Free?
    ensures p.ResStore? || ResumeRank(NextPlace(core, l.place, l.h, c), NextClaim(l.place, l.claim, Flags(l), c), false)
                           < ResumeRank(l.place, l.claim, false)
  {
    hide Index, Scratch;
  }

  lemma ClaimedResumeFalls(core: Core, l: Local, p: Point, c: Command)
    requires At(core, p, l.h) && RomOk(l, p) && l.place == Rom(p) && l.fsm.Resume? && l.claim.Res?
    ensures p.ResStore? || ResumeRank(NextPlace(core, l.place, l.h, c), NextClaim(l.place, l.claim, Flags(l), c), false)
                           < ResumeRank(l.place, l.claim, false)
  {
  }

  function RankOf(s: Sys, i: nat): nat
    requires i < |s.places| == |s.claims|
  {
    CommandRank(s.places[i], s.claims[i])
  }

  predicate Falls(e: Env, s: Sys, i: nat, fault: bool)
    requires Shape(e, s) && i < e.p.harts
  {
    var f := RunHart(e, s, i, fault);
    CommandRank(f.place, f.claim) < RankOf(s, i)
  }

  lemma RomTurn(e: Env, s: Sys, i: nat, fault: bool)
    requires Inv(e, s) && !s.regs.ndmreset && CommandActive(s) && i == Sel(e, s) && s.places[i].Rom?
    requires !(s.ctl.fsm.Executing? && s.places[i].point.LoopHalt?)
    ensures Falls(e, s, i, fault)
  {
    hide RunHart, RomOk, RomMeans, At, NextPlace, NextClaim;
    var l, sh := LocalOf(e, s, i), SharedOf(s);
    assert LocalOk(e.cores[i], l, sh);
    RomRuns(e, s, i, fault);
    RomRankFalls(e.cores[i], l, sh, s.places[i].point, CommandOf(s));
  }

  lemma WordTurn(e: Env, s: Sys, i: nat, fault: bool)
    requires Inv(e, s) && !s.snap.command.postexec && CommandActive(s) && i < e.p.harts
    requires s.places[i].Word? || s.places[i].AtWhereTo?
    ensures Falls(e, s, i, fault)
  {
    assert LocalOk(e.cores[i], LocalOf(e, s, i), SharedOf(s));
    if s.places[i].AtWhereTo? {
      WhereToRuns(e, s, i, fault);
    } else {
      WordRuns(e, s, i, fault);
    }
  }

  /** An instruction of the selected hart brings its command closer to the end, or ends it. */
  lemma OwnTurn(e: Env, s: Sys, inp: Input)
    requires Inv(e, s) && Enabled(e, s, inp.actor) && !s.regs.ndmreset && CommandActive(s) && !s.snap.command.postexec
    requires !inp.actor.Nobody? && inp.actor.hart == Sel(e, s) && !Tick(e, s, inp).ctl.fsm.Idle?
    ensures inp.actor.Run? && Falls(e, s, Sel(e, s), inp.actor.fault)
  {
    hide Falls, Tick, AtWord, RomOk, RomMeans, At;
    var i, a := Sel(e, s), inp.actor;
    assert LocalOk(e.cores[i], LocalOf(e, s, i), SharedOf(s));
    if a.Run? {
      if s.places[i].Rom? {
        if s.ctl.fsm.Executing? && s.places[i].point.LoopHalt? { HaltingEnds(e, s, inp); }
        RomTurn(e, s, i, a.fault);
      } else {
        WordTurn(e, s, i, a.fault);
      }
    }
  }

  /** The HALTED store of the selected hart ends an executing command. */
  lemma HaltingEnds(e: Env, s: Sys, inp: Input)
    requires Inv(e, s) && Enabled(e, s, inp.actor) && !s.regs.ndmreset && s.ctl.fsm.Executing?
    requires inp.actor.Run? && inp.actor.hart == Sel(e, s) && s.places[inp.actor.hart] == Rom(LoopHalt)
    ensures Tick(e, s, inp).ctl.fsm.Idle?
  {
    ActorMarks(e, s, inp.actor);
  }

  lemma RankTick(e: Env, s: Sys, inp: Input, t: Sys)
    requires Inv(e, s) && Step(e, s, inp, t) && CommandActive(s) && !s.snap.command.postexec && !t.ctl.fsm.Idle?
    ensures Sel(e, s) < e.p.harts && |t.places| == |t.claims| == e.p.harts
    ensures CommandActive(t)
    ensures RankOf(t, Sel(e, s)) + (if TurnOf(inp.actor, Sel(e, s)) then 1 else 0) <= RankOf(s, Sel(e, s))
  {
    hide AtWord, RomMeans, Exec, Decode, Fetch, At;
    if !inp.actor.Nobody? && inp.actor.hart == Sel(e, s) { OwnTurn(e, s, inp); }
  }

  /** While a command is active its hart still has something to do, and never more than the bound. */
  lemma RankBounds(e: Env, s: Sys)
    requires Inv(e, s) && CommandActive(s) && !s.snap.command.postexec
    ensures Sel(e, s) < e.p.harts && 0 < RankOf(s, Sel(e, s)) <= COMMAND_BOUND
  {
    var i := Sel(e, s);
    assert LocalOk(e.cores[i], LocalOf(e, s, i), SharedOf(s));
    if s.places[i].Rom? { RomBounds(e.cores[i], LocalOf(e, s, i), SharedOf(s), s.places[i].point); }
  }

  lemma RomBounds(core: Core, l: Local, sh: Shared, p: Point)
    requires |sh.snap.data| == 8 && LocalOk(core, l, sh) && l.place == Rom(p) && l.mine
    requires l.fsm.Go? || l.fsm.Executing?
    ensures 0 < CommandRank(l.place, l.claim) <= COMMAND_BOUND
  {
  }

  // ----- runs

  /** Once a command is in Go, its hart executes fewer than COMMAND_BOUND instructions before the state
      machine is idle again, under every interleaving with other harts and debugger requests, whether or
      not the command traps. */
  lemma {:induction false} CommandBounded(e: Env, ss: seq<Sys>, ins: seq<Input>, a: nat, b: nat)
    requires Trace(e, ss, ins) && a <= b < |ss| && CommandActive(ss[a]) && Occupied(ss, a, b + 1)
    requires !ss[a].snap.command.postexec
    ensures Inv(e, ss[a]) && Turns(ins, Sel(e, ss[a]), a, b) < COMMAND_BOUND
  {
    CommandRunsDown(e, ss, ins, a, b);
    Always(e, ss, ins, a);
    Always(e, ss, ins, b);
    RankBounds(e, ss[a]);
    RankBounds(e, ss[b]);
  }

  lemma {:induction false} CommandRunsDown(e: Env, ss: seq<Sys>, ins: seq<Input>, a: nat, b: nat)
    requires Trace(e, ss, ins) && a <= b < |ss| && CommandActive(ss[a]) && Occupied(ss, a, b + 1)
    requires !ss[a].snap.command.postexec
    ensures Inv(e, ss[a]) && Inv(e, ss[b]) && CommandActive(ss[b])
    ensures Sel(e, ss[b]) == Sel(e, ss[a]) < e.p.harts && ss[b].snap == ss[a].snap
    ensures RankOf(ss[b], Sel(e, ss[a])) + Turns(ins, Sel(e, ss[a]), a, b) <= RankOf(ss[a], Sel(e, ss[a]))
  {
    hide Tick, Disciplined, Enabled, LocalOk, CommandRank;
    FrozenRegisters(e, ss, ins, a, b);
    if a < b {
      CommandRunsDown(e, ss, ins, a, b - 1);
      assert Linked(e, ss, ins, b - 1);
      RankTick(e, ss[b - 1], ins[b - 1], ss[b]);
    }
  }

  // ----- resume requests

  function ResumeRankOf(s: Sys, i: nat): nat
    requires i < |s.places| == |s.claims| == |s.ctl.resuming|
  {
    ResumeRank(s.places[i], s.claims[i], s.ctl.resuming[i])
  }

  lemma ResumeTurn(e: Env, s: Sys, i: nat, fault: bool)
    requires Inv(e, s) && !s.regs.ndmreset && s.ctl.fsm.Resume? && i == Sel(e, s) < e.p.harts && !s.ctl.resuming[i]
    requires s.places[i].Rom? && !s.places[i].point.ResStore?
    ensures var f := RunHart(e, s, i, fault); ResumeRank(f.place, f.claim, false) < ResumeRankOf(s, i)
  {
    hide RunHart, RomOk, RomMeans, At, NextPlace, NextClaim;
    var l, sh := LocalOf(e, s, i), SharedOf(s);
    assert LocalOk(e.cores[i], l, sh);
    RomRuns(e, s, i, fault);
    RomResumeFalls(e.cores[i], l, sh, s.places[i].point, CommandOf(s));
  }

  /** The hart of a pending resume request is running or in the ROM. */
  lemma AwaitsInRom(e: Env, s: Sys)
    requires Inv(e, s) && s.ctl.fsm.Resume? && Sel(e, s) < e.p.harts
    ensures s.places[Sel(e, s)].Rom? || s.places[Sel(e, s)].Out?
    ensures s.places[Sel(e, s)] == Rom(ResStore) ==> s.claims[Sel(e, s)].Res? && !s.ctl.resuming[Sel(e, s)]
    ensures s.places[Sel(e, s)].Out? ==> s.claims[Sel(e, s)].Free?
  {
    assert LocalOk(e.cores[Sel(e, s)], LocalOf(e, s, Sel(e, s)), SharedOf(s));
  }

  /** While a resume request is pending nothing but the hart's own RESUMING store ends it. */
  lemma StillPending(e: Env, s: Sys, inp: Input, t: Sys)
    requires Inv(e, s) && Step(e, s, inp, t) && s.ctl.fsm.Resume? && !t.ctl.fsm.Idle?
    requires BitAt(e.p.selectable, Sel(e, s))
    ensures var i := Sel(e, s);
            && i < e.p.harts && !s.regs.ndmreset && t.ctl.fsm.Resume? && !s.ctl.resuming[i]
            && |t.places| == |t.claims| == |t.ctl.resuming| == e.p.harts
            && (t.ctl.resuming[i] ==> !inp.actor.Nobody? && inp.actor.hart == i && MarkOf(s.places[i]).Resumes?)
            && (!inp.actor.Nobody? && inp.actor.hart == i && MarkOf(s.places[i]).Resumes? ==> t.ctl.resuming[i])
  {
    hide AtWord, RomMeans, Exec, Decode, Fetch, At;
    assert LocalOk(e.cores[Sel(e, s)], LocalOf(e, s, Sel(e, s)), SharedOf(s));
    if !inp.actor.Nobody? { ActorMarks(e, s, inp.actor); }
  }

  lemma ResumeTick(e: Env, s: Sys, inp: Input, t: Sys)
    requires Inv(e, s) && Step(e, s, inp, t) && s.ctl.fsm.Resume? && !t.ctl.fsm.Idle?
    requires BitAt(e.p.selectable, Sel(e, s))
    ensures t.ctl.fsm.Resume? && Sel(e, s) < e.p.harts && |t.places| == |t.claims| == |t.ctl.resuming| == e.p.harts
    ensures ResumeRankOf(t, Sel(e, s)) + (if TurnOf(inp.actor, Sel(e, s)) then 1 else 0)
            <= ResumeRankOf(s, Sel(e, s))
  {
    hide LocalOk, Disciplined, ControlAfter, RegsAfter, ToResumePoll, AtWord, RomMeans, Exec, Decode, Fetch, At,
      Instruction, ParseCommand;
    var i := Sel(e, s);
    StillPending(e, s, inp, t);
    AwaitsInRom(e, s);
    if TurnOf(inp.actor, i) {
      if s.places[i] != Rom(ResStore) { ResumeTurn(e, s, i, inp.actor.fault); }
    } else {
      assert ToResumePoll(EntryVec) == 16 by { PollDistance(); }
    }
  }

  lemma PollDistance()
    ensures ToResumePoll(EntryVec) == 16
  {
  }

  /** What the request can cost: a halted hart is in the park loop, another may be anywhere. */
  lemma ResumeBounds(e: Env, s: Sys)
    requires Inv(e, s) && s.ctl.fsm.Resume? && Sel(e, s) < e.p.harts
    ensures ResumeRankOf(s, Sel(e, s)) <= if s.ctl.halted[Sel(e, s)] then RESUME_BOUND else LATE_RESUME_BOUND
  {
    var i := Sel(e, s);
    assert LocalOk(e.cores[i], LocalOf(e, s, i), SharedOf(s));
  }

  /** A resume request takes a halted hart at most RESUME_BOUND instructions, that is one pass through the
      park loop and the resume path, and any other selectable hart at most LATE_RESUME_BOUND of its
      instructions in debug mode; in the tick after the last the state machine is idle. */
  lemma ResumeBounded(e: Env, ss: seq<Sys>, ins: seq<Input>, a: nat, b: nat)
    requires Trace(e, ss, ins) && a <= b < |ss| && ss[a].ctl.fsm.Resume? && Occupied(ss, a, b + 1)
    requires Inv(e, ss[a]) && BitAt(e.p.selectable, Sel(e, ss[a]))
    ensures Turns(ins, Sel(e, ss[a]), a, b)
            <= if ss[a].ctl.halted[Sel(e, ss[a])] then RESUME_BOUND else LATE_RESUME_BOUND
  {
    hide Inv;
    ResumeRunsDown(e, ss, ins, a, b);
    ResumeBounds(e, ss[a]);
  }

  lemma {:induction false} ResumeRunsDown(e: Env, ss: seq<Sys>, ins: seq<Input>, a: nat, b: nat)
    requires Trace(e, ss, ins) && a <= b < |ss| && ss[a].ctl.fsm.Resume? && Occupied(ss, a, b + 1)
    requires Inv(e, ss[a]) && BitAt(e.p.selectable, Sel(e, ss[a]))
    ensures Inv(e, ss[b]) && ss[b].ctl.fsm.Resume? && Sel(e, ss[b]) == Sel(e, ss[a]) < e.p.harts
    ensures ResumeRankOf(ss[b], Sel(e, ss[a])) + Turns(ins, Sel(e, ss[a]), a, b)
            <= ResumeRankOf(ss[a], Sel(e, ss[a]))
  {
    hide Tick, Disciplined, Enabled, LocalOk, ResumeRank;
    FrozenRegisters(e, ss, ins, a, b);
    if a < b {
      ResumeRunsDown(e, ss, ins, a, b - 1);
      assert Linked(e, ss, ins, b - 1);
      ResumeTick(e, ss[b - 1], ins[b - 1], ss[b]);
    }
  }

  /** A request for a hart that does not exist or cannot be selected is never answered: short of a reset
      of the harts the state machine stays where it is. */
  lemma NeverAnswered(e: Env, s: Sys, inp: Input, t: Sys)
    requires Inv(e, s) && Step(e, s, inp, t) && s.ctl.fsm.Resume? && !BitAt(e.p.selectable, Sel(e, s))
    ensures t.ctl.fsm.Resume? <==> !s.regs.ndmreset
  {
    hide LocalOk;
  }
}
