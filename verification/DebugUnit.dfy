/**
 The JTAG transport and the debug module registers as one system (src/dmi_cdc.sv between them): two clocks
 that tick in any order, and a crossing that carries one request at a time and forgets it on a clear.
 */
module DebugUnit {
  import opened Bits
  import opened Bytes
  import opened Jtag
  import opened JtagScan
  import opened JtagTasks
  import opened JtagDmi
  import opened JtagWrites
  import DmMem
  import Csr = DmCsrs
  import opened DmiAnswers

  /** The crossing: nothing, a request on its way to the registers, or an answer on its way back. */
  datatype Slot = Empty | Asking(q: Request) | Answering(q: Request, r: Reply)

  /** A request the registers have answered, and what they held when they did. */
  datatype Served = Served(q: Request, run: Csr.RunRegs, sb: Csr.SbRegs, i: Csr.RunIn, o: Csr.Observed, sbBusy: bool)
  {
    ghost predicate Valid(p: DmMem.Params) { p.Valid() && run.Valid(p) && sb.Valid() && o.Valid(p) }
  }

  function DmRequest(q: Request): Csr.Request {
    Csr.Request(if q.write then Csr.Write else Csr.Read, FromBits(q.address), q.data)
  }

  /** The answer of the registers as the transport receives it. */
  function AnswerOf(p: DmMem.Params, x: Served): Reply
    requires p.Valid() && x.run.Valid(p) && x.sb.Valid() && x.o.Valid(p)
  {
    var a := Csr.Answer(p, x.run, x.sb, DmRequest(x.q), x.i, x.o, x.sbBusy);
    Reply(a.data, if a.status.Success? then Success else TooFast)
  }

  /** Both clock domains and the crossing, with the pins driven, what TDO and the crossing have shown, and
      the requests served. */
  datatype Unit = Unit(dtm: Dtm, slot: Slot, run: Csr.RunRegs, sb: Csr.SbRegs,
                       pins: seq<Pin>, tdo: seq<bool>, shown: seq<Cdc>, served: seq<Served>)

  /** A clock edge. The crossing chooses when a request gets through and when an answer shows. */
  datatype Edge =
    | Tck(pin: Pin, room: bool, show: bool)
    | Clk(take: bool, i: Csr.RunIn, b: Csr.SbIn, o: Csr.Observed)

  ghost predicate Possible(p: DmMem.Params, e: Edge) {
    e.Clk? ==> e.b.Valid() && e.o.Valid(p) && (e.i.hartData.Some? ==> |e.i.hartData.value| == 8)
  }

  function Shown(u: Unit, room: bool, show: bool): Cdc {
    Cdc(room && u.slot.Empty?, if show && u.slot.Answering? then Some(u.slot.r) else None)
  }

  function TckEdge(id: Word, u: Unit, pin: Pin, c: Cdc): Unit {
    var f := u.dtm.fsm;
    u.(dtm := DtmTick(u.dtm, id, pin.tms, pin.tdi, c),
       slot := if Clears(EventOf(u.dtm)) || Answered(f, c) then Empty
              else if Sends(f, c) then Asking(Current(f)) else u.slot,
       pins := u.pins + [pin], tdo := u.tdo + [Tdo(u.dtm)], shown := u.shown + [c])
  }

  function ClkEdge(p: DmMem.Params, u: Unit, take: bool, i: Csr.RunIn, b: Csr.SbIn, o: Csr.Observed): Unit
    requires p.Valid() && u.run.Valid(p) && u.sb.Valid() && b.Valid() && o.Valid(p)
    requires i.hartData.Some? ==> |i.hartData.value| == 8
  {
    var q := if take && u.slot.Asking? then Some(DmRequest(u.slot.q)) else None;
    var v := u.(run := Csr.RunNext(p, u.run, q, i), sb := Csr.SbStep(u.run.dmactive, u.sb, q, b));
    if q.None? then v
    else
      var x := Served(u.slot.q, u.run, u.sb, i, o, b.busy);
      v.(slot := Answering(u.slot.q, AnswerOf(p, x)), served := u.served + [x])
  }

  function Step(p: DmMem.Params, id: Word, u: Unit, e: Edge): Unit
    requires p.Valid() && u.run.Valid(p) && u.sb.Valid() && Possible(p, e)
  {
    match e
    case Tck(pin, room, show) => TckEdge(id, u, pin, Shown(u, room, show))
    case Clk(take, i, b, o) => ClkEdge(p, u, take, i, b, o)
  }

  predicate IsOrderly(r: Reply) { r.status.Success? || r.status.TooFast? }

  /** The crossing holds the request the transport is waiting for, and nothing else. */
  ghost predicate Valid(p: DmMem.Params, u: Unit) {
    && p.Valid() && u.run.Valid(p) && u.sb.Valid() && |u.pins| == |u.tdo| == |u.shown|
    && (u.slot.Empty? <==> !Waiting(u.dtm.fsm.phase))
    && (!u.slot.Empty? ==> u.slot.q == Current(u.dtm.fsm))
    && (u.slot.Answering? ==> IsOrderly(u.slot.r)) && !u.dtm.fsm.error.OpFailed?
    && (forall t :: 0 <= t < |u.shown| ==> u.shown[t].reply.Some? ==> IsOrderly(u.shown[t].reply.value))
    && (forall k :: 0 <= k < |u.served| ==> u.served[k].Valid(p))
  }

  lemma StepValid(p: DmMem.Params, id: Word, u: Unit, e: Edge)
    requires Valid(p, u) && Possible(p, e)
    ensures Valid(p, Step(p, id, u, e))
  {
    hide Csr.RunNext, Csr.SbStep, Csr.Answer, TapTick, DtmcsNext, DrNext;
  }

  // ----- whole runs

  ghost predicate AllPossible(p: DmMem.Params, edges: seq<Edge>) {
    forall k :: 0 <= k < |edges| ==> Possible(p, edges[k])
  }

  /** The unit after a sequence of clock edges. */
  ghost function After(p: DmMem.Params, id: Word, u: Unit, edges: seq<Edge>): (v: Unit)
    requires Valid(p, u) && AllPossible(p, edges)
    ensures Valid(p, v)
  {
    var n := |edges| - 1;
    if n < 0 then u
    else
      var v := After(p, id, u, edges[..n]);
      StepValid(p, id, v, edges[n]);
      Step(p, id, v, edges[n])
  }

  /** What the debugger drives in a run. */
  function Pins(edges: seq<Edge>): seq<Pin> {
    var n := |edges| - 1;
    if n < 0 then [] else Pins(edges[..n]) + (if edges[n].Tck? then [edges[n].pin] else [])
  }

  /** What a record of the crossing shows to the transport, cycle by cycle. */
  function EnvOf(shown: seq<Cdc>): Crossing {
    (t: nat) => if t < |shown| then shown[t] else Cdc(false, None)
  }

  predicate Grows(u: Unit, v: Unit) {
    && u.pins <= v.pins && u.tdo <= v.tdo && u.shown <= v.shown && u.served <= v.served
    && u.dtm.fsm.sent <= v.dtm.fsm.sent && u.dtm.fsm.got <= v.dtm.fsm.got
  }

  lemma StepGrows(p: DmMem.Params, id: Word, u: Unit, e: Edge)
    requires Valid(p, u) && Possible(p, e)
    ensures Grows(u, Step(p, id, u, e))
  {
    hide Csr.RunNext, Csr.SbStep, Csr.Answer, TapTick, DtmcsNext, DrNext, PhaseNext, DataNext, ErrorNext;
  }

  lemma EdgeRuns(p: DmMem.Params, id: Word, u: Unit, e: Edge, shown: seq<Cdc>)
    requires Valid(p, u) && Possible(p, e) && Step(p, id, u, e).shown <= shown
    ensures var v := Step(p, id, u, e);
            if e.Tck? then
              && v.dtm == DtmTick(u.dtm, id, e.pin.tms, e.pin.tdi, EnvOf(shown)(|u.shown|))
              && v.tdo == u.tdo + [Tdo(u.dtm)] && |v.shown| == |u.shown| + 1
            else
              v.dtm == u.dtm && v.tdo == u.tdo && v.shown == u.shown
  {
    hide DtmTick, Csr.RunNext, Csr.SbStep, Csr.Answer, Tdo;
    var v := Step(p, id, u, e);
    if e.Tck? { assert v.shown[|u.shown|] == shown[|u.shown|]; }
  }

  /** Seen from the pins, a run is the transport driven against what the crossing has shown. */
  lemma {:induction false} RunsAs(p: DmMem.Params, id: Word, u: Unit, edges: seq<Edge>, shown: seq<Cdc>)
    requires Valid(p, u) && AllPossible(p, edges) && After(p, id, u, edges).shown <= shown
    ensures var v, env := After(p, id, u, edges), EnvOf(shown);
            && Grows(u, v) && |v.shown| == |u.shown| + |Pins(edges)|
            && v.dtm == Drive(env, id, |u.shown|, u.dtm, Pins(edges))
            && v.tdo == u.tdo + Outputs(env, id, |u.shown|, u.dtm, Pins(edges))
    decreases |edges|
  {
    hide DtmTick, Step, Valid, EnvOf, Tdo;
    var n := |edges| - 1;
    if n >= 0 {
      var w := After(p, id, u, edges[..n]);
      StepGrows(p, id, w, edges[n]);
      RunsAs(p, id, u, edges[..n], shown);
      EdgeRuns(p, id, w, edges[n], shown);
      if edges[n].Tck? {
        DriveMore(EnvOf(shown), id, |u.shown|, u.dtm, Pins(edges[..n]), edges[n].pin);
      } else {
        assert Pins(edges) == Pins(edges[..n]);
      }
    }
  }

  // ----- answers come from the registers

  /** The registers have served q with reply r, as request k since the first one counted. */
  ghost predicate ServedWith(p: DmMem.Params, served: seq<Served>, from: nat, q: Request, r: Reply) {
    exists k :: from <= k < |served| && served[k].Valid(p) && served[k].q == q && AnswerOf(p, served[k]) == r
  }

  /** Every answer since u, in which nothing was outstanding, is one the registers have given since u. */
  ghost predicate Backed(p: DmMem.Params, u: Unit, v: Unit) {
    && Grows(u, v)
    && (v.slot.Answering? ==> ServedWith(p, v.served, |u.served|, v.slot.q, v.slot.r))
    && forall j :: |u.dtm.fsm.got| <= j < |v.dtm.fsm.got| ==>
         ServedWith(p, v.served, |u.served|, v.dtm.fsm.got[j].request, v.dtm.fsm.got[j].reply)
  }

  lemma StillServed(p: DmMem.Params, s: seq<Served>, t: seq<Served>, from: nat, q: Request, r: Reply)
    requires ServedWith(p, s, from, q, r) && s <= t
    ensures ServedWith(p, t, from, q, r)
  {
    hide Csr.Answer;
    var k :| from <= k < |s| && s[k].Valid(p) && s[k].q == q && AnswerOf(p, s[k]) == r;
    assert t[k] == s[k];
  }

  lemma BackedStep(p: DmMem.Params, id: Word, u: Unit, v: Unit, e: Edge)
    requires Valid(p, v) && Possible(p, e) && Backed(p, u, v)
    ensures Backed(p, u, Step(p, id, v, e))
  {
    hide Csr.RunNext, Csr.SbStep, TapTick, DtmcsNext, DrNext, PhaseNext, DataNext, ErrorNext, ServedWith, AnswerOf;
    var w := Step(p, id, v, e);
    StepGrows(p, id, v, e);
    StepValid(p, id, v, e);
    if v.slot.Answering? { StillServed(p, v.served, w.served, |u.served|, v.slot.q, v.slot.r); }
    forall j | |u.dtm.fsm.got| <= j < |w.dtm.fsm.got|
      ensures ServedWith(p, w.served, |u.served|, w.dtm.fsm.got[j].request, w.dtm.fsm.got[j].reply)
    {
      if j < |v.dtm.fsm.got| {
        var x := v.dtm.fsm.got[j];
        StillServed(p, v.served, w.served, |u.served|, x.request, x.reply);
      }
    }
    if |w.served| > |v.served| { JustServed(p, w.served, |u.served|); }
  }

  lemma JustServed(p: DmMem.Params, s: seq<Served>, from: nat)
    requires from < |s| && s[|s| - 1].Valid(p)
    ensures ServedWith(p, s, from, s[|s| - 1].q, AnswerOf(p, s[|s| - 1]))
  {
  }

  lemma {:induction false} AlwaysBacked(p: DmMem.Params, id: Word, u: Unit, edges: seq<Edge>)
    requires Valid(p, u) && AllPossible(p, edges) && u.slot.Empty?
    ensures Backed(p, u, After(p, id, u, edges))
    decreases |edges|
  {
    hide Backed, Step, Valid;
    var n := |edges| - 1;
    if n < 0 {
      BackedFirst(p, u);
    } else {
      AlwaysBacked(p, id, u, edges[..n]);
      BackedStep(p, id, u, After(p, id, u, edges[..n]), edges[n]);
    }
  }

  lemma BackedFirst(p: DmMem.Params, u: Unit)
    requires u.slot.Empty?
    ensures Backed(p, u, u)
  {
  }

  // ----- requests served take effect

  /** At some edge of the run the registers went from what they held when request k was served to what it
      makes of them. */
  ghost predicate TookEffect(p: DmMem.Params, id: Word, u: Unit, edges: seq<Edge>, x: Served)
    requires Valid(p, u) && AllPossible(p, edges)
  {
    exists m :: 0 <= m < |edges| && edges[m].Clk? && EffectAt(p, After(p, id, u, edges[..m]), x, edges[m],
                                                             After(p, id, u, edges[..m + 1]))
  }

  ghost predicate EffectAt(p: DmMem.Params, v: Unit, x: Served, e: Edge, w: Unit) {
    && e.Clk? && x.Valid(p) && v.run == x.run && v.sb == x.sb && e.i == x.i && e.b.Valid() && Possible(p, e)
    && w.run == Csr.RunNext(p, x.run, Some(DmRequest(x.q)), x.i)
    && w.sb == Csr.SbStep(x.run.dmactive, x.sb, Some(DmRequest(x.q)), e.b)
  }

  lemma EffectNow(p: DmMem.Params, id: Word, v: Unit, e: Edge)
    requires Valid(p, v) && Possible(p, e)
    ensures var w := Step(p, id, v, e);
            |w.served| > |v.served| ==>
              e.Clk? && |w.served| == |v.served| + 1 && EffectAt(p, v, w.served[|v.served|], e, w)
    ensures |Step(p, id, v, e).served| >= |v.served|
  {
    hide Csr.RunNext, Csr.SbStep, Csr.Answer, TapTick, DtmcsNext, DrNext, FsmNext;
  }

  /** Every request served in a run has had its effect on the registers, in the cycle in which it was served:
      what it found there is what its record says. */
  lemma {:induction false} ServedTakesEffect(p: DmMem.Params, id: Word, u: Unit, edges: seq<Edge>, k: nat)
    requires Valid(p, u) && AllPossible(p, edges) && |u.served| <= k < |After(p, id, u, edges).served|
    ensures TookEffect(p, id, u, edges, After(p, id, u, edges).served[k])
    decreases |edges|
  {
    hide Step, Valid, EffectAt;
    var n := |edges| - 1;
    assert n >= 0;
    var v, w := After(p, id, u, edges[..n]), After(p, id, u, edges);
    assert edges[..n + 1] == edges;
    EffectNow(p, id, v, edges[n]);
    StepGrows(p, id, v, edges[n]);
    if k < |v.served| {
      ServedTakesEffect(p, id, u, edges[..n], k);
      assert w.served[k] == v.served[k];
      LaterEdges(p, id, u, edges, w.served[k]);
    } else {
      assert edges[n].Clk? && EffectAt(p, After(p, id, u, edges[..n]), w.served[k], edges[n],
                                       After(p, id, u, edges[..n + 1]));
    }
  }

  lemma LaterEdges(p: DmMem.Params, id: Word, u: Unit, edges: seq<Edge>, x: Served)
    requires Valid(p, u) && AllPossible(p, edges) && |edges| > 0
    requires TookEffect(p, id, u, edges[..|edges| - 1], x)
    ensures TookEffect(p, id, u, edges, x)
  {
    hide After, Valid, EffectAt;
    var before := edges[..|edges| - 1];
    var m :| 0 <= m < |before| && before[m].Clk?
             && EffectAt(p, After(p, id, u, before[..m]), x, before[m], After(p, id, u, before[..m + 1]));
    assert before[..m] == edges[..m] && before[..m + 1] == edges[..m + 1] && before[m] == edges[m];
  }

  // ----- a read over JTAG returns a register

  lemma ShownIsOrderly(p: DmMem.Params, u: Unit)
    requires Valid(p, u)
    ensures Orderly(EnvOf(u.shown))
  {
  }

  /** A wait and a scan with nothing to ask: what TDO shows in it is the word read back. */
  lemma StatusScan(env: Crossing, id: Word, t: nat, d: Dtm, w: Word41, a: Word7, wait: nat, y: bool, z: bool)
    requires d.tap.state.RunTestIdle? && d.tap.ir == DMIACCESS && d.dr == w
    ensures var q := IdlePins(wait, y) + ScanPins(NopWord(a), z);
            var e := Drive(env, id, t, d, q);
            && |q| == wait + 46 && e.tap.state.RunTestIdle? && e.tap.ir == DMIACCESS && e.dr == NopWord(a)
            && e.fsm == ScanFsm(env, t + wait, Settle(env, t, d.fsm, wait), 41, UpdateDmi(NopWord(a)))
            && Outputs(env, id, t, d, q)[wait + 3..wait + 44]
               == ReadBack(env, t + wait, Settle(env, t, d.fsm, wait), w)
  {
    hide Drive, Outputs, Settle, ScanFsm, DrNext, DtmcsCaptured;
    var v := NopWord(a);
    IdleWaits(env, id, t, d, wait, y);
    var m := Drive(env, id, t, d, IdlePins(wait, y));
    DriveConcat(env, id, t, d, IdlePins(wait, y), ScanPins(v, z));
    DataScan(env, id, t + wait, m, v, z);
    WholeScan(env, id, t + wait, m, v);
    var i, b, c := ToShiftPins(z), BitPins(v, true), UpdatePins(LastOf(v, z));
    DriveConcat(env, id, t + wait, m, i + b, c);
    DriveConcat(env, id, t + wait, m, i, b);
  }

  /** The first scan of a task. */
  lemma RequestScan(env: Crossing, id: Word, t: nat, d: Dtm, w: Word41, x: bool)
    requires d.tap.state.RunTestIdle? && d.tap.ir == DMIACCESS
    ensures var e := Drive(env, id, t, d, ScanPins(w, x));
            && e.tap.state.RunTestIdle? && e.tap.ir == DMIACCESS && e.dr == w
            && e.fsm == ScanFsm(env, t, d.fsm, 41, UpdateDmi(w))
  {
    hide Drive, Outputs, Settle, ScanFsm, DrNext, DtmcsCaptured;
    DataScan(env, id, t, d, w, x);
    WholeScan(env, id, t, d, w);
  }

  /** A read task from any state of the unit, the module clock ticking as it likes: if the bits shifted out by
      the second scan report status 0, then since the first scan the registers have served this very read,
      and the data bits are what they answered, with Success. */
  lemma ReadReturnsRegister(p: DmMem.Params, id: Word, u: Unit, first: seq<Edge>, second: seq<Edge>,
                            a: Word7, wait: nat, x: bool, y: bool, z: bool)
    requires Valid(p, u) && u.dtm.tap.state.RunTestIdle? && u.dtm.tap.ir == DMIACCESS
    requires AllPossible(p, first) && AllPossible(p, second)
    requires Pins(first) == ScanPins(ReadWord(a), x)
    requires Pins(second) == IdlePins(wait, y) + ScanPins(NopWord(a), z)
    ensures var v := After(p, id, u, first);
            var w := After(p, id, v, second);
            && |w.tdo| == |v.tdo| + wait + 46 && |v.served| <= |w.served|
            && var r: Word41 := w.tdo[|v.tdo| + wait + 3..|v.tdo| + wait + 44];
               OpOf(r) == (false, false)
               ==> ServedWith(p, w.served, |v.served|, Request(false, a, Falses(32)), Reply(DataOf(r), Success))
  {
    hide Drive, Outputs, Settle, ScanFsm, ReadBack, Valid, After, Pins, ServedWith, Orderly;
    var v := After(p, id, u, first);
    var w := After(p, id, v, second);
    var env, t, f := EnvOf(w.shown), |u.shown|, u.dtm.fsm;
    RunsAs(p, id, v, second, w.shown);
    RunsAs(p, id, u, first, w.shown);
    RequestScan(env, id, t, u.dtm, ReadWord(a), x);
    StatusScan(env, id, t + 46, v.dtm, ReadWord(a), a, wait, y, z);
    var r: Word41 := w.tdo[|v.tdo| + wait + 3..|v.tdo| + wait + 44];
    assert r == Outputs(env, id, t + 46, v.dtm, Pins(second))[wait + 3..wait + 44];
    assert r == ReadResult(env, t, f, a, wait);
    if OpOf(r) == (false, false) {
      ShownIsOrderly(p, w);
      NextAnswer(env, t, f, a, wait);
      NothingAsked(p, v);
      AlwaysBacked(p, id, v, second);
      var j := |v.dtm.fsm.got|;
      assert w.dtm.fsm.got[j].request == Request(false, a, Falses(32));
    }
  }

  lemma NothingAsked(p: DmMem.Params, u: Unit)
    requires Valid(p, u) && (u.dtm.fsm.phase.Read? || u.dtm.fsm.phase.Write?)
    ensures u.slot.Empty?
  {
  }

  /** The registers have served a read of data0 or data1, at address 4 or 5, while no command was running,
      and d is the number its register then held. */
  ghost predicate DataServed(served: seq<Served>, from: nat, a: Word7, d: Word) {
    exists k :: from <= k < |served| && served[k].q == Request(false, a, Falses(32)) && !served[k].i.cmdBusy
                && |served[k].run.data| == 8
                && FromBits(d)
                   == FromBytes(if FromBits(a) == 4 then served[k].run.data[..4] else served[k].run.data[4..])
  }

  /** For a data register status 0 moreover says that no command was running when the read was served, so the
      number read is the register's and not a half-finished result. */
  lemma DataReadIsSettled(p: DmMem.Params, id: Word, u: Unit, first: seq<Edge>, second: seq<Edge>,
                          a: Word7, wait: nat, x: bool, y: bool, z: bool)
    requires Valid(p, u) && u.dtm.tap.state.RunTestIdle? && u.dtm.tap.ir == DMIACCESS
    requires AllPossible(p, first) && AllPossible(p, second) && FromBits(a) in {4, 5}
    requires Pins(first) == ScanPins(ReadWord(a), x)
    requires Pins(second) == IdlePins(wait, y) + ScanPins(NopWord(a), z)
    ensures var v := After(p, id, u, first);
            var w := After(p, id, v, second);
            && |w.tdo| == |v.tdo| + wait + 46 && |v.served| <= |w.served|
            && var r: Word41 := w.tdo[|v.tdo| + wait + 3..|v.tdo| + wait + 44];
               OpOf(r) == (false, false) ==> DataServed(w.served, |v.served|, a, DataOf(r))
  {
    hide Valid, After, Pins, OpOf, DataOf, AnswerOf;
    ReadReturnsRegister(p, id, u, first, second, a, wait, x, y, z);
    var v := After(p, id, u, first);
    var w := After(p, id, v, second);
    var r: Word41 := w.tdo[|v.tdo| + wait + 3..|v.tdo| + wait + 44];
    if OpOf(r) == (false, false) {
      var k :| |v.served| <= k < |w.served| && w.served[k].Valid(p)
               && w.served[k].q == Request(false, a, Falses(32))
               && AnswerOf(p, w.served[k]) == Reply(DataOf(r), Success);
      SettledAnswer(p, w.served[k]);
    }
  }

  lemma SettledAnswer(p: DmMem.Params, x: Served)
    requires x.Valid(p) && AnswerOf(p, x).status.Success? && !x.q.write && FromBits(x.q.address) in {4, 5}
    ensures !x.i.cmdBusy && |x.run.data| == 8
    ensures FromBits(AnswerOf(p, x).data)
            == FromBytes(if FromBits(x.q.address) == 4 then x.run.data[..4] else x.run.data[4..])
  {
    hide Csr.Answer, FromBits, FromBytes;
    BusyExactly(p, x.run, x.sb, DmRequest(x.q), x.i, x.o, x.sbBusy);
    DataAnswer(p, x.run, x.sb, DmRequest(x.q), x.i, x.o, x.sbBusy);
  }

  // ----- a write over JTAG reports its outcome

  /** The registers have served the write of d to a with Success. */
  ghost predicate WriteServed(p: DmMem.Params, served: seq<Served>, from: nat, a: Word7, d: Word) {
    exists k :: from <= k < |served| && served[k].Valid(p) && served[k].q == Request(true, a, d)
                && AnswerOf(p, served[k]).status.Success?
  }

  /** A write and two status scans, from any state of the unit and however the clocks tick: if the bits shifted
      out by the second status scan report status 0, the registers have served this very write since its own
      scan, with Success. */
  lemma WriteReportsOutcome(p: DmMem.Params, id: Word, u: Unit, first: seq<Edge>, second: seq<Edge>, third: seq<Edge>,
                            a: Word7, d: Word, wait: nat, again: nat, x: bool, y: bool, z: bool,
                            y': bool, z': bool)
    requires Valid(p, u) && u.dtm.tap.state.RunTestIdle? && u.dtm.tap.ir == DMIACCESS
    requires AllPossible(p, first) && AllPossible(p, second) && AllPossible(p, third)
    requires Pins(first) == ScanPins(WriteWord(a, d), x)
    requires Pins(second) == IdlePins(wait, y) + ScanPins(NopWord(a), z)
    requires Pins(third) == IdlePins(again, y') + ScanPins(NopWord(a), z')
    ensures var v := After(p, id, u, first);
            var w := After(p, id, v, second);
            var s := After(p, id, w, third);
            && |s.tdo| == |w.tdo| + again + 46 && |v.served| <= |w.served|
            && var r: Word41 := s.tdo[|w.tdo| + again + 3..|w.tdo| + again + 44];
               OpOf(r) == (false, false) ==> WriteServed(p, w.served, |v.served|, a, d)
  {
    hide Drive, Outputs, Settle, ScanFsm, ReadBack, Valid, After, Pins, ServedWith, Orderly, WriteServed;
    var v := After(p, id, u, first);
    var w := After(p, id, v, second);
    var s := After(p, id, w, third);
    var env, t, f := EnvOf(s.shown), |u.shown|, u.dtm.fsm;
    RunsAs(p, id, w, third, s.shown);
    RunsAs(p, id, v, second, s.shown);
    RunsAs(p, id, u, first, s.shown);
    RequestScan(env, id, t, u.dtm, WriteWord(a, d), x);
    StatusScan(env, id, t + 46, v.dtm, WriteWord(a, d), a, wait, y, z);
    StatusScan(env, id, t + 92 + wait, w.dtm, NopWord(a), a, again, y', z');
    var r: Word41 := s.tdo[|w.tdo| + again + 3..|w.tdo| + again + 44];
    assert r == Outputs(env, id, t + 92 + wait, w.dtm, Pins(third))[again + 3..again + 44];
    assert r == Confirmation(env, t, f, a, d, wait, again);
    if OpOf(r) == (false, false) {
      ShownIsOrderly(p, s);
      NoFailure(p, u);
      WriteTask(env, t, f, a, d, wait, again);
      NothingAsked(p, v);
      AlwaysBacked(p, id, v, second);
      assert ServedWith(p, w.served, |v.served|, w.dtm.fsm.got[|v.dtm.fsm.got|].request,
                        w.dtm.fsm.got[|v.dtm.fsm.got|].reply);
      WriteWasServed(p, w.served, |v.served|, a, d, w.dtm.fsm.got[|v.dtm.fsm.got|].reply);
    }
  }

  lemma NoFailure(p: DmMem.Params, u: Unit)
    requires Valid(p, u)
    ensures !u.dtm.fsm.error.OpFailed?
  {
  }

  lemma WriteWasServed(p: DmMem.Params, served: seq<Served>, from: nat, a: Word7, d: Word, r: Reply)
    requires ServedWith(p, served, from, Request(true, a, d), r) && r.status.Success?
    ensures WriteServed(p, served, from, a, d)
  {
    hide AnswerOf;
  }

  /** A write of data0 or data1 served with Success found no command running, and the register then holds the
      number written. */
  lemma ServedWriteLands(p: DmMem.Params, x: Served)
    requires x.Valid(p) && x.q.write && FromBits(x.q.address) in {4, 5} && AnswerOf(p, x).status.Success?
    requires x.run.dmactive && x.i.hartData.None?
    ensures !x.i.cmdBusy
    ensures var r := Csr.RunNext(p, x.run, Some(DmRequest(x.q)), x.i);
            |r.data| == 8
            && FromBytes(if FromBits(x.q.address) == 4 then r.data[..4] else r.data[4..]) == FromBits(x.q.data)
  {
    hide Csr.Answer, FromBits, FromBytes, Csr.WordBytes, Csr.BytesWord, Csr.HaveresetNext, Csr.ParseControl;
    BusyExactly(p, x.run, x.sb, DmRequest(x.q), x.i, x.o, x.sbBusy);
    Csr.WordOfBytes(x.q.data);
    Csr.WordNumber(Csr.WordBytes(x.q.data));
  }

  // ----- each request is served once, in order

  /** No edge of the run clears the transport. */
  ghost predicate ClearFree(p: DmMem.Params, id: Word, u: Unit, edges: seq<Edge>)
    requires Valid(p, u) && AllPossible(p, edges)
  {
    forall k :: 0 <= k < |edges| ==> edges[k].Tck? ==> !Clears(EventOf(After(p, id, u, edges[..k]).dtm))
  }

  /** Since u, in which nothing was outstanding: the registers have served the requests sent, each once and
      in order, but for one still on its way; and the transport has got their answers, each once and in
      order, but for one still on its way. */
  ghost predicate Ledger(p: DmMem.Params, u: Unit, v: Unit) {
    var (f, g) := (u.dtm.fsm, v.dtm.fsm);
    && Grows(u, v)
    && |g.sent| - |f.sent| == |v.served| - |u.served| + (if v.slot.Asking? then 1 else 0)
    && |v.served| - |u.served| == |g.got| - |f.got| + (if v.slot.Answering? then 1 else 0)
    && (v.slot.Asking? ==> g.sent[|g.sent| - 1] == v.slot.q)
    && (v.slot.Answering? ==> Answers(p, v.served[|v.served| - 1], v.slot.q, v.slot.r))
    && (forall j :: |u.served| <= j < |v.served| ==> v.served[j].q == g.sent[|f.sent| + (j - |u.served|)])
    && (forall j :: |f.got| <= j < |g.got| ==>
          Answers(p, v.served[|u.served| + (j - |f.got|)], g.got[j].request, g.got[j].reply))
  }

  ghost predicate Answers(p: DmMem.Params, x: Served, q: Request, r: Reply) {
    x.Valid(p) && x.q == q && AnswerOf(p, x) == r
  }

  lemma LedgerStep(p: DmMem.Params, id: Word, u: Unit, v: Unit, e: Edge)
    requires Valid(p, v) && Possible(p, e) && Ledger(p, u, v)
    requires e.Tck? ==> !Clears(EventOf(v.dtm))
    ensures Ledger(p, u, Step(p, id, v, e))
  {
    hide Csr.RunNext, Csr.SbStep, AnswerOf, DmRequest, TapTick, DtmcsNext, DrNext, DataNext, ErrorNext, EventOf;
    StepGrows(p, id, v, e);
    StepValid(p, id, v, e);
    match e
    case Tck(_, _, _) =>
    case Clk(_, _, _, _) =>
  }

  lemma LedgerFirst(p: DmMem.Params, u: Unit)
    requires u.slot.Empty?
    ensures Ledger(p, u, u)
  {
  }

  /** In every run that does not clear the transport, the registers serve the requests sent and nothing else,
      once each and in order, and the transport gets their answers, once each and in order. */
  lemma {:induction false} ServedInOrder(p: DmMem.Params, id: Word, u: Unit, edges: seq<Edge>)
    requires Valid(p, u) && AllPossible(p, edges) && u.slot.Empty? && ClearFree(p, id, u, edges)
    ensures Ledger(p, u, After(p, id, u, edges))
    decreases |edges|
  {
    hide Ledger, Step, Valid, EventOf;
    var n := |edges| - 1;
    if n < 0 {
      LedgerFirst(p, u);
    } else {
      ShorterIsFree(p, id, u, edges);
      ServedInOrder(p, id, u, edges[..n]);
      LedgerStep(p, id, u, After(p, id, u, edges[..n]), edges[n]);
    }
  }

  lemma ShorterIsFree(p: DmMem.Params, id: Word, u: Unit, edges: seq<Edge>)
    requires Valid(p, u) && AllPossible(p, edges) && |edges| > 0 && ClearFree(p, id, u, edges)
    ensures ClearFree(p, id, u, edges[..|edges| - 1])
  {
    hide After, Valid, EventOf;
    var before := edges[..|edges| - 1];
    forall k | 0 <= k < |before| && before[k].Tck? ensures !Clears(EventOf(After(p, id, u, before[..k]).dtm)) {
      assert before[..k] == edges[..k];
    }
  }

  lemma OfferedEdge(p: DmMem.Params, id: Word, u: Unit, v: Unit, e: Edge)
    requires u.dtm.fsm.phase.Write? && Valid(p, v) && Possible(p, e) && Grows(u, v)
    requires OfferedOrSent(u.dtm.fsm, v.dtm.fsm) && (e.Tck? ==> !Clears(EventOf(v.dtm)))
    ensures OfferedOrSent(u.dtm.fsm, Step(p, id, v, e).dtm.fsm)
  {
    hide Csr.RunNext, Csr.SbStep, Csr.Answer, TapTick, DtmcsNext, DrNext, EventOf;
  }

  lemma {:induction false} OfferedAlong(p: DmMem.Params, id: Word, u: Unit, edges: seq<Edge>)
    requires Valid(p, u) && AllPossible(p, edges) && u.dtm.fsm.phase.Write? && ClearFree(p, id, u, edges)
    ensures Grows(u, After(p, id, u, edges)) && OfferedOrSent(u.dtm.fsm, After(p, id, u, edges).dtm.fsm)
    decreases |edges|
  {
    hide Step, Valid, OfferedOrSent, EventOf;
    var n := |edges| - 1;
    if n < 0 {
      FromTheStart(u.dtm.fsm);
    } else {
      ShorterIsFree(p, id, u, edges);
      OfferedAlong(p, id, u, edges[..n]);
      StepGrows(p, id, After(p, id, u, edges[..n]), edges[n]);
      OfferedEdge(p, id, u, After(p, id, u, edges[..n]), edges[n]);
    }
  }

  /** A write the debugger has handed over is the first request the registers serve from then on, and it has
      been served once the transport is idle again; what they serve after it are the requests sent after it
      (ServedInOrder). */
  lemma WriteReachesRegisters(p: DmMem.Params, id: Word, u: Unit, edges: seq<Edge>)
    requires Valid(p, u) && AllPossible(p, edges) && u.dtm.fsm.phase.Write? && ClearFree(p, id, u, edges)
    ensures var f, v := u.dtm.fsm, After(p, id, u, edges);
            && |v.served| >= |u.served| && (v.dtm.fsm.phase.Idle? ==> |v.served| > |u.served|)
            && (|v.served| > |u.served| ==> v.served[|u.served|].q == Request(true, f.address, f.data))
  {
    hide After, ClearFree;
    ServedInOrder(p, id, u, edges);
    OfferedAlong(p, id, u, edges);
  }
}
