/**
 System bus access as the debugger sees it: every access is a single indivisible step on registers and
 memory. The clocked registers and bus master refine it, for any timing of requests and of the bus.
 */
module SbaAtomic {
  import opened Bytes
  import DmMem
  import opened DmCsrs
  import opened Sba

  /** Byte memory; absent addresses hold zero. */
  type Memory = map<nat, Byte>

  function At(m: Memory, a: nat): Byte { if a in m then m[a] else 0 }

  /** n consecutive bytes. */
  function LoadFrom(m: Memory, a: nat, n: nat): (bs: seq<Byte>)
    ensures |bs| == n
  {
    seq<Byte>(n, k requires 0 <= k < n => At(m, a + k))
  }

  function StoreAt(m: Memory, a: nat, bs: seq<Byte>): Memory
    decreases |bs|
  {
    if bs == [] then m else StoreAt(m[a := bs[0]], a + 1, bs[1..])
  }

  // ----- the atomic interface

  /** Registers without the busy flags; addr fits the bus. */
  datatype Abs = Abs(regs: SbRegs, mem: Memory)
  {
    predicate Valid(w: nat) { regs.Valid() && regs.addr < Addresses(w) && !regs.busyError && !regs.busyBit }
  }

  datatype Kind = Load | Store

  /** How the bus answers an access: whether a write takes effect, error flags, and what it drives on the
      read lanes of a write or a failed read. */
  datatype Verdict = Verdict(lands: bool, err: bool, other: bool, noise: seq<Byte>)

  /** The low or high half of the address written; a 32-bit bus has no high half. */
  function WithHalf(w: nat, a: nat, high: bool, d: nat): (b: nat)
    requires a < Addresses(w) && d < TWO32
    ensures b < Addresses(w)
  {
    if w == 32 then if high then a else d
    else if high then WithHigh(a, d) else WithLow(a, d)
  }

  /** The effect of an accepted request on the registers. */
  function Issue(w: nat, r: SbRegs, q: Request): (t: SbRegs)
    requires r.Valid() && r.addr < Addresses(w)
    ensures t.Valid() && t.addr < Addresses(w)
  {
    if !q.op.Write? then r
    else if q.addr == SBCS then Configured(r, ParseSbcs(q.data))
    else if q.addr == SBADDRESS0 then r.(addr := WithHalf(w, r.addr, false, Num(q.data)))
    else if q.addr == SBADDRESS1 then r.(addr := WithHalf(w, r.addr, true, Num(q.data)))
    else if q.addr == SBDATA0 then r.(data := WordBytes(q.data) + r.data[4..])
    else if q.addr == SBDATA1 then r.(data := r.data[..4] + WordBytes(q.data))
    else r
  }

  /** The access an accepted request starts. */
  function Starts(r: SbRegs, q: Request): Option<Kind> {
    if r.error != 0 then None
    else if q.op.Read? && q.addr == SBDATA0 && r.readOnData then Some(Load)
    else if q.op.Write? && q.addr == SBDATA0 then Some(Store)
    else if q.op.Write? && q.addr == SBADDRESS0 && r.readOnAddr then Some(Load)
    else None
  }

  /** The bytes from address a to the end of its bus word, in the sbdata registers. */
  function RestOfWord(w: nat, m: Memory, a: nat): (d: seq<Byte>)
    requires IsWidth(w)
    ensures |d| == 8
  {
    var n := w / 8 - a % (w / 8);
    LoadFrom(m, a, n) + seq(8 - n, _ => 0)
  }

  function Noise(w: nat, s: SbRegs, v: Verdict): (d: seq<Byte>)
    requires IsWidth(w) && s.Valid() && |v.noise| == w / 8
    ensures |d| == 8
  {
    ShiftDown(v.noise, FirstLane(w, s))
  }

  /** The access itself: misaligned and unsupported ones only set the error; the others reach memory,
      advance the address, and report the error the bus gave. */
  function Perform(w: nat, a: Abs, k: Kind, v: Verdict): (b: Abs)
    requires IsWidth(w) && a.Valid(w) && |v.noise| == w / 8
    ensures b.Valid(w)
  {
    var r, size := a.regs, AccessSize(a.regs.access);
    if !IsAligned(r) then a.(regs := r.(error := ERROR_ALIGNMENT))
    else if !Supported(w, r) then a.(regs := r.(error := ERROR_SIZE))
    else
      Abs(r.(data := if k.Load? && !v.err && !v.other then RestOfWord(w, a.mem, r.addr) else Noise(w, r, v),
             addr := if r.autoIncrement then (r.addr + size) % Addresses(w) else r.addr,
             error := if v.other then ERROR_OTHER else if v.err then ERROR_BUS else r.error),
          if k.Store? && v.lands then StoreAt(a.mem, r.addr, r.data[..size]) else a.mem)
  }

  /** A request answered Success, with the bus's answer if it started an access. */
  datatype Entry = Entry(q: Request, verdict: Option<Verdict>)

  function Step(w: nat, a: Abs, x: Entry): (b: Abs)
    requires IsWidth(w) && a.Valid(w) && (x.verdict.Some? ==> |x.verdict.value.noise| == w / 8)
    ensures b.Valid(w)
  {
    var issued, k := a.(regs := Issue(w, a.regs, x.q)), Starts(a.regs, x.q);
    if k.Some? && x.verdict.Some? then Perform(w, issued, k.value, x.verdict.value) else issued
  }

  predicate LogFits(w: nat, log: seq<Entry>) {
    forall j :: 0 <= j < |log| ==> log[j].verdict.Some? ==> |log[j].verdict.value.noise| == w / 8
  }

  /** The requests of the log, one whole access after the other. */
  function Replay(w: nat, a: Abs, log: seq<Entry>): (b: Abs)
    requires IsWidth(w) && a.Valid(w) && LogFits(w, log)
    ensures b.Valid(w)
  {
    if log == [] then a else Step(w, Replay(w, a, log[..|log| - 1]), log[|log| - 1])
  }

  // ----- the clocked machine on a bus with memory

  /** Registers, bus master and memory; landed remembers whether the granted write took effect. */
  datatype Machine = Machine(regs: SbRegs, state: BusState, mem: Memory, landed: bool)

  /** One cycle of the bus: grant, whether a granted write takes effect, and the response. */
  datatype Cycle = Cycle(gnt: bool, lands: bool, answer: Option<Verdict>)

  datatype Input = Input(q: Option<Request>, bus: Cycle)

  ghost predicate Fits(w: nat, c: Machine, i: Input) {
    && IsWidth(w) && c.regs.Valid()
    && (i.bus.answer.Some? ==> |i.bus.answer.value.noise| == w / 8 && (c.state.WaitRead? || c.state.WaitWrite?))
  }

  /** The whole bus word that holds address a, as it appears on the lanes. */
  function BusWord(w: nat, m: Memory, a: nat): (bs: seq<Byte>)
    requires IsWidth(w)
    ensures |bs| == w / 8
  {
    LoadFrom(m, a / (w / 8) * (w / 8), w / 8)
  }

  /** What the memory drives on the bus. */
  function BusOf(w: nat, c: Machine, i: Input): (b: BusIn)
    requires Fits(w, c, i)
    ensures b.Valid(w)
  {
    var y := i.bus.answer;
    BusIn(i.bus.gnt,
          if y.None? then None
          else Some(Return(y.value.err, y.value.other,
                           if c.state.WaitRead? && !y.value.err && !y.value.other
                           then BusWord(w, c.mem, c.regs.addr % Addresses(w)) else y.value.noise)))
  }

  /** Write enabled lanes into the bus word at base. */
  function Poke(m: Memory, base: nat, be: seq<bool>, wdata: seq<Byte>): Memory
    requires |be| == |wdata|
    decreases |be|
  {
    if be == [] then m
    else Poke(if be[0] then m[base := wdata[0]] else m, base + 1, be[1..], wdata[1..])
  }

  /** Writes always drive their byte enables, whatever a build does for reads. */
  function MemoryNext(w: nat, c: Machine, i: Input): Memory
    requires Fits(w, c, i)
  {
    var x := RequestOf(w, true, c.state, c.regs);
    if x.Some? && x.value.we && i.bus.gnt && i.bus.lands
    then Poke(c.mem, x.value.address / (w / 8) * (w / 8), x.value.be, x.value.wdata) else c.mem
  }

  function Clock(w: nat, c: Machine, i: Input): (d: Machine)
    requires Fits(w, c, i)
    ensures d.regs.Valid()
  {
    var bus := BusOf(w, c, i);
    Machine(SbNext(c.regs, i.q, Report(w, c.state, c.regs, bus)),
            StateNext(w, c.state, c.regs, StrobesOf(c.regs, i.q, !c.state.Resting?), bus),
            MemoryNext(w, c, i),
            if RequestOf(w, true, c.state, c.regs).Some? && i.bus.gnt then i.bus.lands else c.landed)
  }

  // ----- lanes and bytes

  /** Enabled lanes that carry a contiguous run of bytes store exactly those bytes. */
  lemma {:induction false} PokeRun(m: Memory, base: nat, be: seq<bool>, wdata: seq<Byte>, first: nat, n: nat)
    requires |be| == |wdata| && first + n <= |be|
    requires forall k :: 0 <= k < |be| ==> be[k] == (first <= k < first + n)
    ensures Poke(m, base, be, wdata) == StoreAt(m, base + first, wdata[first..first + n])
    decreases |be|
  {
    if be != [] {
      if first > 0 {
        PokeRun(m, base + 1, be[1..], wdata[1..], first - 1, n);
        assert wdata[1..][first - 1..first - 1 + n] == wdata[first..first + n];
      } else if n > 0 {
        PokeRun(m[base := wdata[0]], base + 1, be[1..], wdata[1..], 0, n - 1);
        assert wdata[..n][1..] == wdata[1..][..n - 1];
      } else {
        PokeRun(m, base + 1, be[1..], wdata[1..], 0, 0);
      }
    }
  }

  /** An aligned, supported access uses exactly the lanes of its bytes. */
  lemma LanesOf(w: nat, s: SbRegs)
    requires IsWidth(w) && s.Valid() && Supported(w, s) && IsAligned(s)
    ensures FirstLane(w, s) == s.addr % (w / 8)
    ensures FirstLane(w, s) + AccessSize(s.access) <= w / 8
    ensures forall k :: 0 <= k < w / 8 ==>
              ByteEnable(w, s)[k] == (FirstLane(w, s) <= k < FirstLane(w, s) + AccessSize(s.access))
  {
  }

  lemma ShiftedUp(w: nat, data: seq<Byte>, first: nat, n: nat)
    requires IsWidth(w) && |data| == 8 && first < w / 8 && first + n <= w / 8
    ensures ShiftUp(w, data, first)[first..first + n] == data[..n]
  {
    assert (seq(first, _ => 0) + data[..w / 8 - first])[first..] == data[..w / 8 - first];
    assert ShiftUp(w, data, first)[first..][..n] == data[..n];
  }

  /** A write access puts the low bytes of sbdata at its address. */
  lemma WriteLands(w: nat, s: SbRegs, m: Memory)
    requires IsWidth(w) && s.Valid() && s.addr < Addresses(w) && Supported(w, s) && IsAligned(s)
    ensures Poke(m, s.addr / (w / 8) * (w / 8), ByteEnable(w, s), ShiftUp(w, s.data, FirstLane(w, s)))
            == StoreAt(m, s.addr, s.data[..AccessSize(s.access)])
  {
    LanesOf(w, s);
    var first, n, base := FirstLane(w, s), AccessSize(s.access), s.addr / (w / 8) * (w / 8);
    PokeRun(m, base, ByteEnable(w, s), ShiftUp(w, s.data, first), first, n);
    assert base + first == s.addr;
    ShiftedUp(w, s.data, first, n);
  }

  /** A read access delivers the bytes from its address on. */
  lemma ReadDelivers(w: nat, s: SbRegs, m: Memory)
    requires IsWidth(w) && s.Valid() && s.addr < Addresses(w) && Supported(w, s) && IsAligned(s)
    ensures ShiftDown(BusWord(w, m, s.addr), FirstLane(w, s)) == RestOfWord(w, m, s.addr)
  {
    LanesOf(w, s);
    var first, base := FirstLane(w, s), s.addr / (w / 8) * (w / 8);
    assert base + first == s.addr;
    assert BusWord(w, m, s.addr)[first..] == LoadFrom(m, s.addr, w / 8 - first);
  }

  // ----- refinement

  /** Requests that act on the system bus registers. */
  predicate Affects(q: Request) { SbGuarded(q) || (q.op.Write? && q.addr == SBCS) }

  /** An affecting request is answered Success. */
  predicate Accepts(c: Machine, q: Option<Request>) {
    q.Some? && Affects(q.value) && !SbRefused(c.regs, q.value, !c.state.Resting?)
  }

  /** The registers without their busy flags; the address as the bus sees it. */
  function Core(w: nat, r: SbRegs): (t: SbRegs)
    requires r.Valid()
    ensures t.Valid() && t.addr < Addresses(w)
  {
    r.(busyError := false, busyBit := false, addr := r.addr % Addresses(w))
  }

  predicate Faulty(w: nat, c: Machine)
    requires IsWidth(w) && c.regs.Valid()
  {
    !c.state.Resting? && (!Supported(w, c.regs) || !IsAligned(c.regs))
  }

  /** What a tick adds to the log: an accepted request, or the answer to the one in progress. */
  function LogNext(w: nat, c: Machine, i: Input, log: seq<Entry>): (l: seq<Entry>)
    requires Fits(w, c, i) && LogFits(w, log)
    ensures LogFits(w, l)
  {
    var n := |log|;
    if Accepts(c, i.q) then log + [Entry(i.q.value, None)]
    else if n == 0 then log
    else if Faulty(w, c) then
      log[n - 1 := log[n - 1].(verdict := Some(Verdict(false, false, false, seq(w / 8, _ => 0))))]
    else if i.bus.answer.Some? then log[n - 1 := log[n - 1].(verdict := Some(i.bus.answer.value.(lands := c.landed)))]
    else log
  }

  /** The machine agrees with the replayed log. An access in progress is the last entry, still without
      its answer. */
  ghost predicate Agrees(w: nat, a: Abs, log: seq<Entry>, c: Machine)
    requires IsWidth(w) && a.Valid(w) && LogFits(w, log)
  {
    c.regs.Valid() && Core(w, c.regs) == Replay(w, a, log).regs
    && if c.state.Resting? then c.mem == Replay(w, a, log).mem else InProgress(w, a, log, c)
  }

  ghost predicate InProgress(w: nat, a: Abs, log: seq<Entry>, c: Machine)
    requires IsWidth(w) && a.Valid(w) && LogFits(w, log) && c.regs.Valid()
  {
    var n, r := |log|, Core(w, c.regs);
    && n > 0 && log[n - 1].verdict.None? && r.error == 0
    && Starts(Replay(w, a, log[..n - 1]).regs, log[n - 1].q)
       == Some(if c.state.Reading? || c.state.WaitRead? then Load else Store)
    && (c.state.WaitRead? || c.state.WaitWrite? ==> Supported(w, r) && IsAligned(r))
    && var m := Replay(w, a, log).mem;
       c.mem == if c.state.WaitWrite? && c.landed then StoreAt(m, r.addr, r.data[..AccessSize(r.access)]) else m
  }

  lemma HalfWritten(w: nat, a: nat, d: nat)
    requires IsWidth(w) && a < Addresses(w) && d < TWO32
    ensures WithLow(a, d) % Addresses(w) == WithHalf(w, a, false, d)
    ensures WithHigh(a, d) % Addresses(w) == WithHalf(w, a, true, d)
  {
    if w == 32 {
      assert a / TWO32 == 0 && a % TWO32 == a;
      assert (d * TWO32 + a) % TWO32 == a;
    }
  }

  /** An accepted request has its atomic effect on the registers. */
  lemma AcceptedIssues(w: nat, r: SbRegs, q: Request)
    requires IsWidth(w) && r.Valid() && Affects(q) && !SbRefused(r, q, false)
    ensures Core(w, SbNext(r, Some(q), SbIn(false, r.addr % Addresses(w), None, None))) == Issue(w, Core(w, r), q)
  {
    hide WithLow, WithHigh, WithHalf, WordBytes, Num, ParseSbcs;
    var a := r.addr % Addresses(w);
    assert a % Addresses(w) == a;
    HalfWritten(w, a, Num(q.data));
  }

  /** Accepted is what the debugger sees answered Success; a data read comes with the data registers. */
  lemma SuccessIsAccepted(p: DmMem.Params, r: RunRegs, c: Machine, q: Request, i: RunIn, o: Observed)
    requires p.Valid() && r.Valid(p) && c.regs.Valid() && o.Valid(p) && Affects(q)
    ensures var answer := Answer(p, r, c.regs, q, i, o, !c.state.Resting?);
            && (answer.status.Success? <==> Accepts(c, Some(q)))
            && (answer.status.Success? && q.op.Read? && q.addr == SBDATA0
                ==> answer.data == BytesWord(c.regs.data[..4]))
            && (answer.status.Success? && q.op.Read? && q.addr == SBDATA1
                ==> answer.data == BytesWord(c.regs.data[4..]))
  {
    hide BytesWord, ControlWord, SbcsWord, StatusWord, AbstractcsWord;
  }

  /** A request that is not accepted leaves the registers alone, but for the busy error. */
  lemma RefusedOnlySetsBusyError(r: SbRegs, q: Option<Request>, b: SbIn)
    requires r.Valid() && b.Valid() && (q.Some? && Affects(q.value) ==> SbRefused(r, q.value, b.busy))
    ensures SbNext(r, q, b)
            == SbNext(r, None, b).(busyError := r.busyError || (q.Some? && SbRefused(r, q.value, b.busy)))
  {
  }

  /** An accepted request starts the bus master exactly when it starts an access. */
  lemma AcceptedStarts(w: nat, r: SbRegs, q: Request, i: BusIn)
    requires IsWidth(w) && r.Valid() && Affects(q) && !SbRefused(r, q, false)
    ensures StateNext(w, Resting, r, StrobesOf(r, Some(q), false), i)
            == match Starts(Core(w, r), q) case None => Resting case Some(Load) => Reading case Some(Store) => Writing
  {
  }

  // ----- one tick

  /** A tick with the bus master at rest that accepts a request. */
  lemma AcceptingTick(w: nat, a: Abs, log: seq<Entry>, c: Machine, i: Input)
    requires Fits(w, c, i) && a.Valid(w) && LogFits(w, log) && Agrees(w, a, log, c)
             && c.state.Resting? && Accepts(c, i.q)
    ensures Agrees(w, a, LogNext(w, c, i, log), Clock(w, c, i))
  {
    hide SbNext, Issue, Starts, Perform, Configured, SbRefused, StrobesOf, StateNext;
    var l, q, b := LogNext(w, c, i, log), i.q.value, Replay(w, a, log);
    AcceptedIssues(w, c.regs, q);
    AcceptedStarts(w, c.regs, q, BusOf(w, c, i));
    assert l[..|l| - 1] == log;
    assert Replay(w, a, l) == b.(regs := Issue(w, b.regs, q));
    IssueKeepsError(w, b.regs, q);
  }

  /** A request that starts an access leaves the error flag clear. */
  lemma IssueKeepsError(w: nat, r: SbRegs, q: Request)
    requires r.Valid() && r.addr < Addresses(w)
    ensures Starts(r, q).Some? ==> Issue(w, r, q).error == 0
  {
  }

  lemma IgnoringTick(w: nat, a: Abs, log: seq<Entry>, c: Machine, i: Input)
    requires Fits(w, c, i) && a.Valid(w) && LogFits(w, log) && Agrees(w, a, log, c)
             && c.state.Resting? && !Accepts(c, i.q)
    ensures Agrees(w, a, LogNext(w, c, i, log), Clock(w, c, i))
  {
    hide Replay, Poke, ByteEnable, ShiftUp, ShiftDown, FirstLane, Supported, IsAligned;
    RefusedOnlySetsBusyError(c.regs, i.q, Report(w, c.state, c.regs, BusOf(w, c, i)));
  }

  /** The replay after the last entry has got its answer. */
  lemma Answered(w: nat, a: Abs, log: seq<Entry>, v: Verdict)
    requires IsWidth(w) && a.Valid(w) && LogFits(w, log) && |log| > 0 && |v.noise| == w / 8
    requires log[|log| - 1].verdict.None? && Starts(Replay(w, a, log[..|log| - 1]).regs, log[|log| - 1].q).Some?
    ensures var n, l := |log|, log[|log| - 1 := log[|log| - 1].(verdict := Some(v))];
            LogFits(w, l)
            && Replay(w, a, l) == Perform(w, Replay(w, a, log),
                                          Starts(Replay(w, a, log[..n - 1]).regs, log[n - 1].q).value, v)
  {
    hide Perform, Issue, Starts;
    var n, l := |log|, log[|log| - 1 := log[|log| - 1].(verdict := Some(v))];
    assert l[..n - 1] == log[..n - 1];
  }

  /** A tick of a busy bus master accepts nothing: it only reports. */
  lemma BusyRegisters(w: nat, c: Machine, i: Input)
    requires Fits(w, c, i) && !c.state.Resting?
    ensures !Accepts(c, i.q)
    ensures Core(w, Clock(w, c, i).regs) == Core(w, SbNext(c.regs, None, Report(w, c.state, c.regs, BusOf(w, c, i))))
  {
    hide SbNext, BusOf, MemoryNext, StateNext;
    RefusedOnlySetsBusyError(c.regs, i.q, Report(w, c.state, c.regs, BusOf(w, c, i)));
  }

  /** A misaligned or unsupported access ends with its error and never reaches the bus. */
  lemma FaultTick(w: nat, a: Abs, log: seq<Entry>, c: Machine, i: Input)
    requires Fits(w, c, i) && a.Valid(w) && LogFits(w, log) && Agrees(w, a, log, c) && Faulty(w, c)
    ensures Agrees(w, a, LogNext(w, c, i, log), Clock(w, c, i))
  {
    hide Replay, Poke, ByteEnable, ShiftUp, ShiftDown, FirstLane, Supported, IsAligned, StoreAt, LoadFrom;
    BusyRegisters(w, c, i);
    SameShape(w, c.regs);
    Answered(w, a, log, Verdict(false, false, false, seq(w / 8, _ => 0)));
  }

  lemma LowBits(a: nat)
    ensures a % TWO32 % 128 == a % 128
  {
  }

  /** Alignment and size do not depend on address bits beyond the bus. */
  lemma SameShape(w: nat, r: SbRegs)
    requires IsWidth(w) && r.Valid()
    ensures IsAligned(Core(w, r)) == IsAligned(r) && Supported(w, Core(w, r)) == Supported(w, r)
    ensures FirstLane(w, Core(w, r)) == FirstLane(w, r) && ByteEnable(w, Core(w, r)) == ByteEnable(w, r)
  {
    var a := r.addr;
    if w == 64 {
      assert a % Addresses(w) == a;
    } else {
      LowBits(a);
      LowSizes(a);
      LowSizes(a % Addresses(w));
      assert a % Addresses(w) % AccessSize(r.access) == a % AccessSize(r.access);
    }
  }

  /** The remainders that matter are those of the low seven bits. */
  lemma LowSizes(a: nat)
    ensures a % 2 == a % 128 % 2 && a % 4 == a % 128 % 4 && a % 8 == a % 128 % 8
    ensures a % 16 == a % 128 % 16 && a % 32 == a % 128 % 32 && a % 64 == a % 128 % 64
  {
    LowSize(a, 2, 64);
    LowSize(a, 4, 32);
    LowSize(a, 8, 16);
    LowSize(a, 16, 8);
    LowSize(a, 32, 4);
    LowSize(a, 64, 2);
  }

  lemma LowSize(a: nat, n: nat, m: nat)
    requires n > 0 && n * m == 128
    ensures a % n == a % 128 % n
  {
    var q, r := a / 128, a % 128;
    assert a == (m * q + r / n) * n + r % n by {
      assert (m * q) * n == 128 * q;
    }
    ModUnique(a, n, m * q + r / n, r % n);
  }

  /** Waiting for a grant or an answer. */
  lemma WaitingTick(w: nat, a: Abs, log: seq<Entry>, c: Machine, i: Input)
    requires Fits(w, c, i) && a.Valid(w) && LogFits(w, log) && Agrees(w, a, log, c) && !c.state.Resting?
    requires !Faulty(w, c) && i.bus.answer.None?
    ensures Agrees(w, a, LogNext(w, c, i, log), Clock(w, c, i))
  {
    hide Replay, Starts, Poke, ByteEnable, ShiftUp, StoreAt, FirstLane;
    BusyRegisters(w, c, i);
    SameShape(w, c.regs);
    WriteLands(w, Core(w, c.regs), c.mem);
  }

  /** What the answer to an access does to the registers is what the atomic access does. */
  lemma AnswerPerforms(w: nat, c: Machine, i: Input, m: Memory, v: Verdict)
    requires Fits(w, c, i) && !c.state.Resting? && !Faulty(w, c) && i.bus.answer.Some?
    requires v == i.bus.answer.value.(lands := c.landed)
    requires c.mem == if c.state.WaitWrite? && c.landed
                      then StoreAt(m, Core(w, c.regs).addr, c.regs.data[..AccessSize(c.regs.access)])
                      else m
    ensures var k := if c.state.WaitRead? then Load else Store;
            Abs(Core(w, SbNext(c.regs, None, Report(w, c.state, c.regs, BusOf(w, c, i)))), c.mem)
            == Perform(w, Abs(Core(w, c.regs), m), k, v)
  {
    hide StoreAt, FirstLane, BusWord, ShiftDown, RestOfWord, Supported, IsAligned;
    SameShape(w, c.regs);
    ReadDelivers(w, Core(w, c.regs), c.mem);
  }

  /** The answer to an access. */
  lemma CompletingTick(w: nat, a: Abs, log: seq<Entry>, c: Machine, i: Input)
    requires Fits(w, c, i) && a.Valid(w) && LogFits(w, log) && Agrees(w, a, log, c) && !c.state.Resting?
    requires !Faulty(w, c) && i.bus.answer.Some?
    ensures Agrees(w, a, LogNext(w, c, i, log), Clock(w, c, i))
  {
    hide Replay, Starts, StoreAt, Report, SbNext, Perform;
    BusyRegisters(w, c, i);
    Answered(w, a, log, i.bus.answer.value.(lands := c.landed));
    AnswerPerforms(w, c, i, Replay(w, a, log).mem, i.bus.answer.value.(lands := c.landed));
  }

  lemma TickAgrees(w: nat, a: Abs, log: seq<Entry>, c: Machine, i: Input)
    requires Fits(w, c, i) && a.Valid(w) && LogFits(w, log) && Agrees(w, a, log, c)
    ensures Agrees(w, a, LogNext(w, c, i, log), Clock(w, c, i))
  {
    hide Agrees, LogNext, Clock;
    if c.state.Resting? {
      if Accepts(c, i.q) { AcceptingTick(w, a, log, c, i); } else { IgnoringTick(w, a, log, c, i); }
    } else if Faulty(w, c) {
      FaultTick(w, a, log, c, i);
    } else if i.bus.answer.None? {
      WaitingTick(w, a, log, c, i);
    } else {
      CompletingTick(w, a, log, c, i);
    }
  }

  // ----- runs

  ghost predicate Linked(w: nat, cs: seq<Machine>, ins: seq<Input>, k: nat)
    requires k < |ins| && |cs| == |ins| + 1
  {
    Fits(w, cs[k], ins[k]) && cs[k + 1] == Clock(w, cs[k], ins[k])
  }

  /** A run from rest, with any stream of requests and any bus that answers each granted access once. */
  ghost predicate Trace(w: nat, cs: seq<Machine>, ins: seq<Input>) {
    && IsWidth(w) && |cs| == |ins| + 1 && cs[0].regs.Valid() && cs[0].state.Resting?
    && forall k :: 0 <= k < |ins| ==> Linked(w, cs, ins, k)
  }

  /** The requests on the system bus registers answered Success in the first k ticks, in order, each with
      the bus's answer once there is one. */
  ghost function Log(w: nat, cs: seq<Machine>, ins: seq<Input>, k: nat): (log: seq<Entry>)
    requires Trace(w, cs, ins) && k <= |ins|
    ensures LogFits(w, log)
  {
    if k == 0 then [] else
      var log := Log(w, cs, ins, k - 1);
      if Linked(w, cs, ins, k - 1) then LogNext(w, cs[k - 1], ins[k - 1], log) else log
  }

  ghost function Initial(w: nat, cs: seq<Machine>): (a: Abs)
    requires IsWidth(w) && |cs| > 0 && cs[0].regs.Valid()
    ensures a.Valid(w)
  {
    Abs(Core(w, cs[0].regs), cs[0].mem)
  }

  /** The system bus registers and the bus master refine the atomic interface: whenever the bus master is
      at rest, registers and memory are those of the accepted requests carried out one at a time, in order. */
  lemma {:induction false} RefinesAtomic(w: nat, cs: seq<Machine>, ins: seq<Input>, k: nat)
    requires Trace(w, cs, ins) && k <= |ins|
    ensures Agrees(w, Initial(w, cs), Log(w, cs, ins, k), cs[k])
    ensures cs[k].state.Resting? ==>
              Abs(Core(w, cs[k].regs), cs[k].mem) == Replay(w, Initial(w, cs), Log(w, cs, ins, k))
  {
    hide Clock, LogNext, InProgress, Fits;
    if k > 0 {
      RefinesAtomic(w, cs, ins, k - 1);
      assert Linked(w, cs, ins, k - 1);
      TickAgrees(w, Initial(w, cs), Log(w, cs, ins, k - 1), cs[k - 1], ins[k - 1]);
    }
  }

  // ----- bus discipline

  /** Every request on the bus has a supported size and an aligned address, and none is made while an
      error is held. */
  lemma RequestsAreSound(w: nat, readEnable: bool, cs: seq<Machine>, ins: seq<Input>, k: nat)
    requires Trace(w, cs, ins) && k <= |ins|
    ensures cs[k].regs.Valid()
    ensures RequestOf(w, readEnable, cs[k].state, cs[k].regs).Some? ==>
              Supported(w, cs[k].regs) && IsAligned(cs[k].regs) && cs[k].regs.error == 0
  {
    hide Replay;
    RefinesAtomic(w, cs, ins, k);
  }

  /** From request to grant, address, direction, byte enables and write data do not change. */
  lemma RequestIsStable(w: nat, readEnable: bool, c: Machine, i: Input)
    requires Fits(w, c, i) && RequestOf(w, readEnable, c.state, c.regs).Some? && !i.bus.gnt
    ensures RequestOf(w, readEnable, Clock(w, c, i).state, Clock(w, c, i).regs)
            == RequestOf(w, readEnable, c.state, c.regs)
  {
    hide ByteEnable, ShiftUp, FirstLane, SbNext, IsAligned, Supported;
    BusyRegisters(w, c, i);
    KeepsAccess(w, c, i);
    SameShape(w, c.regs);
    SameShape(w, Clock(w, c, i).regs);
  }

  /** A request that waits for its grant keeps its registers, as the bus sees them. */
  lemma KeepsAccess(w: nat, c: Machine, i: Input)
    requires Fits(w, c, i) && RequestOf(w, true, c.state, c.regs).Some?
    ensures Core(w, SbNext(c.regs, None, Report(w, c.state, c.regs, BusOf(w, c, i)))) == Core(w, c.regs)
  {
  }

  /** Counts over the first k ticks: accepted requests that start an access, grants, accesses given up
      for their size or alignment, and answers. */
  datatype Counts = Counts(starts: nat, grants: nat, faults: nat, answers: nat)

  ghost function Count(w: nat, cs: seq<Machine>, ins: seq<Input>, k: nat): Counts
    requires Trace(w, cs, ins) && k <= |ins|
  {
    if k == 0 then Counts(0, 0, 0, 0) else
      var n, c, i := Count(w, cs, ins, k - 1), cs[k - 1], ins[k - 1];
      if !Linked(w, cs, ins, k - 1) then n else
      Counts(n.starts + (if Accepts(c, i.q) && Starts(Core(w, c.regs), i.q.value).Some? then 1 else 0),
             n.grants + (if RequestOf(w, true, c.state, c.regs).Some? && i.bus.gnt then 1 else 0),
             n.faults + (if Faulty(w, c) then 1 else 0),
             n.answers + (if i.bus.answer.Some? && !Faulty(w, c) then 1 else 0))
  }

  /** Conservation: every started access is granted once or given up once, and every granted access is
      answered once; nothing else reaches the bus. */
  lemma {:induction false} AccessesConserved(w: nat, cs: seq<Machine>, ins: seq<Input>, k: nat)
    requires Trace(w, cs, ins) && k <= |ins|
    ensures var n, st := Count(w, cs, ins, k), cs[k].state;
            && n.starts == n.grants + n.faults + (if st.Reading? || st.Writing? then 1 else 0)
            && n.grants == n.answers + (if st.WaitRead? || st.WaitWrite? then 1 else 0)
  {
    hide Agrees, Clock, Starts;
    if k > 0 {
      AccessesConserved(w, cs, ins, k - 1);
      assert Linked(w, cs, ins, k - 1);
      RefinesAtomic(w, cs, ins, k - 1);
      OneAccess(w, Initial(w, cs), Log(w, cs, ins, k - 1), cs[k - 1], ins[k - 1]);
    }
  }

  /** One tick of the state machine in terms of starts, grants, faults and answers. */
  lemma OneAccess(w: nat, a: Abs, log: seq<Entry>, c: Machine, i: Input)
    requires Fits(w, c, i) && a.Valid(w) && LogFits(w, log) && Agrees(w, a, log, c)
    ensures var d := Clock(w, c, i);
            && (c.state.Resting? ==>
                  !d.state.WaitRead? && !d.state.WaitWrite?
                  && (!d.state.Resting? <==> Accepts(c, i.q) && Starts(Core(w, c.regs), i.q.value).Some?))
            && (c.state.Reading? || c.state.Writing? ==>
                  if Faulty(w, c) then d.state.Resting?
                  else if i.bus.gnt then d.state.WaitRead? || d.state.WaitWrite? else d.state == c.state)
            && (c.state.WaitRead? || c.state.WaitWrite? ==>
                  !Faulty(w, c) && d.state == if i.bus.answer.Some? then Resting else c.state)
            && (!c.state.Resting? ==> !Accepts(c, i.q))
  {
    hide Replay, SbNext, Report, MemoryNext;
    SameShape(w, c.regs);
    if Accepts(c, i.q) { AcceptedStarts(w, c.regs, i.q.value, BusOf(w, c, i)); }
  }
}
