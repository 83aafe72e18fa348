/**
 The two errors of system bus access, by register address and access size: what raises them, what they
 stop for as long as they are held, and the writes that end them.
 */
module SbaErrors {
  import opened Bits
  import opened Bytes
  import DmMem
  import opened DmCsrs
  import opened Sba
  import opened SbaAtomic

  /** Reads and writes of sbdata0 and sbdata1, and writes of sbaddress0 and sbaddress1. */
  predicate DataOrAddress(q: Request) {
    (!q.op.Nop? && q.addr in {0x3c, 0x3d}) || (q.op.Write? && q.addr in {0x39, 0x3a})
  }

  predicate WritesSbcs(q: Request) { q.op.Write? && q.addr == 0x38 }

  /** A write of sbcs with its sbbusyerror bit set. */
  predicate ClearsBusyError(q: Request) { WritesSbcs(q) && q.data[22] }

  /** In one tick the busy error is raised by such an access or an sbcs write while the bus master is busy,
      and otherwise kept until it is cleared at rest. */
  lemma BusyErrorNext(s: SbRegs, q: Option<Request>, b: SbIn)
    requires s.Valid() && b.Valid()
    ensures SbNext(s, q, b).busyError
            <==> (q.Some? && b.busy && (DataOrAddress(q.value) || WritesSbcs(q.value)))
                 || (s.busyError && !(q.Some? && !b.busy && ClearsBusyError(q.value)))
  {
    hide WithLow, WithHigh, WordBytes, Num;
  }

  /** While it is held, every access to sbdata and every write of sbaddress is answered Busy with zero data. */
  lemma HeldAnswersBusy(p: DmMem.Params, r: RunRegs, s: SbRegs, q: Request, i: RunIn, o: Observed, sbBusy: bool)
    requires p.Valid() && r.Valid(p) && s.Valid() && o.Valid(p) && s.busyError && DataOrAddress(q)
    ensures Answer(p, r, s, q, i, o, sbBusy) == Response(Zeros(32), Busy)
  {
    hide ReadData;
  }

  /** A tick at rest with the busy error held starts nothing on the bus and moves neither data, address nor
      memory; without a write of sbcs it moves nothing at all, and only the clearing write ends it. */
  lemma HeldTick(w: nat, c: Machine, i: Input)
    requires Fits(w, c, i) && c.regs.busyError && c.state.Resting?
    ensures var d := Clock(w, c, i);
            && d.state.Resting? && d.mem == c.mem && d.regs.data == c.regs.data
            && Core(w, d.regs).addr == Core(w, c.regs).addr
            && (!(i.q.Some? && WritesSbcs(i.q.value)) ==> Core(w, d.regs) == Core(w, c.regs))
            && (d.regs.busyError <==> !(i.q.Some? && ClearsBusyError(i.q.value)))
  {
    hide WithLow, WithHigh, WordBytes, Num, Poke, ByteEnable, ShiftUp, ShiftDown, FirstLane, IsAligned, Supported;
    BusyErrorNext(c.regs, i.q, Report(w, c.state, c.regs, BusOf(w, c, i)));
  }

  ghost predicate NeverCleared(ins: seq<Input>) {
    forall k :: 0 <= k < |ins| ==> !(ins[k].q.Some? && ClearsBusyError(ins[k].q.value))
  }

  /** Over every run of requests without the clearing write, from a state at rest with the error held: it
      stays held, the bus master stays at rest, and data, address and memory stay as they are; if sbcs is
      not written at all, so does the configuration. */
  lemma {:induction false} HeldRun(w: nat, cs: seq<Machine>, ins: seq<Input>, k: nat)
    requires Trace(w, cs, ins) && cs[0].regs.busyError && NeverCleared(ins) && k <= |ins|
    ensures cs[k].regs.Valid() && cs[k].regs.busyError && cs[k].state.Resting? && cs[k].mem == cs[0].mem
    ensures cs[k].regs.data == cs[0].regs.data && Core(w, cs[k].regs).addr == Core(w, cs[0].regs).addr
    ensures (forall j :: 0 <= j < k ==> !(ins[j].q.Some? && WritesSbcs(ins[j].q.value)))
            ==> Core(w, cs[k].regs) == Core(w, cs[0].regs)
  {
    hide Clock, Fits, Core, ClearsBusyError, WritesSbcs;
    if k > 0 {
      HeldRun(w, cs, ins, k - 1);
      assert Linked(w, cs, ins, k - 1);
      HeldLink(w, cs, ins, k - 1);
    }
  }

  lemma HeldLink(w: nat, cs: seq<Machine>, ins: seq<Input>, k: nat)
    requires Trace(w, cs, ins) && k < |ins| && cs[k].regs.busyError && cs[k].state.Resting? && NeverCleared(ins)
    ensures cs[k].regs.Valid() && cs[k + 1].regs.Valid() && cs[k + 1].regs.busyError && cs[k + 1].state.Resting?
    ensures cs[k + 1].mem == cs[k].mem && cs[k + 1].regs.data == cs[k].regs.data
    ensures Core(w, cs[k + 1].regs).addr == Core(w, cs[k].regs).addr
    ensures !(ins[k].q.Some? && WritesSbcs(ins[k].q.value)) ==> Core(w, cs[k + 1].regs) == Core(w, cs[k].regs)
  {
    hide Clock, Core, ClearsBusyError, WritesSbcs;
    assert Linked(w, cs, ins, k);
    HeldTick(w, cs[k], ins[k]);
  }

  /** A write of sbcs at rest sets the configuration field by field, whatever the size asked for, and clears the
      errors it is told to. */
  lemma ConfigurationTaken(s: SbRegs, d: Word, b: SbIn)
    requires s.Valid() && b.Valid() && !b.busy && b.error.None? && b.data.None?
    ensures var t := SbNext(s, Some(Request(Write, 0x38, d)), b);
            && t.readOnAddr == d[20] && t.access == FromBits(d[17..20]) && t.autoIncrement == d[16]
            && t.readOnData == d[15] && t.busyError == (s.busyError && !d[22])
            && t.error == (if FromBits(d[12..15]) != 0 then 0 else s.error) && t.addr == b.addr && t.data == s.data
  {
    hide WithLow, WithHigh, WordBytes, Num;
    NoneSet(d[12..15]);
  }

  /** Writes of the four address and data registers at rest replace one half each by the number written. */
  lemma HalvesWritten(s: SbRegs, a: nat, d: Word, b: SbIn)
    requires s.Valid() && b.Valid() && !b.busy && b.error.None? && b.data.None? && !s.busyError
    requires a in {0x39, 0x3a, 0x3c, 0x3d}
    ensures var t, n := SbNext(s, Some(Request(Write, a, d)), b), FromBits(d);
            && t.addr % TWO32 == (if a == 0x39 then n else b.addr % TWO32)
            && t.addr / TWO32 == (if a == 0x3a then n else b.addr / TWO32)
            && FromBytes(t.data[..4]) == (if a == 0x3c then n else FromBytes(s.data[..4]))
            && FromBytes(t.data[4..]) == (if a == 0x3d then n else FromBytes(s.data[4..]))
  {
    hide FromBits, FromBytes, WordBytes, BytesWord;
    var n := Num(d);
    WordOfBytes(d);
    WordNumber(WordBytes(d));
    assert (WordBytes(d) + s.data[4..])[..4] == WordBytes(d) && (WordBytes(d) + s.data[4..])[4..] == s.data[4..];
    assert (s.data[..4] + WordBytes(d))[..4] == s.data[..4] && (s.data[..4] + WordBytes(d))[4..] == WordBytes(d);
    ModUnique(WithLow(b.addr, n), TWO32, b.addr / TWO32, n);
    ModUnique(WithHigh(b.addr, n), TWO32, n, b.addr % TWO32);
  }

  // ----- sberror

  /** A write of sbcs with one of its sberror bits set. */
  predicate ClearsError(q: Request) { WritesSbcs(q) && (q.data[12] || q.data[13] || q.data[14]) }

  /** While sberror is held at rest no access starts, and only such a write ends it. */
  lemma ErrorTick(w: nat, c: Machine, i: Input)
    requires Fits(w, c, i) && c.regs.error != 0 && c.state.Resting?
    ensures var d := Clock(w, c, i);
            && d.state.Resting? && d.mem == c.mem
            && d.regs.error == if i.q.Some? && ClearsError(i.q.value) then 0 else c.regs.error
  {
    hide WithLow, WithHigh, WordBytes, Num, Poke, ByteEnable, ShiftUp, ShiftDown, FirstLane, IsAligned, Supported;
  }

  ghost predicate ErrorNeverCleared(ins: seq<Input>) {
    forall k :: 0 <= k < |ins| ==> !(ins[k].q.Some? && ClearsError(ins[k].q.value))
  }

  /** Over every run without the clearing write the error stays and memory is not touched. */
  lemma {:induction false} ErrorRun(w: nat, cs: seq<Machine>, ins: seq<Input>, k: nat)
    requires Trace(w, cs, ins) && cs[0].regs.error != 0 && ErrorNeverCleared(ins) && k <= |ins|
    ensures cs[k].state.Resting? && cs[k].regs.error == cs[0].regs.error && cs[k].mem == cs[0].mem
  {
    hide Clock, ClearsError;
    if k > 0 {
      ErrorRun(w, cs, ins, k - 1);
      assert Linked(w, cs, ins, k - 1);
      ErrorTick(w, cs[k - 1], ins[k - 1]);
    }
  }

  /** A started access reaches the bus exactly if its size, two to the power of sbaccess, fits the bus and
      divides its address. Otherwise it ends in the next tick with error 3 for the address or 4 for the size;
      a granted one ends with its answer and error 7, 2 or none as the bus says. */
  lemma AccessFate(w: nat, c: Machine, i: Input)
    requires Fits(w, c, i) && !c.state.Resting?
    ensures Pow2(c.regs.access) > 0
    ensures var size, d, y := Pow2(c.regs.access), Clock(w, c, i), i.bus.answer;
            var sound := 8 * size <= w && c.regs.addr % size == 0;
            && (RequestOf(w, true, c.state, c.regs).Some? <==> sound && (c.state.Reading? || c.state.Writing?))
            && (!sound ==> d.state.Resting? && d.regs.error == if c.regs.addr % size != 0 then 3 else 4)
            && (sound && y.None? ==> !d.state.Resting? && d.regs.error == c.regs.error)
            && (sound && y.Some? ==>
                  d.state.Resting?
                  && d.regs.error == if y.value.other then 7 else if y.value.err then 2 else c.regs.error)
  {
    hide WithLow, WithHigh, WordBytes, Num, Poke, ByteEnable, ShiftUp, ShiftDown, FirstLane, ParseSbcs;
    SizeNumber(c.regs.access);
  }

  lemma SizeNumber(k: nat)
    requires k < 8
    ensures AccessSize(k) == Pow2(k)
  {
    assert Pow2(4) == 16;
  }

  /** A build without read enables differs in reads only: they drive no lane, writes drive theirs. */
  lemma ReadEnablesOnly(w: nat, state: BusState, s: SbRegs)
    requires IsWidth(w) && s.Valid()
    ensures var x, y := RequestOf(w, true, state, s), RequestOf(w, false, state, s);
            && (x.Some? <==> y.Some?)
            && (x.Some? && x.value.we ==> y == x)
            && (x.Some? && !x.value.we ==>
                  y.value.be == seq(w / 8, _ => false) && y.value == x.value.(be := y.value.be))
            && (x.Some? ==> (x.value.we <==> state.Writing?))
  {
    hide ByteEnable, ShiftUp, FirstLane, Supported, IsAligned;
  }
}
