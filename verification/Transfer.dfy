/**
 What an Access Register command means, and the proof that the ten generated words carry it out on a
 hart whose scratch CSRs hold its own s0 and a0.
 */
module Transfer {
  import opened Bytes
  import opened RiscV
  import opened AbstractCommand
  import opened Hart
  import opened ParkLoop
  import opened DmMem

  /** A hart's logical registers together with the two data registers. */
  datatype Result = Result(logical: Logical, data: seq<Byte>)

  // ----- the meaning of a command

  function TransferSize(c: Command): nat { Size(c.aarsize) }

  function CsrValue(core: Core, id: nat, l: Logical, csr: bv12): nat {
    if csr == CSR_DSCRATCH0 then l.x[S0]
    else if csr == CSR_DSCRATCH1 then if core.Snd() then l.x[A0] else l.scratch1
    else if csr == CSR_MHARTID then id
    else core.csrRead(l.csrs, csr)
  }

  function CsrWritten(core: Core, l: Logical, csr: bv12, v: nat): Logical {
    if csr == CSR_DSCRATCH0 then l.(x := l.x[S0 := v])
    else if csr == CSR_DSCRATCH1 then if core.Snd() then l.(x := l.x[A0 := v]) else l.(scratch1 := v)
    else l.(csrs := core.csrWrite(l.csrs, csr, v))
  }

  /** The value a read command moves into the low bytes of the data registers. */
  function ReadValue(core: Core, id: nat, c: Command, l: Logical): nat {
    if c.IsCsr() then CsrValue(core, id, l, c.Csr()) else if c.IsFpr() then l.f[c.Reg()] else l.x[c.Reg()]
  }

  /** The outcome of an untrapped command: exactly one register, or the low bytes of the data
      registers, change. Commands without a transfer move nothing. */
  function Meaning(core: Core, id: nat, c: Command, l: Logical, d: seq<Byte>): (r: Result)
    requires |d| == 8
    ensures |r.data| == 8
  {
    var n := TransferSize(c);
    if !c.transfer then Result(l, d)
    else if !c.write then Result(l, ToBytes(ReadValue(core, id, c, l), n) + d[n..])
    else if c.IsCsr() then Result(CsrWritten(core, l, c.Csr(), LoadValue(core, d[..n])), d)
    else if c.IsFpr() then Result(l.(f := l.f[c.Reg() := FloatValue(core, d[..n])]), d)
    else Result(l.(x := SetX(l.x, c.Reg(), LoadValue(core, d[..n]))), d)
  }

  // ----- the state between two generated words

  /** a0 and the rest of the integer registers while a0 is borrowed for the base address. */
  function Borrowed(core: Core, x: Regs, a0: nat): Regs { if core.Snd() then x[A0 := a0] else x }

  function BaseSoFar(core: Core, x: Regs, k: nat): nat {
    if k == 2 then core.base + ABSTRACT_BASE + 4
    else if k == 3 then core.base / 0x1000
    else if k >= 4 then core.base
    else x[A0]
  }

  /** Scratch CSRs still hold the hart's own s0 and a0. */
  predicate Saved(core: Core, l: Logical, h: HartState) {
    h.ds0 == l.x[S0] && h.ds1 == if core.Snd() then l.x[A0] else l.scratch1
  }

  /** Before the transfer has taken place. */
  predicate Before(core: Core, l: Logical, d: seq<Byte>, k: nat, h: HartState, data: seq<Byte>) {
    && h.x == Borrowed(core, l.x, BaseSoFar(core, l.x, k))
    && Saved(core, l, h) && h.f == l.f && h.csrs == l.csrs && data == d
  }

  /** After it; s0 is back. */
  predicate After(core: Core, r: Result, h: HartState, data: seq<Byte>) {
    && h.x == Borrowed(core, r.logical.x, core.base)
    && h.ds1 == (if core.Snd() then r.logical.x[A0] else r.logical.scratch1)
    && h.f == r.logical.f && h.csrs == r.logical.csrs && data == r.data
  }

  /** The value that passes through s0. */
  function Carried(core: Core, id: nat, c: Command, l: Logical, d: seq<Byte>): nat
    requires |d| == 8
  {
    if c.write then LoadValue(core, d[..TransferSize(c)])
    else if c.IsCsr() then CsrValue(core, id, l, c.Csr()) else l.x[A0]
  }

  /** The assertion at the k-th generated word (k == 10 is the first program-buffer word). */
  predicate AtWord(core: Core, c: Command, l: Logical, d: seq<Byte>, k: nat, h: HartState, data: seq<Byte>)
    requires |d| == 8
  {
    var r := Meaning(core, h.id, c, l, d);
    var v := Carried(core, h.id, c, l, d);
    && h.debug && h.pc == ABSTRACT_BASE + 4 * k && Wf(h) && h.id < 1024 && (core.Snd() ==> l.scratch1 == 0)
    && (if k <= 4 then Before(core, l, d, k, h, data)
        else if k >= 9 then
          h.x == r.logical.x && h.f == r.logical.f && h.csrs == r.logical.csrs && data == r.data
          && (core.Snd() || h.ds1 == r.logical.scratch1)
        else if k == 8 || !ThroughS0(core.Cfg(), c) then After(core, r, h, data)
        else if k == 5 then Before(core, l, d, 4, h, data)
        else
          && h.x == Borrowed(core, l.x, core.base)[S0 := v]
          && h.f == l.f
          && (if k == 6 then Saved(core, l, h) && h.csrs == l.csrs && data == d
              else
                && h.ds0 == r.logical.x[S0] && h.csrs == r.logical.csrs && data == r.data
                && h.ds1 == (if core.Snd() then r.logical.x[A0] else r.logical.scratch1)))
  }

  /** Words that touch the register named by the command or the data registers: only these, and the
      illegal word of a command that has nothing to do, can trap. */
  predicate MayTrap(cfg: Config, c: Command, k: nat) {
    if !c.transfer then k == 0
    else if ThroughS0(cfg, c) then k == 5 || k == 6
    else k == 4
  }

  /** The data registers after an instruction's store. */
  function DataAfter(core: Core, data: seq<Byte>, st: Option<Access>): (d: seq<Byte>)
    requires |data| == 8 && core.Valid()
    ensures |d| == 8
  {
    if st.Some? then DataStored(core.width, data, st.value.off, st.value.bytes) else data
  }

  // ----- one word at a time

  lemma DataAddress(core: Core, v: View, h: HartState, n: nat)
    requires core.Valid() && v.Valid() && Wf(h) && n in {1, 2, 4, 8}
    requires core.Snd() ==> h.x[A0] == core.base
    ensures WindowOffset(core, h, core.Cfg().LoadBase(), DATA_ADDR) == DATA_BASE
    ensures LoadBytes(core, v, DATA_BASE, n) == Some(v.data[..n])
  {
    ControlOffset(core, h);
    WidthIndependent(core.width, v.data, DATA_BASE, n);
  }

  /** The successor assertion of the word at k, for the three ways an instruction can end. */
  predicate Continues(core: Core, c: Command, l: Logical, d: seq<Byte>, k: nat, v: View, o: Outcome)
    requires |d| == 8 && core.Valid() && v.Valid()
  {
    match o
    case Next(h, st) =>
      (st.Some? ==> st.value.off == DATA_BASE) && AtWord(core, c, l, d, k + 1, h, DataAfter(core, v.data, st))
    case Trap => MayTrap(core.Cfg(), c, k)
    case Unmodelled => false
  }

  lemma PrologueStep(core: Core, v: View, c: Command, l: Logical, d: seq<Byte>, k: nat, h: HartState)
    requires core.Valid() && v.Valid() && c.transfer && k < 4 && |d| == 8 && AtWord(core, c, l, d, k, h, v.data)
    ensures Continues(core, c, l, d, k, v, Exec(core, v, h, Listing(core.Cfg(), c, k)))
  {
    match k case 0 => case 1 => case 2 => case _ =>
  }

  /** What the word that loads an integer register does. */
  lemma DirectLoad(core: Core, v: View, c: Command, h: HartState)
    requires core.Valid() && v.Valid() && c.transfer && c.write && c.aarsize < 4 && !c.IsFpr() && Wf(h)
    requires !ThroughS0(core.Cfg(), c) && (core.Snd() ==> h.x[A0] == core.base)
    ensures Exec(core, v, h, Listing(core.Cfg(), c, 4))
            == if c.aarsize == 3 && core.xlen == 32 then Trap
               else Write(h, c.Reg(), LoadValue(core, v.data[..TransferSize(c)]))
  {
    hide LoadValue, FloatValue, ToBytes, BitAnd, WindowOffset, LoadBytes, Signed12, Command.Reg, Write;
    DataAddress(core, v, h, TransferSize(c));
  }

  lemma DirectWrite(core: Core, v: View, c: Command, l: Logical, d: seq<Byte>, h: HartState)
    requires core.Valid() && v.Valid() && c.transfer && c.write && c.aarsize < 4 && |d| == 8 && !c.IsFpr()
    requires !ThroughS0(core.Cfg(), c) && AtWord(core, c, l, d, 4, h, v.data)
    ensures Continues(core, c, l, d, 4, v, Exec(core, v, h, Listing(core.Cfg(), c, 4)))
  {
    hide Exec, LoadValue, FloatValue, Listing, Body, DataStored, Carried, ReadValue, CsrWritten;
    assert c.IsGpr();
    hide Command.IsGpr, Command.IsCsr, Command.IsFpr, Command.Reg;
    DirectLoad(core, v, c, h);
  }

  lemma DirectFloatWrite(core: Core, v: View, c: Command, l: Logical, d: seq<Byte>, h: HartState)
    requires core.Valid() && v.Valid() && c.transfer && c.write && c.aarsize < 4 && |d| == 8 && c.IsFpr()
    requires !ThroughS0(core.Cfg(), c) && AtWord(core, c, l, d, 4, h, v.data)
    ensures Continues(core, c, l, d, 4, v, Exec(core, v, h, Listing(core.Cfg(), c, 4)))
  {
    hide LoadValue, FloatValue, ToBytes, BitAnd, DataStored, WindowOffset, LoadBytes,
      Signed12, Carried, ReadValue, CsrWritten;
    DataAddress(core, v, h, TransferSize(c));
  }

  lemma DirectRead(core: Core, v: View, c: Command, l: Logical, d: seq<Byte>, h: HartState)
    requires core.Valid() && v.Valid() && c.transfer && !c.write && c.aarsize < 4 && |d| == 8 && !c.IsFpr()
    requires !ThroughS0(core.Cfg(), c) && AtWord(core, c, l, d, 4, h, v.data)
    ensures Continues(core, c, l, d, 4, v, Exec(core, v, h, Listing(core.Cfg(), c, 4)))
  {
    hide Exec, ToBytes, DataStored, Listing, Body, LoadValue, FloatValue;
    assert c.IsGpr();
    hide Command.IsGpr, Command.IsCsr, Command.IsFpr, Command.Reg;
    DirectStore(core, v, c, h);
    DataStoredAtBase(core.width, v.data, ToBytes(ReadValue(core, h.id, c, l), TransferSize(c)));
  }

  /** What the word that stores a register does. */
  lemma DirectStore(core: Core, v: View, c: Command, h: HartState)
    requires core.Valid() && v.Valid() && c.transfer && !c.write && c.aarsize < 4 && !ThroughS0(core.Cfg(), c) && Wf(h)
    requires core.Snd() ==> h.x[A0] == core.base
    ensures Exec(core, v, h, Listing(core.Cfg(), c, 4))
            == if c.IsFpr() then
                 if c.aarsize < 2 || (c.aarsize == 3 && core.flen == 32) then Trap
                 else StoreTo(h, DATA_BASE, ToBytes(h.f[c.Reg()], TransferSize(c)))
               else
                 if c.aarsize == 3 && core.xlen == 32 then Trap
                 else StoreTo(h, DATA_BASE, ToBytes(h.x[c.Reg()], TransferSize(c)))
  {
    hide LoadValue, FloatValue, ToBytes, BitAnd, DataStored, WindowOffset, LoadBytes, Signed12, Command.Reg, StoreTo;
    DataAddress(core, v, h, TransferSize(c));
  }

  lemma DirectFloatRead(core: Core, v: View, c: Command, l: Logical, d: seq<Byte>, h: HartState)
    requires core.Valid() && v.Valid() && c.transfer && !c.write && c.aarsize < 4 && |d| == 8 && c.IsFpr()
    requires !ThroughS0(core.Cfg(), c) && AtWord(core, c, l, d, 4, h, v.data)
    ensures Continues(core, c, l, d, 4, v, Exec(core, v, h, Listing(core.Cfg(), c, 4)))
  {
    hide Exec, ToBytes, DataStored, Listing, Body, LoadValue, FloatValue;
    assert !c.IsCsr();
    hide Command.IsGpr, Command.IsCsr, Command.IsFpr, Command.Reg;
    DirectStore(core, v, c, h);
    DataStoredAtBase(core.width, v.data, ToBytes(ReadValue(core, h.id, c, l), TransferSize(c)));
  }

  lemma DirectPadding(core: Core, v: View, c: Command, l: Logical, d: seq<Byte>, k: nat, h: HartState)
    requires core.Valid() && v.Valid() && c.transfer && 5 <= k < 8 && |d| == 8
    requires !ThroughS0(core.Cfg(), c) && AtWord(core, c, l, d, k, h, v.data)
    ensures Continues(core, c, l, d, k, v, Exec(core, v, h, Listing(core.Cfg(), c, k)))
  {
  }

  lemma ThroughSave(core: Core, v: View, c: Command, l: Logical, d: seq<Byte>, h: HartState)
    requires core.Valid() && v.Valid() && c.transfer && |d| == 8
    requires ThroughS0(core.Cfg(), c) && AtWord(core, c, l, d, 4, h, v.data)
    ensures Continues(core, c, l, d, 4, v, Exec(core, v, h, Listing(core.Cfg(), c, 4)))
  {
  }

  lemma ThroughFetch(core: Core, v: View, c: Command, l: Logical, d: seq<Byte>, h: HartState)
    requires core.Valid() && v.Valid() && c.transfer && c.aarsize < 4 && |d| == 8
    requires ThroughS0(core.Cfg(), c) && AtWord(core, c, l, d, 5, h, v.data)
    ensures Continues(core, c, l, d, 5, v, Exec(core, v, h, Listing(core.Cfg(), c, 5)))
  {
    hide LoadValue, FloatValue, ToBytes, BitAnd, DataStored, WindowOffset, LoadBytes, Signed12;
    DataAddress(core, v, h, TransferSize(c));
  }

  lemma ThroughPut(core: Core, v: View, c: Command, l: Logical, d: seq<Byte>, h: HartState)
    requires core.Valid() && v.Valid() && c.transfer && c.aarsize < 4 && |d| == 8
    requires ThroughS0(core.Cfg(), c) && AtWord(core, c, l, d, 6, h, v.data)
    ensures Continues(core, c, l, d, 6, v, Exec(core, v, h, Listing(core.Cfg(), c, 6)))
  {
    hide LoadValue, FloatValue, ToBytes, BitAnd, DataStored, WindowOffset, LoadBytes, Signed12;
    if !c.write {
      DataAddress(core, v, h, TransferSize(c));
      DataStoredAtBase(core.width, v.data, ToBytes(ReadValue(core, h.id, c, l), TransferSize(c)));
    }
  }

  lemma ThroughRestore(core: Core, v: View, c: Command, l: Logical, d: seq<Byte>, h: HartState)
    requires core.Valid() && v.Valid() && c.transfer && |d| == 8
    requires ThroughS0(core.Cfg(), c) && AtWord(core, c, l, d, 7, h, v.data)
    ensures Continues(core, c, l, d, 7, v, Exec(core, v, h, Listing(core.Cfg(), c, 7)))
  {
  }

  lemma EpilogueStep(core: Core, v: View, c: Command, l: Logical, d: seq<Byte>, h: HartState)
    requires core.Valid() && v.Valid() && c.transfer && |d| == 8 && AtWord(core, c, l, d, 8, h, v.data)
    ensures Continues(core, c, l, d, 8, v, Exec(core, v, h, Listing(core.Cfg(), c, 8)))
  {
  }

  /** Each generated word leads to the next assertion, or traps where it may. */
  lemma WordStep(core: Core, v: View, c: Command, l: Logical, d: seq<Byte>, k: nat, h: HartState)
    requires core.Valid() && v.Valid() && v.command == c && !Unsupported(core.Cfg(), c) && k < 9 && |d| == 8
    requires (c.transfer || k == 0) && AtWord(core, c, l, d, k, h, v.data)
    ensures Continues(core, c, l, d, k, v, Exec(core, v, h, Decode(Fetch(core, v, h.pc))))
  {
    GenerateMatchesListing(core.Cfg(), c, k);
    assert Fetch(core, v, h.pc) == Generate(core.Cfg(), c, k);
    if c.transfer {
      if k < 4 {
        PrologueStep(core, v, c, l, d, k, h);
      } else if k == 8 {
        EpilogueStep(core, v, c, l, d, h);
      } else if !ThroughS0(core.Cfg(), c) {
        if k > 4 { DirectPadding(core, v, c, l, d, k, h); }
        else if c.write {
          if c.IsFpr() { DirectFloatWrite(core, v, c, l, d, h); } else { DirectWrite(core, v, c, l, d, h); }
        }
        else if c.IsFpr() { DirectFloatRead(core, v, c, l, d, h); } else { DirectRead(core, v, c, l, d, h); }
      } else {
        if k == 4 { ThroughSave(core, v, c, l, d, h); }
        else if k == 5 { ThroughFetch(core, v, c, l, d, h); }
        else if k == 6 { ThroughPut(core, v, c, l, d, h); }
        else { ThroughRestore(core, v, c, l, d, h); }
      }
    }
  }

  /** Wherever a trap can happen, the exception path can still find the hart's own registers, and the
      data registers have not been touched. */
  lemma TrapRestores(core: Core, c: Command, l: Logical, d: seq<Byte>, k: nat, h: HartState, data: seq<Byte>)
    requires core.Valid() && |d| == 8 && k < 9 && AtWord(core, c, l, d, k, h, data) && MayTrap(core.Cfg(), c, k)
    ensures At(core, ExcVec, h.(pc := EXCEPTION_ADDRESS))
    ensures LogicalAt(core, ExcVec, h.(pc := EXCEPTION_ADDRESS)) == l && data == d
  {
  }

  /** The last word returns to the park loop, or runs on into the program buffer, with every register
      back in its place. */
  lemma LastWord(core: Core, v: View, c: Command, l: Logical, d: seq<Byte>, h: HartState)
    requires core.Valid() && v.Valid() && v.command == c && !Unsupported(core.Cfg(), c) && |d| == 8
    requires AtWord(core, c, l, d, 9, h, v.data)
    ensures Exec(core, v, h, Decode(Fetch(core, v, h.pc)))
            == Next(h.(pc := if c.postexec then PROGBUF_BASE else HALT_ADDRESS), None)
    ensures LogicalAt(core, EntryVec, h) == Meaning(core, h.id, c, l, d).logical
    ensures v.data == Meaning(core, h.id, c, l, d).data
  {
    GenerateMatchesListing(core.Cfg(), c, 9);
    assert Fetch(core, v, h.pc) == Generate(core.Cfg(), c, 9);
  }
}
