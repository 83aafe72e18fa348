/**
 The abstract-command compiler of src/dm_mem.sv: an Access Register command is turned into ten RISC-V
 words that the selected hart fetches from the AbstractCmd slots of the debug memory.
 */
module AbstractCommand {
  import opened Bits
  import opened RiscV

  const WHERETO: nat := 0x300
  const ABSTRACT_BASE: nat := 0x338
  const PROGBUF_BASE: nat := 0x360
  const DATA_BASE: nat := 0x380
  const DATA_ADDR: bv12 := 0x380

  /** The command register: cmdtype, aarsize, aarpostincrement, postexec, transfer, write, regno. */
  datatype Command = Command(cmdtype: bv8, aarsize: bv3, postincrement: bool, postexec: bool,
                             transfer: bool, write: bool, regno: bv16)
  {
    /** The three kinds of register regno can name, as the generator decodes it. */
    predicate IsGpr() { regno & 0x1000 != 0 && regno & 0x20 == 0 }
    predicate IsFpr() { regno & 0x1000 != 0 && regno & 0x20 != 0 }
    predicate IsCsr() { regno & 0x1000 == 0 }
    function Reg(): bv5 { (regno & 0x1f) as bv5 }
    function Csr(): bv12 { (regno & 0xfff) as bv12 }
  }

  /** The fields of the command register. */
  function ParseCommand(w: Word): Command {
    Command(Field8(w[24..32]), Field3(w[20..23]), w[19], w[18], w[17], w[16], Field16(w[..16]))
  }

  function Field3(b: seq<bool>): bv3
    requires |b| == 3
  {
    PowersOfTwo();
    FromBits(b) as bv3
  }

  function Field8(b: seq<bool>): bv8
    requires |b| == 8
  {
    PowersOfTwo();
    FromBits(b) as bv8
  }

  function Field16(b: seq<bool>): bv16
    requires |b| == 16
  {
    PowersOfTwo();
    FromBits(b) as bv16
  }

  /** Static configuration: whether the module sits off page zero (a second scratch register is then
      used), and the exclusive bound on aarsize. */
  datatype Config = Config(sndScratch: bool, maxAar: bv3)
  {
    predicate Valid() { maxAar == 3 || maxAar == 4 }
    function LoadBase(): bv5 { if sndScratch then A0 else X0 }
  }

  /** The generator's verdict: such a command must not be started. */
  predicate Unsupported(cfg: Config, c: Command) {
    c.cmdtype != 0
    || (if c.aarsize < cfg.maxAar && c.transfer then c.regno & 0xc000 != 0
        else c.aarsize >= cfg.maxAar || c.postincrement)
  }

  /** A CSR transfer, or one of x10 while x10 holds the base address, goes through s0. */
  predicate ThroughS0(cfg: Config, c: Command) { c.IsCsr() || (cfg.sndScratch && c.IsGpr() && c.Reg() == A0) }

  function ThroughCsr(c: Command): bv12 { if c.IsCsr() then c.Csr() else CSR_DSCRATCH1 }

  /** The ten words in the AbstractCmd slots, the i-th at ABSTRACT_BASE + 4 * i. */
  function Generate(cfg: Config, c: Command, i: nat): bv32
    requires i < 10
  {
    match i
    case 0 => GenerateFirst(cfg, c)
    case 1 => if cfg.sndScratch then EncAuipc(A0, 0) else ENC_NOP
    case 2 => if cfg.sndScratch then EncSrli(A0, A0, 12) else ENC_NOP
    case 3 => if cfg.sndScratch then EncSlli(A0, A0, 12) else ENC_NOP
    case 8 => if cfg.sndScratch then EncCsrr(CSR_DSCRATCH1, A0) else ENC_NOP
    case 9 => if c.cmdtype == 0 && c.postexec && !Unsupported(cfg, c) then ENC_NOP else ENC_EBREAK
    case _ =>
      if c.cmdtype != 0 || c.aarsize >= cfg.maxAar || !c.transfer || c.regno & 0xc000 != 0 then ENC_NOP
      else if c.write then GenerateWrite(cfg, c, i)
      else GenerateRead(cfg, c, i)
  }

  function GenerateFirst(cfg: Config, c: Command): bv32 {
    if Unsupported(cfg, c) then ENC_EBREAK
    else if !c.transfer then ENC_ILLEGAL
    else if cfg.sndScratch then EncCsrw(CSR_DSCRATCH1, cfg.LoadBase())
    else ENC_NOP
  }

  function GenerateWrite(cfg: Config, c: Command, i: nat): bv32
    requires 4 <= i < 8
  {
    if ThroughS0(cfg, c) then
      match i
      case 4 => EncCsrw(CSR_DSCRATCH0, S0)
      case 5 => EncLoad(c.aarsize, S0, cfg.LoadBase(), DATA_ADDR)
      case 6 => EncCsrw(ThroughCsr(c), S0)
      case _ => EncCsrr(CSR_DSCRATCH0, S0)
    else if i != 4 then ENC_NOP
    else if c.IsFpr() then EncFloatLoad(c.aarsize, c.Reg(), cfg.LoadBase(), DATA_ADDR)
    else EncLoad(c.aarsize, c.Reg(), cfg.LoadBase(), DATA_ADDR)
  }

  function GenerateRead(cfg: Config, c: Command, i: nat): bv32
    requires 4 <= i < 8
  {
    if ThroughS0(cfg, c) then
      match i
      case 4 => EncCsrw(CSR_DSCRATCH0, S0)
      case 5 => EncCsrr(ThroughCsr(c), S0)
      case 6 => EncStore(c.aarsize, S0, cfg.LoadBase(), DATA_ADDR)
      case _ => EncCsrr(CSR_DSCRATCH0, S0)
    else if i != 4 then ENC_NOP
    else if c.IsFpr() then EncFloatStore(c.aarsize, c.Reg(), cfg.LoadBase(), DATA_ADDR)
    else EncStore(c.aarsize, c.Reg(), cfg.LoadBase(), DATA_ADDR)
  }

  /** The word at WhereTo while a command is active. */
  function WhereToWord(c: Command): bv32 {
    if c.cmdtype == 0 && !c.transfer && c.postexec then EncJal(0, 0x60) else EncJal(0, 0x38)
  }

  // ----- the instructions those words decode to

  /** The generated program, disassembled. */
  function Listing(cfg: Config, c: Command, i: nat): Instr
    requires i < 10
  {
    match i
    case 0 => if !c.transfer then Illegal else if cfg.sndScratch then Csrw(CSR_DSCRATCH1, A0) else NOP
    case 1 => if cfg.sndScratch then Auipc(A0, 0) else NOP
    case 2 => if cfg.sndScratch then Srli(A0, A0, 12) else NOP
    case 3 => if cfg.sndScratch then Slli(A0, A0, 12) else NOP
    case 8 => if cfg.sndScratch then Csrr(CSR_DSCRATCH1, A0) else NOP
    case 9 => if c.postexec then NOP else Ebreak
    case _ => if !c.transfer then NOP else Body(cfg, c, i)
  }

  function Body(cfg: Config, c: Command, i: nat): Instr
    requires 4 <= i < 8
  {
    var b, d, csr := cfg.LoadBase(), DATA_ADDR, ThroughCsr(c);
    if ThroughS0(cfg, c) then
      match i
      case 4 => Csrw(CSR_DSCRATCH0, S0)
      case 5 => if c.write then Load(c.aarsize, S0, b, d) else Csrr(csr, S0)
      case 6 => if c.write then Csrw(csr, S0) else Store(c.aarsize, S0, b, d)
      case _ => Csrr(CSR_DSCRATCH0, S0)
    else if i != 4 then NOP
    else if c.IsFpr() then
      if c.write then FloatLoad(c.aarsize, c.Reg(), b, d) else FloatStore(c.aarsize, c.Reg(), b, d)
    else
      if c.write then Load(c.aarsize, c.Reg(), b, d) else Store(c.aarsize, c.Reg(), b, d)
  }

  lemma ConstantWords()
    ensures Decode(ENC_NOP) == NOP && Decode(ENC_EBREAK) == Ebreak && Decode(ENC_ILLEGAL) == Illegal
    ensures Decode(EncJal(0, 0x60)) == Jal(0, 0x60) && Decode(EncJal(0, 0x38)) == Jal(0, 0x38)
  {
  }

  /** Every generated word of a startable command decodes to the listing. */
  lemma GenerateMatchesListing(cfg: Config, c: Command, i: nat)
    requires cfg.Valid() && !Unsupported(cfg, c) && i < 10
    ensures Decode(Generate(cfg, c, i)) == Listing(cfg, c, i)
  {
    ConstantWords();
    DecodeAuipc(A0);
    DecodeCsr(CSR_DSCRATCH1, A0);
    DecodeShift(A0, A0, 12);
    if 4 <= i < 8 && c.transfer {
      BodyMatchesListing(cfg, c, i);
    }
  }

  /** The words of a refused command leave at once, touch no register and do not run on into the program
      buffer. */
  lemma RefusedWordsLeave(cfg: Config, c: Command, i: nat)
    requires Unsupported(cfg, c) && 4 <= i < 8
    ensures Decode(Generate(cfg, c, 0)) == Ebreak && Decode(Generate(cfg, c, 9)) == Ebreak
    ensures Decode(Generate(cfg, c, i)) == NOP
  {
    ConstantWords();
  }

  lemma BodyMatchesListing(cfg: Config, c: Command, i: nat)
    requires c.aarsize < 4 && 4 <= i < 8
    ensures Decode(if c.write then GenerateWrite(cfg, c, i) else GenerateRead(cfg, c, i)) == Body(cfg, c, i)
  {
    hide Decode, GenerateRead, GenerateWrite;
    if c.write { WriteMatchesListing(cfg, c, i); } else { ReadMatchesListing(cfg, c, i); }
  }

  lemma WriteMatchesListing(cfg: Config, c: Command, i: nat)
    requires c.aarsize < 4 && 4 <= i < 8 && c.write
    ensures Decode(GenerateWrite(cfg, c, i)) == Body(cfg, c, i)
  {
    hide Decode, EncCsrw, EncCsrr, EncLoad, EncStore, EncFloatLoad, EncFloatStore;
    ConstantWords();
    if ThroughS0(cfg, c) {
      DecodeCsr(CSR_DSCRATCH0, S0);
      DecodeCsr(ThroughCsr(c), S0);
      DecodeLoad(c.aarsize, S0, cfg.LoadBase(), DATA_ADDR);
    } else {
      DecodeLoad(c.aarsize, c.Reg(), cfg.LoadBase(), DATA_ADDR);
    }
  }

  lemma ReadMatchesListing(cfg: Config, c: Command, i: nat)
    requires c.aarsize < 4 && 4 <= i < 8 && !c.write
    ensures Decode(GenerateRead(cfg, c, i)) == Body(cfg, c, i)
  {
    hide Decode, EncCsrw, EncCsrr, EncLoad, EncStore, EncFloatLoad, EncFloatStore;
    ConstantWords();
    if ThroughS0(cfg, c) {
      DecodeCsr(CSR_DSCRATCH0, S0);
      DecodeCsr(ThroughCsr(c), S0);
      DecodeStore(c.aarsize, S0, cfg.LoadBase(), DATA_ADDR);
    } else {
      DecodeStore(c.aarsize, c.Reg(), cfg.LoadBase(), DATA_ADDR);
    }
  }
}
