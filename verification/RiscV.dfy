/**
 The instructions that occur in the debug ROM and in generated abstract commands: the encoders of
 src/dm_pkg.sv, and a decoder written from the RISC-V instruction formats.
 */
module RiscV {

  const CSR_DSCRATCH0: bv12 := 0x7b2
  const CSR_DSCRATCH1: bv12 := 0x7b3
  const CSR_MHARTID: bv12 := 0xf14

  const X0: bv5 := 0
  const S0: bv5 := 8
  const A0: bv5 := 10

  datatype Instr =
    | Jal(rd: bv5, jump: bv21)
    | Bne(rs1: bv5, rs2: bv5, branch: bv13)
    | Fence
    | Auipc(rd: bv5, upper: bv20)
    | Srli(rd: bv5, rs1: bv5, shamt: bv6)
    | Slli(rd: bv5, rs1: bv5, shamt: bv6)
    | Addi(rd: bv5, rs1: bv5, imm: bv12)
    | Andi(rd: bv5, rs1: bv5, imm: bv12)
    | Add(rd: bv5, rs1: bv5, rs2: bv5)
    | Load(size: bv3, rd: bv5, rs1: bv5, imm: bv12)
    | Lbu(rd: bv5, rs1: bv5, imm: bv12)
    | Store(size: bv3, rs2: bv5, rs1: bv5, imm: bv12)
    | FloatLoad(size: bv3, rd: bv5, rs1: bv5, imm: bv12)
    | FloatStore(size: bv3, rs2: bv5, rs1: bv5, imm: bv12)
    | Csrw(csr: bv12, rs1: bv5)
    | Csrr(csr: bv12, rd: bv5)
    | Ebreak
    | Dret
    | Illegal
    | Other

  const NOP: Instr := Addi(X0, X0, 0)

  // ----- encoders: the concatenations of dm_pkg.sv

  /** The jump layout {imm[20], imm[10:1], imm[11], imm[19:12], rd, opcode}. */
  function EncJump(rd: bv5, imm: bv21, op: bv32): bv32 {
    var i := imm as bv32;
    ((i >> 20) << 31) | (((i >> 1) & 0x3ff) << 21) | (((i >> 11) & 1) << 20) | (((i >> 12) & 0xff) << 12)
    | ((rd as bv32) << 7) | op
  }

  /** The layout {hi, rs1, funct3, rd, opcode}. */
  function Concat(hi: bv12, rs1: bv5, f3: bv3, rd: bv5, op: bv32): bv32 {
    ((hi as bv32) << 20) | ((rs1 as bv32) << 15) | ((f3 as bv32) << 12) | ((rd as bv32) << 7) | op
  }

  /** The store layout splits the offset around the source register. */
  function ConcatStore(offset: bv12, src: bv5, base: bv5, f3: bv3, op: bv32): bv32 {
    ((offset as bv32 >> 5) << 25) | ((src as bv32) << 20) | ((base as bv32) << 15) | ((f3 as bv32) << 12)
    | ((offset as bv32 & 0x1f) << 7) | op
  }

  function EncJal(rd: bv5, imm: bv21): bv32 { EncJump(rd, imm, 0x6f) }

  function EncAuipc(rd: bv5, imm: bv21): bv32 { EncJump(rd, imm, 0x17) }

  function EncSlli(rd: bv5, rs1: bv5, shamt: bv6): bv32 { Concat(shamt as bv12, rs1, 1, rd, 0x13) }

  function EncSrli(rd: bv5, rs1: bv5, shamt: bv6): bv32 { Concat(shamt as bv12, rs1, 5, rd, 0x13) }

  function EncLoad(size: bv3, dest: bv5, base: bv5, offset: bv12): bv32 { Concat(offset, base, size, dest, 0x03) }

  function EncFloatLoad(size: bv3, dest: bv5, base: bv5, offset: bv12): bv32 { Concat(offset, base, size, dest, 0x07) }

  function EncStore(size: bv3, src: bv5, base: bv5, offset: bv12): bv32 { ConcatStore(offset, src, base, size, 0x23) }

  function EncFloatStore(size: bv3, src: bv5, base: bv5, offset: bv12): bv32 {
    ConcatStore(offset, src, base, size, 0x27)
  }

  function EncCsrw(csr: bv12, rs1: bv5): bv32 { Concat(csr, rs1, 1, 0, 0x73) }

  function EncCsrr(csr: bv12, dest: bv5): bv32 { Concat(csr, 0, 2, dest, 0x73) }

  const ENC_EBREAK: bv32 := 0x0010_0073
  const ENC_NOP: bv32 := 0x0000_0013
  const ENC_ILLEGAL: bv32 := 0

  // ----- decoder

  function Decode(w: bv32): Instr {
    var op, rd, f3 := w & 0x7f, ((w >> 7) & 0x1f) as bv5, ((w >> 12) & 7) as bv3;
    var rs1, rs2 := ((w >> 15) & 0x1f) as bv5, ((w >> 20) & 0x1f) as bv5;
    var immI := (w >> 20) as bv12;
    var immS := (((w >> 25) << 5) | ((w >> 7) & 0x1f)) as bv12;
    if w == ENC_ILLEGAL then Illegal
    else if w == ENC_EBREAK then Ebreak
    else if w == 0x7b20_0073 then Dret
    else if op == 0x6f then
      Jal(rd, (((w >> 31) << 20) | (((w >> 12) & 0xff) << 12) | (((w >> 20) & 1) << 11)
               | (((w >> 21) & 0x3ff) << 1)) as bv21)
    else if op == 0x63 && f3 == 1 then
      Bne(rs1, rs2, (((w >> 31) << 12) | (((w >> 7) & 1) << 11) | (((w >> 25) & 0x3f) << 5)
                     | (((w >> 8) & 0xf) << 1)) as bv13)
    else if op == 0x0f && f3 == 0 then Fence
    else if op == 0x17 then Auipc(rd, (w >> 12) as bv20)
    else if op == 0x13 && f3 == 0 then Addi(rd, rs1, immI)
    else if op == 0x13 && f3 == 7 then Andi(rd, rs1, immI)
    else if op == 0x13 && f3 == 1 && w >> 26 == 0 then Slli(rd, rs1, ((w >> 20) & 0x3f) as bv6)
    else if op == 0x13 && f3 == 5 && w >> 26 == 0 then Srli(rd, rs1, ((w >> 20) & 0x3f) as bv6)
    else if op == 0x33 && f3 == 0 && w >> 25 == 0 then Add(rd, rs1, rs2)
    else if op == 0x03 && f3 < 4 then Load(f3, rd, rs1, immI)
    else if op == 0x03 && f3 == 4 then Lbu(rd, rs1, immI)
    else if op == 0x23 && f3 < 4 then Store(f3, rs2, rs1, immS)
    else if op == 0x07 && f3 < 4 then FloatLoad(f3, rd, rs1, immI)
    else if op == 0x27 && f3 < 4 then FloatStore(f3, rs2, rs1, immS)
    else if op == 0x73 && f3 == 1 && rd == 0 then Csrw(immI, rs1)
    else if op == 0x73 && f3 == 2 && rs1 == 0 then Csrr(immI, rd)
    else Other
  }

  // ----- decoding undoes encoding

  /** All size codes: 0 to 3 are the loads of the listing, 4 is the unsigned byte load, the others are
      not among the instructions modelled. */
  lemma DecodeLoad(size: bv3, dest: bv5, base: bv5, offset: bv12)
    ensures Decode(EncLoad(size, dest, base, offset))
            == if size < 4 then Load(size, dest, base, offset) else if size == 4 then Lbu(dest, base, offset) else Other
    ensures Decode(EncFloatLoad(size, dest, base, offset))
            == if size < 4 then FloatLoad(size, dest, base, offset) else Other
  {
  }

  lemma DecodeStore(size: bv3, src: bv5, base: bv5, offset: bv12)
    ensures Decode(EncStore(size, src, base, offset))
            == if size < 4 then Store(size, src, base, offset) else Other
    ensures Decode(EncFloatStore(size, src, base, offset))
            == if size < 4 then FloatStore(size, src, base, offset) else Other
  {
  }

  lemma DecodeCsr(csr: bv12, r: bv5)
    ensures Decode(EncCsrw(csr, r)) == Csrw(csr, r)
    ensures Decode(EncCsrr(csr, r)) == Csrr(csr, r)
  {
  }

  lemma DecodeShift(rd: bv5, rs1: bv5, shamt: bv6)
    ensures Decode(EncSlli(rd, rs1, shamt)) == Slli(rd, rs1, shamt)
    ensures Decode(EncSrli(rd, rs1, shamt)) == Srli(rd, rs1, shamt)
  {
  }

  /** The auipc encoder scatters its immediate as a jump does; the generator only ever passes zero. */
  lemma DecodeAuipc(rd: bv5)
    ensures Decode(EncAuipc(rd, 0)) == Auipc(rd, 0)
  {
  }
}
