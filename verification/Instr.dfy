/** Instruction words: field and immediate accessors, the encoders of the
    instruction factory, and the decoding and expansion of compressed
    instructions. Words are 32-bit vectors; arithmetic right shifts of signed
    words are spelled out. */
module Instr {

  // ---------------------------------------------------------------------
  // Accessors. The source selects fields with masks built by its BIT_RANGE,
  // BIT_SLICE and BIT_SINGLE macros; here the masks are written out.
  // ---------------------------------------------------------------------

  /** Right shift of a signed word. */
  function Asr(x: bv32, k: bv32): bv32
    requires k < 32
  {
    if x & 0x8000_0000 != 0 then !((!x) >> k) else x >> k
  }

  // Its instances at the constant distances the accessors use.
  function Asr11(x: bv32): bv32 { if x & 0x8000_0000 != 0 then (x >> 11) | 0xffe0_0000 else x >> 11 }
  function Asr14(x: bv32): bv32 { if x & 0x8000_0000 != 0 then (x >> 14) | 0xfffc_0000 else x >> 14 }
  function Asr19(x: bv32): bv32 { if x & 0x8000_0000 != 0 then (x >> 19) | 0xffff_e000 else x >> 19 }
  function Asr20(x: bv32): bv32 { if x & 0x8000_0000 != 0 then (x >> 20) | 0xffff_f000 else x >> 20 }
  function Asr22(x: bv32): bv32 { if x & 0x8000_0000 != 0 then (x >> 22) | 0xffff_fc00 else x >> 22 }
  function Asr23(x: bv32): bv32 { if x & 0x8000_0000 != 0 then (x >> 23) | 0xffff_fe00 else x >> 23 }
  function Asr26(x: bv32): bv32 { if x & 0x8000_0000 != 0 then (x >> 26) | 0xffff_ffc0 else x >> 26 }

  /** Bit 12 of a compressed word, moved to the sign position. */
  function SignOfBit12(n: bv32): bv32 { ((n & 0x1000) >> 12) << 31 }

  function Quadrant(w: bv32): bv32 { w & 3 }
  function CFormat(w: bv32): bv32 { w & 0xffff }
  function COpcode(w: bv32): bv32 { (w & 0xe000) >> 13 }
  function CB12(w: bv32): bv32 { (w & 0x1000) >> 12 }
  function CRd(w: bv32): bv32 { Rd(w) }
  function CRdSmall(w: bv32): bv32 { ((w & 0x380) >> 7) | 8 }
  function CRs2Small(w: bv32): bv32 { ((w & 0x1c) >> 2) | 8 }
  function CRs2(w: bv32): bv32 { (w & 0x7c) >> 2 }
  function CImm(w: bv32): bv32 { ((w & 0x7c) >> 2) | Asr26(SignOfBit12(w)) }
  function CUimm(w: bv32): bv32 { ((w & 0x7c) >> 2) | (((w & 0x1000) >> 12) << 5) }
  function CF2High(w: bv32): bv32 { (w & 0xc00) >> 10 }
  function CF2Low(w: bv32): bv32 { (w & 0x60) >> 5 }

  function Rs1(w: bv32): bv32 { (w & 0xf_8000) >> 15 }
  function Rs2(w: bv32): bv32 { (w & 0x1f0_0000) >> 20 }
  function Rd(w: bv32): bv32 { (w & 0xf80) >> 7 }
  function Shamt(w: bv32): bv32 { (w & 0x1f0_0000) >> 20 }
  function Opcode(w: bv32): bv32 { w & 0x7f }
  function Funct3(w: bv32): bv32 { (w & 0x7000) >> 12 }
  function Funct7(w: bv32): bv32 { (w & 0xfe00_0000) >> 25 }
  function Funct12(w: bv32): bv32 { (w & 0xfff0_0000) >> 20 }

  function IImm(w: bv32): bv32 { Asr20(w & 0xfff0_0000) }
  function SImm(w: bv32): bv32 { Asr20(w & 0xfe00_0000) | ((w & 0xf80) >> 7) }
  function BImm(w: bv32): bv32 {
    Asr19(w & 0x8000_0000) | ((w & 0x80) << 4) | ((w & 0x7e00_0000) >> 20) | ((w & 0xf00) >> 7)
  }
  function UImm(w: bv32): bv32 { w & 0xffff_f000 }
  function JImm(w: bv32): bv32 {
    Asr11(w & 0x8000_0000) | (w & 0xf_f000) | ((w & 0x10_0000) >> 9) | ((w & 0x7fe0_0000) >> 20)
  }

  // ---------------------------------------------------------------------
  // Immediates of compressed instructions
  // ---------------------------------------------------------------------

  function Addi4spnNzuimm(n: bv32): bv32 {
    (((n & 0x1800) >> 11) << 4) | (((n & 0x780) >> 7) << 6) | (((n & 0x40) >> 6) << 2) | (((n & 0x20) >> 5) << 3)
  }
  function LwUimm(n: bv32): bv32 {
    (((n & 0x1c00) >> 10) << 3) | (((n & 0x40) >> 6) << 2) | (((n & 0x20) >> 5) << 6)
  }
  function SwUimm(n: bv32): bv32 { LwUimm(n) }
  function JalImm(n: bv32): bv32 {
    Asr20(SignOfBit12(n)) | (((n & 0x800) >> 11) << 4) | (((n & 0x600) >> 9) << 8) | (((n & 0x100) >> 8) << 10)
    | (((n & 0x80) >> 7) << 6) | (((n & 0x40) >> 6) << 7) | (((n & 0x38) >> 3) << 1) | (((n & 4) >> 2) << 5)
  }
  function Addi16spNzimm(n: bv32): bv32 {
    Asr22(SignOfBit12(n)) | (((n & 0x40) >> 6) << 4) | (((n & 0x20) >> 5) << 6) | (((n & 0x18) >> 3) << 7)
    | (((n & 4) >> 2) << 5)
  }
  function LuiNzimm(n: bv32): bv32 { Asr14(SignOfBit12(n)) | (((n & 0x7c) >> 2) << 12) }
  function BranchImm(n: bv32): bv32 {
    Asr23(SignOfBit12(n)) | (((n & 0xc00) >> 10) << 3) | (((n & 0x60) >> 5) << 6) | (((n & 0x18) >> 3) << 1)
    | (((n & 4) >> 2) << 5)
  }
  function LwspUimm(n: bv32): bv32 {
    (((n & 0x1000) >> 12) << 5) | (((n & 0x70) >> 4) << 2) | (((n & 0xc) >> 2) << 6)
  }
  function SwspUimm(n: bv32): bv32 { (((n & 0x1e00) >> 9) << 2) | (((n & 0x180) >> 7) << 6) }

  // ---------------------------------------------------------------------
  // Encoders
  // ---------------------------------------------------------------------

  function RType(rd: bv32, rs1: bv32, rs2: bv32, funct3: bv32, funct7: bv32): bv32 {
    ((rd & 0x1f) << 7) | ((rs1 & 0x1f) << 15) | ((rs2 & 0x1f) << 20) | 51 | (funct3 << 12) | (funct7 << 25)
  }
  function EncodeADD(rd: bv32, rs1: bv32, rs2: bv32): bv32 { RType(rd, rs1, rs2, 0, 0) }
  function EncodeAND(rd: bv32, rs1: bv32, rs2: bv32): bv32 { RType(rd, rs1, rs2, 7, 0) }
  function EncodeOR(rd: bv32, rs1: bv32, rs2: bv32): bv32 { RType(rd, rs1, rs2, 6, 0) }
  function EncodeXOR(rd: bv32, rs1: bv32, rs2: bv32): bv32 { RType(rd, rs1, rs2, 4, 0) }
  function EncodeSUB(rd: bv32, rs1: bv32, rs2: bv32): bv32 { RType(rd, rs1, rs2, 0, 32) }

  function IType(rd: bv32, rs1: bv32, imm: bv32, opcode: bv32, funct3: bv32): bv32 {
    ((imm & 4095) << 20) | ((rd & 0x1f) << 7) | ((rs1 & 0x1f) << 15) | opcode | (funct3 << 12)
  }
  function EncodeLW(rd: bv32, rs1: bv32, imm: bv32): bv32 { IType(rd, rs1, imm, 3, 2) }
  function EncodeADDI(rd: bv32, rs1: bv32, imm: bv32): bv32 { IType(rd, rs1, imm, 19, 0) }
  function EncodeANDI(rd: bv32, rs1: bv32, imm: bv32): bv32 { IType(rd, rs1, imm, 19, 7) }
  function EncodeJALR(rd: bv32, rs1: bv32, imm: bv32): bv32 { IType(rd, rs1, imm, 103, 0) }

  function EncodeSW(rs1: bv32, rs2: bv32, imm: bv32): bv32 {
    (((imm & 31) << 7) | ((imm & 0xfe0) << 20)) | ((rs1 & 0x1f) << 15) | ((rs2 & 0x1f) << 20) | 35 | (2 << 12)
  }
  function EncodeLUI(rd: bv32, imm: bv32): bv32 {
    (imm & 0xffff_f000) | ((rd & 0x1f) << 7) | 55
  }

  function ShiftType(rd: bv32, rs1: bv32, shamt: bv32, funct3: bv32, funct7: bv32): bv32 {
    ((rd & 0x1f) << 7) | ((rs1 & 0x1f) << 15) | ((shamt & 31) << 20) | 19 | (funct3 << 12) | (funct7 << 25)
  }
  function EncodeSRLI(rd: bv32, rs1: bv32, shamt: bv32): bv32 { ShiftType(rd, rs1, shamt, 5, 0) }
  function EncodeSRAI(rd: bv32, rs1: bv32, shamt: bv32): bv32 { ShiftType(rd, rs1, shamt, 5, 32) }
  function EncodeSLLI(rd: bv32, rs1: bv32, shamt: bv32): bv32 { ShiftType(rd, rs1, shamt, 1, 0) }

  function EncodeJAL(rd: bv32, imm: bv32): bv32 {
    111 | ((rd & 0x1f) << 7) | ((imm & 0xf_f000) | ((imm & 0x800) << 9) | ((imm & 0x7fe) << 20)
      | ((imm & 0x10_0000) << 11))
  }

  function BType(rs1: bv32, rs2: bv32, imm: bv32, funct3: bv32): bv32 {
    ((((imm & 0x1e) << 7) | ((imm & 0x800) >> 4)) | (((imm & 0x7e0) << 20) | ((imm & 0x1000) << 19)))
    | ((rs1 & 0x1f) << 15) | ((rs2 & 0x1f) << 20) | 99 | (funct3 << 12)
  }
  function EncodeBEQ(rs1: bv32, rs2: bv32, imm: bv32): bv32 { BType(rs1, rs2, imm, 0) }
  function EncodeBNE(rs1: bv32, rs2: bv32, imm: bv32): bv32 { BType(rs1, rs2, imm, 1) }

  const EBREAK_WORD: bv32 := 1048691

  // ---------------------------------------------------------------------
  // Every encoder is undone by the matching accessors
  // ---------------------------------------------------------------------

  lemma RTypeFields(rd: bv32, rs1: bv32, rs2: bv32, funct3: bv32, funct7: bv32)
    requires rd < 32 && rs1 < 32 && rs2 < 32 && funct3 < 8 && funct7 < 128
    ensures var w := RType(rd, rs1, rs2, funct3, funct7);
      Rd(w) == rd && Rs1(w) == rs1 && Rs2(w) == rs2 && Funct3(w) == funct3 && Funct7(w) == funct7 && Opcode(w) == 51
  {
  }

  lemma ITypeFields(rd: bv32, rs1: bv32, imm: bv32, opcode: bv32, funct3: bv32)
    requires rd < 32 && rs1 < 32 && funct3 < 8 && opcode < 128
    ensures var w := IType(rd, rs1, imm, opcode, funct3);
      Rd(w) == rd && Rs1(w) == rs1 && Funct3(w) == funct3 && Opcode(w) == opcode
  {
  }

  lemma ShiftTypeFields(rd: bv32, rs1: bv32, shamt: bv32, funct3: bv32, funct7: bv32)
    requires rd < 32 && rs1 < 32 && shamt < 32 && funct3 < 8 && funct7 < 128
    ensures var w := ShiftType(rd, rs1, shamt, funct3, funct7);
      Rd(w) == rd && Rs1(w) == rs1 && Shamt(w) == shamt && Funct3(w) == funct3 && Funct7(w) == funct7 && Opcode(w) == 19
  {
  }

  lemma SWFields(rs1: bv32, rs2: bv32, imm: bv32)
    requires rs1 < 32 && rs2 < 32
    ensures var w := EncodeSW(rs1, rs2, imm);
      Rs1(w) == rs1 && Rs2(w) == rs2 && Funct3(w) == 2 && Opcode(w) == 35
  {
  }

  lemma LUIFields(rd: bv32, imm: bv32)
    requires rd < 32
    ensures Rd(EncodeLUI(rd, imm)) == rd && Opcode(EncodeLUI(rd, imm)) == 55
    ensures UImm(EncodeLUI(rd, imm)) == imm <==> imm & 0xfff == 0
  {
  }

  lemma JALFields(rd: bv32, imm: bv32)
    requires rd < 32
    ensures Rd(EncodeJAL(rd, imm)) == rd && Opcode(EncodeJAL(rd, imm)) == 111
  {
  }

  lemma BTypeFields(rs1: bv32, rs2: bv32, imm: bv32, funct3: bv32)
    requires rs1 < 32 && rs2 < 32 && funct3 < 8
    ensures var w := BType(rs1, rs2, imm, funct3);
      Rs1(w) == rs1 && Rs2(w) == rs2 && Funct3(w) == funct3 && Opcode(w) == 99
  {
  }

  // The immediates. A field of n bits preserves exactly the numbers whose bits
  // n - 1 and above agree; branch and jump offsets must be even as well.

  lemma ITypeImmediateNonNegative(rd: bv32, rs1: bv32, imm: bv32, opcode: bv32, funct3: bv32)
    requires rd < 32 && rs1 < 32 && opcode < 128 && funct3 < 8 && imm & 0xffff_f800 == 0
    ensures IImm(IType(rd, rs1, imm, opcode, funct3)) == imm
  {
  }

  lemma ITypeImmediateNegative(rd: bv32, rs1: bv32, imm: bv32, opcode: bv32, funct3: bv32)
    requires rd < 32 && rs1 < 32 && opcode < 128 && funct3 < 8 && imm & 0xffff_f800 == 0xffff_f800
    ensures IImm(IType(rd, rs1, imm, opcode, funct3)) == imm
  {
  }

  lemma ITypeImmediateFits(rd: bv32, rs1: bv32, imm: bv32, opcode: bv32, funct3: bv32)
    requires rd < 32 && rs1 < 32 && opcode < 128 && funct3 < 8 && IImm(IType(rd, rs1, imm, opcode, funct3)) == imm
    ensures imm & 0xffff_f800 == 0 || imm & 0xffff_f800 == 0xffff_f800
  {
  }

  /** The 12-bit immediate of loads, additions and indirect jumps. */
  lemma ITypeImmediate(rd: bv32, rs1: bv32, imm: bv32, opcode: bv32, funct3: bv32)
    requires rd < 32 && rs1 < 32 && opcode < 128 && funct3 < 8
    ensures IImm(IType(rd, rs1, imm, opcode, funct3)) == imm
      <==> imm & 0xffff_f800 == 0 || imm & 0xffff_f800 == 0xffff_f800
  {
    hide *;
    if imm & 0xffff_f800 == 0 {
      ITypeImmediateNonNegative(rd, rs1, imm, opcode, funct3);
    } else if imm & 0xffff_f800 == 0xffff_f800 {
      ITypeImmediateNegative(rd, rs1, imm, opcode, funct3);
    } else if IImm(IType(rd, rs1, imm, opcode, funct3)) == imm {
      ITypeImmediateFits(rd, rs1, imm, opcode, funct3);
    }
  }

  lemma SWImmediateNonNegative(rs1: bv32, rs2: bv32, imm: bv32)
    requires rs1 < 32 && rs2 < 32 && imm & 0xffff_f800 == 0
    ensures SImm(EncodeSW(rs1, rs2, imm)) == imm
  {
  }

  lemma SWImmediateNegative(rs1: bv32, rs2: bv32, imm: bv32)
    requires rs1 < 32 && rs2 < 32 && imm & 0xffff_f800 == 0xffff_f800
    ensures SImm(EncodeSW(rs1, rs2, imm)) == imm
  {
  }

  lemma SWImmediateFits(rs1: bv32, rs2: bv32, imm: bv32)
    requires rs1 < 32 && rs2 < 32 && SImm(EncodeSW(rs1, rs2, imm)) == imm
    ensures imm & 0xffff_f800 == 0 || imm & 0xffff_f800 == 0xffff_f800
  {
  }

  /** The 12-bit immediate of stores, split over two fields. */
  lemma SWImmediate(rs1: bv32, rs2: bv32, imm: bv32)
    requires rs1 < 32 && rs2 < 32
    ensures SImm(EncodeSW(rs1, rs2, imm)) == imm <==> imm & 0xffff_f800 == 0 || imm & 0xffff_f800 == 0xffff_f800
  {
    hide *;
    if imm & 0xffff_f800 == 0 {
      SWImmediateNonNegative(rs1, rs2, imm);
    } else if imm & 0xffff_f800 == 0xffff_f800 {
      SWImmediateNegative(rs1, rs2, imm);
    } else if SImm(EncodeSW(rs1, rs2, imm)) == imm {
      SWImmediateFits(rs1, rs2, imm);
    }
  }

  lemma BTypeImmediateNonNegative(rs1: bv32, rs2: bv32, imm: bv32, funct3: bv32)
    requires rs1 < 32 && rs2 < 32 && funct3 < 8 && imm & 0xffff_f001 == 0
    ensures BImm(BType(rs1, rs2, imm, funct3)) == imm
  {
  }

  lemma BTypeImmediateNegative(rs1: bv32, rs2: bv32, imm: bv32, funct3: bv32)
    requires rs1 < 32 && rs2 < 32 && funct3 < 8 && imm & 0xffff_f001 == 0xffff_f000
    ensures BImm(BType(rs1, rs2, imm, funct3)) == imm
  {
  }

  lemma BTypeImmediateFits(rs1: bv32, rs2: bv32, imm: bv32, funct3: bv32)
    requires rs1 < 32 && rs2 < 32 && funct3 < 8 && BImm(BType(rs1, rs2, imm, funct3)) == imm
    ensures imm & 0xffff_f001 == 0 || imm & 0xffff_f001 == 0xffff_f000
  {
  }

  /** The 13-bit branch offset, scattered over four fields. */
  lemma BTypeImmediate(rs1: bv32, rs2: bv32, imm: bv32, funct3: bv32)
    requires rs1 < 32 && rs2 < 32 && funct3 < 8
    ensures BImm(BType(rs1, rs2, imm, funct3)) == imm <==> imm & 0xffff_f001 == 0 || imm & 0xffff_f001 == 0xffff_f000
  {
    hide *;
    if imm & 0xffff_f001 == 0 {
      BTypeImmediateNonNegative(rs1, rs2, imm, funct3);
    } else if imm & 0xffff_f001 == 0xffff_f000 {
      BTypeImmediateNegative(rs1, rs2, imm, funct3);
    } else if BImm(BType(rs1, rs2, imm, funct3)) == imm {
      BTypeImmediateFits(rs1, rs2, imm, funct3);
    }
  }

  lemma JALImmediateNonNegative(rd: bv32, imm: bv32)
    requires rd < 32 && imm & 0xfff0_0001 == 0
    ensures JImm(EncodeJAL(rd, imm)) == imm
  {
  }

  lemma JALImmediateNegative(rd: bv32, imm: bv32)
    requires rd < 32 && imm & 0xfff0_0001 == 0xfff0_0000
    ensures JImm(EncodeJAL(rd, imm)) == imm
  {
  }

  lemma JALImmediateFits(rd: bv32, imm: bv32)
    requires rd < 32 && JImm(EncodeJAL(rd, imm)) == imm
    ensures imm & 0xfff0_0001 == 0 || imm & 0xfff0_0001 == 0xfff0_0000
  {
  }

  /** The 21-bit jump offset, scattered over four fields. */
  lemma JALImmediate(rd: bv32, imm: bv32)
    requires rd < 32
    ensures JImm(EncodeJAL(rd, imm)) == imm <==> imm & 0xfff0_0001 == 0 || imm & 0xfff0_0001 == 0xfff0_0000
  {
    hide *;
    if imm & 0xfff0_0001 == 0 {
      JALImmediateNonNegative(rd, imm);
    } else if imm & 0xfff0_0001 == 0xfff0_0000 {
      JALImmediateNegative(rd, imm);
    } else if JImm(EncodeJAL(rd, imm)) == imm {
      JALImmediateFits(rd, imm);
    }
  }
}
