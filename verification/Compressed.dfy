/** Decoding of compressed instructions and their expansion into ordinary
    instruction words. */
module Compressed {
  import opened Common
  import opened Instr

  /** The operations of compressed instructions, gathered by kind. */
  datatype COp =
    | C_Illegal | C_Reserved
    | Register(register: RegisterCOp) | Immediate(immediate: ImmediateCOp)
    | Memory(memory: MemoryCOp) | Control(control: ControlCOp)

  datatype RegisterCOp = C_NOP | C_ADD | C_MV | C_AND | C_OR | C_XOR | C_SUB
  datatype ImmediateCOp =
    C_ADDI4SPN | C_ADDI | C_LI | C_ADDI16SP | C_LUI | C_SRLI | C_SRAI | C_ANDI | C_SLLI
  datatype MemoryCOp = C_LW | C_SW | C_LWSP | C_SWSP
  datatype ControlCOp = C_JAL | C_J | C_BEQZ | C_BNEZ | C_EBREAK | C_JR | C_JALR

  /** The operations that expansion can produce. */
  datatype Op = OnRegisters(r: RegisterOp) | WithImmediate(i: ImmediateOp) | OnMemory(m: MemoryOp)
    | Transfer(t: ControlOp)

  datatype RegisterOp = ADD | SUB | XOR | OR | AND
  datatype ImmediateOp = ADDI | ANDI | SLLI | SRLI | SRAI | LUI
  datatype MemoryOp = LW | SW
  datatype ControlOp = JAL | JALR | BEQ | BNE | EBREAK

  /** Unknown stands for the exceptions of the decoder. */
  datatype Decoding = Decoded(op: COp) | Unknown

  function DecodeCompressed(w: bv32): Decoding {
    if Quadrant(w) == 0 then DecodeQuadrant0(w)
    else if Quadrant(w) == 1 then DecodeQuadrant1(w)
    else if Quadrant(w) == 2 then DecodeQuadrant2(w)
    else Unknown
  }

  function DecodeQuadrant0(w: bv32): Decoding {
    var f := COpcode(w);
    if f == 0 then (if CFormat(w) == 0 then Decoded(C_Illegal) else Decoded(Immediate(C_ADDI4SPN)))
    else if f == 2 then Decoded(Memory(C_LW))
    else if f == 4 then Decoded(C_Reserved)
    else if f == 6 then Decoded(Memory(C_SW))
    else Unknown
  }

  function DecodeQuadrant1(w: bv32): Decoding {
    var f := COpcode(w);
    if f == 0 then (if CFormat(w) == 1 then Decoded(Register(C_NOP)) else Decoded(Immediate(C_ADDI)))
    else if f == 1 then Decoded(Control(C_JAL))
    else if f == 2 then Decoded(Immediate(C_LI))
    else if f == 3 then (if CRd(w) == 2 then Decoded(Immediate(C_ADDI16SP)) else Decoded(Immediate(C_LUI)))
    else if f == 4 then DecodeArithmetic(w)
    else if f == 5 then Decoded(Control(C_J))
    else if f == 6 then Decoded(Control(C_BEQZ))
    else Decoded(Control(C_BNEZ))
  }

  function DecodeArithmetic(w: bv32): Decoding {
    var h, l := CF2High(w), CF2Low(w);
    if h == 0 then Decoded(Immediate(C_SRLI))
    else if h == 1 then Decoded(Immediate(C_SRAI))
    else if h == 2 then Decoded(Immediate(C_ANDI))
    else if CB12(w) != 0 then (if l == 2 || l == 3 then Decoded(C_Reserved) else Unknown)
    else if l == 0 then Decoded(Register(C_SUB))
    else if l == 1 then Decoded(Register(C_XOR))
    else if l == 2 then Decoded(Register(C_OR))
    else Decoded(Register(C_AND))
  }

  function DecodeQuadrant2(w: bv32): Decoding {
    var f := COpcode(w);
    if f == 0 then Decoded(Immediate(C_SLLI))
    else if f == 2 then Decoded(Memory(C_LWSP))
    else if f == 4 then
      if CB12(w) != 0 then
        if CRd(w) != 0 then (if CRs2(w) != 0 then Decoded(Register(C_ADD)) else Decoded(Control(C_JALR)))
        else Decoded(Control(C_EBREAK))
      else if CRs2(w) != 0 then Decoded(Register(C_MV)) else Decoded(Control(C_JR))
    else if f == 6 then Decoded(Memory(C_SWSP))
    else Unknown
  }

  /** The rewritten instruction and its operation. Undefined is the UNDEF
      result, which execution rejects; Aborted is an exception or a failed
      assertion of the expansion itself. */
  datatype Expansion = Expanded(word: bv32, op: Op) | Undefined | Aborted

  function ExpandCompressed(w: bv32, op: COp): Expansion {
    match op
    case C_Illegal => Undefined
    case C_Reserved => Aborted
    case Register(r) => ExpandRegister(w, r)
    case Immediate(i) => ExpandImmediate(w, i)
    case Memory(m) => ExpandMemory(w, m)
    case Control(t) => ExpandControl(w, t)
  }

  function ExpandRegister(w: bv32, op: RegisterCOp): Expansion {
    match op
    case C_NOP => Expanded(EncodeADD(0, 0, 0), OnRegisters(ADD))
    case C_ADD => Expanded(EncodeADD(CRd(w), CRd(w), CRs2(w)), OnRegisters(ADD))
    case C_MV => Expanded(EncodeADD(CRd(w), 0, CRs2(w)), OnRegisters(ADD))
    case C_AND => Expanded(EncodeAND(CRdSmall(w), CRdSmall(w), CRs2Small(w)), OnRegisters(AND))
    case C_OR => Expanded(EncodeOR(CRdSmall(w), CRdSmall(w), CRs2Small(w)), OnRegisters(OR))
    case C_XOR => Expanded(EncodeXOR(CRdSmall(w), CRdSmall(w), CRs2Small(w)), OnRegisters(XOR))
    case C_SUB => Expanded(EncodeSUB(CRdSmall(w), CRdSmall(w), CRs2Small(w)), OnRegisters(SUB))
  }

  function ExpandImmediate(w: bv32, op: ImmediateCOp): Expansion {
    match op
    case C_ADDI4SPN =>
      if Addi4spnNzuimm(w) == 0 then Undefined
      else Expanded(EncodeADDI(CRs2Small(w), 2, Addi4spnNzuimm(w)), WithImmediate(ADDI))
    case C_ADDI => Expanded(EncodeADDI(CRd(w), CRd(w), CImm(w)), WithImmediate(ADDI))
    case C_LI => Expanded(EncodeADDI(CRd(w), 0, CImm(w)), WithImmediate(ADDI))
    case C_ADDI16SP =>
      if Addi16spNzimm(w) == 0 then Aborted
      else Expanded(EncodeADDI(2, 2, Addi16spNzimm(w)), WithImmediate(ADDI))
    case C_LUI =>
      if LuiNzimm(w) == 0 || CRd(w) == 0 || CRd(w) == 2 then Aborted
      else Expanded(EncodeLUI(CRd(w), LuiNzimm(w)), WithImmediate(LUI))
    case C_SRLI =>
      if CUimm(w) > 31 then Undefined
      else Expanded(EncodeSRLI(CRdSmall(w), CRdSmall(w), CUimm(w)), WithImmediate(SRLI))
    case C_SRAI =>
      if CUimm(w) > 31 then Undefined
      else Expanded(EncodeSRAI(CRdSmall(w), CRdSmall(w), CUimm(w)), WithImmediate(SRAI))
    case C_ANDI => Expanded(EncodeANDI(CRdSmall(w), CRdSmall(w), CImm(w)), WithImmediate(ANDI))
    case C_SLLI =>
      if CUimm(w) > 31 then Undefined
      else Expanded(EncodeSLLI(CRdSmall(w), CRdSmall(w), CUimm(w)), WithImmediate(SLLI))
  }

  function ExpandMemory(w: bv32, op: MemoryCOp): Expansion {
    match op
    case C_LW => Expanded(EncodeLW(CRs2Small(w), CRdSmall(w), LwUimm(w)), OnMemory(LW))
    case C_SW => Expanded(EncodeSW(CRdSmall(w), CRs2Small(w), SwUimm(w)), OnMemory(SW))
    case C_LWSP => Expanded(EncodeLW(CRd(w), 2, LwspUimm(w)), OnMemory(LW))
    case C_SWSP => Expanded(EncodeSW(2, CRs2(w), SwspUimm(w)), OnMemory(SW))
  }

  function ExpandControl(w: bv32, op: ControlCOp): Expansion {
    match op
    case C_JAL => Expanded(EncodeJAL(1, JalImm(w)), Transfer(JAL))
    case C_J => Expanded(EncodeJAL(0, JalImm(w)), Transfer(JAL))
    case C_BEQZ => Expanded(EncodeBEQ(CRdSmall(w), 0, BranchImm(w)), Transfer(BEQ))
    case C_BNEZ => Expanded(EncodeBNE(CRdSmall(w), 0, BranchImm(w)), Transfer(BNE))
    case C_EBREAK => Expanded(EBREAK_WORD, Transfer(EBREAK))
    case C_JR => Expanded(EncodeJALR(0, CRd(w), 0), Transfer(JALR))
    case C_JALR => Expanded(EncodeJALR(1, CRd(w), 0), Transfer(JALR))
  }

  function DecodeAndExpand(w: bv32): Expansion {
    var d := DecodeCompressed(w);
    if d.Decoded? then ExpandCompressed(w, d.op) else Aborted
  }

  // ---------------------------------------------------------------------
  // Ordinary words
  // ---------------------------------------------------------------------

  /** The decoder of ordinary words, for the operations above; None covers all others, and
      the words that it refuses. */
  function DecodeNormal(w: bv32): Option<Op> {
    var opcode, funct3, funct7 := Opcode(w), Funct3(w), Funct7(w);
    if opcode == 0x37 then Some(WithImmediate(LUI))
    else if opcode == 0x6f then Some(Transfer(JAL))
    else if opcode == 0x67 then if funct3 == 0 then Some(Transfer(JALR)) else None
    else if opcode == 0x63 then DecodeBranch(funct3)
    else if opcode == 0x03 then if funct3 == 2 then Some(OnMemory(LW)) else None
    else if opcode == 0x23 then if funct3 == 2 then Some(OnMemory(SW)) else None
    else if opcode == 0x13 then DecodeImmediate(funct3, funct7)
    else if opcode == 0x33 then DecodeRegister(funct3, funct7)
    else if opcode == 0x73 then if funct3 == 0 && Funct12(w) == 1 then Some(Transfer(EBREAK)) else None
    else None
  }

  function DecodeBranch(funct3: bv32): Option<Op> {
    if funct3 == 0 then Some(Transfer(BEQ)) else if funct3 == 1 then Some(Transfer(BNE)) else None
  }

  function DecodeImmediate(funct3: bv32, funct7: bv32): Option<Op> {
    if funct3 == 0 then Some(WithImmediate(ADDI))
    else if funct3 == 7 then Some(WithImmediate(ANDI))
    else if funct3 == 1 then if funct7 == 0 then Some(WithImmediate(SLLI)) else None
    else if funct3 == 5 then
      if funct7 == 0 then Some(WithImmediate(SRLI)) else if funct7 == 0x20 then Some(WithImmediate(SRAI)) else None
    else None
  }

  function DecodeRegister(funct3: bv32, funct7: bv32): Option<Op> {
    if funct7 == 0 then
      if funct3 == 0 then Some(OnRegisters(ADD))
      else if funct3 == 4 then Some(OnRegisters(XOR))
      else if funct3 == 6 then Some(OnRegisters(OR))
      else if funct3 == 7 then Some(OnRegisters(AND))
      else None
    else if funct7 == 0x20 && funct3 == 0 then Some(OnRegisters(SUB))
    else None
  }

  function RegisterWord(op: RegisterOp, rd: bv32, rs1: bv32, rs2: bv32): bv32 {
    match op
    case ADD => EncodeADD(rd, rs1, rs2)
    case SUB => EncodeSUB(rd, rs1, rs2)
    case XOR => EncodeXOR(rd, rs1, rs2)
    case OR => EncodeOR(rd, rs1, rs2)
    case AND => EncodeAND(rd, rs1, rs2)
  }

  /** The words built for the register operations are read back with all three operands. */
  lemma RegisterWordsDecode(op: RegisterOp, rd: bv32, rs1: bv32, rs2: bv32)
    requires rd < 32 && rs1 < 32 && rs2 < 32
    ensures var w := RegisterWord(op, rd, rs1, rs2);
      DecodeNormal(w) == Some(OnRegisters(op)) && Rd(w) == rd && Rs1(w) == rs1 && Rs2(w) == rs2
  {
    hide RType, Opcode, Funct3, Funct7, Funct12, Rd, Rs1, Rs2;
    RTypeFields(rd, rs1, rs2, 0, 0);
    RTypeFields(rd, rs1, rs2, 0, 32);
    RTypeFields(rd, rs1, rs2, 4, 0);
    RTypeFields(rd, rs1, rs2, 6, 0);
    RTypeFields(rd, rs1, rs2, 7, 0);
  }

  /** Those for the operations with a register, an immediate or shift amount x, and a
      register for the result. */
  function ImmediateWord(op: ImmediateOp, rd: bv32, rs1: bv32, x: bv32): bv32 {
    match op
    case ADDI => EncodeADDI(rd, rs1, x)
    case ANDI => EncodeANDI(rd, rs1, x)
    case SLLI => EncodeSLLI(rd, rs1, x)
    case SRLI => EncodeSRLI(rd, rs1, x)
    case SRAI => EncodeSRAI(rd, rs1, x)
    case LUI => EncodeLUI(rd, x)
  }

  lemma ImmediateWordsDecode(op: ImmediateOp, rd: bv32, rs1: bv32, x: bv32)
    requires rd < 32 && rs1 < 32 && (op == SLLI || op == SRLI || op == SRAI ==> x < 32)
    ensures var w := ImmediateWord(op, rd, rs1, x);
      && DecodeNormal(w) == Some(WithImmediate(op)) && Rd(w) == rd && (op != LUI ==> Rs1(w) == rs1)
      && (op == SLLI || op == SRLI || op == SRAI ==> Shamt(w) == x)
  {
    hide IType, ShiftType, EncodeLUI, Opcode, Funct3, Funct7, Funct12, Rd, Rs1, Shamt, UImm;
    match op
    case ADDI => ITypeFields(rd, rs1, x, 19, 0);
    case ANDI => ITypeFields(rd, rs1, x, 19, 7);
    case SLLI => ShiftTypeFields(rd, rs1, x, 1, 0);
    case SRLI => ShiftTypeFields(rd, rs1, x, 5, 0);
    case SRAI => ShiftTypeFields(rd, rs1, x, 5, 32);
    case LUI => LUIFields(rd, x);
  }

  lemma MemoryWordsDecode(rd: bv32, rs1: bv32, rs2: bv32, imm: bv32)
    requires rd < 32 && rs1 < 32 && rs2 < 32
    ensures DecodeNormal(EncodeLW(rd, rs1, imm)) == Some(OnMemory(LW))
    ensures DecodeNormal(EncodeSW(rs1, rs2, imm)) == Some(OnMemory(SW))
  {
    hide IType, EncodeSW, Opcode, Funct3, Funct7, Funct12, Rd, Rs1, Rs2;
    ITypeFields(rd, rs1, imm, 3, 2);
    SWFields(rs1, rs2, imm);
  }

  lemma TransferWordsDecode(rd: bv32, rs1: bv32, rs2: bv32, imm: bv32)
    requires rd < 32 && rs1 < 32 && rs2 < 32
    ensures DecodeNormal(EncodeJAL(rd, imm)) == Some(Transfer(JAL))
    ensures DecodeNormal(EncodeJALR(rd, rs1, imm)) == Some(Transfer(JALR))
    ensures DecodeNormal(EncodeBEQ(rs1, rs2, imm)) == Some(Transfer(BEQ))
    ensures DecodeNormal(EncodeBNE(rs1, rs2, imm)) == Some(Transfer(BNE))
  {
    hide IType, BType, EncodeJAL, Opcode, Funct3, Funct7, Funct12, Rd, Rs1, Rs2;
    ITypeFields(rd, rs1, imm, 103, 0);
    BTypeFields(rs1, rs2, imm, 0);
    BTypeFields(rs1, rs2, imm, 1);
    JALFields(rd, imm);
  }

  lemma BreakWordDecodes()
    ensures DecodeNormal(EBREAK_WORD) == Some(Transfer(EBREAK))
  {
  }

  lemma RegisterFieldsFit(w: bv32)
    ensures CRd(w) < 32 && CRs2(w) < 32 && CRdSmall(w) < 32 && CRs2Small(w) < 32
  {
  }

  /** The word that a compressed instruction is rewritten to is an ordinary word for the
      very operation that is executed in its place. */
  lemma ExpansionDecodes(w: bv32)
    ensures var e := DecodeAndExpand(w); e.Expanded? ==> DecodeNormal(e.word) == Some(e.op)
  {
    hide DecodeCompressed, DecodeNormal, CRd, CRs2, CRdSmall, CRs2Small, CImm, CUimm;
    hide EncodeADD, EncodeSUB, EncodeAND, EncodeOR, EncodeXOR;
    hide EncodeADDI, EncodeANDI, EncodeSLLI, EncodeSRLI, EncodeSRAI;
    hide EncodeLUI, EncodeLW, EncodeSW, EncodeJAL, EncodeJALR, EncodeBEQ, EncodeBNE;
    hide Addi4spnNzuimm, Addi16spNzimm, LuiNzimm, LwUimm, SwUimm, LwspUimm, SwspUimm, JalImm, BranchImm;
    RegisterFieldsFit(w);
    var d := DecodeCompressed(w);
    if d.Decoded? {
      match d.op
      case Register(r) => RegisterExpansionDecodes(w, r);
      case Immediate(i) => ImmediateExpansionDecodes(w, i);
      case Memory(m) =>
        MemoryWordsDecode(CRs2Small(w), CRdSmall(w), 0, LwUimm(w));
        MemoryWordsDecode(0, CRdSmall(w), CRs2Small(w), SwUimm(w));
        MemoryWordsDecode(CRd(w), 2, 0, LwspUimm(w));
        MemoryWordsDecode(0, 2, CRs2(w), SwspUimm(w));
      case Control(t) =>
        TransferWordsDecode(1, CRd(w), 0, JalImm(w));
        TransferWordsDecode(0, CRd(w), 0, JalImm(w));
        TransferWordsDecode(1, CRd(w), 0, 0);
        TransferWordsDecode(0, CRd(w), 0, 0);
        TransferWordsDecode(0, CRdSmall(w), 0, BranchImm(w));
        BreakWordDecodes();
      case C_Illegal =>
      case C_Reserved =>
    }
  }

  lemma RegisterExpansionDecodes(w: bv32, op: RegisterCOp)
    requires CRd(w) < 32 && CRs2(w) < 32 && CRdSmall(w) < 32 && CRs2Small(w) < 32
    ensures var e := ExpandRegister(w, op); e.Expanded? ==> DecodeNormal(e.word) == Some(e.op)
  {
    hide DecodeNormal, CRd, CRs2, CRdSmall, CRs2Small;
    hide EncodeADD, EncodeSUB, EncodeAND, EncodeOR, EncodeXOR;
    match op
    case C_NOP => RegisterWordsDecode(ADD, 0, 0, 0);
    case C_ADD => RegisterWordsDecode(ADD, CRd(w), CRd(w), CRs2(w));
    case C_MV => RegisterWordsDecode(ADD, CRd(w), 0, CRs2(w));
    case C_AND => RegisterWordsDecode(AND, CRdSmall(w), CRdSmall(w), CRs2Small(w));
    case C_OR => RegisterWordsDecode(OR, CRdSmall(w), CRdSmall(w), CRs2Small(w));
    case C_XOR => RegisterWordsDecode(XOR, CRdSmall(w), CRdSmall(w), CRs2Small(w));
    case C_SUB => RegisterWordsDecode(SUB, CRdSmall(w), CRdSmall(w), CRs2Small(w));
  }

  lemma ImmediateExpansionDecodes(w: bv32, op: ImmediateCOp)
    requires CRd(w) < 32 && CRs2(w) < 32 && CRdSmall(w) < 32 && CRs2Small(w) < 32
    ensures var e := ExpandImmediate(w, op); e.Expanded? ==> DecodeNormal(e.word) == Some(e.op)
  {
    hide DecodeNormal, CRd, CRdSmall, CRs2Small, CImm, CUimm, Addi4spnNzuimm, Addi16spNzimm, LuiNzimm;
    hide EncodeADDI, EncodeANDI, EncodeSLLI, EncodeSRLI, EncodeSRAI, EncodeLUI;
    match op
    case C_ADDI4SPN => ImmediateWordsDecode(ADDI, CRs2Small(w), 2, Addi4spnNzuimm(w));
    case C_ADDI => ImmediateWordsDecode(ADDI, CRd(w), CRd(w), CImm(w));
    case C_LI => ImmediateWordsDecode(ADDI, CRd(w), 0, CImm(w));
    case C_ADDI16SP => ImmediateWordsDecode(ADDI, 2, 2, Addi16spNzimm(w));
    case C_LUI => ImmediateWordsDecode(LUI, CRd(w), 0, LuiNzimm(w));
    case C_ANDI => ImmediateWordsDecode(ANDI, CRdSmall(w), CRdSmall(w), CImm(w));
    case C_SRLI => if CUimm(w) <= 31 { ImmediateWordsDecode(SRLI, CRdSmall(w), CRdSmall(w), CUimm(w)); }
    case C_SRAI => if CUimm(w) <= 31 { ImmediateWordsDecode(SRAI, CRdSmall(w), CRdSmall(w), CUimm(w)); }
    case C_SLLI => if CUimm(w) <= 31 { ImmediateWordsDecode(SLLI, CRdSmall(w), CRdSmall(w), CUimm(w)); }
  }
}
