/** The compressed instructions of RV32C as the RISC-V Unprivileged ISA
    specification (20191213, sections 16.3-16.5) defines them, and the proof
    that decoding, expanding and executing a compressed word has the specified
    effect. Floating-point and 64-bit encodings have no meaning here. */
module Rvc {
  import opened Instr
  import opened Compressed
  import opened Iss

  // ---------------------------------------------------------------------
  // Fields of a compressed word, by the specification's formats
  // ---------------------------------------------------------------------

  function Op2(h: bv32): bv32 { h & 3 }
  function F3(h: bv32): bv32 { (h >> 13) & 7 }
  function B12(h: bv32): bv32 { (h >> 12) & 1 }
  function F2(h: bv32): bv32 { (h >> 10) & 3 }
  function F2Low(h: bv32): bv32 { (h >> 5) & 3 }
  /** Full and three-bit register fields; the latter name x8 to x15. */
  function RegD(h: bv32): bv32 { (h >> 7) & 31 }
  function RegS2(h: bv32): bv32 { (h >> 2) & 31 }
  function RegDPrime(h: bv32): bv32 { 8 + ((h >> 7) & 7) }
  function RegS2Prime(h: bv32): bv32 { 8 + ((h >> 2) & 7) }

  /** imm[5] at 12, imm[4:0] at 6:2; signed and unsigned. */
  function UImm6(h: bv32): bv32 { ((h >> 2) & 31) + (((h >> 12) & 1) << 5) }
  function SImm6(h: bv32): bv32 { ((h >> 2) & 31) - (((h >> 12) & 1) << 5) }
  /** nzuimm[5:4|9:6|2|3] at 12:5 */
  function Imm4spn(h: bv32): bv32 {
    (((h >> 11) & 3) << 4) + (((h >> 7) & 15) << 6) + (((h >> 6) & 1) << 2) + (((h >> 5) & 1) << 3)
  }
  /** uimm[5:3] at 12:10, uimm[2|6] at 6:5 */
  function ImmWord(h: bv32): bv32 { (((h >> 10) & 7) << 3) + (((h >> 6) & 1) << 2) + (((h >> 5) & 1) << 6) }
  /** nzimm[9] at 12, nzimm[4|6|8:7|5] at 6:2 */
  function Imm16sp(h: bv32): bv32 {
    (((h >> 6) & 1) << 4) + (((h >> 5) & 1) << 6) + (((h >> 3) & 3) << 7) + (((h >> 2) & 1) << 5)
    - (((h >> 12) & 1) << 9)
  }
  /** nzimm[17] at 12, nzimm[16:12] at 6:2 */
  function ImmUpper(h: bv32): bv32 { (((h >> 2) & 31) << 12) - (((h >> 12) & 1) << 17) }
  /** offset[11|4|9:8|10|6|7|3:1|5] at 12:2 */
  function OffsetJump(h: bv32): bv32 {
    (((h >> 11) & 1) << 4) + (((h >> 9) & 3) << 8) + (((h >> 8) & 1) << 10) + (((h >> 7) & 1) << 6)
    + (((h >> 6) & 1) << 7) + (((h >> 3) & 7) << 1) + (((h >> 2) & 1) << 5) - (((h >> 12) & 1) << 11)
  }
  /** offset[8|4:3] at 12:10, offset[7:6|2:1|5] at 6:2 */
  function OffsetBranch(h: bv32): bv32 {
    (((h >> 10) & 3) << 3) + (((h >> 5) & 3) << 6) + (((h >> 3) & 3) << 1) + (((h >> 2) & 1) << 5)
    - (((h >> 12) & 1) << 8)
  }
  /** uimm[5] at 12, uimm[4:2|7:6] at 6:2 */
  function ImmLwsp(h: bv32): bv32 { (((h >> 12) & 1) << 5) + (((h >> 4) & 7) << 2) + (((h >> 2) & 3) << 6) }
  /** uimm[5:2|7:6] at 12:7 */
  function ImmSwsp(h: bv32): bv32 { (((h >> 9) & 15) << 2) + (((h >> 7) & 3) << 6) }

  // ---------------------------------------------------------------------
  // Meaning and effect
  // ---------------------------------------------------------------------

  /** Illegal gathers reserved, custom and unsupported encodings; a Hint must
      change nothing but the program counter. */
  datatype Meaning = Illegal | Hint | Legal(op: COp)

  function MeaningOf(h: bv32): Meaning {
    if Op2(h) == 0 then Meaning0(h)
    else if Op2(h) == 1 then Meaning1(h)
    else if Op2(h) == 2 then Meaning2(h)
    else Illegal
  }

  function Meaning0(h: bv32): Meaning {
    var f := F3(h);
    if f == 0 then (if Imm4spn(h) == 0 then Illegal else Legal(Immediate(C_ADDI4SPN)))
    else if f == 2 then Legal(Memory(C_LW))
    else if f == 6 then Legal(Memory(C_SW))
    else Illegal
  }

  function Meaning1(h: bv32): Meaning {
    var f, rd := F3(h), RegD(h);
    if f == 0 then
      if rd == 0 then (if SImm6(h) == 0 then Legal(Register(C_NOP)) else Hint)
      else if SImm6(h) == 0 then Hint else Legal(Immediate(C_ADDI))
    else if f == 1 then Legal(Control(C_JAL))
    else if f == 2 then (if rd == 0 then Hint else Legal(Immediate(C_LI)))
    else if f == 3 then
      if rd == 2 then (if Imm16sp(h) == 0 then Illegal else Legal(Immediate(C_ADDI16SP)))
      else if ImmUpper(h) == 0 then Illegal
      else if rd == 0 then Hint else Legal(Immediate(C_LUI))
    else if f == 4 then MeaningArithmetic(h)
    else if f == 5 then Legal(Control(C_J))
    else if f == 6 then Legal(Control(C_BEQZ))
    else Legal(Control(C_BNEZ))
  }

  function MeaningArithmetic(h: bv32): Meaning {
    if F2(h) == 0 then (if UImm6(h) > 31 then Illegal else if UImm6(h) == 0 then Hint else Legal(Immediate(C_SRLI)))
    else if F2(h) == 1 then (if UImm6(h) > 31 then Illegal else if UImm6(h) == 0 then Hint
      else Legal(Immediate(C_SRAI)))
    else if F2(h) == 2 then Legal(Immediate(C_ANDI))
    else if B12(h) != 0 then Illegal
    else if F2Low(h) == 0 then Legal(Register(C_SUB))
    else if F2Low(h) == 1 then Legal(Register(C_XOR))
    else if F2Low(h) == 2 then Legal(Register(C_OR))
    else Legal(Register(C_AND))
  }

  function Meaning2(h: bv32): Meaning {
    var f, rd, rs2 := F3(h), RegD(h), RegS2(h);
    if f == 0 then
      if UImm6(h) > 31 then Illegal else if rd == 0 || UImm6(h) == 0 then Hint else Legal(Immediate(C_SLLI))
    else if f == 2 then (if rd == 0 then Illegal else Legal(Memory(C_LWSP)))
    else if f == 4 then
      if B12(h) == 0 then
        if rs2 == 0 then (if rd == 0 then Illegal else Legal(Control(C_JR)))
        else if rd == 0 then Hint else Legal(Register(C_MV))
      else if rs2 == 0 then (if rd == 0 then Legal(Control(C_EBREAK)) else Legal(Control(C_JALR)))
      else if rd == 0 then Hint else Legal(Register(C_ADD))
    else if f == 6 then Legal(Memory(C_SWSP))
    else Illegal
  }

  /** The state after a legal instruction h with operation op. */
  function Effect(op: COp, h: bv32, m: Machine): Machine {
    var next := m.(pc := Sum(m.pc, 2));
    match op
    case Register(r) => RegisterEffect(r, h, next)
    case Immediate(i) => ImmediateEffect(i, h, next)
    case Memory(t) => MemoryEffect(t, h, next)
    case Control(t) => ControlEffect(t, h, m, next)
    case _ => next
  }

  function RegisterEffect(op: RegisterCOp, h: bv32, n: Machine): Machine {
    var rd, rs2, rdp, rs2p := RegD(h), RegS2(h), RegDPrime(h), RegS2Prime(h);
    var x := Reg(n.regs, rdp);
    var y := Reg(n.regs, rs2p);
    match op
    case C_ADD => SetReg(n, rd, Sum(Reg(n.regs, rd), Reg(n.regs, rs2)))
    case C_MV => SetReg(n, rd, Reg(n.regs, rs2))
    case C_SUB => SetReg(n, rdp, Alu(Minus, x, y))
    case C_XOR => SetReg(n, rdp, Alu(Xor, x, y))
    case C_OR => SetReg(n, rdp, Alu(Or, x, y))
    case C_AND => SetReg(n, rdp, Alu(And, x, y))
    case C_NOP => n
  }

  function ImmediateEffect(op: ImmediateCOp, h: bv32, n: Machine): Machine {
    var rd, rdp := RegD(h), RegDPrime(h);
    match op
    case C_ADDI4SPN => SetReg(n, RegS2Prime(h), Sum(Reg(n.regs, 2), Imm4spn(h)))
    case C_ADDI => SetReg(n, rd, Sum(Reg(n.regs, rd), SImm6(h)))
    case C_LI => SetReg(n, rd, SImm6(h))
    case C_ADDI16SP => SetReg(n, 2, Sum(Reg(n.regs, 2), Imm16sp(h)))
    case C_LUI => SetReg(n, rd, ImmUpper(h))
    case C_SRLI => SetReg(n, rdp, Alu(ShiftRight, Reg(n.regs, rdp), UImm6(h)))
    case C_SRAI => SetReg(n, rdp, Alu(ShiftRightSigned, Reg(n.regs, rdp), UImm6(h)))
    case C_ANDI => SetReg(n, rdp, Alu(And, Reg(n.regs, rdp), SImm6(h)))
    case C_SLLI => SetReg(n, rd, Alu(ShiftLeft, Reg(n.regs, rd), UImm6(h)))
  }

  function MemoryEffect(op: MemoryCOp, h: bv32, n: Machine): Machine {
    var rdp, rs2p := RegDPrime(h), RegS2Prime(h);
    match op
    case C_LW => SetReg(n, rs2p, LoadWord(n.mem, Sum(Reg(n.regs, rdp), ImmWord(h))))
    case C_SW => n.(mem := StoreWord(n.mem, Sum(Reg(n.regs, rdp), ImmWord(h)), Reg(n.regs, rs2p)))
    case C_LWSP => SetReg(n, RegD(h), LoadWord(n.mem, Sum(Reg(n.regs, 2), ImmLwsp(h))))
    case C_SWSP => n.(mem := StoreWord(n.mem, Sum(Reg(n.regs, 2), ImmSwsp(h)), Reg(n.regs, RegS2(h))))
  }

  /** m is the machine at the instruction, n the same with pc + 2. */
  function ControlEffect(op: ControlCOp, h: bv32, m: Machine, n: Machine): Machine {
    match op
    case C_J => m.(pc := Sum(m.pc, OffsetJump(h)))
    case C_JAL => SetReg(m, 1, n.pc).(pc := Sum(m.pc, OffsetJump(h)))
    case C_BEQZ => if Reg(m.regs, RegDPrime(h)) == 0 then m.(pc := Sum(m.pc, OffsetBranch(h))) else n
    case C_BNEZ => if Reg(m.regs, RegDPrime(h)) != 0 then m.(pc := Sum(m.pc, OffsetBranch(h))) else n
    case C_JR => m.(pc := EvenTarget(Reg(m.regs, RegD(h))))
    case C_JALR => SetReg(m, 1, n.pc).(pc := EvenTarget(Reg(m.regs, RegD(h))))
    case C_EBREAK => n.(status := HitBreakpoint)
  }

  // ---------------------------------------------------------------------
  // The source's accessors read the specification's fields
  // ---------------------------------------------------------------------

  lemma SelectorsAgree(w: bv32)
    ensures Quadrant(w) == Op2(w) && COpcode(w) == F3(w) && CB12(w) == B12(w) && B12(w) < 2
    ensures CF2High(w) == F2(w) && F2(w) < 4 && CF2Low(w) == F2Low(w) && F2Low(w) < 4
    ensures Op2(w) < 4 && F3(w) < 8
  {
  }

  lemma RegistersAgree(w: bv32)
    ensures CRd(w) == RegD(w) < 32 && CRs2(w) == RegS2(w) < 32
    ensures CRdSmall(w) == RegDPrime(w) && 8 <= RegDPrime(w) < 16
    ensures CRs2Small(w) == RegS2Prime(w) && 8 <= RegS2Prime(w) < 16
    ensures 8 <= RegD(w) < 16 ==> RegDPrime(w) == RegD(w)
  {
  }

  /** Whole-word comparisons of the decoder in terms of fields. */
  lemma FormatsAgree(w: bv32)
    ensures CFormat(w) == 0 ==> Imm4spn(w) == 0
    ensures Op2(w) == 1 && F3(w) == 0 ==> (CFormat(w) == 1 <==> RegD(w) == 0 && SImm6(w) == 0)
  {
  }

  /** The bounds that make an immediate fit its field in the expanded word. */
  ghost predicate Fits12(imm: bv32) { imm & 0xffff_f800 == 0 || imm & 0xffff_f800 == 0xffff_f800 }
  ghost predicate Fits13(imm: bv32) { imm & 0xffff_f001 == 0 || imm & 0xffff_f001 == 0xffff_f000 }
  ghost predicate Fits21(imm: bv32) { imm & 0xfff0_0001 == 0 || imm & 0xfff0_0001 == 0xfff0_0000 }

  lemma SmallImmediatesAgree(w: bv32)
    ensures CImm(w) == SImm6(w) && Fits12(SImm6(w))
    ensures CUimm(w) == UImm6(w)
  {
  }

  lemma WordImmediatesAgree(w: bv32)
    ensures Addi4spnNzuimm(w) == Imm4spn(w) && Fits12(Imm4spn(w))
    ensures LwUimm(w) == ImmWord(w) && Fits12(ImmWord(w))
    ensures LwspUimm(w) == ImmLwsp(w) && Fits12(ImmLwsp(w))
    ensures SwspUimm(w) == ImmSwsp(w) && Fits12(ImmSwsp(w))
  {
  }

  lemma StackImmediateAgrees(w: bv32)
    ensures Addi16spNzimm(w) == Imm16sp(w) && Fits12(Imm16sp(w))
  {
  }

  lemma UpperImmediateAgrees(w: bv32)
    ensures LuiNzimm(w) == ImmUpper(w) && ImmUpper(w) & 0xfff == 0
  {
  }

  lemma JumpOffsetAgrees(w: bv32)
    ensures JalImm(w) == OffsetJump(w) && Fits21(OffsetJump(w))
  {
  }

  lemma BranchOffsetAgrees(w: bv32)
    ensures BranchImm(w) == OffsetBranch(w) && Fits13(OffsetBranch(w))
  {
  }

  // ---------------------------------------------------------------------
  // Decoding
  // ---------------------------------------------------------------------

  lemma Decodes0(w: bv32)
    requires Op2(w) == 0
    ensures MeaningOf(w).Legal? ==> DecodeCompressed(w) == Decoded(MeaningOf(w).op)
    ensures MeaningOf(w).Illegal?
      ==> DecodeCompressed(w) in {Unknown, Decoded(C_Illegal), Decoded(C_Reserved), Decoded(Immediate(C_ADDI4SPN))}
  {
    hide Fits12, Op2, F3, Imm4spn, Quadrant, COpcode, CFormat;
    SelectorsAgree(w);
    FormatsAgree(w);
  }

  lemma Decodes1(w: bv32)
    requires Op2(w) == 1
    ensures MeaningOf(w).Legal? ==> DecodeCompressed(w) == Decoded(MeaningOf(w).op)
  {
    hide Op2, F3, F2, F2Low, B12, RegD, SImm6, UImm6, Imm16sp, ImmUpper;
    hide Quadrant, COpcode, CF2High, CF2Low, CB12, CFormat, CRd;
    SelectorsAgree(w);
    RegistersAgree(w);
    FormatsAgree(w);
  }

  lemma Decodes2(w: bv32)
    requires Op2(w) == 2
    ensures MeaningOf(w).Legal? ==> DecodeCompressed(w) == Decoded(MeaningOf(w).op)
  {
    hide Op2, F3, B12, RegD, RegS2, UImm6;
    hide Quadrant, COpcode, CB12, CRd, CRs2;
    SelectorsAgree(w);
    RegistersAgree(w);
  }

  // ---------------------------------------------------------------------
  // Expansion and execution, operation by operation
  // ---------------------------------------------------------------------

  /** One simulator step once the word has been decoded to op. */
  function RunAs(op: COp, w: bv32, m: Machine): Outcome {
    var e := ExpandCompressed(w, op);
    if e.Expanded? then Ran(Execute(m.(pc := Sum(m.pc, 2)), e.op, e.word, m.pc)) else Faulted
  }

  /** Register 0 reads as zero. */
  lemma ZeroRegister(m: Machine, x: bv32)
    requires WellFormed(m)
    ensures Reg(m.regs, 0) == 0 && Sum(0, x) == x && Sum(x, 0) == x
    ensures SetReg(m, 0, 0) == m
  {
    assert m.regs[0 := 0] == m.regs;
  }

  lemma RunsNop(w: bv32, m: Machine)
    requires WellFormed(m)
    ensures RunAs(Register(C_NOP), w, m) == Ran(Effect(Register(C_NOP), w, m))
  {
    hide RType, Rd, Rs1, Rs2, CRd, CRs2, CRdSmall, CRs2Small, RegD, RegS2, RegDPrime, RegS2Prime, Sum, Alu;
    hide Reg, SetReg;
    ZeroRegister(m.(pc := Sum(m.pc, 2)), 0);
    RTypeFields(0, 0, 0, 0, 0);
  }

  lemma RunsAdd(w: bv32, m: Machine)
    requires WellFormed(m)
    ensures RunAs(Register(C_ADD), w, m) == Ran(Effect(Register(C_ADD), w, m))
  {
    hide RType, Rd, Rs1, Rs2, CRd, CRs2, CRdSmall, CRs2Small, RegD, RegS2, RegDPrime, RegS2Prime, Sum, Alu;
    hide Reg, SetReg;
    RegistersAgree(w);
    RTypeFields(RegD(w), RegD(w), RegS2(w), 0, 0);
  }

  lemma RunsMv(w: bv32, m: Machine)
    requires WellFormed(m)
    ensures RunAs(Register(C_MV), w, m) == Ran(Effect(Register(C_MV), w, m))
  {
    hide RType, Rd, Rs1, Rs2, CRd, CRs2, CRdSmall, CRs2Small, RegD, RegS2, RegDPrime, RegS2Prime, Sum, Alu;
    hide Reg, SetReg;
    RegistersAgree(w);
    ZeroRegister(m, Reg(m.regs, RegS2(w)));
    RTypeFields(RegD(w), 0, RegS2(w), 0, 0);
  }

  lemma RunsSub(w: bv32, m: Machine)
    requires WellFormed(m)
    ensures RunAs(Register(C_SUB), w, m) == Ran(Effect(Register(C_SUB), w, m))
  {
    hide RType, Rd, Rs1, Rs2, CRd, CRs2, CRdSmall, CRs2Small, RegD, RegS2, RegDPrime, RegS2Prime, Sum, Alu;
    hide Reg, SetReg;
    RegistersAgree(w);
    RTypeFields(RegDPrime(w), RegDPrime(w), RegS2Prime(w), 0, 32);
  }

  lemma RunsXor(w: bv32, m: Machine)
    requires WellFormed(m)
    ensures RunAs(Register(C_XOR), w, m) == Ran(Effect(Register(C_XOR), w, m))
  {
    hide RType, Rd, Rs1, Rs2, CRd, CRs2, CRdSmall, CRs2Small, RegD, RegS2, RegDPrime, RegS2Prime, Sum, Alu;
    hide Reg, SetReg;
    RegistersAgree(w);
    RTypeFields(RegDPrime(w), RegDPrime(w), RegS2Prime(w), 4, 0);
  }

  lemma RunsOr(w: bv32, m: Machine)
    requires WellFormed(m)
    ensures RunAs(Register(C_OR), w, m) == Ran(Effect(Register(C_OR), w, m))
  {
    hide RType, Rd, Rs1, Rs2, CRd, CRs2, CRdSmall, CRs2Small, RegD, RegS2, RegDPrime, RegS2Prime, Sum, Alu;
    hide Reg, SetReg;
    RegistersAgree(w);
    RTypeFields(RegDPrime(w), RegDPrime(w), RegS2Prime(w), 6, 0);
  }

  lemma RunsAnd(w: bv32, m: Machine)
    requires WellFormed(m)
    ensures RunAs(Register(C_AND), w, m) == Ran(Effect(Register(C_AND), w, m))
  {
    hide RType, Rd, Rs1, Rs2, CRd, CRs2, CRdSmall, CRs2Small, RegD, RegS2, RegDPrime, RegS2Prime, Sum, Alu;
    hide Reg, SetReg;
    RegistersAgree(w);
    RTypeFields(RegDPrime(w), RegDPrime(w), RegS2Prime(w), 7, 0);
  }

  lemma RunsAddi4spn(w: bv32, m: Machine)
    requires WellFormed(m)
    requires Imm4spn(w) != 0
    ensures RunAs(Immediate(C_ADDI4SPN), w, m) == Ran(Effect(Immediate(C_ADDI4SPN), w, m))
  {
    hide IType, ShiftType, EncodeLUI, Rd, Rs1, IImm, Shamt, UImm, CRd, CRdSmall, CRs2Small, CImm, CUimm, RegD;
    hide RegDPrime, RegS2Prime, SImm6, UImm6, Addi4spnNzuimm, Addi16spNzimm, LuiNzimm, Imm4spn, Imm16sp;
    hide ImmUpper, Fits12, Sum, Alu, Reg, SetReg;
    RegistersAgree(w);
    WordImmediatesAgree(w);
    ITypeFields(RegS2Prime(w), 2, Imm4spn(w), 19, 0);
    ITypeImmediate(RegS2Prime(w), 2, Imm4spn(w), 19, 0);
  }

  lemma RunsAddi(w: bv32, m: Machine)
    requires WellFormed(m)
    ensures RunAs(Immediate(C_ADDI), w, m) == Ran(Effect(Immediate(C_ADDI), w, m))
  {
    hide IType, ShiftType, EncodeLUI, Rd, Rs1, IImm, Shamt, UImm, CRd, CRdSmall, CRs2Small, CImm, CUimm, RegD;
    hide RegDPrime, RegS2Prime, SImm6, UImm6, Addi4spnNzuimm, Addi16spNzimm, LuiNzimm, Imm4spn, Imm16sp;
    hide ImmUpper, Fits12, Sum, Alu, Reg, SetReg;
    RegistersAgree(w);
    SmallImmediatesAgree(w);
    ITypeFields(RegD(w), RegD(w), SImm6(w), 19, 0);
    ITypeImmediate(RegD(w), RegD(w), SImm6(w), 19, 0);
  }

  lemma RunsLi(w: bv32, m: Machine)
    requires WellFormed(m)
    ensures RunAs(Immediate(C_LI), w, m) == Ran(Effect(Immediate(C_LI), w, m))
  {
    hide IType, ShiftType, EncodeLUI, Rd, Rs1, IImm, Shamt, UImm, CRd, CRdSmall, CRs2Small, CImm, CUimm, RegD;
    hide RegDPrime, RegS2Prime, SImm6, UImm6, Addi4spnNzuimm, Addi16spNzimm, LuiNzimm, Imm4spn, Imm16sp;
    hide ImmUpper, Fits12, Sum, Alu, Reg, SetReg;
    RegistersAgree(w);
    SmallImmediatesAgree(w);
    ZeroRegister(m, SImm6(w));
    ITypeFields(RegD(w), 0, SImm6(w), 19, 0);
    ITypeImmediate(RegD(w), 0, SImm6(w), 19, 0);
  }

  lemma RunsAddi16sp(w: bv32, m: Machine)
    requires WellFormed(m)
    requires Imm16sp(w) != 0
    ensures RunAs(Immediate(C_ADDI16SP), w, m) == Ran(Effect(Immediate(C_ADDI16SP), w, m))
  {
    hide IType, ShiftType, EncodeLUI, Rd, Rs1, IImm, Shamt, UImm, CRd, CRdSmall, CRs2Small, CImm, CUimm, RegD;
    hide RegDPrime, RegS2Prime, SImm6, UImm6, Addi4spnNzuimm, Addi16spNzimm, LuiNzimm, Imm4spn, Imm16sp;
    hide ImmUpper, Fits12, Sum, Alu, Reg, SetReg;
    StackImmediateAgrees(w);
    ITypeFields(2, 2, Imm16sp(w), 19, 0);
    ITypeImmediate(2, 2, Imm16sp(w), 19, 0);
  }

  lemma RunsLui(w: bv32, m: Machine)
    requires WellFormed(m)
    requires ImmUpper(w) != 0 && RegD(w) != 0 && RegD(w) != 2
    ensures RunAs(Immediate(C_LUI), w, m) == Ran(Effect(Immediate(C_LUI), w, m))
  {
    hide IType, ShiftType, EncodeLUI, Rd, Rs1, IImm, Shamt, UImm, CRd, CRdSmall, CRs2Small, CImm, CUimm, RegD;
    hide RegDPrime, RegS2Prime, SImm6, UImm6, Addi4spnNzuimm, Addi16spNzimm, LuiNzimm, Imm4spn, Imm16sp;
    hide ImmUpper, Fits12, Sum, Alu, Reg, SetReg;
    RegistersAgree(w);
    UpperImmediateAgrees(w);
    LUIFields(RegD(w), ImmUpper(w));
  }

  lemma RunsSrli(w: bv32, m: Machine)
    requires WellFormed(m)
    requires UImm6(w) < 32
    ensures RunAs(Immediate(C_SRLI), w, m) == Ran(Effect(Immediate(C_SRLI), w, m))
  {
    hide IType, ShiftType, EncodeLUI, Rd, Rs1, IImm, Shamt, UImm, CRd, CRdSmall, CRs2Small, CImm, CUimm, RegD;
    hide RegDPrime, RegS2Prime, SImm6, UImm6, Addi4spnNzuimm, Addi16spNzimm, LuiNzimm, Imm4spn, Imm16sp;
    hide ImmUpper, Fits12, Sum, Alu, Reg, SetReg;
    RegistersAgree(w);
    SmallImmediatesAgree(w);
    ShiftTypeFields(RegDPrime(w), RegDPrime(w), UImm6(w), 5, 0);
  }

  lemma RunsSrai(w: bv32, m: Machine)
    requires WellFormed(m)
    requires UImm6(w) < 32
    ensures RunAs(Immediate(C_SRAI), w, m) == Ran(Effect(Immediate(C_SRAI), w, m))
  {
    hide IType, ShiftType, EncodeLUI, Rd, Rs1, IImm, Shamt, UImm, CRd, CRdSmall, CRs2Small, CImm, CUimm, RegD;
    hide RegDPrime, RegS2Prime, SImm6, UImm6, Addi4spnNzuimm, Addi16spNzimm, LuiNzimm, Imm4spn, Imm16sp;
    hide ImmUpper, Fits12, Sum, Alu, Reg, SetReg;
    RegistersAgree(w);
    SmallImmediatesAgree(w);
    ShiftTypeFields(RegDPrime(w), RegDPrime(w), UImm6(w), 5, 32);
  }

  lemma RunsAndi(w: bv32, m: Machine)
    requires WellFormed(m)
    ensures RunAs(Immediate(C_ANDI), w, m) == Ran(Effect(Immediate(C_ANDI), w, m))
  {
    hide IType, ShiftType, EncodeLUI, Rd, Rs1, IImm, Shamt, UImm, CRd, CRdSmall, CRs2Small, CImm, CUimm, RegD;
    hide RegDPrime, RegS2Prime, SImm6, UImm6, Addi4spnNzuimm, Addi16spNzimm, LuiNzimm, Imm4spn, Imm16sp;
    hide ImmUpper, Fits12, Sum, Alu, Reg, SetReg;
    RegistersAgree(w);
    SmallImmediatesAgree(w);
    ITypeFields(RegDPrime(w), RegDPrime(w), SImm6(w), 19, 7);
    ITypeImmediate(RegDPrime(w), RegDPrime(w), SImm6(w), 19, 7);
  }

  lemma RunsSlli(w: bv32, m: Machine)
    requires WellFormed(m)
    requires UImm6(w) < 32 && 8 <= RegD(w) < 16
    ensures RunAs(Immediate(C_SLLI), w, m) == Ran(Effect(Immediate(C_SLLI), w, m))
  {
    hide IType, ShiftType, EncodeLUI, Rd, Rs1, IImm, Shamt, UImm, CRd, CRdSmall, CRs2Small, CImm, CUimm, RegD;
    hide RegDPrime, RegS2Prime, SImm6, UImm6, Addi4spnNzuimm, Addi16spNzimm, LuiNzimm, Imm4spn, Imm16sp;
    hide ImmUpper, Fits12, Sum, Alu, Reg, SetReg;
    RegistersAgree(w);
    SmallImmediatesAgree(w);
    ShiftTypeFields(RegDPrime(w), RegDPrime(w), UImm6(w), 1, 0);
  }

  lemma RunsLw(w: bv32, m: Machine)
    requires WellFormed(m)
    ensures RunAs(Memory(C_LW), w, m) == Ran(Effect(Memory(C_LW), w, m))
  {
    hide IType, EncodeSW, Rd, Rs1, Rs2, IImm, SImm, CRd, CRs2, CRdSmall, CRs2Small, RegD, RegS2, RegDPrime;
    hide RegS2Prime, LwUimm, LwspUimm, SwspUimm, ImmWord, ImmLwsp, ImmSwsp, Fits12, Sum, Reg, SetReg, LoadWord;
    hide StoreWord;
    RegistersAgree(w);
    WordImmediatesAgree(w);
    ITypeFields(RegS2Prime(w), RegDPrime(w), ImmWord(w), 3, 2);
    ITypeImmediate(RegS2Prime(w), RegDPrime(w), ImmWord(w), 3, 2);
  }

  lemma RunsSw(w: bv32, m: Machine)
    requires WellFormed(m)
    ensures RunAs(Memory(C_SW), w, m) == Ran(Effect(Memory(C_SW), w, m))
  {
    hide IType, EncodeSW, Rd, Rs1, Rs2, IImm, SImm, CRd, CRs2, CRdSmall, CRs2Small, RegD, RegS2, RegDPrime;
    hide RegS2Prime, LwUimm, LwspUimm, SwspUimm, ImmWord, ImmLwsp, ImmSwsp, Fits12, Sum, Reg, SetReg, LoadWord;
    hide StoreWord;
    RegistersAgree(w);
    WordImmediatesAgree(w);
    SWFields(RegDPrime(w), RegS2Prime(w), ImmWord(w));
    SWImmediate(RegDPrime(w), RegS2Prime(w), ImmWord(w));
  }

  lemma RunsLwsp(w: bv32, m: Machine)
    requires WellFormed(m)
    ensures RunAs(Memory(C_LWSP), w, m) == Ran(Effect(Memory(C_LWSP), w, m))
  {
    hide IType, EncodeSW, Rd, Rs1, Rs2, IImm, SImm, CRd, CRs2, CRdSmall, CRs2Small, RegD, RegS2, RegDPrime;
    hide RegS2Prime, LwUimm, LwspUimm, SwspUimm, ImmWord, ImmLwsp, ImmSwsp, Fits12, Sum, Reg, SetReg, LoadWord;
    hide StoreWord;
    RegistersAgree(w);
    WordImmediatesAgree(w);
    ITypeFields(RegD(w), 2, ImmLwsp(w), 3, 2);
    ITypeImmediate(RegD(w), 2, ImmLwsp(w), 3, 2);
  }

  lemma RunsSwsp(w: bv32, m: Machine)
    requires WellFormed(m)
    ensures RunAs(Memory(C_SWSP), w, m) == Ran(Effect(Memory(C_SWSP), w, m))
  {
    hide IType, EncodeSW, Rd, Rs1, Rs2, IImm, SImm, CRd, CRs2, CRdSmall, CRs2Small, RegD, RegS2, RegDPrime;
    hide RegS2Prime, LwUimm, LwspUimm, SwspUimm, ImmWord, ImmLwsp, ImmSwsp, Fits12, Sum, Reg, SetReg, LoadWord;
    hide StoreWord;
    RegistersAgree(w);
    WordImmediatesAgree(w);
    SWFields(2, RegS2(w), ImmSwsp(w));
    SWImmediate(2, RegS2(w), ImmSwsp(w));
  }

  lemma RunsJal(w: bv32, m: Machine)
    requires WellFormed(m)
    ensures RunAs(Control(C_JAL), w, m) == Ran(Effect(Control(C_JAL), w, m))
  {
    hide IType, BType, EncodeJAL, Rd, Rs1, Rs2, IImm, JImm, BImm, CRd, CRdSmall, RegD, RegDPrime, JalImm;
    hide BranchImm, OffsetJump, OffsetBranch, Fits12, Fits13, Fits21, Sum, EvenTarget, Reg;
    JumpOffsetAgrees(w);
    JALFields(1, OffsetJump(w));
    JALImmediate(1, OffsetJump(w));
  }

  lemma RunsJ(w: bv32, m: Machine)
    requires WellFormed(m)
    ensures RunAs(Control(C_J), w, m) == Ran(Effect(Control(C_J), w, m))
  {
    hide IType, BType, EncodeJAL, Rd, Rs1, Rs2, IImm, JImm, BImm, CRd, CRdSmall, RegD, RegDPrime, JalImm;
    hide BranchImm, OffsetJump, OffsetBranch, Fits12, Fits13, Fits21, Sum, EvenTarget, Reg;
    JumpOffsetAgrees(w);
    JALFields(0, OffsetJump(w));
    JALImmediate(0, OffsetJump(w));
  }

  lemma RunsBeqz(w: bv32, m: Machine)
    requires WellFormed(m)
    ensures RunAs(Control(C_BEQZ), w, m) == Ran(Effect(Control(C_BEQZ), w, m))
  {
    hide IType, BType, EncodeJAL, Rd, Rs1, Rs2, IImm, JImm, BImm, CRd, CRdSmall, RegD, RegDPrime, JalImm;
    hide BranchImm, OffsetJump, OffsetBranch, Fits12, Fits13, Fits21, Sum, EvenTarget, Reg;
    RegistersAgree(w);
    BranchOffsetAgrees(w);
    ZeroRegister(m, 0);
    BTypeFields(RegDPrime(w), 0, OffsetBranch(w), 0);
    BTypeImmediate(RegDPrime(w), 0, OffsetBranch(w), 0);
  }

  lemma RunsBnez(w: bv32, m: Machine)
    requires WellFormed(m)
    ensures RunAs(Control(C_BNEZ), w, m) == Ran(Effect(Control(C_BNEZ), w, m))
  {
    hide IType, BType, EncodeJAL, Rd, Rs1, Rs2, IImm, JImm, BImm, CRd, CRdSmall, RegD, RegDPrime, JalImm;
    hide BranchImm, OffsetJump, OffsetBranch, Fits12, Fits13, Fits21, Sum, EvenTarget, Reg;
    RegistersAgree(w);
    BranchOffsetAgrees(w);
    ZeroRegister(m, 0);
    BTypeFields(RegDPrime(w), 0, OffsetBranch(w), 1);
    BTypeImmediate(RegDPrime(w), 0, OffsetBranch(w), 1);
  }

  lemma RunsJr(w: bv32, m: Machine)
    requires WellFormed(m)
    ensures RunAs(Control(C_JR), w, m) == Ran(Effect(Control(C_JR), w, m))
  {
    hide IType, BType, EncodeJAL, Rd, Rs1, Rs2, IImm, JImm, BImm, CRd, CRdSmall, RegD, RegDPrime, JalImm;
    hide BranchImm, OffsetJump, OffsetBranch, Fits12, Fits13, Fits21, Sum, EvenTarget, Reg;
    RegistersAgree(w);
    ZeroRegister(m, Reg(m.regs, RegD(w)));
    ITypeFields(0, RegD(w), 0, 103, 0);
    ITypeImmediate(0, RegD(w), 0, 103, 0);
  }

  lemma RunsJalr(w: bv32, m: Machine)
    requires WellFormed(m)
    ensures RunAs(Control(C_JALR), w, m) == Ran(Effect(Control(C_JALR), w, m))
  {
    hide IType, BType, EncodeJAL, Rd, Rs1, Rs2, IImm, JImm, BImm, CRd, CRdSmall, RegD, RegDPrime, JalImm;
    hide BranchImm, OffsetJump, OffsetBranch, Fits12, Fits13, Fits21, Sum, EvenTarget, Reg;
    RegistersAgree(w);
    ZeroRegister(m, Reg(m.regs, RegD(w)));
    ITypeFields(1, RegD(w), 0, 103, 0);
    ITypeImmediate(1, RegD(w), 0, 103, 0);
  }

  lemma RunsEbreak(w: bv32, m: Machine)
    requires WellFormed(m)
    ensures RunAs(Control(C_EBREAK), w, m) == Ran(Effect(Control(C_EBREAK), w, m))
  {
    hide IType, BType, EncodeJAL, Rd, Rs1, Rs2, IImm, JImm, BImm, CRd, CRdSmall, RegD, RegDPrime, JalImm;
    hide BranchImm, OffsetJump, OffsetBranch, Fits12, Fits13, Fits21, Sum, EvenTarget, Reg;
  }

  // ---------------------------------------------------------------------
  // The theorem
  // ---------------------------------------------------------------------

  lemma RunsRegister(op: RegisterCOp, w: bv32, m: Machine)
    requires WellFormed(m)
    ensures RunAs(Register(op), w, m) == Ran(Effect(Register(op), w, m))
  {
    hide *;
    match op
    case C_NOP => RunsNop(w, m);
    case C_ADD => RunsAdd(w, m);
    case C_MV => RunsMv(w, m);
    case C_AND => RunsAnd(w, m);
    case C_OR => RunsOr(w, m);
    case C_XOR => RunsXor(w, m);
    case C_SUB => RunsSub(w, m);
  }

  /** What the decoder has established about the operands of a legal word. */
  ghost predicate LegalOperands(op: ImmediateCOp, w: bv32) {
    match op
    case C_ADDI4SPN => Imm4spn(w) != 0
    case C_ADDI16SP => Imm16sp(w) != 0
    case C_LUI => ImmUpper(w) != 0 && RegD(w) != 0 && RegD(w) != 2
    case C_SRLI => UImm6(w) < 32
    case C_SRAI => UImm6(w) < 32
    case C_SLLI => UImm6(w) < 32
    case _ => true
  }

  lemma RunsImmediate(op: ImmediateCOp, w: bv32, m: Machine)
    requires WellFormed(m) && LegalOperands(op, w)
    requires op == C_SLLI ==> 8 <= RegD(w) < 16
    ensures RunAs(Immediate(op), w, m) == Ran(Effect(Immediate(op), w, m))
  {
    hide RunAs, Effect, WellFormed, Imm4spn, Imm16sp, ImmUpper, RegD, UImm6;
    match op
    case C_ADDI4SPN => RunsAddi4spn(w, m);
    case C_ADDI => RunsAddi(w, m);
    case C_LI => RunsLi(w, m);
    case C_ADDI16SP => RunsAddi16sp(w, m);
    case C_LUI => RunsLui(w, m);
    case C_SRLI => RunsSrli(w, m);
    case C_SRAI => RunsSrai(w, m);
    case C_ANDI => RunsAndi(w, m);
    case C_SLLI => RunsSlli(w, m);
  }

  lemma RunsMemory(op: MemoryCOp, w: bv32, m: Machine)
    requires WellFormed(m)
    ensures RunAs(Memory(op), w, m) == Ran(Effect(Memory(op), w, m))
  {
    hide *;
    match op
    case C_LW => RunsLw(w, m);
    case C_SW => RunsSw(w, m);
    case C_LWSP => RunsLwsp(w, m);
    case C_SWSP => RunsSwsp(w, m);
  }

  lemma RunsControl(op: ControlCOp, w: bv32, m: Machine)
    requires WellFormed(m)
    ensures RunAs(Control(op), w, m) == Ran(Effect(Control(op), w, m))
  {
    hide *;
    match op
    case C_JAL => RunsJal(w, m);
    case C_J => RunsJ(w, m);
    case C_BEQZ => RunsBeqz(w, m);
    case C_BNEZ => RunsBnez(w, m);
    case C_EBREAK => RunsEbreak(w, m);
    case C_JR => RunsJr(w, m);
    case C_JALR => RunsJalr(w, m);
  }

  lemma LegalWordsDecode(w: bv32)
    requires MeaningOf(w).Legal?
    ensures DecodeCompressed(w) == Decoded(MeaningOf(w).op)
  {
    hide Op2, Meaning0, Meaning1, Meaning2, DecodeCompressed;
    if Op2(w) == 0 {
      Decodes0(w);
    } else if Op2(w) == 1 {
      Decodes1(w);
    } else {
      Decodes2(w);
    }
  }

  lemma LegalWordsHaveLegalOperands(w: bv32)
    requires MeaningOf(w).Legal? && MeaningOf(w).op.Immediate?
    ensures LegalOperands(MeaningOf(w).op.immediate, w)
  {
    hide Op2, F3, F2, F2Low, B12, RegD, RegS2, SImm6, UImm6, Imm4spn, Imm16sp, ImmUpper;
  }

  lemma StepIsRunAs(m: Machine, w: bv32, op: COp)
    requires DecodeCompressed(w) == Decoded(op)
    ensures StepCompressed(m, w) == RunAs(op, w, m)
  {
    hide DecodeCompressed, ExpandCompressed, Execute, Sum;
  }

  /** For every well-formed machine and every legal word, whatever stands in
      its upper half, one step has exactly the specified effect, except for a
      left shift of a register outside x8-x15. */
  lemma LegalWordsRunAsSpecified(w: bv32, m: Machine)
    requires WellFormed(m) && MeaningOf(w).Legal?
    requires MeaningOf(w).op == Immediate(C_SLLI) ==> 8 <= RegD(w) < 16
    ensures StepCompressed(m, w) == Ran(Effect(MeaningOf(w).op, w, m))
  {
    hide WellFormed, MeaningOf, RegD, StepCompressed, Effect, DecodeCompressed, RunAs, LegalOperands;
    var op := MeaningOf(w).op;
    LegalWordsDecode(w);
    StepIsRunAs(m, w, op);
    match op
    case Register(r) => RunsRegister(r, w, m);
    case Immediate(i) =>
      LegalWordsHaveLegalOperands(w);
      RunsImmediate(i, w, m);
    case Memory(t) => RunsMemory(t, w, m);
    case Control(t) => RunsControl(t, w, m);
    case C_Illegal => LegalIsNotBad(w);
    case C_Reserved => LegalIsNotBad(w);
  }

  lemma LegalIsNotBad(w: bv32)
    ensures MeaningOf(w) != Legal(C_Illegal) && MeaningOf(w) != Legal(C_Reserved)
  {
    hide Op2, F3, F2, F2Low, B12, RegD, RegS2, SImm6, UImm6, Imm4spn, Imm16sp, ImmUpper;
  }

  // ---------------------------------------------------------------------
  // Where the source departs from the specification
  // ---------------------------------------------------------------------

  /** The machine behind the instruction, nothing else changed. */
  function Skip(m: Machine): Machine { m.(pc := Sum(m.pc, 2)) }

  /** What the specification asks of one step. */
  function Specified(w: bv32, m: Machine): Machine {
    match MeaningOf(w)
    case Legal(op) => Effect(op, w, m)
    case _ => Skip(m)
  }

  /** The shift always acts on the three-bit register field. */
  lemma RunsSlliOnPrime(w: bv32, m: Machine)
    requires UImm6(w) < 32
    ensures RunAs(Immediate(C_SLLI), w, m)
      == Ran(SetReg(Skip(m), RegDPrime(w), Alu(ShiftLeft, Reg(m.regs, RegDPrime(w)), UImm6(w))))
  {
    hide ShiftType, Rd, Rs1, Shamt, CRdSmall, CUimm, CImm, RegD, RegDPrime, SImm6, UImm6, Fits12;
    hide Sum, Alu, Reg, SetReg;
    RegistersAgree(w);
    SmallImmediatesAgree(w);
    ShiftTypeFields(RegDPrime(w), RegDPrime(w), UImm6(w), 1, 0);
  }

  function Blank(a: bv32): bv8 { 0 }

  /** A machine in which only register r, holding 1, differs from zero. */
  function OnlyOne(r: nat): (m: Machine)
    requires 0 < r < 32
    ensures WellFormed(m) && m.regs[r] == 1
    ensures forall q: bv32 :: q as nat < 32 && q as nat != r ==> Reg(m.regs, q) == 0
  {
    Machine(seq(32, i => if i == r then 1 else 0), 0, Blank, Runnable)
  }

  lemma ShiftedOne(k: bv32)
    requires 0 < k < 32
    ensures Alu(ShiftLeft, 1, k) != 1 && Alu(ShiftLeft, 0, k) == 0
  {
  }

  lemma RegisterNumbers(w: bv32)
    ensures RegD(w) as nat < 32 && RegS2(w) as nat < 32 && 8 <= RegDPrime(w) as nat < 16
    ensures RegD(w) < 8 || RegD(w) >= 16 ==> RegD(w) as nat < 8 || RegD(w) as nat >= 16
    ensures RegS2(w) != 0 ==> RegS2(w) as nat != 0
    ensures RegD(w) != 0 ==> RegD(w) as nat != 0
  {
    hide RegD, RegS2, RegDPrime, CRd, CRs2, CRdSmall, CRs2Small, RegS2Prime;
    RegistersAgree(w);
    SmallNumbers(RegD(w));
    SmallNumbers(RegS2(w));
    SmallNumbers(RegDPrime(w));
    if RegD(w) >= 16 { HighNumbers(RegD(w)); }
  }

  lemma SmallNumbers(r: bv32)
    ensures r < 32 ==> r as nat < 32
    ensures 8 <= r < 16 ==> 8 <= r as nat < 16
    ensures r < 8 ==> r as nat < 8
    ensures r != 0 ==> r as nat != 0
  {
  }

  lemma HighNumbers(r: bv32)
    requires 16 <= r < 32
    ensures r as nat >= 16
  {
  }

  lemma SlliSpecified(w: bv32, m: Machine)
    requires MeaningOf(w) == Legal(Immediate(C_SLLI))
    ensures Specified(w, m) == SetReg(Skip(m), RegD(w), Alu(ShiftLeft, Reg(m.regs, RegD(w)), UImm6(w)))
  {
    hide MeaningOf, RegD, RegDPrime, UImm6, SImm6, ImmUpper, Imm16sp, Imm4spn, RegS2Prime, Sum, Alu, Reg, SetReg;
  }

  /** A left shift encoded for another register than x8-x15 changes the wrong
      register on some machine. */
  lemma SlliGoesWrong(w: bv32)
    requires MeaningOf(w) == Legal(Immediate(C_SLLI)) && !(8 <= RegD(w) < 16)
    ensures exists m :: WellFormed(m) && StepCompressed(m, w) != Ran(Specified(w, m))
  {
    hide WellFormed, MeaningOf, Specified, StepCompressed, RunAs, DecodeCompressed;
    hide RegD, RegDPrime, UImm6, LegalOperands, Sum, Alu;
    LegalWordsDecode(w);
    SlliOperands(w);
    RegisterNumbers(w);
    var r := RegDPrime(w) as nat;
    var m := OnlyOne(r);
    WellFormedHas32(m);
    StepIsRunAs(m, w, Immediate(C_SLLI));
    RunsSlliOnPrime(w, m);
    SlliSpecified(w, m);
    ShiftedOne(UImm6(w));
    assert Specified(w, m).regs[r] == 1;
  }

  lemma WellFormedHas32(m: Machine)
    requires WellFormed(m)
    ensures |m.regs| == 32 && m.regs[0] == 0
  {
  }

  lemma SlliOperands(w: bv32)
    requires MeaningOf(w) == Legal(Immediate(C_SLLI))
    ensures 0 < UImm6(w) < 32 && RegD(w) != 0
  {
    hide Op2, F3, F2, F2Low, B12, RegD, RegS2, SImm6, UImm6, Imm4spn, Imm16sp, ImmUpper;
  }

  /** Hints that the source executes without a trace: additions of zero, loads
      of zero into x0 and shifts by zero. */
  predicate HarmlessHint(w: bv32) {
    || (Op2(w) == 1 && F3(w) == 0 && RegD(w) != 0)
    || (Op2(w) == 1 && F3(w) == 2 && SImm6(w) == 0)
    || (Op2(w) == 1 && F3(w) == 4)
    || (Op2(w) == 2 && F3(w) == 0 && UImm6(w) == 0)
  }

  /** The operation each hint is taken for, and what its operands then are. */
  lemma HintsDecode(w: bv32)
    requires MeaningOf(w) == Hint
    ensures match DecodeCompressed(w)
      case Decoded(Immediate(C_ADDI)) => (RegD(w) == 0 <==> SImm6(w) != 0) && (HarmlessHint(w) <==> SImm6(w) == 0)
      case Decoded(Immediate(C_LI)) => RegD(w) == 0 && (HarmlessHint(w) <==> SImm6(w) == 0)
      case Decoded(Immediate(C_LUI)) => RegD(w) == 0 && !HarmlessHint(w)
      case Decoded(Immediate(C_SRLI)) => UImm6(w) == 0 && HarmlessHint(w)
      case Decoded(Immediate(C_SRAI)) => UImm6(w) == 0 && HarmlessHint(w)
      case Decoded(Immediate(C_SLLI)) => UImm6(w) < 32 && (HarmlessHint(w) <==> UImm6(w) == 0)
      case Decoded(Register(C_MV)) => RegD(w) == 0 && RegS2(w) != 0 && !HarmlessHint(w)
      case Decoded(Control(C_EBREAK)) => !HarmlessHint(w)
      case _ => false
  {
    hide Op2, F3, F2, F2Low, B12, RegD, RegS2, SImm6, UImm6, Imm16sp, ImmUpper, Imm4spn;
    hide Quadrant, COpcode, CF2High, CF2Low, CB12, CFormat, CRd, CRs2;
    SelectorsAgree(w);
    RegistersAgree(w);
    FormatsAgree(w);
  }

  /** Writing back what a register holds, and arithmetic with zero, change
      nothing. */
  lemma Unchanged(m: Machine, r: bv32)
    ensures SetReg(m, r, Reg(m.regs, r)) == m
  {
  }

  lemma NeutralZero(x: bv32)
    ensures Sum(x, 0) == x && Sum(0, x) == x
    ensures Alu(ShiftLeft, x, 0) == x && Alu(ShiftRight, x, 0) == x && Alu(ShiftRightSigned, x, 0) == x
  {
  }

  lemma AddiEffect(w: bv32, m: Machine)
    ensures Effect(Immediate(C_ADDI), w, m) == SetReg(Skip(m), RegD(w), Sum(Reg(m.regs, RegD(w)), SImm6(w)))
    ensures Effect(Immediate(C_LI), w, m) == SetReg(Skip(m), RegD(w), SImm6(w))
    ensures Effect(Register(C_MV), w, m) == SetReg(Skip(m), RegD(w), Reg(m.regs, RegS2(w)))
  {
    hide RegD, RegS2, RegDPrime, RegS2Prime, SImm6, UImm6, ImmUpper, Imm16sp, Imm4spn, Sum, Alu, Reg, SetReg;
  }

  lemma ShiftEffect(w: bv32, m: Machine)
    ensures Effect(Immediate(C_SRLI), w, m)
      == SetReg(Skip(m), RegDPrime(w), Alu(ShiftRight, Reg(m.regs, RegDPrime(w)), UImm6(w)))
    ensures Effect(Immediate(C_SRAI), w, m)
      == SetReg(Skip(m), RegDPrime(w), Alu(ShiftRightSigned, Reg(m.regs, RegDPrime(w)), UImm6(w)))
  {
    hide RegD, RegS2, RegDPrime, RegS2Prime, SImm6, UImm6, ImmUpper, Imm16sp, Imm4spn, Sum, Alu, Reg, SetReg;
  }

  lemma HarmlessHintRuns(w: bv32, m: Machine)
    requires WellFormed(m) && MeaningOf(w) == Hint && HarmlessHint(w)
    ensures StepCompressed(m, w) == Ran(Skip(m))
  {
    hide WellFormed, MeaningOf, HarmlessHint, DecodeCompressed, StepCompressed, RunAs, Effect;
    hide RegD, RegS2, RegDPrime, RegS2Prime, SImm6, UImm6, ImmUpper, Imm16sp, Imm4spn, Sum, Alu, Reg, SetReg;
    HintsDecode(w);
    var op := DecodeCompressed(w).op;
    StepIsRunAs(m, w, op);
    var x := Reg(m.regs, RegD(w));
    var y := Reg(m.regs, RegDPrime(w));
    NeutralZero(x);
    NeutralZero(y);
    ZeroRegister(Skip(m), 0) by { WellFormedSkips(m); }
    Unchanged(Skip(m), RegD(w));
    Unchanged(Skip(m), RegDPrime(w));
    AddiEffect(w, m);
    ShiftEffect(w, m);
    match op.immediate
    case C_ADDI => RunsAddi(w, m);
    case C_LI => RunsLi(w, m);
    case C_SRLI => RunsSrli(w, m);
    case C_SRAI => RunsSrai(w, m);
    case C_SLLI => RunsSlliOnPrime(w, m);
  }

  lemma WellFormedSkips(m: Machine)
    requires WellFormed(m)
    ensures WellFormed(Skip(m))
  {
  }

  /** Every other hint leaves a trace on some machine: x0 or a register takes a
      new value, the core halts, or an assertion fails. */
  lemma HarmfulHintGoesWrong(w: bv32)
    requires MeaningOf(w) == Hint && !HarmlessHint(w)
    ensures exists m :: WellFormed(m) && StepCompressed(m, w) != Ran(Skip(m))
  {
    hide MeaningOf, HarmlessHint, DecodeCompressed, StepCompressed, RunAs, Effect, ExpandCompressed;
    hide RegD, RegS2, RegDPrime, RegS2Prime, SImm6, UImm6, ImmUpper, Imm16sp, Imm4spn, Sum, Alu;
    HintsDecode(w);
    var op := DecodeCompressed(w).op;
    RegisterNumbers(w);
    var r := if op == Register(C_MV) then RegS2(w) as nat else RegDPrime(w) as nat;
    var m := OnlyOne(r);
    StepIsRunAs(m, w, op);
    NeutralZero(SImm6(w));
    AddiEffect(w, m);
    match op
    case Immediate(C_ADDI) => RunsAddi(w, m);
    case Immediate(C_LI) => RunsLi(w, m);
    case Immediate(C_LUI) => LuiIntoZeroAborts(w, m);
    case Immediate(C_SLLI) =>
      RunsSlliOnPrime(w, m);
      ShiftedOne(UImm6(w));
      assert StepCompressed(m, w).machine.regs[r] != 1;
    case Register(C_MV) => RunsMv(w, m);
    case Control(C_EBREAK) =>
      RunsEbreak(w, m);
      EbreakHalts(w, m);
  }

  lemma LuiIntoZeroAborts(w: bv32, m: Machine)
    requires RegD(w) == 0
    ensures RunAs(Immediate(C_LUI), w, m) == Faulted
  {
    hide CRd, RegD, CRdSmall, RegDPrime, CRs2, RegS2, CRs2Small, RegS2Prime, Execute, EncodeLUI, LuiNzimm;
    RegistersAgree(w);
  }

  lemma EbreakHalts(w: bv32, m: Machine)
    ensures Effect(Control(C_EBREAK), w, m) == Skip(m).(status := HitBreakpoint)
  {
    hide RegD, RegDPrime, OffsetJump, OffsetBranch, Sum, EvenTarget, Reg, SetReg;
  }

  /** When one step has the specified effect on every machine. */
  predicate Faithful(w: bv32) {
    match MeaningOf(w)
    case Legal(op) => op == Immediate(C_SLLI) ==> 8 <= RegD(w) < 16
    case Hint => HarmlessHint(w)
    case Illegal => false
  }

  /** Decoding, expansion and execution together preserve the meaning of a
      defined compressed word on all machines exactly when it is Faithful. */
  lemma ExpansionPreservesMeaning(w: bv32)
    requires MeaningOf(w) != Illegal
    ensures (forall m :: WellFormed(m) ==> StepCompressed(m, w) == Ran(Specified(w, m))) <==> Faithful(w)
  {
    hide WellFormed, MeaningOf, StepCompressed, Effect, RegD, HarmlessHint;
    if Faithful(w) {
      forall m | WellFormed(m)
        ensures StepCompressed(m, w) == Ran(Specified(w, m))
      {
        if MeaningOf(w) == Hint {
          HarmlessHintRuns(w, m);
        } else {
          LegalWordsRunAsSpecified(w, m);
        }
      }
    } else if MeaningOf(w) == Hint {
      HarmfulHintGoesWrong(w);
    } else {
      SlliGoesWrong(w);
    }
  }

  // ---------------------------------------------------------------------
  // Register x0, and encodings without a meaning
  // ---------------------------------------------------------------------

  lemma SetRegKeeps(m: Machine, r: bv32, v: bv32)
    requires WellFormed(m) && r != 0
    ensures WellFormed(SetReg(m, r, v))
  {
    SmallNumbers(r);
  }

  /** The operations that write the full register field never name x0. */
  predicate WritesRegD(op: COp) {
    match op
    case Register(r) => r == C_ADD || r == C_MV
    case Immediate(i) => i == C_ADDI || i == C_LI || i == C_LUI || i == C_SLLI
    case Memory(t) => t == C_LWSP
    case _ => false
  }

  lemma LegalDestination(w: bv32)
    requires MeaningOf(w).Legal? && WritesRegD(MeaningOf(w).op)
    ensures RegD(w) != 0
  {
    hide Op2, F3, F2, F2Low, B12, RegD, RegS2, SImm6, UImm6, Imm4spn, Imm16sp, ImmUpper;
  }

  lemma RegisterEffectKeeps(op: RegisterCOp, w: bv32, n: Machine)
    requires WellFormed(n) && (WritesRegD(Register(op)) ==> RegD(w) != 0)
    ensures WellFormed(RegisterEffect(op, w, n))
  {
    hide WellFormed, SetReg;
    hide RegD, RegS2, RegDPrime, RegS2Prime, SImm6, UImm6, ImmUpper, Imm16sp, Imm4spn, ImmWord, ImmLwsp, ImmSwsp;
    hide OffsetJump, OffsetBranch, Sum, Alu, EvenTarget, LoadWord, StoreWord, Reg;
    RegistersAgree(w) by { hide CRd, CRs2, CRdSmall, CRs2Small; }
    forall r: bv32, v: bv32 | r != 0 ensures WellFormed(SetReg(n, r, v)) { SetRegKeeps(n, r, v); }
  }

  lemma ImmediateEffectKeeps(op: ImmediateCOp, w: bv32, n: Machine)
    requires WellFormed(n) && (WritesRegD(Immediate(op)) ==> RegD(w) != 0)
    ensures WellFormed(ImmediateEffect(op, w, n))
  {
    hide WellFormed, SetReg;
    hide RegD, RegS2, RegDPrime, RegS2Prime, SImm6, UImm6, ImmUpper, Imm16sp, Imm4spn, ImmWord, ImmLwsp, ImmSwsp;
    hide OffsetJump, OffsetBranch, Sum, Alu, EvenTarget, LoadWord, StoreWord, Reg;
    RegistersAgree(w) by { hide CRd, CRs2, CRdSmall, CRs2Small; }
    forall r: bv32, v: bv32 | r != 0 ensures WellFormed(SetReg(n, r, v)) { SetRegKeeps(n, r, v); }
  }

  /** Only the registers matter for well-formedness. */
  lemma WellFormedIgnores(m: Machine, n: Machine)
    requires WellFormed(m) && m.regs == n.regs
    ensures WellFormed(n)
  {
  }

  lemma MemoryEffectKeeps(op: MemoryCOp, w: bv32, n: Machine)
    requires WellFormed(n) && (WritesRegD(Memory(op)) ==> RegD(w) != 0)
    ensures WellFormed(MemoryEffect(op, w, n))
  {
    hide WellFormed, SetReg;
    hide RegD, RegS2, RegDPrime, RegS2Prime, SImm6, UImm6, ImmUpper, Imm16sp, Imm4spn, ImmWord, ImmLwsp, ImmSwsp;
    hide OffsetJump, OffsetBranch, Sum, Alu, EvenTarget, LoadWord, StoreWord, Reg;
    RegistersAgree(w) by { hide CRd, CRs2, CRdSmall, CRs2Small; }
    forall r: bv32, v: bv32 | r != 0 ensures WellFormed(SetReg(n, r, v)) { SetRegKeeps(n, r, v); }
    WellFormedIgnores(n, n.(mem := MemoryEffect(op, w, n).mem));
  }

  lemma ControlEffectKeeps(op: ControlCOp, w: bv32, m: Machine)
    requires WellFormed(m)
    ensures WellFormed(ControlEffect(op, w, m, Skip(m)))
  {
    hide RegD, RegDPrime, OffsetJump, OffsetBranch, Sum, EvenTarget, Reg;
    SetRegKeeps(m, 1, Skip(m).pc);
  }

  /** The assertion at the head of every simulator step holds again after a
      faithful instruction: x0 is still zero. */
  lemma FaithfulStepsKeepZero(w: bv32, m: Machine)
    requires WellFormed(m) && MeaningOf(w) != Illegal && Faithful(w)
    ensures StepCompressed(m, w).Ran? && WellFormed(StepCompressed(m, w).machine)
  {
    hide WellFormed, MeaningOf, Faithful, StepCompressed, RegD, WritesRegD, Sum;
    hide RegisterEffect, ImmediateEffect, MemoryEffect, ControlEffect;
    ExpansionPreservesMeaning(w);
    WellFormedSkips(m);
    assert StepCompressed(m, w) == Ran(Specified(w, m));
    if MeaningOf(w).Legal? {
      var op := MeaningOf(w).op;
      if WritesRegD(op) { LegalDestination(w); }
      match op
      case Register(r) => RegisterEffectKeeps(r, w, Skip(m));
      case Immediate(i) => ImmediateEffectKeeps(i, w, Skip(m));
      case Memory(t) => MemoryEffectKeeps(t, w, Skip(m));
      case Control(t) => ControlEffectKeeps(t, w, m);
      case _ => LegalIsNotBad(w);
    }
  }

  /** Encodings the specification reserves but the source executes: a stack
      load into x0 and an indirect jump through x0. */
  predicate RunsReserved(w: bv32) {
    Op2(w) == 2 && RegD(w) == 0 && (F3(w) == 2 || (F3(w) == 4 && B12(w) == 0 && RegS2(w) == 0))
  }

  /** How the decoder treats an encoding without a meaning. */
  lemma IllegalWordsDecode(w: bv32)
    requires MeaningOf(w) == Illegal && Op2(w) != 3
    ensures match DecodeCompressed(w)
      case Unknown => !RunsReserved(w)
      case Decoded(C_Illegal) => !RunsReserved(w)
      case Decoded(C_Reserved) => !RunsReserved(w)
      case Decoded(Immediate(C_ADDI4SPN)) => Imm4spn(w) == 0 && !RunsReserved(w)
      case Decoded(Immediate(C_ADDI16SP)) => Imm16sp(w) == 0 && !RunsReserved(w)
      case Decoded(Immediate(C_LUI)) => ImmUpper(w) == 0 && !RunsReserved(w)
      case Decoded(Immediate(i)) => (i == C_SRLI || i == C_SRAI || i == C_SLLI) && UImm6(w) > 31 && !RunsReserved(w)
      case Decoded(Memory(C_LWSP)) => RunsReserved(w)
      case Decoded(Control(C_JR)) => RunsReserved(w)
      case _ => false
  {
    hide Op2, F3, F2, F2Low, B12, RegD, RegS2, SImm6, UImm6, Imm16sp, ImmUpper, Imm4spn;
    hide Quadrant, COpcode, CF2High, CF2Low, CB12, CFormat, CRd, CRs2;
    SelectorsAgree(w);
    RegistersAgree(w);
    FormatsAgree(w);
  }

  /** Of the encodings without a meaning, the simulator rejects all but the two
      reserved families it executes. */
  lemma IllegalWordsFault(w: bv32, m: Machine)
    requires MeaningOf(w) == Illegal && Op2(w) != 3
    ensures StepCompressed(m, w).Faulted? <==> !RunsReserved(w)
  {
    hide MeaningOf, RunsReserved, DecodeCompressed, Execute, Sum, Op2;
    hide CRd, CRdSmall, CRs2Small, CUimm, Addi4spnNzuimm, Addi16spNzimm, LuiNzimm, CImm, LwspUimm;
    hide UImm6, SImm6, Imm4spn, Imm16sp, ImmUpper, ImmLwsp, ImmSwsp, ImmWord, Fits12;
    hide IType, RType, ShiftType, EncodeLUI;
    IllegalWordsDecode(w);
    SmallImmediatesAgree(w);
    WordImmediatesAgree(w);
    StackImmediateAgrees(w);
    UpperImmediateAgrees(w);
  }
}
