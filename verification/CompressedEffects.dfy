/** What a step on a compressed word leaves in its register, as numbers and bits. */
module CompressedEffects {
  import opened Compressed
  import opened Iss
  import opened Rvc
  import opened WordArithmetic

  /** What the register holds as a number. */
  function Held(m: Machine, r: bv32): int { Number(Reg(m.regs, r)) }

  /** The machine after one step that has not failed. */
  function Stepped(m: Machine, h: bv32): Machine {
    var o := StepCompressed(m, h);
    if o.Ran? then o.machine else m
  }

  ghost predicate SumIn(m: Machine, t: Machine, rd: bv32, r: bv32, x: int) {
    Held(t, rd) == (Held(m, r) + x) % 0x1_0000_0000
  }

  /** Register rd of t has the conjunction of r's bits with those of y, and so on. */
  ghost predicate ConjunctionIn(m: Machine, t: Machine, rd: bv32, r: bv32, y: bv32) {
    forall i: nat :: Bit(Reg(t.regs, rd), i) <==> Bit(Reg(m.regs, r), i) && Bit(y, i)
  }

  ghost predicate DisjunctionIn(m: Machine, t: Machine, rd: bv32, r: bv32, y: bv32) {
    forall i: nat :: Bit(Reg(t.regs, rd), i) <==> Bit(Reg(m.regs, r), i) || Bit(y, i)
  }

  ghost predicate DifferenceIn(m: Machine, t: Machine, rd: bv32, r: bv32, y: bv32) {
    forall i: nat :: Bit(Reg(t.regs, rd), i) <==> Bit(Reg(m.regs, r), i) != Bit(y, i)
  }

  /** All registers but rd, and the memory, are as they were. */
  ghost predicate OnlyRegister(m: Machine, t: Machine, rd: bv32) {
    t.mem == m.mem && t.status == m.status && forall q: bv32 :: q < 32 && q != rd ==> Reg(t.regs, q) == Reg(m.regs, q)
  }

  lemma SetRegister(m: Machine, n: Machine, rd: bv32, v: bv32)
    requires |m.regs| == 32 && rd < 32 && n == m.(pc := n.pc)
    ensures Reg(SetReg(n, rd, v).regs, rd) == v && OnlyRegister(m, SetReg(n, rd, v), rd)
    ensures SetReg(n, rd, v).pc == n.pc
  {
    hide Reg, SetReg;
    RegistersKeep(n, rd, v, rd);
    forall q: bv32 | q < 32 && q != rd
      ensures Reg(SetReg(n, rd, v).regs, q) == Reg(m.regs, q)
    {
      RegistersKeep(n, rd, v, q);
    }
  }

  lemma AdditionLeaves(m: Machine, n: Machine, rd: bv32, r: bv32, y: bv32)
    requires |m.regs| == 32 && rd < 32 && n == m.(pc := n.pc)
    ensures var t := SetReg(n, rd, Sum(Reg(m.regs, r), y));
      SumIn(m, t, rd, r, Number(y)) && OnlyRegister(m, t, rd) && t.pc == n.pc
  {
    hide Sum, Number, OnlyRegister, SetReg, Reg;
    SumAdds(Reg(m.regs, r), y);
    SetRegister(m, n, rd, Sum(Reg(m.regs, r), y));
  }

  lemma ConjunctionLeaves(m: Machine, n: Machine, rd: bv32, r: bv32, y: bv32)
    requires |m.regs| == 32 && rd < 32 && n == m.(pc := n.pc)
    ensures var t := SetReg(n, rd, Alu(And, Reg(m.regs, r), y));
      ConjunctionIn(m, t, rd, r, y) && OnlyRegister(m, t, rd) && t.pc == n.pc
  {
    hide Alu, Bit, OnlyRegister, SetReg, Reg;
    LogicInBits(Reg(m.regs, r), y);
    SetRegister(m, n, rd, Alu(And, Reg(m.regs, r), y));
  }

  lemma LogicInBits(x: bv32, y: bv32)
    ensures forall i: nat :: Bit(Alu(And, x, y), i) <==> Bit(x, i) && Bit(y, i)
    ensures forall i: nat :: Bit(Alu(Or, x, y), i) <==> Bit(x, i) || Bit(y, i)
    ensures forall i: nat :: Bit(Alu(Xor, x, y), i) <==> Bit(x, i) != Bit(y, i)
  {
    hide Bit, Alu;
    forall i: nat
      ensures Bit(Alu(And, x, y), i) <==> Bit(x, i) && Bit(y, i)
      ensures Bit(Alu(Or, x, y), i) <==> Bit(x, i) || Bit(y, i)
      ensures Bit(Alu(Xor, x, y), i) <==> Bit(x, i) != Bit(y, i)
    {
      LogicIsBitwise(x, y, i);
    }
  }

  lemma TwoIsTwo()
    ensures Number(2) == 2
  {
    assert Half(2) == 1 && Half(1) == 0;
    assert Number(1) == 1;
  }

  /** Every legal word of the register-to-register kind: the pc moves on by two, one register
      takes the sum, copy, difference or combination of bits of its operands, and nothing
      else changes. */
  lemma RegisterWordsCompute(m: Machine, h: bv32, op: RegisterCOp)
    requires WellFormed(m) && MeaningOf(h) == Legal(Register(op))
    ensures StepCompressed(m, h).Ran?
    ensures Number(Stepped(m, h).pc) == (Number(m.pc) + 2) % 0x1_0000_0000
    ensures var t, rd, rs2, p, q := Stepped(m, h), RegD(h), RegS2(h), RegDPrime(h), RegS2Prime(h);
      && OnlyRegister(m, t, if op == C_ADD || op == C_MV then rd else if op == C_NOP then 0 else p)
      && (op == C_ADD ==> SumIn(m, t, rd, rd, Held(m, rs2)))
      && (op == C_MV ==> Held(t, rd) == Held(m, rs2))
      && (op == C_SUB ==> SumIn(m, t, p, p, -Held(m, q)))
      && (op == C_XOR ==> DifferenceIn(m, t, p, p, Reg(m.regs, q)))
      && (op == C_OR ==> DisjunctionIn(m, t, p, p, Reg(m.regs, q)))
      && (op == C_AND ==> ConjunctionIn(m, t, p, p, Reg(m.regs, q)))
      && (op == C_NOP ==> t == m.(pc := t.pc))
  {
    hide MeaningOf, StepCompressed, RegD, RegS2, RegDPrime, RegS2Prime, Number, Bit, Alu, Sum, Reg, SetReg;
    hide OnlyRegister;
    LegalWordsRunAsSpecified(h, m);
    RegistersAgree(h);
    TwoIsTwo();
    SumAdds(m.pc, 2);
    var n := m.(pc := Sum(m.pc, 2));
    var rd, rs2, p, q := RegD(h), RegS2(h), RegDPrime(h), RegS2Prime(h);
    var x, y := Reg(m.regs, p), Reg(m.regs, q);
    LogicInBits(x, y);
    match op
    case C_ADD => AdditionLeaves(m, n, rd, rd, Reg(m.regs, rs2));
    case C_MV => SetRegister(m, n, rd, Reg(m.regs, rs2));
    case C_SUB =>
      MinusSubtracts(x, y);
      SetRegister(m, n, p, Alu(Minus, x, y));
    case C_XOR => SetRegister(m, n, p, Alu(Xor, x, y));
    case C_OR => SetRegister(m, n, p, Alu(Or, x, y));
    case C_AND => ConjunctionLeaves(m, n, p, p, y);
    case C_NOP => assert OnlyRegister(m, n, 0) by { NothingChanges(m, n); }
  }

  lemma NothingChanges(m: Machine, n: Machine)
    requires n == m.(pc := n.pc)
    ensures OnlyRegister(m, n, 0)
  {
  }

  /** The register that an operation with an immediate writes. */
  function Destination(op: ImmediateCOp, h: bv32): bv32 {
    match op
    case C_ADDI4SPN => RegS2Prime(h)
    case C_ADDI16SP => 2
    case C_SRLI => RegDPrime(h)
    case C_SRAI => RegDPrime(h)
    case C_ANDI => RegDPrime(h)
    case _ => RegD(h)
  }

  /** Likewise those with an immediate operand. */
  lemma ImmediateWordsCompute(m: Machine, h: bv32, op: ImmediateCOp)
    requires WellFormed(m) && MeaningOf(h) == Legal(Immediate(op)) && !IsShift(op)
    ensures StepCompressed(m, h).Ran?
    ensures Number(Stepped(m, h).pc) == (Number(m.pc) + 2) % 0x1_0000_0000
    ensures var t, rd := Stepped(m, h), Destination(op, h);
      && OnlyRegister(m, t, rd)
      && (op == C_ADDI4SPN ==> SumIn(m, t, rd, 2, Number(Imm4spn(h))))
      && (op == C_ADDI ==> SumIn(m, t, rd, rd, Number(SImm6(h))))
      && (op == C_LI ==> Held(t, rd) == Number(SImm6(h)))
      && (op == C_ADDI16SP ==> SumIn(m, t, 2, 2, Number(Imm16sp(h))))
      && (op == C_LUI ==> Held(t, rd) == Number(ImmUpper(h)))
      && (op == C_ANDI ==> ConjunctionIn(m, t, rd, rd, SImm6(h)))
  {
    hide MeaningOf, StepCompressed, RegD, RegDPrime, RegS2Prime, Number, Bit, Alu, Sum, Reg, SetReg, OnlyRegister;
    hide Imm4spn, SImm6, Imm16sp, ImmUpper, UImm6, WellFormed;
    LegalWordsRunAsSpecified(h, m);
    DestinationIsRegister(op, h);
    TwoIsTwo();
    SumAdds(m.pc, 2);
    var n := m.(pc := Sum(m.pc, 2));
    var rd := Destination(op, h);
    ThirtyTwoRegisters(m);
    hide SumIn, ConjunctionIn;
    match op
    case C_ADDI4SPN => AdditionLeaves(m, n, rd, 2, Imm4spn(h));
    case C_ADDI => AdditionLeaves(m, n, rd, rd, SImm6(h));
    case C_LI => SetRegister(m, n, rd, SImm6(h));
    case C_ADDI16SP => AdditionLeaves(m, n, 2, 2, Imm16sp(h));
    case C_LUI => SetRegister(m, n, rd, ImmUpper(h));
    case C_ANDI => ConjunctionLeaves(m, n, rd, rd, SImm6(h));
  }

  predicate IsShift(op: ImmediateCOp) { op == C_SLLI || op == C_SRLI || op == C_SRAI }

  lemma DestinationIsRegister(op: ImmediateCOp, h: bv32)
    ensures Destination(op, h) < 32
  {
    hide RegD, RegDPrime, RegS2Prime;
    RegistersAgree(h);
  }

  lemma ThirtyTwoRegisters(m: Machine)
    requires WellFormed(m)
    ensures |m.regs| == 32
  {
  }

  /** The shifts multiply and divide, left shifts outside x8-x15 excepted. */
  lemma ShiftWordsCompute(m: Machine, h: bv32, op: ImmediateCOp)
    requires WellFormed(m) && MeaningOf(h) == Legal(Immediate(op)) && IsShift(op)
    requires op == C_SLLI ==> 8 <= RegD(h) < 16
    ensures StepCompressed(m, h).Ran? && UImm6(h) < 32
    ensures Number(Stepped(m, h).pc) == (Number(m.pc) + 2) % 0x1_0000_0000
    ensures var t, rd := Stepped(m, h), Destination(op, h);
      && OnlyRegister(m, t, rd)
      && (op == C_SLLI ==> Held(t, rd) == Held(m, rd) * Power(UImm6(h)) % 0x1_0000_0000)
      && (op == C_SRLI ==> Held(t, rd) == Held(m, rd) / Power(UImm6(h)))
      && (op == C_SRAI ==> Signed(Reg(t.regs, rd)) == Signed(Reg(m.regs, rd)) / Power(UImm6(h)))
  {
    hide MeaningOf, StepCompressed, RegD, RegDPrime, RegS2Prime, Number, Bit, Alu, Sum, Reg, SetReg, OnlyRegister;
    hide UImm6, Power, Signed, WellFormed;
    LegalWordsRunAsSpecified(h, m);
    DestinationIsRegister(op, h);
    LegalWordsHaveLegalOperands(h);
    TwoIsTwo();
    SumAdds(m.pc, 2);
    var n := m.(pc := Sum(m.pc, 2));
    var rd := Destination(op, h);
    ThirtyTwoRegisters(m);
    var x, k := Reg(m.regs, rd), UImm6(h);
    if op == C_SLLI {
      LeftShiftMultiplies(x, k);
      SetRegister(m, n, rd, Alu(ShiftLeft, x, k));
    } else if op == C_SRLI {
      RightShiftDivides(x, k);
      SetRegister(m, n, rd, Alu(ShiftRight, x, k));
    } else {
      SignedShiftDivides(x, k);
      SetRegister(m, n, rd, Alu(ShiftRightSigned, x, k));
    }
  }

  // ---------------------------------------------------------------------
  // Memory and control
  // ---------------------------------------------------------------------

  /** The four bytes from address a on, around the end of the address space if need be, are
      those of the word v, lowest first. */
  predicate WordAt(mem: Memory, a: bv32, v: bv32) {
    && mem(a) == ByteOf(v, 0) && mem(a + 1) == ByteOf(v, 1)
    && mem(a + 2) == ByteOf(v, 2) && mem(a + 3) == ByteOf(v, 3)
  }

  /** All other bytes are as they were. */
  ghost predicate OnlyWord(mem: Memory, after: Memory, a: bv32) {
    forall b: bv32 :: b != a && b != a + 1 && b != a + 2 && b != a + 3 ==> after(b) == mem(b)
  }

  lemma StoreLeaves(mem: Memory, a: bv32, v: bv32)
    ensures WordAt(StoreWord(mem, a, v), a, v) && OnlyWord(mem, StoreWord(mem, a, v), a)
  {
    hide ByteOf, StoreWord;
    forall b: bv32 | b != a && b != a + 1 && b != a + 2 && b != a + 3
      ensures StoreWord(mem, a, v)(b) == mem(b)
    {
      StoresFourBytes(mem, a, v, b);
    }
    StoresFourBytes(mem, a, v, a);
  }

  lemma LoadFinds(mem: Memory, a: bv32)
    ensures WordAt(mem, a, LoadWord(mem, a))
  {
    hide ByteOf, LoadWord;
    LoadsFourBytes(mem, a);
  }

  /** Base register and offset of the loads and stores. */
  function BaseRegister(op: MemoryCOp, h: bv32): bv32 {
    if op == C_LW || op == C_SW then RegDPrime(h) else 2
  }

  function Offset(op: MemoryCOp, h: bv32): bv32 {
    match op
    case C_LW => ImmWord(h)
    case C_SW => ImmWord(h)
    case C_LWSP => ImmLwsp(h)
    case C_SWSP => ImmSwsp(h)
  }

  /** Every legal load fills one register with the word at base plus offset, every legal store
      puts one there, and nothing else changes. */
  lemma MemoryWordsCompute(m: Machine, h: bv32, op: MemoryCOp) returns (a: bv32)
    requires WellFormed(m) && MeaningOf(h) == Legal(Memory(op))
    ensures StepCompressed(m, h).Ran?
    ensures Number(Stepped(m, h).pc) == (Number(m.pc) + 2) % 0x1_0000_0000
    ensures Number(a) == (Held(m, BaseRegister(op, h)) + Number(Offset(op, h))) % 0x1_0000_0000
    ensures var t := Stepped(m, h);
      && (op == C_LW ==> OnlyRegister(m, t, RegS2Prime(h)) && WordAt(m.mem, a, Reg(t.regs, RegS2Prime(h))))
      && (op == C_LWSP ==> OnlyRegister(m, t, RegD(h)) && WordAt(m.mem, a, Reg(t.regs, RegD(h))))
      && (op == C_SW ==> WordAt(t.mem, a, Reg(m.regs, RegS2Prime(h))))
      && (op == C_SWSP ==> WordAt(t.mem, a, Reg(m.regs, RegS2(h))))
      && (op == C_SW || op == C_SWSP ==> OnlyWord(m.mem, t.mem, a) && t.regs == m.regs && t.status == m.status)
  {
    hide MeaningOf, StepCompressed, RegD, RegS2, RegDPrime, RegS2Prime, Number, Sum, Reg, SetReg, WellFormed;
    hide ImmWord, ImmLwsp, ImmSwsp, LoadWord, StoreWord, WordAt, OnlyWord, OnlyRegister;
    LegalWordsRunAsSpecified(h, m);
    RegistersAgree(h);
    ThirtyTwoRegisters(m);
    TwoIsTwo();
    SumAdds(m.pc, 2);
    var n := m.(pc := Sum(m.pc, 2));
    var x, y := Reg(m.regs, BaseRegister(op, h)), Offset(op, h);
    a := Sum(x, y);
    SumAdds(x, y);
    LoadFinds(m.mem, a);
    match op
    case C_LW => SetRegister(m, n, RegS2Prime(h), LoadWord(m.mem, a));
    case C_LWSP => SetRegister(m, n, RegD(h), LoadWord(m.mem, a));
    case C_SW => StoreLeaves(m.mem, a, Reg(m.regs, RegS2Prime(h)));
    case C_SWSP => StoreLeaves(m.mem, a, Reg(m.regs, RegS2(h)));
  }

  lemma LinkLeaves(m: Machine, v: bv32, pc: bv32)
    requires |m.regs| == 32
    ensures var t := SetReg(m, 1, v).(pc := pc); Held(t, 1) == Number(v) && OnlyRegister(m, t, 1)
  {
    hide Reg, SetReg, Number;
    SetRegister(m, m, 1, v);
  }

  /** Every legal jump: where the pc goes, and the link in x1. */
  lemma JumpWordsCompute(m: Machine, h: bv32, op: ControlCOp)
    requires WellFormed(m) && MeaningOf(h) == Legal(Control(op))
    requires op == C_J || op == C_JAL || op == C_JR || op == C_JALR
    ensures StepCompressed(m, h).Ran?
    ensures var t := Stepped(m, h);
      && Number(t.pc) == (if op == C_J || op == C_JAL then (Number(m.pc) + Number(OffsetJump(h))) % 0x1_0000_0000
           else Held(m, RegD(h)) - Held(m, RegD(h)) % 2)
      && (op == C_J || op == C_JR ==> t == m.(pc := t.pc))
      && (op == C_JAL || op == C_JALR ==>
            Held(t, 1) == (Number(m.pc) + 2) % 0x1_0000_0000 && OnlyRegister(m, t, 1))
  {
    hide MeaningOf, StepCompressed, RegD, Number, Sum, Reg, SetReg, WellFormed, OnlyRegister, OffsetJump, EvenTarget;
    LegalWordsRunAsSpecified(h, m);
    ThirtyTwoRegisters(m);
    TwoIsTwo();
    SumAdds(m.pc, 2);
    SumAdds(m.pc, OffsetJump(h));
    TargetsAreEven(Reg(m.regs, RegD(h)));
    LinkLeaves(m, Sum(m.pc, 2), Stepped(m, h).pc);
  }

  /** Every legal branch, and the breakpoint: nothing but the pc, or the status, changes. */
  lemma BranchWordsCompute(m: Machine, h: bv32, op: ControlCOp)
    requires WellFormed(m) && MeaningOf(h) == Legal(Control(op))
    requires op == C_BEQZ || op == C_BNEZ || op == C_EBREAK
    ensures StepCompressed(m, h).Ran?
    ensures var t := Stepped(m, h);
      var taken := op != C_EBREAK && (op == C_BEQZ <==> Held(m, RegDPrime(h)) == 0);
      && t == m.(pc := t.pc, status := if op == C_EBREAK then HitBreakpoint else m.status)
      && Number(t.pc) == (Number(m.pc) + if taken then Number(OffsetBranch(h)) else 2) % 0x1_0000_0000
  {
    hide MeaningOf, StepCompressed, RegDPrime, Number, Sum, Reg, WellFormed, OffsetBranch;
    LegalWordsRunAsSpecified(h, m);
    TwoIsTwo();
    SumAdds(m.pc, 2);
    SumAdds(m.pc, OffsetBranch(h));
    OnlyZeroIsNothing(Reg(m.regs, RegDPrime(h)));
  }
}
