/** The instruction-set simulator, as far as expanded instructions reach. */
module Iss {
  import opened Instr
  import opened Compressed

  datatype Status = Runnable | HitBreakpoint

  /** A byte at every address. */
  type Memory = bv32 -> bv8

  /** The registers, the program counter, the memory and whether the core goes on. */
  datatype Machine = Machine(regs: seq<bv32>, pc: bv32, mem: Memory, status: Status)

  ghost predicate WellFormed(m: Machine) {
    |m.regs| == 32 && m.regs[0] == 0
  }

  function Reg(regs: seq<bv32>, r: bv32): bv32 {
    if r as nat < |regs| then regs[r as nat] else 0
  }

  function SetReg(m: Machine, r: bv32, v: bv32): Machine {
    if r as nat < |m.regs| then m.(regs := m.regs[r as nat := v]) else m
  }

  function LoadWord(mem: Memory, a: bv32): bv32 {
    (mem(a) as bv32) | ((mem(a + 1) as bv32) << 8) | ((mem(a + 2) as bv32) << 16) | ((mem(a + 3) as bv32) << 24)
  }

  /** What stands at b once the word v has been stored at a. */
  function ByteAfter(mem: Memory, a: bv32, v: bv32, b: bv32): bv8 {
    if b == a then (v & 0xff) as bv8
    else if b == a + 1 then ((v >> 8) & 0xff) as bv8
    else if b == a + 2 then ((v >> 16) & 0xff) as bv8
    else if b == a + 3 then ((v >> 24) & 0xff) as bv8
    else mem(b)
  }

  function StoreWord(mem: Memory, a: bv32, v: bv32): Memory {
    b => ByteAfter(mem, a, v, b)
  }

  /** The 32-bit wrap-around sum that forms values, addresses and targets. */
  function Sum(x: bv32, y: bv32): bv32 { x + y }

  datatype AluOp = Minus | Xor | Or | And | ShiftLeft | ShiftRight | ShiftRightSigned

  /** The remaining arithmetic of the simulator. */
  function Alu(op: AluOp, x: bv32, y: bv32): bv32 {
    match op
    case Minus => x - y
    case Xor => x ^ y
    case Or => x | y
    case And => x & y
    case ShiftLeft => x << (y & 31)
    case ShiftRight => x >> (y & 31)
    case ShiftRightSigned => Asr(x, y & 31)
  }

  function EvenTarget(x: bv32): bv32 { x & 0xffff_fffe }

  /** The execution of a decoded word. pc already points behind the
      instruction; lastPc is its own address. */
  function Execute(m: Machine, op: Op, w: bv32, lastPc: bv32): Machine {
    match op
    case OnRegisters(r) => SetReg(m, Rd(w), RegisterValue(r, Reg(m.regs, Rs1(w)), Reg(m.regs, Rs2(w))))
    case WithImmediate(i) => SetReg(m, Rd(w), ImmediateValue(i, Reg(m.regs, Rs1(w)), w))
    case OnMemory(LW) => SetReg(m, Rd(w), LoadWord(m.mem, Sum(Reg(m.regs, Rs1(w)), IImm(w))))
    case OnMemory(SW) => m.(mem := StoreWord(m.mem, Sum(Reg(m.regs, Rs1(w)), SImm(w)), Reg(m.regs, Rs2(w))))
    case Transfer(t) => ExecuteControl(m, t, w, lastPc)
  }

  function RegisterValue(op: RegisterOp, x: bv32, y: bv32): bv32 {
    match op
    case ADD => Sum(x, y)
    case SUB => Alu(Minus, x, y)
    case XOR => Alu(Xor, x, y)
    case OR => Alu(Or, x, y)
    case AND => Alu(And, x, y)
  }

  function ImmediateValue(op: ImmediateOp, x: bv32, w: bv32): bv32 {
    match op
    case ADDI => Sum(x, IImm(w))
    case ANDI => Alu(And, x, IImm(w))
    case SLLI => Alu(ShiftLeft, x, Shamt(w))
    case SRLI => Alu(ShiftRight, x, Shamt(w))
    case SRAI => Alu(ShiftRightSigned, x, Shamt(w))
    case LUI => UImm(w)
  }

  function ExecuteControl(m: Machine, op: ControlOp, w: bv32, lastPc: bv32): Machine {
    match op
    case JAL => (if Rd(w) != 0 then SetReg(m, Rd(w), m.pc) else m).(pc := Sum(lastPc, JImm(w)))
    case JALR =>
      var target := EvenTarget(Sum(Reg(m.regs, Rs1(w)), IImm(w)));
      (if Rd(w) != 0 then SetReg(m, Rd(w), m.pc) else m).(pc := target)
    case BEQ => if Reg(m.regs, Rs1(w)) == Reg(m.regs, Rs2(w)) then m.(pc := Sum(lastPc, BImm(w))) else m
    case BNE => if Reg(m.regs, Rs1(w)) != Reg(m.regs, Rs2(w)) then m.(pc := Sum(lastPc, BImm(w))) else m
    case EBREAK => m.(status := HitBreakpoint)
  }

  /** Faulted: the simulator throws or one of its assertions fails. */
  datatype Outcome = Ran(machine: Machine) | Faulted

  /** One step of the simulator on a compressed instruction. */
  function StepCompressed(m: Machine, w: bv32): Outcome {
    var e := DecodeAndExpand(w);
    if e.Expanded? then Ran(Execute(m.(pc := Sum(m.pc, 2)), e.op, e.word, m.pc)) else Faulted
  }

  /** The simulator object. */
  class Core {
    const regs: array<bv32>
    var pc: bv32
    var lastPc: bv32
    var mem: Memory
    var status: Status

    function View(): Machine
      reads this, regs
    {
      Machine(regs[..], pc, mem, status)
    }

    constructor (m: Machine)
      ensures View() == m && fresh(regs)
    {
      regs := new bv32[|m.regs|](i requires 0 <= i < |m.regs| => m.regs[i]);
      pc, lastPc, mem, status := m.pc, 0, m.mem, m.status;
    }

    function Read(r: bv32): (v: bv32)
      reads regs
      ensures v == Reg(regs[..], r)
    {
      if r as nat < regs.Length then regs[r as nat] else 0
    }

    method Write(r: bv32, v: bv32)
      modifies regs
      ensures View() == SetReg(old(View()), r, v)
    {
      if r as nat < regs.Length {
        regs[r as nat] := v;
      }
    }

    method StepRegister(op: RegisterOp, w: bv32)
      modifies regs
      ensures View() == Execute(old(View()), OnRegisters(op), w, lastPc)
    {
      hide Reg, SetReg, Rd, Rs1, Rs2, Shamt, IImm, SImm, UImm, JImm, BImm, Sum, Alu, EvenTarget, LoadWord, StoreWord;
      var x, y := Read(Rs1(w)), Read(Rs2(w));
      var value: bv32;
      match op {
        case ADD => value := Sum(x, y);
        case SUB => value := Alu(Minus, x, y);
        case XOR => value := Alu(Xor, x, y);
        case OR => value := Alu(Or, x, y);
        case AND => value := Alu(And, x, y);
      }
      Write(Rd(w), value);
    }

    method StepImmediate(op: ImmediateOp, w: bv32)
      modifies regs
      ensures View() == Execute(old(View()), WithImmediate(op), w, lastPc)
    {
      hide Reg, SetReg, Rd, Rs1, Rs2, Shamt, IImm, SImm, UImm, JImm, BImm, Sum, Alu, EvenTarget, LoadWord, StoreWord;
      var x := Read(Rs1(w));
      var value: bv32;
      match op {
        case ADDI => value := Sum(x, IImm(w));
        case ANDI => value := Alu(And, x, IImm(w));
        case SLLI => value := Alu(ShiftLeft, x, Shamt(w));
        case SRLI => value := Alu(ShiftRight, x, Shamt(w));
        case SRAI => value := Alu(ShiftRightSigned, x, Shamt(w));
        case LUI => value := UImm(w);
      }
      Write(Rd(w), value);
    }

    method StepMemory(op: MemoryOp, w: bv32)
      modifies this`mem, regs
      ensures View() == Execute(old(View()), OnMemory(op), w, lastPc)
    {
      hide Reg, SetReg, Rd, Rs1, Rs2, Shamt, IImm, SImm, UImm, JImm, BImm, Sum, Alu, EvenTarget, LoadWord, StoreWord;
      match op
      case LW => Write(Rd(w), LoadWord(mem, Sum(Read(Rs1(w)), IImm(w))));
      case SW => mem := StoreWord(mem, Sum(Read(Rs1(w)), SImm(w)), Read(Rs2(w)));
    }

    method StepControl(op: ControlOp, w: bv32)
      modifies this`pc, this`status, regs
      ensures View() == Execute(old(View()), Transfer(op), w, lastPc)
    {
      hide Reg, Rd, Rs1, Rs2, Shamt, IImm, SImm, UImm, JImm, BImm, Sum, Alu, EvenTarget, LoadWord, StoreWord;
      match op
      case JAL =>
        if Rd(w) != 0 {
          Write(Rd(w), pc);
        }
        pc := Sum(lastPc, JImm(w));
      case JALR =>
        var link := pc;
        pc := EvenTarget(Sum(Read(Rs1(w)), IImm(w)));
        if Rd(w) != 0 {
          Write(Rd(w), link);
        }
      case BEQ =>
        if Read(Rs1(w)) == Read(Rs2(w)) {
          pc := Sum(lastPc, BImm(w));
        }
      case BNE =>
        if Read(Rs1(w)) != Read(Rs2(w)) {
          pc := Sum(lastPc, BImm(w));
        }
      case EBREAK =>
        status := HitBreakpoint;
    }

    /** run_step and exec_step on a fetched compressed word; ok is false where
        the source would throw or fail an assertion, its first one that x0 is zero. */
    method RunStep(w: bv32) returns (ok: bool)
      modifies this, regs
      ensures ok <==> WellFormed(old(View())) && StepCompressed(old(View()), w).Ran?
      ensures ok ==> View() == StepCompressed(old(View()), w).machine
    {
      hide Execute, DecodeAndExpand, Sum;
      if regs.Length != 32 || regs[0] != 0 {
        return false;
      }
      lastPc := pc;
      var e := DecodeAndExpand(w);
      pc := Sum(pc, 2);
      if !e.Expanded? {
        return false;
      }
      match e.op {
        case OnRegisters(r) => StepRegister(r, e.word);
        case WithImmediate(i) => StepImmediate(i, e.word);
        case OnMemory(m) => StepMemory(m, e.word);
        case Transfer(t) => StepControl(t, e.word);
      }
      ok := true;
    }
  }
}
