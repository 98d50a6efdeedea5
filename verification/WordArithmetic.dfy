/** What the simulator's 32-bit operations compute, in numbers, bits and bytes. */
module WordArithmetic {
  import opened Instr
  import opened Iss
  import opened NumberTheory

  const MODULUS: nat := 0x1_0000_0000

  /** The number a word stands for: its low bit and twice the rest. */
  function Number(x: bv32): nat {
    if x == 0 then 0 else LowBit(x) + 2 * Number(Half(x))
  }

  function LowBit(x: bv32): nat { if x & 1 == 1 then 1 else 0 }

  function Half(x: bv32): (h: bv32)
    ensures x != 0 ==> h < x
  {
    x >> 1
  }

  function Successor(x: bv32): bv32 { x + 1 }

  const ALL_ONES: bv32 := 0xffff_ffff

  lemma NumberSplits(x: bv32)
    ensures Number(x) == LowBit(x) + 2 * Number(Half(x))
  {
    assert x == 0 ==> LowBit(x) == 0 && Half(x) == 0;
  }

  lemma SuccessorBits(x: bv32)
    ensures LowBit(x) == 0 ==> Half(Successor(x)) == Half(x) && LowBit(Successor(x)) == 1
    ensures LowBit(x) == 1 ==> Half(x) < x && LowBit(Successor(x)) == 0
    ensures LowBit(x) == 1 && x != ALL_ONES ==> Half(Successor(x)) == Successor(Half(x))
    ensures Half(x) != ALL_ONES
  {
  }

  lemma {:induction false} CountingUp(x: bv32)
    requires x != ALL_ONES
    ensures Number(Successor(x)) == Number(x) + 1
  {
    hide LowBit, Half, Successor, Number;
    SuccessorBits(x);
    NumberSplits(x);
    NumberSplits(Successor(x));
    assert LowBit(x) == 0 || LowBit(x) == 1 by { BitIsBit(x); }
    if LowBit(x) == 1 { CountingUp(Half(x)); }
  }

  lemma BitIsBit(x: bv32)
    ensures LowBit(x) <= 1
  {
  }

  function Nibble(x: bv32): bv32 { x & 15 }

  function WithoutNibble(x: bv32): bv32 { x >> 4 }

  lemma NibbleBits(x: bv32)
    ensures Half(Half(Half(Half(x)))) == WithoutNibble(x) && Half(Half(Half(Half(Nibble(x))))) == 0
    ensures LowBit(Nibble(x)) == LowBit(x) && LowBit(Half(Nibble(x))) == LowBit(Half(x))
    ensures LowBit(Half(Half(Nibble(x)))) == LowBit(Half(Half(x)))
    ensures LowBit(Half(Half(Half(Nibble(x))))) == LowBit(Half(Half(Half(x))))
  {
  }

  lemma FourBits(x: bv32)
    ensures Number(x) == LowBit(x) + 2 * LowBit(Half(x)) + 4 * LowBit(Half(Half(x)))
      + 8 * LowBit(Half(Half(Half(x)))) + 16 * Number(Half(Half(Half(Half(x)))))
  {
    hide Half, LowBit, Number;
    NumberSplits(x);
    NumberSplits(Half(x));
    NumberSplits(Half(Half(x)));
    NumberSplits(Half(Half(Half(x))));
  }

  lemma NibbleOff(x: bv32)
    ensures Number(x) == Number(Nibble(x)) + 16 * Number(WithoutNibble(x))
  {
    hide Half, LowBit, Nibble, WithoutNibble, Number;
    NibbleBits(x);
    FourBits(x);
    FourBits(Nibble(x));
    assert Number(0) == 0 by { NumberOfZero(); }
  }

  lemma NumberOfZero()
    ensures Number(0) == 0
  {
  }

  lemma FifteenIsFifteen()
    ensures Number(15) == 15
  {
    assert Half(1) == 0 && Half(3) == 1 && Half(7) == 3 && Half(15) == 7;
    assert Number(1) == 1 && Number(3) == 3 && Number(7) == 7;
  }

  lemma NumberOfAllOnes()
    ensures Number(ALL_ONES) == MODULUS - 1
  {
    hide Number;
    FifteenIsFifteen();
    NibbleOff(0xff);
    NibbleOff(0xfff);
    NibbleOff(0xffff);
    NibbleOff(0xf_ffff);
    NibbleOff(0xff_ffff);
    NibbleOff(0xfff_ffff);
    NibbleOff(ALL_ONES);
  }

  lemma RoomAbove(x: bv32)
    requires x != ALL_ONES
    ensures ALL_ONES - Successor(x) < ALL_ONES - x
  {
  }

  lemma {:induction false} RangeOfNumbers(x: bv32)
    ensures Number(x) < MODULUS && (Number(x) == MODULUS - 1 <==> x == ALL_ONES)
    decreases ALL_ONES - x
  {
    hide Number, Successor;
    if x == ALL_ONES {
      NumberOfAllOnes();
    } else {
      RoomAbove(x);
      CountingUp(x);
      RangeOfNumbers(Successor(x));
    }
  }

  function Predecessor(x: bv32): bv32 { x - 1 }

  lemma OneBack(x: bv32)
    requires x != 0
    ensures Successor(Predecessor(x)) == x && Predecessor(x) < x && Predecessor(x) != ALL_ONES
  {
  }

  lemma OnlyZeroIsNothing(x: bv32)
    ensures Number(x) == 0 <==> x == 0
  {
    hide Successor, Predecessor, Half, LowBit;
    if x != 0 {
      OneBack(x);
      CountingUp(Predecessor(x));
    }
  }

  /** Different words stand for different numbers. */
  lemma {:induction false} NumbersDiffer(x: bv32, y: bv32)
    requires Number(x) == Number(y)
    ensures x == y
    decreases Number(x), x
  {
    hide LowBit, Half, Number;
    NumberSplits(x);
    NumberSplits(y);
    BitIsBit(x);
    BitIsBit(y);
    OnlyZeroIsNothing(x);
    OnlyZeroIsNothing(y);
    if x != 0 {
      HalvesAreLess(x);
      NumbersDiffer(Half(x), Half(y));
      SameHalves(x, y);
    }
  }

  lemma HalvesAreLess(x: bv32)
    requires x != 0
    ensures Half(x) < x
  {
  }

  lemma SameHalves(x: bv32, y: bv32)
    requires Half(x) == Half(y) && LowBit(x) == LowBit(y)
    ensures x == y
  {
  }

  // ---------------------------------------------------------------------
  // Sums and differences
  // ---------------------------------------------------------------------

  lemma StepOfSum(x: bv32, y: bv32)
    ensures Sum(x, Successor(y)) == Successor(Sum(x, y)) && Sum(x, 0) == x
    ensures Successor(ALL_ONES) == 0
  {
  }

  lemma WrapOnce(a: nat)
    ensures (a + 1) % MODULUS == if a % MODULUS == MODULUS - 1 then 0 else a % MODULUS + 1
  {
  }

  /** Addition modulo 2^32. */
  lemma {:induction false} SumAdds(x: bv32, y: bv32)
    ensures Number(Sum(x, y)) == (Number(x) + Number(y)) % MODULUS
    decreases y
  {
    hide Sum, Successor, Predecessor, Number;
    OnlyZeroIsNothing(y);
    if y == 0 {
      StepOfSum(x, 0);
      RangeOfNumbers(x);
    } else {
      var z := Predecessor(y);
      OneBack(y);
      SumAdds(x, z);
      StepOfSum(x, z);
      CountingUp(z);
      WrapOnce(Number(x) + Number(z));
      RangeOfNumbers(Sum(x, z));
      OnlyZeroIsNothing(Sum(x, y));
      if Sum(x, z) != ALL_ONES { CountingUp(Sum(x, z)); }
    }
  }

  function Difference(x: bv32, y: bv32): bv32 { x - y }

  lemma StepOfDifference(x: bv32, y: bv32)
    ensures Difference(x, Successor(y)) == Predecessor(Difference(x, y)) && Difference(x, 0) == x
    ensures Predecessor(0) == ALL_ONES
  {
  }

  lemma UnwrapOnce(a: int)
    ensures (a - 1) % MODULUS == if a % MODULUS == 0 then MODULUS - 1 else a % MODULUS - 1
  {
  }

  lemma {:induction false} DifferenceSubtracts(x: bv32, y: bv32)
    ensures Number(Difference(x, y)) == (Number(x) - Number(y)) % MODULUS
    decreases y
  {
    hide Difference, Successor, Predecessor, Number;
    OnlyZeroIsNothing(y);
    StepOfDifference(x, 0);
    RangeOfNumbers(x);
    if y != 0 {
      var z := Predecessor(y);
      OneBack(y);
      DifferenceSubtracts(x, z);
      StepOfDifference(x, z);
      CountingUp(z);
      UnwrapOnce(Number(x) - Number(z));
      var d := Difference(x, z);
      OnlyZeroIsNothing(d);
      RangeOfNumbers(ALL_ONES);
      if d != 0 {
        OneBack(d);
        CountingUp(Predecessor(d));
      }
    }
  }

  /** Subtraction of the second from the first, modulo 2^32. */
  lemma MinusSubtracts(x: bv32, y: bv32)
    ensures Number(Alu(Minus, x, y)) == (Number(x) - Number(y)) % MODULUS
  {
    hide Number;
    DifferenceSubtracts(x, y);
  }

  // ---------------------------------------------------------------------
  // Bit by bit
  // ---------------------------------------------------------------------

  /** Bit i, counted from the low end. */
  predicate Bit(x: bv32, i: nat)
    decreases i
  {
    if i == 0 then LowBit(x) == 1 else Bit(Half(x), i - 1)
  }

  function Both(x: bv32, y: bv32): bv32 { x & y }
  function Either(x: bv32, y: bv32): bv32 { x | y }
  function Differing(x: bv32, y: bv32): bv32 { x ^ y }

  lemma BothStep(x: bv32, y: bv32)
    ensures LowBit(Both(x, y)) == 1 <==> LowBit(x) == 1 && LowBit(y) == 1
    ensures Half(Both(x, y)) == Both(Half(x), Half(y))
  {
  }

  lemma EitherStep(x: bv32, y: bv32)
    ensures LowBit(Either(x, y)) == 1 <==> LowBit(x) == 1 || LowBit(y) == 1
    ensures Half(Either(x, y)) == Either(Half(x), Half(y))
  {
  }

  lemma DifferingStep(x: bv32, y: bv32)
    ensures LowBit(Differing(x, y)) == 1 <==> (LowBit(x) == 1) != (LowBit(y) == 1)
    ensures Half(Differing(x, y)) == Differing(Half(x), Half(y))
  {
  }

  lemma {:induction false} BitByBit(x: bv32, y: bv32, i: nat)
    ensures Bit(Both(x, y), i) <==> Bit(x, i) && Bit(y, i)
    ensures Bit(Either(x, y), i) <==> Bit(x, i) || Bit(y, i)
    ensures Bit(Differing(x, y), i) <==> Bit(x, i) != Bit(y, i)
    decreases i
  {
    hide Both, Either, Differing, LowBit, Half;
    BothStep(x, y);
    EitherStep(x, y);
    DifferingStep(x, y);
    if i > 0 { BitByBit(Half(x), Half(y), i - 1); }
  }

  /** Conjunction, disjunction and exclusive disjunction of every bit. */
  lemma LogicIsBitwise(x: bv32, y: bv32, i: nat)
    ensures Bit(Alu(And, x, y), i) <==> Bit(x, i) && Bit(y, i)
    ensures Bit(Alu(Or, x, y), i) <==> Bit(x, i) || Bit(y, i)
    ensures Bit(Alu(Xor, x, y), i) <==> Bit(x, i) != Bit(y, i)
  {
    hide Bit, Alu, Both, Either, Differing;
    AndIsBoth(x, y);
    OrIsEither(x, y);
    XorIsDiffering(x, y);
    BitByBit(x, y, i);
  }

  lemma AndIsBoth(x: bv32, y: bv32)
    ensures Alu(And, x, y) == Both(x, y)
  {
  }

  lemma OrIsEither(x: bv32, y: bv32)
    ensures Alu(Or, x, y) == Either(x, y)
  {
  }

  lemma XorIsDiffering(x: bv32, y: bv32)
    ensures Alu(Xor, x, y) == Differing(x, y)
  {
  }

  // ---------------------------------------------------------------------
  // Shifts
  // ---------------------------------------------------------------------

  /** 2^k for a shift distance. */
  function Power(k: bv32): (r: nat)
    ensures r >= 1
    decreases k
  {
    if k == 0 then 1 else 2 * Power(Predecessor(k))
  }

  function ShiftedLeft(x: bv32, k: bv32): bv32 { x << (k & 31) }

  function ShiftedRight(x: bv32, k: bv32): bv32 { x >> (k & 31) }

  lemma NoShift(x: bv32)
    ensures ShiftedLeft(x, 0) == x && ShiftedRight(x, 0) == x
  {
  }

  lemma OneLess(k: bv32)
    requires 0 < k < 32
    ensures Predecessor(k) < k && Predecessor(k) < 32
  {
  }

  lemma LeftShiftStep(x: bv32, k: bv32)
    requires 0 < k < 32
    ensures ShiftedLeft(x, k) == Sum(ShiftedLeft(x, Predecessor(k)), ShiftedLeft(x, Predecessor(k)))
  {
  }

  lemma RightShiftStep(x: bv32, k: bv32)
    requires 0 < k < 32
    ensures ShiftedRight(x, k) == Half(ShiftedRight(x, Predecessor(k)))
  {
  }

  lemma DoubleModulo(a: nat, b: nat)
    requires b == a % MODULUS
    ensures (b + b) % MODULUS == (a + a) % MODULUS
  {
    var q := a / MODULUS;
    assert a == MODULUS * q + b;
    assert a + a == MODULUS * (2 * q) + (b + b);
  }

  lemma {:induction false} ShiftedLeftNumber(x: bv32, k: bv32)
    requires k < 32
    ensures Number(ShiftedLeft(x, k)) == Number(x) * Power(k) % MODULUS
    decreases k
  {
    hide ShiftedLeft, Sum, Number, Predecessor;
    NoShift(x);
    RangeOfNumbers(x);
    if k != 0 {
      OneLess(k);
      LeftShiftStep(x, k);
      var y, p := ShiftedLeft(x, Predecessor(k)), Power(Predecessor(k));
      ShiftedLeftNumber(x, Predecessor(k));
      SumAdds(y, y);
      DoubleModulo(Number(x) * p, Number(y));
      TwiceTheProduct(Number(x), p);
    }
  }

  lemma TwiceTheProduct(x: nat, p: nat)
    ensures x * (2 * p) == x * p + x * p && x * p >= 0
  {
  }

  /** A left shift multiplies by 2^k, modulo 2^32. */
  lemma LeftShiftMultiplies(x: bv32, k: bv32)
    requires k < 32
    ensures Number(Alu(ShiftLeft, x, k)) == Number(x) * Power(k) % MODULUS
  {
    hide Number, Power;
    ShiftedLeftNumber(x, k);
  }

  lemma HalfDivides(x: bv32)
    ensures Number(Half(x)) == Number(x) / 2
  {
    hide Half, LowBit;
    NumberSplits(x);
    BitIsBit(x);
  }

  lemma DivideTwice(a: int, p: nat)
    requires p > 0
    ensures a / p / 2 == a / (2 * p)
  {
    var q := a / p;
    var h := q / 2;
    assert a == p * q + a % p && q == 2 * h + q % 2;
    assert p * q == p * (2 * h) + p * (q % 2) == (2 * p) * h + p * (q % 2);
    var r := p * (q % 2) + a % p;
    assert q % 2 == 0 || q % 2 == 1;
    assert 0 <= r < 2 * p;
    QuotientIs(a, 2 * p, h, r);
  }

  lemma QuotientIs(a: int, m: nat, q: int, r: int)
    requires m > 0 && a == m * q + r && 0 <= r < m
    ensures a / m == q
  {
    DivModUnique(a, m, q, r);
  }

  lemma {:induction false} ShiftedRightNumber(x: bv32, k: bv32)
    requires k < 32
    ensures Number(ShiftedRight(x, k)) == Number(x) / Power(k)
    decreases k
  {
    hide ShiftedRight, Number, Predecessor, Half;
    NoShift(x);
    if k != 0 {
      OneLess(k);
      RightShiftStep(x, k);
      ShiftedRightNumber(x, Predecessor(k));
      HalfDivides(ShiftedRight(x, Predecessor(k)));
      DivideTwice(Number(x), Power(Predecessor(k)));
    }
  }

  /** An unsigned right shift divides by 2^k and drops the remainder. */
  lemma RightShiftDivides(x: bv32, k: bv32)
    requires k < 32
    ensures Number(Alu(ShiftRight, x, k)) == Number(x) / Power(k)
  {
    hide Number, Power;
    ShiftedRightNumber(x, k);
  }

  /** The signed reading of a word. */
  function Signed(x: bv32): int {
    if Negative(x) then Number(x) - MODULUS else Number(x)
  }

  predicate Negative(x: bv32) { x & 0x8000_0000 != 0 }

  function Complement(x: bv32): bv32 { !x }

  lemma ComplementSigns(x: bv32)
    ensures Negative(Complement(x)) == !Negative(x)
  {
  }

  lemma ComplementTwice(x: bv32)
    ensures Complement(Complement(x)) == x && Complement(ALL_ONES) == 0
  {
  }

  lemma ComplementStep(x: bv32)
    ensures Complement(Successor(x)) == Predecessor(Complement(x))
    ensures x != ALL_ONES ==> Complement(x) != 0
  {
  }

  lemma {:induction false} ComplementCounts(x: bv32)
    ensures Number(Complement(x)) == MODULUS - 1 - Number(x)
    decreases Complement(x)
  {
    hide Complement, Successor, Predecessor, Number;
    RangeOfNumbers(x);
    if x == ALL_ONES {
      ComplementTwice(x);
      OnlyZeroIsNothing(0);
    } else {
      CountingUp(x);
      ComplementStep(x);
      OneBack(Complement(x));
      ComplementCounts(Successor(x));
      CountingUp(Predecessor(Complement(x)));
    }
  }

  /** A signed right shift divides by 2^k and rounds down. */
  lemma SignedShiftDivides(x: bv32, k: bv32)
    requires k < 32
    ensures Signed(Alu(ShiftRightSigned, x, k)) == Signed(x) / Power(k)
  {
    hide Number, Power, Complement, ShiftedRight, Alu, Negative;
    SignedShiftIs(x, k);
    ComplementSigns(x);
    ComplementCounts(x);
    if Negative(x) {
      var z := Complement(x);
      ShiftedRightNumber(z, k);
      StaysPositive(z, k);
      ComplementSigns(ShiftedRight(z, k));
      ComplementCounts(ShiftedRight(z, k));
      NegativeQuotient(Number(z), Power(k));
    } else {
      ShiftedRightNumber(x, k);
      StaysPositive(x, k);
    }
  }

  lemma SignedShiftIs(x: bv32, k: bv32)
    requires k < 32
    ensures Alu(ShiftRightSigned, x, k)
      == if Negative(x) then Complement(ShiftedRight(Complement(x), k)) else ShiftedRight(x, k)
  {
    AluShiftsSigned(x, k);
    hide Alu;
    SignedShiftParts(x, k);
  }

  lemma AluShiftsSigned(x: bv32, k: bv32)
    ensures k & 31 < 32 && Alu(ShiftRightSigned, x, k) == Asr(x, k & 31)
  {
    hide Asr;
  }

  lemma SignedShiftParts(x: bv32, k: bv32)
    ensures k & 31 < 32
    ensures Asr(x, k & 31) == if Negative(x) then Complement(ShiftedRight(Complement(x), k)) else ShiftedRight(x, k)
  {
  }

  lemma StaysPositive(x: bv32, k: bv32)
    requires k < 32 && !Negative(x)
    ensures !Negative(ShiftedRight(x, k))
  {
  }

  lemma NegativeQuotient(a: nat, p: nat)
    requires p > 0
    ensures (-1 - a) / p == -1 - a / p
  {
    var q, r := a / p, a % p;
    assert a == p * q + r;
    assert -1 - a == p * (-1 - q) + (p - 1 - r);
    QuotientIs(-1 - a, p, -1 - q, p - 1 - r);
  }

  // ---------------------------------------------------------------------
  // Jump targets, registers and memory
  // ---------------------------------------------------------------------

  /** The target of an indirect jump is the nearest even address at or below. */
  lemma TargetsAreEven(x: bv32)
    ensures Number(EvenTarget(x)) == Number(x) - Number(x) % 2
  {
    hide Number;
    NumberSplits(x);
    NumberSplits(EvenTarget(x));
    EvenTargetBits(x);
    BitIsBit(x);
  }

  lemma EvenTargetBits(x: bv32)
    ensures LowBit(EvenTarget(x)) == 0 && Half(EvenTarget(x)) == Half(x)
  {
  }

  /** A register that has been written is read back, and no other has changed. */
  lemma RegistersKeep(m: Machine, r: bv32, v: bv32, q: bv32)
    requires |m.regs| == 32 && r < 32 && q < 32
    ensures Reg(SetReg(m, r, v).regs, q) == if q == r then v else Reg(m.regs, q)
    ensures SetReg(m, r, v).(regs := m.regs) == m && |SetReg(m, r, v).regs| == 32
  {
    RegisterNumbers(r, q);
  }

  lemma RegisterNumbers(r: bv32, q: bv32)
    requires r < 32 && q < 32
    ensures r as nat < 32 && q as nat < 32 && (r as nat == q as nat <==> r == q)
  {
  }

  /** Byte i of a word, the lowest first. */
  function ByteOf(v: bv32, i: nat): bv8
    requires i < 4
  {
    if i == 0 then (v & 0xff) as bv8
    else if i == 1 then ((v >> 8) & 0xff) as bv8
    else if i == 2 then ((v >> 16) & 0xff) as bv8
    else ((v >> 24) & 0xff) as bv8
  }

  lemma FourAddresses(a: bv32)
    ensures a != a + 1 && a != a + 2 && a != a + 3 && a + 1 != a + 2 && a + 1 != a + 3 && a + 2 != a + 3
  {
  }

  /** A stored word puts its bytes, lowest first, into four consecutive places, around the
      end of the address space if need be, and touches no other. */
  lemma StoresFourBytes(mem: Memory, a: bv32, v: bv32, b: bv32)
    ensures var after := StoreWord(mem, a, v);
      && after(a) == ByteOf(v, 0) && after(a + 1) == ByteOf(v, 1)
      && after(a + 2) == ByteOf(v, 2) && after(a + 3) == ByteOf(v, 3)
      && (b != a && b != a + 1 && b != a + 2 && b != a + 3 ==> after(b) == mem(b))
  {
    FourAddresses(a);
  }

  lemma BytesOfFour(b0: bv8, b1: bv8, b2: bv8, b3: bv8)
    ensures var w := (b0 as bv32) | ((b1 as bv32) << 8) | ((b2 as bv32) << 16) | ((b3 as bv32) << 24);
      ByteOf(w, 0) == b0 && ByteOf(w, 1) == b1 && ByteOf(w, 2) == b2 && ByteOf(w, 3) == b3
  {
  }

  lemma BytesMakeTheWord(v: bv32)
    ensures v == (ByteOf(v, 0) as bv32) | ((ByteOf(v, 1) as bv32) << 8) | ((ByteOf(v, 2) as bv32) << 16)
      | ((ByteOf(v, 3) as bv32) << 24)
  {
  }

  /** A loaded word has the four bytes from its address on, lowest first. */
  lemma LoadsFourBytes(mem: Memory, a: bv32)
    ensures var w := LoadWord(mem, a);
      ByteOf(w, 0) == mem(a) && ByteOf(w, 1) == mem(a + 1) && ByteOf(w, 2) == mem(a + 2) && ByteOf(w, 3) == mem(a + 3)
  {
    hide ByteOf;
    BytesOfFour(mem(a), mem(a + 1), mem(a + 2), mem(a + 3));
  }

  /** What has been stored is loaded again. */
  lemma LoadAfterStore(mem: Memory, a: bv32, v: bv32)
    ensures LoadWord(StoreWord(mem, a, v), a) == v
  {
    hide ByteOf, StoreWord;
    StoresFourBytes(mem, a, v, a);
    BytesMakeTheWord(v);
  }
}
