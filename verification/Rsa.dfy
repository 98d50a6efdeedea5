/** The RSA example: key set-up, square-and-multiply, the Miller-Rabin test and
    the cipher itself. Arbitrary-precision values are integers; Fits states that
    a value is representable in the 250-bit type the program uses. */
module Rsa {
  import opened Common
  import opened NumberTheory

  /** NBITS of the source: the width of every number, sign bit included. */
  const WIDTH: nat := 250

  /** The number of random bits in each of the two primes. */
  const HALF_BITS: nat := 124

  ghost predicate Fits(x: int) {
    -Pow(2, 249) <= x < Pow(2, 249)
  }

  // ---------------------------------------------------------------------
  // Binary digits
  // ---------------------------------------------------------------------

  /** Bit i of a non-negative number. */
  predicate Bit(b: nat, i: nat)
  {
    PowPositive(2, i);
    (b / Pow(2, i)) % 2 == 1
  }

  /** The number left after dropping the i lowest bits. */
  function Prefix(b: nat, i: nat): nat
  {
    PowPositive(2, i);
    b / Pow(2, i)
  }

  lemma PrefixStep(b: nat, i: nat)
    ensures Prefix(b, i) == 2 * Prefix(b, i + 1) + (if Bit(b, i) then 1 else 0)
  {
    PowPositive(2, i);
    PowPositive(2, i + 1);
    var p := Pow(2, i);
    var q := b / p;
    assert b == p * q + b % p;
    assert q == 2 * (q / 2) + q % 2;
    var r := p * (q % 2) + b % p;
    assert p * q == 2 * p * (q / 2) + p * (q % 2);
    assert 0 <= r < 2 * p by {
      if q % 2 == 0 { assert p * (q % 2) == 0; } else { assert p * (q % 2) == p; }
    }
    DivModUnique(b, 2 * p, q / 2, r);
  }

  lemma PrefixEnds(b: nat, w: nat)
    ensures Prefix(b, 0) == b
    ensures b < Pow(2, w) ==> Prefix(b, w) == 0
  {
    assert Pow(2, 0) == 1;
    if b < Pow(2, w) {
      DivModUnique(b, Pow(2, w), 0, b);
    }
  }

  lemma {:induction false} Pow2Monotone(i: nat, j: nat)
    requires i <= j
    ensures Pow(2, i) <= Pow(2, j)
    decreases j
  {
    if i < j {
      Pow2Monotone(i, j - 1);
      PowPositive(2, j - 1);
    }
  }

  /** One round of square-and-multiply advances the exponent by one bit. */
  lemma SquareAndMultiply(a: int, b: nat, i: nat, n: int, d: int)
    requires n > 0 && d % n == Pow(a, Prefix(b, i + 1)) % n
    ensures (d * d) % n == Pow(a, 2 * Prefix(b, i + 1)) % n
    ensures ((if Bit(b, i) then d * d * a else d * d) % n) == Pow(a, Prefix(b, i)) % n
  {
    var k := Prefix(b, i + 1);
    PrefixStep(b, i);
    PowAdd(a, k, k);
    ModMulCong(d, Pow(a, k), d, Pow(a, k), n);
    PowAdd(a, 2 * k, 1);
    assert Pow(a, 1) == a * Pow(a, 0) == a;
    ModMulCong(d * d, Pow(a, 2 * k), a, a, n);
  }

  // ---------------------------------------------------------------------
  // Modular arithmetic routines
  // ---------------------------------------------------------------------

  /** Turns a truncated remainder into a residue. */
  function RetPos(x: int, n: int): (r: int)
    requires n > 0 && -n < x < n
    ensures 0 <= r < n && r == x % n
  {
    if x < 0 then
      DivModUnique(x, n, -1, x + n);
      x + n
    else
      DivModUnique(x, n, 0, x);
      x
  }

  /** Square-and-multiply from the top bit down is exponentiation modulo n,
      and every intermediate residue fits the machine type. */
  method ModularExp(a: int, b: nat, n: int) returns (r: int)
    requires n > 0 && Fits(n) && Fits(b)
    ensures r == Pow(a, b) % n
    ensures Fits(r)
  {
    var d := 1;
    Pow2Monotone(WIDTH - 1, WIDTH);
    PrefixEnds(b, WIDTH);
    PowPositive(2, WIDTH - 1);
    var i := WIDTH;
    while i > 0
      invariant 0 <= i <= WIDTH
      invariant d % n == Pow(a, Prefix(b, i)) % n
      invariant Fits(d)
      invariant i < WIDTH ==> -n < d < n
    {
      i := i - 1;
      SquareAndMultiply(a, b, i, n, d);
      ghost var was := d;
      d := TruncRem(d * d, n);
      ModMulCong(d, was * was, a, a, n);
      if Bit(b, i) {
        d := TruncRem(d * a, n);
      }
    }
    PrefixEnds(b, WIDTH);
    r := RetPos(d, n);
  }

  /** The inverse of a modulo n, or None where the source's assertion that the
      two are relatively prime fails. */
  method Inverse(a: nat, n: nat) returns (r: Option<nat>)
    requires n > 0
    ensures r.Some? <==> Gcd(a, n) == 1
    ensures r.Some? ==> r.value < n && (a * r.value) % n == 1 % n
    ensures r.Some? ==> forall s :: 0 <= s < n && (a * s) % n == 1 % n ==> s == r.value
  {
    var t := Euclid(a, n);
    EuclidIsBezout(a, n);
    if t.d != 1 {
      return None;
    }
    var x := TruncRem(t.x, n);
    var v := RetPos(x, n);
    assert v == t.x % n by { ModIdempotent(t.x, n); }
    assert (a * v) % n == 1 % n by {
      ModMul(a, t.x, n);
      assert a * t.x == 1 + n * -t.y;
      ModAddMultiple(1, -t.y, n);
    }
    forall s | 0 <= s < n && (a * s) % n == 1 % n
      ensures s == v
    {
      InverseIsUnique(a, n, s, v);
    }
    r := Some(v);
  }

  lemma ModIdempotent(x: int, n: int)
    requires n > 0
    ensures (x % n) % n == x % n
  {
    DivModUnique(x % n, n, 0, x % n);
  }

  lemma InverseIsUnique(a: nat, n: nat, s: nat, v: nat)
    requires 0 <= s < n && 0 <= v < n
    requires (a * s) % n == 1 % n && (a * v) % n == 1 % n
    ensures s == v
  {
    // s == s * (a * v) == (s * a) * v == v, all modulo n
    ModMulCong(a * v, 1, s, s, n);
    ModMulCong(a * s, 1, v, v, n);
    assert (a * v) * s == (a * s) * v;
    DivModUnique(s, n, 0, s);
    DivModUnique(v, n, 0, v);
  }

  /** Numbers at distance d share only divisors of d. */
  lemma NeighbourIsCoprime(a: nat, n: nat)
    requires a > 0
    requires n == a + 1 || (n == a + 2 && a % 2 == 1)
    ensures Gcd(a, n) == 1
  {
    var g := Gcd(a, n);
    GcdIsGreatest(a, n, g);
    DividesBound(g, a);
    DividesCombination(g, n, a, 1, -1);
    assert n * 1 + a * -1 == n - a;
    DividesBound(g, n - a);
    if g == 2 {
      assert a % 2 == 0;
    }
  }

  lemma ThreeDividesOrIsCoprime(n: nat)
    requires Gcd(3, n) != 1
    ensures n % 3 == 0
  {
    if n % 3 != 0 {
      PrimeGcd(3, n);
    }
  }

  /** While the search has not succeeded its next candidate stays below n. */
  lemma SearchStaysBelow(a: nat, n: nat)
    requires a >= 3 && a % 2 == 1 && (a == 3 || a < n) && Gcd(a, n) != 1
    ensures n == 0 || n == 3 || a + 2 < n
  {
    if a == 3 { ThreeDividesOrIsCoprime(n); }
    if a < n {
      if a == n - 1 { NeighbourIsCoprime(a, n); }
      if a == n - 2 { NeighbourIsCoprime(a, n); }
    }
  }

  /** The search for the public exponent. It trips the source's assertion for
      n == 0 and n == 3 and for no other n; otherwise it returns the least odd
      number above 1 that is relatively prime to n. */
  lemma GcdOfThree(n: nat)
    requires n == 0 || n == 3
    ensures Gcd(3, n) == 3
  {
  }

  method FindRelPrime(n: nat) returns (r: Option<nat>)
    ensures r.None? <==> n == 0 || n == 3
    ensures r.Some? ==> r.value >= 3 && r.value % 2 == 1 && Gcd(r.value, n) == 1
    ensures r.Some? ==> r.value == 3 || r.value < n
    ensures r.Some? ==> forall b :: 3 <= b < r.value && b % 2 == 1 ==> Gcd(b, n) != 1
  {
    hide Gcd;
    var a := 3;
    if n == 0 || n == 3 { GcdOfThree(n); }
    while Gcd(a, n) != 1
      invariant a >= 3 && a % 2 == 1
      invariant a == 3 || a < n
      invariant forall b :: 3 <= b < a && b % 2 == 1 ==> Gcd(b, n) != 1
      decreases n - a
    {
      SearchStaysBelow(a, n);
      a := a + 2;
      if !(a < n) {
        return None;
      }
    }
    r := Some(a);
  }

  // ---------------------------------------------------------------------
  // Miller-Rabin
  // ---------------------------------------------------------------------

  ghost predicate NontrivialRoot(x: int, n: int)
    requires n > 0
  {
    x != 1 && x != n - 1 && (x * x) % n == 1
  }

  /** a proves n composite: the Fermat test fails, or some square taken on the
      way to a^(n-1) exposes a square root of 1 other than 1 and n-1. */
  ghost predicate ProvesComposite(a: int, n: int)
    requires n > 2
  {
    || Pow(a, n - 1) % n != 1
    || exists i :: 0 <= i < WIDTH && ExposedAt(a, n, i)
  }

  ghost predicate ExposedAt(a: int, n: int, i: nat)
    requires n > 2
  {
    NontrivialRoot(Pow(a, Prefix(n - 1, i + 1)) % n, n)
  }

  /** The witness loop decides ProvesComposite. */
  method Witness(a: int, n: int) returns (w: bool)
    requires n > 2 && Fits(n) && 1 <= a < n
    ensures w <==> ProvesComposite(a, n)
  {
    var d := 1;
    Pow2Monotone(WIDTH - 1, WIDTH);
    PrefixEnds(n - 1, WIDTH);
    DivModUnique(1, n, 0, 1);
    var i := WIDTH;
    while i > 0
      invariant 0 <= i <= WIDTH
      invariant 0 <= d < n
      invariant d == Pow(a, Prefix(n - 1, i)) % n
      invariant forall j :: i <= j < WIDTH ==> !ExposedAt(a, n, j)
    {
      i := i - 1;
      WitnessRound(a, n, i, d);
      var x := if d < 0 then -d else d;
      d := TruncRem(d * d, n);
      if Abs(d) == 1 && x != 1 && x != n - 1 {
        assert ExposedAt(a, n, i);
        return true;
      }
      if Bit(n - 1, i) {
        d := TruncRem(d * a, n);
      }
    }
    PrefixEnds(n - 1, WIDTH);
    w := Abs(d) != 1;
  }

  /** One round of the witness loop: the new residue, and what its inspection
      means for the square-root test. */
  lemma WitnessRound(a: int, n: int, i: nat, d: int)
    requires n > 2 && 1 <= a < n && 0 <= d < n
    requires d == Pow(a, Prefix(n - 1, i + 1)) % n
    ensures 0 <= TruncRem(d * d, n) < n
    ensures ExposedAt(a, n, i) <==> TruncRem(d * d, n) == 1 && d != 1 && d != n - 1
    ensures Bit(n - 1, i) ==>
      0 <= TruncRem(TruncRem(d * d, n) * a, n) == Pow(a, Prefix(n - 1, i)) % n
    ensures !Bit(n - 1, i) ==> TruncRem(d * d, n) == Pow(a, Prefix(n - 1, i)) % n
  {
    ProductNonNegative(d, d);
    var s := TruncRem(d * d, n);
    ProductNonNegative(s, a);
    ModIdempotent(Pow(a, Prefix(n - 1, i + 1)), n);
    SquareAndMultiply(a, n - 1, i, n, d);
    ModMul(d * d, a, n);
  }

  lemma ProductNonNegative(x: int, y: int)
    requires x >= 0 && y >= 0
    ensures x * y >= 0
  {
  }

  /** No base proves a prime composite. */
  lemma PrimesHaveNoWitness(a: int, n: int)
    requires n > 2 && IsPrime(n) && 1 <= a < n
    ensures !ProvesComposite(a, n)
  {
    DivModUnique(a, n, 0, a);
    Fermat(n, a);
    forall i | 0 <= i < WIDTH
      ensures !ExposedAt(a, n, i)
    {
      var x := Pow(a, Prefix(n - 1, i + 1)) % n;
      if (x * x) % n == 1 {
        SquareRootsOfOne(n, x);
      }
    }
  }

  /** The largest trial divisor. */
  function TrialLimit(n: int): int { if n < 1023 then n - 2 else 1023 }

  predicate OddDivisor(n: int, i: int) { i >= 3 && i % 2 == 1 && n % i == 0 }

  ghost predicate HasSmallOddDivisor(n: int) {
    exists i :: i <= TrialLimit(n) && OddDivisor(n, i)
  }

  /** Trial division finds every odd divisor from 3 to 1023 that is not the number itself,
      and nothing else. */
  lemma SmallDivisorsAreFound(n: int)
    requires n > 0
    ensures HasSmallOddDivisor(n) <==> exists i :: i <= 1023 && i < n && OddDivisor(n, i)
  {
    forall i | OddDivisor(n, i)
      ensures i <= 1023 && i < n ==> i <= TrialLimit(n)
      ensures i <= TrialLimit(n) ==> i < n || OddDivisor(n, 3)
    {
      LimitCovers(n, i);
    }
  }

  lemma LimitCovers(n: int, i: int)
    requires n > 0 && OddDivisor(n, i)
    ensures i <= 1023 && i < n ==> i <= TrialLimit(n)
    ensures i <= TrialLimit(n) ==> i <= 1023 && (i < n || (n == 1023 && OddDivisor(n, 3)))
  {
    assert 1023 % 3 == 0;
    if n > 2 { LastRemainder(n); }
  }

  lemma LastRemainder(n: int)
    requires n > 2
    ensures n % (n - 1) == 1
  {
    DivModUnique(n, n - 1, 1, 1);
  }

  lemma PrimesPassTrialDivision(n: int)
    requires IsPrime(n) && n > 2
    ensures !HasSmallOddDivisor(n)
  {
    assert 1023 % 3 == 0;
  }

  method DivTest(n: int) returns (ok: bool)
    ensures ok <==> !HasSmallOddDivisor(n)
  {
    var limit := TrialLimit(n);
    var i := 3;
    while i <= limit
      invariant i >= 3 && i % 2 == 1
      invariant forall j :: j < i && j <= limit ==> !OddDivisor(n, j)
    {
      if n % i == 0 {
        assert OddDivisor(n, i);
        return false;
      }
      assert !OddDivisor(n, i) && !OddDivisor(n, i + 1);
      i := i + 2;
    }
    ok := true;
  }

  /** The base drawn from a random number. */
  function Base(draw: nat, n: int): (a: int)
    requires n > 2
    ensures 1 <= a < n
  {
    draw % (n - 1) + 1
  }

  const ROUNDS: nat := 50

  /** The primality test on the 50 random numbers in draws. It accepts every
      prime above 2 whatever is drawn; what it accepts besides are exactly the
      numbers without a small odd divisor that none of the 50 bases exposes. */
  method MillerRabin(n: int, draws: seq<nat>) returns (accept: bool)
    requires Fits(n) && |draws| == 50
    ensures IsPrime(n) && n > 2 ==> accept
    ensures n <= 2 ==> !accept
    ensures n > 2 ==>
      (accept <==> !HasSmallOddDivisor(n) && forall j :: 0 <= j < 50 ==> !ProvesComposite(Base(draws[j], n), n))
  {
    if n <= 2 {
      return false;
    }
    if IsPrime(n) {
      PrimesPassTrialDivision(n);
      forall j | 0 <= j < ROUNDS
        ensures !ProvesComposite(Base(draws[j], n), n)
      {
        PrimesHaveNoWitness(Base(draws[j], n), n);
      }
    }
    var passes := DivTest(n);
    if !passes {
      return false;
    }
    var j := 0;
    while j < ROUNDS
      invariant 0 <= j <= ROUNDS
      invariant forall k :: 0 <= k < j ==> !ProvesComposite(Base(draws[k], n), n)
    {
      var a := Base(draws[j], n);
      var w := Witness(a, n);
      if w {
        assert ProvesComposite(Base(draws[j], n), n);
        return false;
      }
      j := j + 1;
    }
    accept := true;
  }

  // ---------------------------------------------------------------------
  // The cipher
  // ---------------------------------------------------------------------

  method Cipher(msg: int, e: nat, n: int) returns (c: int)
    requires n > 0 && Fits(n) && Fits(e)
    ensures c == Pow(msg, e) % n && Fits(c)
  {
    c := ModularExp(msg, e, n);
  }

  method Decipher(msg: int, d: nat, n: int) returns (c: int)
    requires n > 0 && Fits(n) && Fits(d)
    ensures c == Pow(msg, d) % n && Fits(c)
  {
    c := ModularExp(msg, d, n);
  }

  /** A prime factor p of the modulus gives msg back after any exponent that is
      1 modulo p - 1, whether or not p divides msg. */
  lemma PrimeFactorRecovers(p: nat, msg: int, s: nat)
    requires IsPrime(p)
    ensures (p - 1) * s >= 0 && Pow(msg, 1 + (p - 1) * s) % p == msg % p
  {
    var k := (p - 1) * s;
    assert Pow(msg, 1 + k) == msg * Pow(msg, k);
    if msg % p == 0 {
      ModMulCong(msg, 0, Pow(msg, k), Pow(msg, k), p);
      DivModUnique(0, p, 0, 0);
    } else {
      Fermat(p, msg);
      PowMul(msg, p - 1, s);
      PowCong(Pow(msg, p - 1), 1, s, p);
      PowOne(s);
      DivModUnique(1, p, 0, 1);
      ModMulCong(msg, msg, Pow(msg, k), 1, p);
    }
  }

  /** Two prime factors recover msg together. */
  lemma DistinctPrimesRecover(p: nat, q: nat, msg: int, t: nat)
    requires IsPrime(p) && IsPrime(q) && p != q
    ensures (p - 1) * (q - 1) * t >= 0 && p * q > 0
    ensures Pow(msg, 1 + (p - 1) * (q - 1) * t) % (p * q) == msg % (p * q)
  {
    var m := (p - 1) * (q - 1);
    assert m * t == (p - 1) * ((q - 1) * t);
    assert m * t == (q - 1) * ((p - 1) * t);
    PrimeFactorRecovers(p, msg, (q - 1) * t);
    PrimeFactorRecovers(q, msg, (p - 1) * t);
    var z := Pow(msg, 1 + m * t);
    ModEqualsDifference(z, msg, p);
    ModEqualsDifference(z, msg, q);
    DistinctPrimesDivide(p, q, z - msg);
    ModEqualsDifference(z, msg, p * q);
  }

  /** The message that comes back from ciphering and deciphering. */
  ghost function RoundTrip(msg: int, e: nat, d: nat, n: int): int
    requires n > 0
  {
    Pow(Pow(msg, e) % n, d) % n
  }

  lemma PowerOfPrime(p: nat, e: nat)
    requires p > 0 && e >= 2
    ensures Pow(p, e) % (p * p) == 0
  {
    PowAdd(p, 2, e - 2);
    assert Pow(p, 2) == p * Pow(p, 1) == p * (p * Pow(p, 0)) == p * p;
    MultipleMod(Pow(p, e - 2), p * p);
  }

  /** Distinct primes are exactly what the cipher needs: with exponents that are
      inverse modulo (p-1)(q-1), every message comes back if and only if p and
      q differ. When they coincide, msg == p is lost. */
  lemma RoundTripIffDistinct(p: nat, q: nat, e: nat, d: nat)
    requires IsPrime(p) && IsPrime(q) && e >= 2 && d >= 1
    requires (p - 1) * (q - 1) > 0 && (e * d) % ((p - 1) * (q - 1)) == 1 % ((p - 1) * (q - 1))
    ensures p * q > 0
    ensures (forall msg :: 0 <= msg < p * q ==> RoundTrip(msg, e, d, p * q) == msg) <==> p != q
  {
    assert p * q > 0;
    if p != q {
      forall msg | 0 <= msg < p * q
        ensures RoundTrip(msg, e, d, p * q) == msg
      {
        RoundTripRecovers(p, q, e, d, msg);
      }
    } else {
      assert p < p * p by { MulStep(p, 1, p); }
      PowerOfPrime(p, e);
      assert Pow(0, d) == 0 * Pow(0, d - 1) == 0;
      DivModUnique(0, p * q, 0, 0);
      assert RoundTrip(p, e, d, p * q) == 0;
    }
  }

  lemma RoundTripRecovers(p: nat, q: nat, e: nat, d: nat, msg: int)
    requires IsPrime(p) && IsPrime(q) && p != q && e >= 2 && d >= 1 && 0 <= msg < p * q
    requires (p - 1) * (q - 1) > 0 && (e * d) % ((p - 1) * (q - 1)) == 1 % ((p - 1) * (q - 1))
    ensures RoundTrip(msg, e, d, p * q) == msg
  {
    var n, m := p * q, (p - 1) * (q - 1);
    assert e * d >= 1 by { MulMonotone(e, 1, d); }
    ModEqualsDifference(e * d, 1, m);
    var t := (e * d - 1) / m;
    assert e * d == 1 + m * t;
    PowMod(Pow(msg, e), d, n);
    PowMul(msg, e, d);
    DistinctPrimesRecover(p, q, msg, t);
    DivModUnique(msg, n, 0, msg);
  }

  lemma HalfWidthProduct(p: nat, q: nat)
    requires 0 < p < Pow(2, HALF_BITS) && 0 < q < Pow(2, HALF_BITS)
    ensures 0 < p * q && Fits(p * q)
    ensures 0 <= (p - 1) * (q - 1) < p * q
  {
    PowAdd(2, HALF_BITS, HALF_BITS);
    Pow2Monotone(2 * HALF_BITS, WIDTH - 1);
    ProductBounds(p, q, Pow(2, HALF_BITS));
  }

  lemma ProductBounds(p: nat, q: nat, h: nat)
    requires 0 < p < h && 0 < q < h
    ensures 0 < p * q < h * h
    ensures 0 <= (p - 1) * (q - 1) < p * q
  {
    MulStep(p, q, h);
    MulStep(h, p, h);
    MulStep(p, 0, q);
    ProductNonNegative(p - 1, q - 1);
    assert (p - 1) * (q - 1) == p * q - p - q + 1;
  }

  /** The program's main routine on given primes and message: the assertions on
      e, d and the key set-up hold, and the deciphered message is the original when the
      primes differ. checked is the debug assertion on the message, which a zero message
      fails. */
  method Session(p: nat, q: nat, msg: nat)
    returns (e: nat, d: nat, ciphered: int, deciphered: int, checked: bool)
    requires IsPrime(p) && IsPrime(q) && (p != q || p > 2)
    requires p < Pow(2, 124) && q < Pow(2, 124)
    requires msg < p * q
    ensures e >= 3 && d > 0 && e * d >= 1
    ensures (p - 1) * (q - 1) > 0 && (e * d) % ((p - 1) * (q - 1)) == 1
    ensures ciphered == Pow(msg, e) % (p * q)
    ensures deciphered == Pow(msg, e * d) % (p * q)
    ensures p != q ==> deciphered == msg
    ensures checked <==> msg > 0
  {
    var n := p * q;
    var m := (p - 1) * (q - 1);
    HalfWidthProduct(p, q);
    TotientIsEven(p, q);
    var maybeE := FindRelPrime(m);
    e := maybeE.value;
    var maybeD := Inverse(e, m);
    d := maybeD.value;
    DivModUnique(1, m, 0, 1);
    if d == 0 { DivModUnique(0, m, 0, 0); assert false; }
    assert Fits(e) by {
      Pow2Monotone(2, WIDTH - 1);
      assert Pow(2, 2) == 2 * Pow(2, 1) == 2 * (2 * Pow(2, 0)) == 4;
    }
    assert e * d >= 1 by { MulMonotone(e, 1, d); }
    checked := msg > 0;
    ciphered := Cipher(msg, e, n);
    deciphered := Decipher(ciphered, d, n);
    PowMod(Pow(msg, e), d, n);
    PowMul(msg, e, d);
    if p != q {
      RoundTripRecovers(p, q, e, d, msg);
    }
  }

  /** At least one of the two primes is odd. */
  lemma TotientIsEven(p: nat, q: nat)
    requires IsPrime(p) && IsPrime(q) && (p != q || p > 2)
    ensures (p - 1) * (q - 1) >= 2 && ((p - 1) * (q - 1)) % 2 == 0
  {
    OddPrime(p);
    OddPrime(q);
    if p > 2 {
      EvenProduct((p - 1) / 2, q - 1);
    } else {
      EvenProduct((q - 1) / 2, p - 1);
    }
  }

  lemma OddPrime(p: nat)
    requires IsPrime(p)
    ensures p == 2 || p % 2 == 1
  {
  }

  lemma EvenProduct(h: nat, k: nat)
    requires h >= 1 && k >= 1
    ensures (2 * h) * k >= 2 && ((2 * h) * k) % 2 == 0
  {
    MulMonotone(2 * h, 1, k);
    assert (2 * h) * k == 2 * (h * k);
  }
}
