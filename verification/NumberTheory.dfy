/** Integer arithmetic behind the RSA example: remainders, powers, Euclid's
    algorithm, primes and Fermat's little theorem. */
module NumberTheory {
  import opened Common

  // ---------------------------------------------------------------------
  // Remainders
  // ---------------------------------------------------------------------

  /** Quotient and remainder are determined by the division equation. */
  lemma DivModUnique(x: int, n: int, q: int, r: int)
    requires n > 0 && x == n * q + r && 0 <= r < n
    ensures x / n == q && x % n == r
  {
    var q' := x / n;
    assert x == n * q' + x % n;
    if q > q' {
      MulStep(n, q', q);
    } else if q < q' {
      MulStep(n, q, q');
    }
  }

  lemma MulStep(n: int, q: int, q': int)
    requires n > 0 && q < q'
    ensures n * q + n <= n * q'
  {
    assert n * (q' - q - 1) >= 0;
  }

  lemma ModAddMultiple(x: int, k: int, n: int)
    requires n > 0
    ensures (x + n * k) % n == x % n
  {
    DivModUnique(x + n * k, n, x / n + k, x % n);
  }

  lemma ModMul(a: int, b: int, n: int)
    requires n > 0
    ensures ((a % n) * b) % n == (a * b) % n
    ensures (a * (b % n)) % n == (a * b) % n
  {
    var qa, qb := a / n, b / n;
    assert a * b == (a % n) * b + n * (qa * b) by {
      assert a == n * qa + a % n;
    }
    ModAddMultiple((a % n) * b, qa * b, n);
    assert a * b == a * (b % n) + n * (qb * a) by {
      assert b == n * qb + b % n;
    }
    ModAddMultiple(a * (b % n), qb * a, n);
  }

  lemma ModAdd(a: int, b: int, n: int)
    requires n > 0
    ensures ((a % n) + (b % n)) % n == (a + b) % n
  {
    var q := a / n + b / n;
    assert a + b == (a % n) + (b % n) + n * q;
    ModAddMultiple((a % n) + (b % n), q, n);
  }

  /** Congruent factors may be exchanged under a modulus. */
  lemma ModMulCong(a: int, a': int, b: int, b': int, n: int)
    requires n > 0 && a % n == a' % n && b % n == b' % n
    ensures (a * b) % n == (a' * b') % n
  {
    ModMul(a, b, n);
    ModMul(a % n, b, n);
    ModMul(a', b', n);
    ModMul(a' % n, b', n);
  }

  /** Equal remainders are the same thing as a difference that n divides. */
  lemma ModEqualsDifference(a: int, b: int, n: int)
    requires n > 0
    ensures a % n == b % n <==> (a - b) % n == 0
  {
    if a % n == b % n {
      DivModUnique(a - b, n, a / n - b / n, 0);
    }
    if (a - b) % n == 0 {
      var k := (a - b) / n;
      assert a == b + n * k;
      ModAddMultiple(b, k, n);
    }
  }

  lemma MultipleMod(k: int, n: int)
    requires n > 0
    ensures (n * k) % n == 0
  {
    DivModUnique(n * k, n, k, 0);
  }

  /** The remainder operator of the source: the sign follows the dividend. */
  function TruncRem(x: int, n: int): (r: int)
    requires n > 0
    ensures r % n == x % n
    ensures -n < r < n
    ensures x >= 0 ==> r == x % n
    ensures x <= 0 ==> r <= 0
  {
    if x >= 0 then
      DivModUnique(x % n, n, 0, x % n);
      x % n
    else
      NegatedRemainder(x, n);
      -((-x) % n)
  }

  lemma NegatedRemainder(x: int, n: int)
    requires n > 0
    ensures (-((-x) % n)) % n == x % n
  {
    var k := (-x) / n;
    assert -((-x) % n) == x + n * k;
    ModAddMultiple(x, k, n);
  }

  // ---------------------------------------------------------------------
  // Powers
  // ---------------------------------------------------------------------

  function Pow(a: int, e: nat): int
  {
    if e == 0 then 1 else a * Pow(a, e - 1)
  }

  lemma {:induction false} PowAdd(a: int, e: nat, f: nat)
    ensures Pow(a, e + f) == Pow(a, e) * Pow(a, f)
  {
    if e != 0 {
      PowAdd(a, e - 1, f);
      assert a * (Pow(a, e - 1) * Pow(a, f)) == (a * Pow(a, e - 1)) * Pow(a, f);
    }
  }

  lemma {:induction false} PowMul(a: int, e: nat, f: nat)
    ensures e * f >= 0 && Pow(a, e * f) == Pow(Pow(a, e), f)
  {
    if f == 0 {
    } else {
      PowMul(a, e, f - 1);
      assert e * f == e + e * (f - 1);
      PowAdd(a, e, e * (f - 1));
    }
  }

  lemma {:induction false} PowMod(a: int, e: nat, n: int)
    requires n > 0
    ensures Pow(a % n, e) % n == Pow(a, e) % n
  {
    if e != 0 {
      PowMod(a, e - 1, n);
      DivModUnique(a % n, n, 0, a % n);
      ModMulCong(a % n, a, Pow(a % n, e - 1), Pow(a, e - 1), n);
    }
  }

  lemma PowCong(a: int, b: int, e: nat, n: int)
    requires n > 0 && a % n == b % n
    ensures Pow(a, e) % n == Pow(b, e) % n
  {
    PowMod(a, e, n);
    PowMod(b, e, n);
  }

  lemma {:induction false} PowOne(e: nat)
    ensures Pow(1, e) == 1
  {
    if e != 0 { PowOne(e - 1); }
  }

  lemma {:induction false} PowPositive(a: int, e: nat)
    requires a > 0
    ensures Pow(a, e) > 0
  {
    if e != 0 {
      PowPositive(a, e - 1);
      assert a * Pow(a, e - 1) >= 1 * 1;
    }
  }

  // ---------------------------------------------------------------------
  // Euclid's algorithm
  // ---------------------------------------------------------------------

  /** The recursive greatest common divisor of the source. */
  function Gcd(a: nat, b: nat): nat
    decreases b
  {
    if b == 0 then a else Gcd(b, a % b)
  }

  ghost predicate Divides(d: nat, n: int) {
    if d == 0 then n == 0 else n % d == 0
  }

  /** d divides every combination of two numbers it divides. */
  lemma DividesCombination(d: nat, a: int, b: int, x: int, y: int)
    requires Divides(d, a) && Divides(d, b)
    ensures Divides(d, a * x + b * y)
  {
    if d == 0 {
    } else {
      var ka, kb := a / d, b / d;
      assert a * x + b * y == d * (ka * x + kb * y) by {
        assert a == d * ka && b == d * kb;
      }
      MultipleMod(ka * x + kb * y, d);
    }
  }

  lemma DividesStep(d: nat, a: nat, b: nat)
    requires b > 0
    ensures Divides(d, a) && Divides(d, b) <==> Divides(d, b) && Divides(d, a % b)
  {
    var q := a / b;
    if Divides(d, a) && Divides(d, b) {
      DividesCombination(d, a, b, 1, -q);
      assert a * 1 + b * -q == a % b;
    }
    if Divides(d, b) && Divides(d, a % b) {
      DividesCombination(d, b, a % b, q, 1);
      assert b * q + (a % b) * 1 == a;
    }
  }

  /** Gcd is a common divisor, and every common divisor divides it. */
  lemma {:induction false} GcdIsGreatest(a: nat, b: nat, d: nat)
    ensures Divides(Gcd(a, b), a) && Divides(Gcd(a, b), b)
    ensures Divides(d, a) && Divides(d, b) <==> Divides(d, Gcd(a, b))
    decreases b
  {
    if b == 0 {
      DividesZero(a);
      DividesZero(d);
    } else {
      GcdIsGreatest(b, a % b, d);
      DividesStep(Gcd(a, b), a, b);
      DividesStep(d, a, b);
    }
  }

  lemma DividesZero(a: nat)
    ensures Divides(a, 0) && Divides(a, a)
  {
    if a > 0 { MultipleMod(1, a); }
  }

  /** Common divisors bound Gcd from below: it is the greatest one in size. */
  lemma DividesBound(d: nat, n: nat)
    requires Divides(d, n) && n > 0
    ensures 1 <= d <= n
  {
    if d > n {
      DivModUnique(n, d, 0, n);
    }
  }

  datatype Bezout = Bezout(d: int, x: int, y: int)

  /** The recursive extended algorithm; the three reference arguments of the
      source are the three fields of the result. */
  function Euclid(a: nat, b: nat): (r: Bezout)
    decreases b
  {
    if b != 0 then
      var r := Euclid(b, a % b);
      Bezout(r.d, r.y, r.x - (a / b) * r.y)
    else
      Bezout(a, 1, 0)
  }

  /** For all a, b >= 0 the algorithm delivers the greatest common divisor as
      a combination of a and b. */
  lemma {:induction false} EuclidIsBezout(a: nat, b: nat)
    ensures Euclid(a, b).d == Gcd(a, b)
    ensures a * Euclid(a, b).x + b * Euclid(a, b).y == Gcd(a, b)
    decreases b
  {
    if b == 0 {
    } else {
      EuclidIsBezout(b, a % b);
      var r := Euclid(b, a % b);
      var q := a / b;
      BezoutStep(a, b, q, a % b, r.x, r.y);
    }
  }

  lemma BezoutStep(a: int, b: int, q: int, m: int, x: int, y: int)
    requires a == b * q + m
    ensures a * y + b * (x - q * y) == b * x + m * y
  {
    assert a * y == b * q * y + m * y;
    assert b * (x - q * y) == b * x - b * q * y;
  }

  lemma AbsProduct(q: nat, y: int)
    ensures Abs(q * y) == q * Abs(y)
  {
    if y < 0 {
      assert q * y == -(q * -y);
      assert q * -y >= 0;
    } else {
      assert q * y >= 0;
    }
  }

  /** The cofactors never outgrow the opposite argument. */
  lemma {:induction false} EuclidIsBounded(a: nat, b: nat)
    ensures Abs(Euclid(a, b).x) <= Max(1, b)
    ensures Abs(Euclid(a, b).y) <= Max(1, a)
    decreases b
  {
    if b != 0 {
      EuclidIsBounded(b, a % b);
      var r := Euclid(b, a % b);
      var q := a / b;
      if a % b == 0 {
        assert r == Bezout(b, 1, 0);
        assert q * r.y == 0;
      } else {
        AbsProduct(q, r.y);
        assert q * Abs(r.y) <= q * b by { MulMonotone(q, Abs(r.y), b); }
        assert a == b * q + a % b;
        assert Abs(r.x - q * r.y) <= Abs(r.x) + Abs(q * r.y);
      }
    }
  }

  lemma MulMonotone(q: nat, y: nat, b: nat)
    requires y <= b
    ensures q * y <= q * b
  {
    assert q * (b - y) >= 0;
  }

  // ---------------------------------------------------------------------
  // Primes
  // ---------------------------------------------------------------------

  ghost predicate IsPrime(p: int) {
    2 <= p && forall d :: 2 <= d < p ==> p % d != 0
  }

  lemma PrimeGcd(p: nat, a: nat)
    requires IsPrime(p) && a % p != 0
    ensures Gcd(p, a) == 1
  {
    var g := Gcd(p, a);
    GcdIsGreatest(p, a, g);
    DividesBound(g, p);
    assert g == 1 || g == p;
  }

  lemma BezoutTimes(p: int, x: int, a: int, y: int, b: int)
    requires p * x + a * y == 1
    ensures b == p * (x * b) + (a * b) * y
  {
    assert (p * x + a * y) * b == b;
    assert (p * x) * b == p * (x * b);
    assert (a * y) * b == (a * b) * y;
  }

  /** Euclid's lemma: a prime that divides a product divides a factor. */
  lemma PrimeDividesProduct(p: int, a: int, b: int)
    requires IsPrime(p) && (a * b) % p == 0
    ensures a % p == 0 || b % p == 0
  {
    var a' := a % p;
    ModMul(a, b, p);
    if a' != 0 {
      DivModUnique(a', p, 0, a');
      PrimeGcd(p, a');
      EuclidIsBezout(p, a');
      var r := Euclid(p, a');
      BezoutTimes(p, r.x, a', r.y, b);
      assert Divides(p, p) by { DividesZero(p); }
      assert Divides(p, a' * b);
      DividesCombination(p, p, a' * b, r.x * b, r.y);
    }
  }

  /** Only 1 and -1 square to 1 modulo a prime. */
  lemma SquareRootsOfOne(p: int, x: int)
    requires IsPrime(p) && 0 <= x < p && (x * x) % p == 1
    ensures x == 1 || x == p - 1
  {
    assert 1 % p == 1 by { DivModUnique(1, p, 0, 1); }
    ModEqualsDifference(x * x, 1, p);
    assert x * x - 1 == (x - 1) * (x + 1);
    PrimeDividesProduct(p, x - 1, x + 1);
    if (x - 1) % p == 0 {
      if x != 0 {
        DivModUnique(x - 1, p, 0, x - 1);
      }
    } else if x + 1 < p {
      DivModUnique(x + 1, p, 0, x + 1);
    }
  }

  /** Two distinct primes that divide z divide it together. */
  lemma DistinctPrimesDivide(p: int, q: int, z: int)
    requires IsPrime(p) && IsPrime(q) && p != q
    requires z % p == 0 && z % q == 0
    ensures p * q > 0 && z % (p * q) == 0
  {
    var k := z / p;
    assert z == p * k;
    PrimeDividesProduct(q, p, k);
    if p % q == 0 {
      if q < p {
        assert false;
      } else {
        DivModUnique(p, q, 0, p);
        assert false;
      }
    }
    var j := k / q;
    assert z == p * q * j by {
      assert k == q * j;
      assert p * (q * j) == p * q * j;
    }
    assert p * q > 0;
    MultipleMod(j, p * q);
  }

  // ---------------------------------------------------------------------
  // Fermat's little theorem, by way of the binomial expansion
  // ---------------------------------------------------------------------

  ghost function Choose(n: nat, k: nat): nat
  {
    if k == 0 then 1
    else if n == 0 then 0
    else Choose(n - 1, k - 1) + Choose(n - 1, k)
  }

  lemma {:induction false} ChooseBeyond(n: nat, k: nat)
    requires k > n
    ensures Choose(n, k) == 0
  {
    if n > 0 {
      ChooseBeyond(n - 1, k - 1);
      ChooseBeyond(n - 1, k);
    }
  }

  lemma {:induction false} ChooseAll(n: nat)
    ensures Choose(n, n) == 1
  {
    if n > 0 {
      ChooseAll(n - 1);
      ChooseBeyond(n - 1, n);
    }
  }

  /** k * C(n,k) == n * C(n-1,k-1) */
  lemma {:induction false} ChooseAbsorb(n: nat, k: nat)
    requires n > 0 && k > 0
    ensures k * Choose(n, k) == n * Choose(n - 1, k - 1)
  {
    if n == 1 {
      if k > 1 {
        ChooseBeyond(1, k);
        ChooseBeyond(0, k - 1);
      }
    } else if k == 1 {
      ChooseAbsorb(n - 1, 1);
    } else {
      ChooseAbsorb(n - 1, k - 1);
      ChooseAbsorb(n - 1, k);
      var c, d := Choose(n - 2, k - 2), Choose(n - 2, k - 1);
      assert Choose(n - 1, k - 1) == c + d;
      AbsorbArithmetic(n, k, Choose(n - 1, k - 1), Choose(n - 1, k), c, d);
    }
  }

  lemma AbsorbArithmetic(n: int, k: int, x: int, y: int, c: int, d: int)
    requires x == c + d && (k - 1) * x == (n - 1) * c && k * y == (n - 1) * d
    ensures k * (x + y) == n * x
  {
    assert k * (x + y) == (k - 1) * x + x + k * y;
    assert (n - 1) * c + (n - 1) * d == (n - 1) * (c + d);
  }

  lemma PrimeDividesChoose(p: nat, k: nat)
    requires IsPrime(p) && 0 < k < p
    ensures Choose(p, k) % p == 0
  {
    ChooseAbsorb(p, k);
    MultipleMod(Choose(p - 1, k - 1), p);
    PrimeDividesProduct(p, k, Choose(p, k));
    DivModUnique(k, p, 0, k);
  }

  /** The first k terms of the expansion of (a+1)^n. */
  ghost function BinomialSum(n: nat, a: int, k: nat): int
  {
    if k == 0 then 0 else BinomialSum(n, a, k - 1) + Choose(n, k - 1) * Pow(a, k - 1)
  }

  lemma {:induction false} BinomialStep(n: nat, a: int, k: nat)
    ensures BinomialSum(n + 1, a, k + 1) == BinomialSum(n, a, k + 1) + a * BinomialSum(n, a, k)
  {
    if k == 0 {
    } else {
      BinomialStep(n, a, k - 1);
      PascalTerm(Choose(n, k - 1), Choose(n, k), a, Pow(a, k - 1), BinomialSum(n, a, k - 1));
    }
  }

  lemma PascalTerm(c: int, d: int, a: int, t: int, s: int)
    ensures (c + d) * (a * t) + a * s == d * (a * t) + a * (s + c * t)
  {
    assert (c + d) * (a * t) == c * (a * t) + d * (a * t);
    assert a * (s + c * t) == a * s + a * (c * t);
    assert c * (a * t) == a * (c * t);
  }

  lemma SumEndsAt(n: nat, a: int)
    ensures BinomialSum(n, a, n + 2) == BinomialSum(n, a, n + 1)
  {
    ChooseBeyond(n, n + 1);
  }

  lemma SumOfNothing(a: int)
    ensures BinomialSum(0, a, 1) == 1
  {
    assert BinomialSum(0, a, 1) == BinomialSum(0, a, 0) + Choose(0, 0) * Pow(a, 0);
  }

  lemma Distributes(a: int, x: int)
    ensures (a + 1) * x == x + a * x
  {
  }

  lemma {:induction false} BinomialTheorem(n: nat, a: int)
    ensures Pow(a + 1, n) == BinomialSum(n, a, n + 1)
  {
    hide BinomialSum;
    if n == 0 {
      SumOfNothing(a);
    } else {
      BinomialTheorem(n - 1, a);
      BinomialStep(n - 1, a, n);
      SumEndsAt(n - 1, a);
      Distributes(a, BinomialSum(n - 1, a, n));
    }
  }

  /** All inner terms of the expansion vanish modulo a prime. */
  lemma {:induction false} InnerTermsVanish(p: nat, a: int, k: nat)
    requires IsPrime(p) && 1 <= k <= p
    ensures BinomialSum(p, a, k) % p == 1
  {
    if k == 1 {
      assert BinomialSum(p, a, 1) == BinomialSum(p, a, 0) + Choose(p, 0) * Pow(a, 0) == 1;
      DivModUnique(1, p, 0, 1);
    } else {
      InnerTermsVanish(p, a, k - 1);
      PrimeDividesChoose(p, k - 1);
      ModMulCong(Choose(p, k - 1), 0, Pow(a, k - 1), Pow(a, k - 1), p);
      MultipleMod(0, p);
      ModAdd(BinomialSum(p, a, k - 1), Choose(p, k - 1) * Pow(a, k - 1), p);
      DivModUnique(1, p, 0, 1);
    }
  }

  lemma {:induction false} FermatForNaturals(p: nat, a: nat)
    requires IsPrime(p)
    ensures Pow(a, p) % p == a % p
  {
    if a == 0 {
      assert Pow(0, p) == 0 * Pow(0, p - 1) == 0;
    } else {
      var b := a - 1;
      FermatForNaturals(p, b);
      BinomialTheorem(p, b);
      InnerTermsVanish(p, b, p);
      ChooseAll(p);
      assert Pow(a, p) == BinomialSum(p, b, p) + Pow(b, p);
      ModAdd(BinomialSum(p, b, p), Pow(b, p), p);
      ModAdd(1, b, p);
      DivModUnique(1, p, 0, 1);
    }
  }

  /** Fermat's little theorem. */
  lemma Fermat(p: nat, a: int)
    requires IsPrime(p) && a % p != 0
    ensures Pow(a, p - 1) % p == 1
  {
    var r := a % p;
    var t := Pow(r, p - 1);
    FermatForNaturals(p, r);
    DivModUnique(r, p, 0, r);
    ModEqualsDifference(Pow(r, p), r, p);
    assert Pow(r, p) - r == r * (t - 1) by {
      assert Pow(r, p) == r * t;
    }
    PrimeDividesProduct(p, r, t - 1);
    ModEqualsDifference(t, 1, p);
    DivModUnique(1, p, 0, 1);
    PowMod(a, p - 1, p);
  }
}
