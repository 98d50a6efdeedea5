/** How often the primality test misses a composite number: at least half of all bases
    expose one. */
module Witnesses {
  import opened NumberTheory
  import opened Rsa

  // ---------------------------------------------------------------------
  // Relatively prime numbers, by their combination to 1
  // ---------------------------------------------------------------------

  function Combination(a: int, x: int, n: int, y: int): int { a * x + n * y }

  ghost predicate Coprime(a: int, n: int) {
    exists x, y :: Combination(a, x, n, y) == 1
  }

  lemma CoprimeBy(a: int, x: int, n: int, y: int)
    requires a * x + n * y == 1
    ensures Coprime(a, n)
  {
    assert Combination(a, x, n, y) == 1;
  }

  lemma CoprimeToProduct(a: int, m: int, n: int)
    requires Coprime(a, m) && Coprime(a, n)
    ensures Coprime(a, m * n)
  {
    var x, y :| Combination(a, x, m, y) == 1;
    var x', y' :| Combination(a, x', n, y') == 1;
    ExpandModuli(a, m, n, x, y, x', y');
    CoprimeBy(a, a * x * x' + x * n * y' + m * y * x', m * n, y * y');
  }

  lemma ExpandModuli(a: int, m: int, n: int, x: int, y: int, x': int, y': int)
    requires a * x + m * y == 1 && a * x' + n * y' == 1
    ensures a * (a * x * x' + x * n * y' + m * y * x') + (m * n) * (y * y') == 1
  {
    assert (a * x + m * y) * (a * x' + n * y') == 1;
    assert (a * x + m * y) * (a * x' + n * y')
        == (a * x) * (a * x') + (a * x) * (n * y') + (m * y) * (a * x') + (m * y) * (n * y');
    assert (a * x) * (a * x') == a * (a * x * x');
    assert (a * x) * (n * y') == a * (x * n * y');
    assert (m * y) * (a * x') == a * (m * y * x');
    assert (m * y) * (n * y') == (m * n) * (y * y');
  }

  /** What is congruent to a number coprime to n is coprime to every divisor of n. */
  lemma CoprimeCongruent(a: int, b: int, p: int, m: int)
    requires p > 0 && Coprime(a, p * m) && a % p == b % p
    ensures Coprime(b, p)
  {
    var x, y :| Combination(a, x, p * m, y) == 1;
    ModEqualsDifference(a, b, p);
    var k := (a - b) / p;
    assert a == b + p * k;
    assert b * x + p * (k * x + m * y) == 1 by {
      assert a * x == b * x + p * k * x;
      assert (p * m) * y == p * (m * y);
      assert p * (k * x + m * y) == p * k * x + p * (m * y);
    }
    CoprimeBy(b, x, p, k * x + m * y);
  }

  lemma OneIsCoprime(b: int, m: int)
    requires m > 0 && b % m == 1 % m
    ensures Coprime(b, m)
  {
    ModEqualsDifference(b, 1, m);
    var k := (b - 1) / m;
    assert b * 1 + m * (-k) == 1;
    CoprimeBy(b, 1, m, -k);
  }

  /** A factor coprime to the modulus may be cancelled. */
  lemma Cancels(w: int, a: int, b: int, n: int)
    requires n > 0 && Coprime(w, n) && (w * a) % n == (w * b) % n
    ensures a % n == b % n
  {
    var x, y :| Combination(w, x, n, y) == 1;
    ModEqualsDifference(w * a, w * b, n);
    var k := (w * a - w * b) / n;
    assert w * a - w * b == n * k;
    assert a - b == n * (x * k + y * (a - b)) by {
      assert (w * x + n * y) * (a - b) == a - b;
      assert (w * x) * (a - b) == x * (w * a - w * b);
      assert x * (n * k) == n * (x * k);
      assert (n * y) * (a - b) == n * (y * (a - b));
    }
    MultipleMod(x * k + y * (a - b), n);
    ModEqualsDifference(a, b, n);
  }

  // ---------------------------------------------------------------------
  // From one multiplier to half of all bases
  // ---------------------------------------------------------------------

  /** w takes every base that does not expose n to one that does. */
  ghost predicate Multiplier(w: int, n: int)
    requires n > 2
  {
    && Coprime(w, n)
    && forall a: nat :: 1 <= a < n && !ProvesComposite(a, n) ==> ProvesComposite((w * a) % n, n)
  }

  ghost function Bases(n: nat): (r: set<nat>)
    ensures forall a :: a in r <==> 1 <= a < n
  {
    if n <= 1 then {} else Bases(n - 1) + {n - 1}
  }

  ghost function Exposing(n: nat): set<nat>
    requires n > 2
  {
    set a <- Bases(n) | ProvesComposite(a, n)
  }

  ghost function Silent(n: nat): set<nat>
    requires n > 2
  {
    set a <- Bases(n) | !ProvesComposite(a, n)
  }

  lemma {:induction false} BasesCount(n: nat)
    requires n >= 1
    ensures |Bases(n)| == n - 1
  {
    if n > 1 { BasesCount(n - 1); }
  }

  lemma {:induction false} InjectionBound(s: set<nat>, t: set<nat>, w: int, n: nat)
    requires n > 0 && Coprime(w, n)
    requires forall a <- s :: 1 <= a < n && (w * a) % n in t
    ensures |s| <= |t|
    decreases |s|
  {
    if s != {} {
      var a :| a in s;
      var image := (w * a) % n;
      forall b | b in s - {a}
        ensures (w * b) % n in t - {image}
      {
        if (w * b) % n == image {
          Cancels(w, a, b, n);
          DivModUnique(a, n, 0, a);
          DivModUnique(b, n, 0, b);
        }
      }
      InjectionBound(s - {a}, t - {image}, w, n);
    }
  }

  lemma MultiplierGivesHalf(w: int, n: nat)
    requires n > 2 && Multiplier(w, n)
    ensures 2 * |Exposing(n)| >= n - 1
  {
    hide ProvesComposite, Coprime;
    BasesCount(n);
    assert Bases(n) == Exposing(n) + Silent(n) && Exposing(n) !! Silent(n);
    forall a | a in Silent(n)
      ensures 1 <= a < n && (w * a) % n in Exposing(n)
    {
      if (w * a) % n == 0 {
        assert w * 0 == 0;
        DivModUnique(0, n, 0, 0);
        Cancels(w, a, 0, n);
        DivModUnique(a, n, 0, a);
      }
    }
    InjectionBound(Silent(n), Exposing(n), w, n);
  }

  // ---------------------------------------------------------------------
  // A multiplier when the Fermat test can fail
  // ---------------------------------------------------------------------

  lemma {:induction false} PowOfProduct(a: int, b: int, e: nat)
    ensures Pow(a * b, e) == Pow(a, e) * Pow(b, e)
  {
    if e > 0 {
      PowOfProduct(a, b, e - 1);
      Regroup(a, b, Pow(a, e - 1), Pow(b, e - 1));
    }
  }

  lemma Regroup(a: int, b: int, x: int, y: int)
    ensures (a * b) * (x * y) == (a * x) * (b * y)
  {
  }

  /** The power of a reduced product. */
  lemma PowOfReduced(w: int, a: int, e: nat, n: int)
    requires n > 0
    ensures Pow((w * a) % n, e) % n == (Pow(w, e) * Pow(a, e)) % n
  {
    PowMod(w * a, e, n);
    PowOfProduct(w, a, e);
  }

  lemma FermatFailureMultiplies(w: int, n: nat)
    requires n > 2 && Coprime(w, n) && Pow(w, n - 1) % n != 1
    ensures Multiplier(w, n)
  {
    hide Coprime, ExposedAt, Pow;
    forall a: nat | 1 <= a < n && !ProvesComposite(a, n)
      ensures ProvesComposite((w * a) % n, n)
    {
      PowOfReduced(w, a, n - 1, n);
      DivModUnique(1, n, 0, 1);
      ModMulCong(Pow(w, n - 1), Pow(w, n - 1), Pow(a, n - 1), 1, n);
    }
  }

  /** (1 + m)^k is 1 + k*m where the square of m vanishes. */
  lemma {:induction false} LinearPower(m: int, k: nat, n: int)
    requires n > 0 && (m * m) % n == 0
    ensures Pow(1 + m, k) % n == (1 + k * m) % n
  {
    if k > 0 {
      LinearPower(m, k - 1, n);
      var j := k - 1;
      ModMulCong(1 + m, 1 + m, Pow(1 + m, j), 1 + j * m, n);
      var q := (m * m) / n;
      assert (1 + m) * (1 + j * m) == 1 + k * m + n * (j * q) by {
        assert (1 + m) * (1 + j * m) == 1 + j * m + m + j * (m * m);
        assert j * (n * q) == n * (j * q);
      }
      ModAddMultiple(1 + k * m, j * q, n);
    }
  }

  /** A number with a square factor fails the Fermat test for 1 + n/p. */
  lemma SquareFactorMultiplies(p: nat, m: nat)
    requires p >= 2 && m >= 1 && m % p == 0 && p * m > 2
    ensures Multiplier(1 + m, p * m)
  {
    hide Multiplier, Coprime, Pow;
    var n := p * m;
    var k := m / p;
    assert m == p * k;
    SquareVanishes(p, m, k);
    MultipleMod(k, n);
    assert (1 + m) * (1 - m) + n * k == 1;
    CoprimeBy(1 + m, 1 - m, n, k);
    LinearPower(m, n - 1, n);
    assert 1 + (n - 1) * m == 1 - m + n * m;
    ModAddMultiple(1 - m, m, n);
    SquareFactorFails(p, m);
    FermatFailureMultiplies(1 + m, n);
  }

  lemma SquareVanishes(p: int, m: int, k: int)
    requires m == p * k
    ensures m * m == (p * m) * k
  {
    assert m * (p * k) == (p * m) * k;
  }

  lemma SquareFactorFails(p: nat, m: nat)
    requires p >= 2 && m >= 1 && p * m > 2
    ensures (1 - m) % (p * m) != 1
  {
    var n := p * m;
    assert m < n by { assert p * m >= 2 * m; }
    DivModUnique(1, n, 0, 1);
    ModEqualsDifference(1 - m, 1, n);
    var minus: int := 0 - m;
    DivModUnique(minus, n, -1, n - m);
  }

  // ---------------------------------------------------------------------
  // The powers that the test looks at
  // ---------------------------------------------------------------------

  /** The residue when the i lowest bits of n - 1 are still to come. */
  function Level(a: int, n: nat, i: nat): int
    requires n > 2
  {
    Pow(a, Prefix(n - 1, i)) % n
  }

  /** While the lowest bits are zero each level is the square of the next. */
  lemma LevelIsSquare(a: int, n: nat, i: nat)
    requires n > 2 && !Bit(n - 1, i)
    ensures Level(a, n, i) == (Level(a, n, i + 1) * Level(a, n, i + 1)) % n
  {
    var k := Prefix(n - 1, i + 1);
    PrefixStep(n - 1, i);
    PowAdd(a, k, k);
    ModMul(Pow(a, k), Pow(a, k), n);
    ModMul(Pow(a, k) % n, Pow(a, k), n);
  }

  /** Bit i of n - 1 is one. */
  predicate Odd(n: nat, i: nat)
    requires n > 2
  {
    Bit(n - 1, i)
  }

  /** The number of trailing zero bits of n - 1. */
  ghost predicate Trailing(n: nat, t: nat)
    requires n > 2
  {
    t < WIDTH && Odd(n, t) && forall i :: 0 <= i < t ==> !Odd(n, i)
  }

  lemma {:induction false} FindTrailing(n: nat, i: nat) returns (t: nat)
    requires n > 2 && Fits(n) && i <= WIDTH && Prefix(n - 1, i) > 0
    requires forall j :: 0 <= j < i ==> !Odd(n, j)
    ensures Trailing(n, t)
    decreases WIDTH - i
  {
    Pow2Monotone(WIDTH - 1, WIDTH);
    PrefixEnds(n - 1, WIDTH);
    if Odd(n, i) {
      t := i;
    } else {
      PrefixStep(n - 1, i);
      t := FindTrailing(n, i + 1);
    }
  }

  /** Level i of some number coprime to n is -1. */
  ghost predicate ReachesMinusOne(n: nat, i: nat)
    requires n > 2
  {
    exists v: nat :: ReachedBy(v, n, i)
  }

  ghost predicate ReachedBy(v: nat, n: nat, i: nat)
    requires n > 2
  {
    1 <= v < n && Coprime(v, n) && Level(v, n, i) == n - 1
  }

  /** At its odd power, n - 1 itself is -1. */
  lemma LastLevelReaches(n: nat, t: nat)
    requires n > 2 && Trailing(n, t)
    ensures ReachesMinusOne(n, t)
  {
    var k := Prefix(n - 1, t);
    PrefixStep(n - 1, t);
    MinusOneToOdd(n, k);
    assert (n - 1) * (-1) + n * 1 == 1;
    CoprimeBy(n - 1, -1, n, 1);
    assert ReachedBy(n - 1, n, t);
  }

  lemma {:induction false} MinusOneToOdd(n: nat, k: nat)
    requires n > 2
    ensures Pow(n - 1, k) % n == if k % 2 == 1 then n - 1 else 1
  {
    DivModUnique(n - 1, n, 0, n - 1);
    DivModUnique(1, n, 0, 1);
    if k > 0 {
      MinusOneToOdd(n, k - 1);
      var r := if (k - 1) % 2 == 1 then n - 1 else 1;
      ModMulCong(n - 1, n - 1, Pow(n - 1, k - 1), r, n);
      assert (n - 1) * (n - 1) == n * (n - 2) + 1;
      DivModUnique((n - 1) * (n - 1), n, n - 2, 1);
    }
  }

  lemma {:induction false} FirstReaching(n: nat, t: nat, i: nat) returns (j: nat)
    requires n > 2 && i <= t && ReachesMinusOne(n, t) && forall k :: 0 <= k < i ==> !ReachesMinusOne(n, k)
    ensures i <= j <= t && ReachesMinusOne(n, j) && forall k :: 0 <= k < j ==> !ReachesMinusOne(n, k)
    decreases t - i
  {
    if ReachesMinusOne(n, i) {
      j := i;
    } else {
      j := FirstReaching(n, t, i + 1);
    }
  }

  /** A base that passes Fermat's test is coprime to n. */
  lemma PassingIsCoprime(a: int, n: nat)
    requires n > 2 && Pow(a, n - 1) % n == 1
    ensures Coprime(a, n)
  {
    var x := Pow(a, n - 2);
    assert a * x == Pow(a, n - 1);
    var k := (a * x) / n;
    assert a * x + n * (-k) == 1;
    CoprimeBy(a, x, n, -k);
  }

  /** Up to the first level at which anything reaches -1, a silent base has 1 or -1. */
  lemma {:induction false} SilentLevels(a: nat, n: nat, t: nat, j: nat, i: nat)
    requires n > 2 && 1 <= a < n && !ProvesComposite(a, n) && Trailing(n, t) && i <= j <= t
    requires forall k :: 0 <= k < j ==> !ReachesMinusOne(n, k)
    ensures Level(a, n, i) == 1 || (i == j && Level(a, n, i) == n - 1)
    decreases i
  {
    hide Coprime, Pow, Bit, Prefix, Fits;
    PassingIsCoprime(a, n);
    if i == 0 {
      PrefixEnds(n - 1, 0);
    } else {
      SilentLevels(a, n, t, j, i - 1);
      assert !Odd(n, i - 1) && !ExposedAt(a, n, i - 1);
      LevelIsSquare(a, n, i - 1);
      assert i < j ==> !ReachesMinusOne(n, i);
      assert i < j ==> !ReachedBy(a, n, i);
    }
  }

  // ---------------------------------------------------------------------
  // A multiplier for numbers on which the Fermat test never fails
  // ---------------------------------------------------------------------

  /** A number that is congruent to v modulo p and to 1 modulo m. */
  lemma ChineseRemainder(p: nat, m: nat, v: int) returns (w: nat)
    requires p >= 2 && m >= 2 && Coprime(p, m)
    ensures w < p * m && w % p == v % p && w % m == 1
  {
    var x, y :| Combination(p, x, m, y) == 1;
    var n := p * m;
    assert n > 0;
    var z := v * (m * y) + p * x;
    assert z == v + p * (x - v * x) by {
      assert m * y == 1 - p * x;
      assert v * (1 - p * x) == v - p * (v * x);
      assert p * (x - v * x) == p * x - p * (v * x);
    }
    ModAddMultiple(v, x - v * x, p);
    assert z == 1 + m * (v * y - y) by {
      assert p * x == 1 - m * y;
      assert v * (m * y) == m * (v * y);
      assert m * (v * y - y) == m * (v * y) - m * y;
    }
    ModAddMultiple(1, v * y - y, m);
    DivModUnique(1, m, 0, 1);
    w := z % n;
    ReducedModFactor(z, p, m);
  }

  lemma ReducedModFactor(z: int, p: nat, m: nat)
    requires p >= 1 && m >= 1
    ensures p * m > 0 && (z % (p * m)) % p == z % p && (z % (p * m)) % m == z % m
  {
    var n := p * m;
    assert n > 0;
    var k := z / n;
    assert z % n == z - n * k;
    assert n * k == p * (m * k) && n * k == m * (p * k);
    ModAddMultiple(z, -(m * k), p);
    ModAddMultiple(z, -(p * k), m);
    assert p * -(m * k) == -(p * (m * k)) && m * -(p * k) == -(m * (p * k));
  }

  /** -1 modulo n is -1 modulo every factor. */
  lemma MinusOneModFactor(z: int, p: nat, m: nat)
    requires p >= 2 && m >= 1 && p * m > 1 && z % (p * m) == p * m - 1
    ensures z % p == p - 1
  {
    ReducedModFactor(z, p, m);
    assert p * m - 1 == p * (m - 1) + (p - 1);
    DivModUnique(p * m - 1, p, m - 1, p - 1);
  }

  lemma OneModFactor(z: int, p: nat, m: nat)
    requires p >= 2 && m >= 1 && p * m > 1 && z % (p * m) == 1
    ensures z % p == 1
  {
    ReducedModFactor(z, p, m);
    DivModUnique(1, p, 0, 1);
  }

  /** Something that is -1 modulo one factor and 1 modulo the other cannot be made 1
      or -1 modulo the product by a factor that is 1 or -1. */
  lemma MixedSigns(x: int, a: int, p: nat, m: nat)
    requires p >= 3 && m >= 3 && x % p == p - 1 && x % m == 1
    requires p * m > 2 && (a % (p * m) == 1 || a % (p * m) == p * m - 1)
    ensures (x * a) % (p * m) != 1 && (x * a) % (p * m) != p * m - 1
  {
    var n := p * m;
    assert p * m == m * p;
    DivModUnique(1, p, 0, 1);
    DivModUnique(1, m, 0, 1);
    DivModUnique(p - 1, p, 0, p - 1);
    DivModUnique(m - 1, m, 0, m - 1);
    if a % n == 1 {
      OneModFactor(a, p, m);
      OneModFactor(a, m, p);
      ModMulCong(x, p - 1, a, 1, p);
      ModMulCong(x, 1, a, 1, m);
      assert (x * a) % p == p - 1 && (x * a) % m == 1;
    } else {
      MinusOneModFactor(a, p, m);
      MinusOneModFactor(a, m, p);
      ModMulCong(x, p - 1, a, p - 1, p);
      MinusOneSquared(p);
      ModMulCong(x, 1, a, m - 1, m);
      assert (x * a) % p == 1 && (x * a) % m == m - 1;
    }
    if (x * a) % n == 1 {
      OneModFactor(x * a, p, m);
      OneModFactor(x * a, m, p);
    }
    if (x * a) % n == n - 1 {
      MinusOneModFactor(x * a, p, m);
      MinusOneModFactor(x * a, m, p);
    }
  }

  lemma MinusOneSquared(p: nat)
    requires p >= 3
    ensures ((p - 1) * (p - 1)) % p == 1
  {
    assert (p - 1) * (p - 1) == p * (p - 2) + 1;
    DivModUnique((p - 1) * (p - 1), p, p - 2, 1);
  }

  /** With two coprime factors there is a multiplier even where Fermat's test passes
      for everything that is coprime to n. */
  lemma CoprimeFactorsMultiply(p: nat, m: nat, t: nat) returns (w: nat)
    requires p >= 3 && m >= 3 && Coprime(p, m) && p * m > 2 && Trailing(p * m, t)
    ensures Multiplier(w, p * m)
  {
    var n := p * m;
    LastLevelReaches(n, t);
    assert !ReachesMinusOne(n, 0) || ReachesMinusOne(n, 0);
    var j := FirstReaching(n, t, 0);
    var v: nat :| ReachedBy(v, n, j);
    w := ChineseRemainder(p, m, v);
    WIsCoprime(p, m, v, w);
    var e := Prefix(n - 1, j);
    WLevel(p, m, v, w, e);
    forall a: nat | 1 <= a < n && !ProvesComposite(a, n)
      ensures ProvesComposite((w * a) % n, n)
    {
      WTimesSilent(p, m, t, j, w, a);
    }
  }

  lemma WIsCoprime(p: nat, m: nat, v: nat, w: nat)
    requires p >= 3 && m >= 3 && Coprime(v, p * m) && w % p == v % p && w % m == 1
    ensures Coprime(w, p * m)
  {
    CoprimeCongruent(v, w, p, m);
    DivModUnique(1, m, 0, 1);
    OneIsCoprime(w, m);
    CoprimeToProduct(w, p, m);
  }

  lemma WLevel(p: nat, m: nat, v: nat, w: nat, e: nat)
    requires p >= 3 && m >= 3 && p * m > 2 && w % p == v % p && w % m == 1
    requires Pow(v, e) % (p * m) == p * m - 1
    ensures Pow(w, e) % p == p - 1 && Pow(w, e) % m == 1
  {
    PowCong(w, v, e, p);
    MinusOneModFactor(Pow(v, e), p, m);
    DivModUnique(1, m, 0, 1);
    PowCong(w, 1, e, m);
    PowOne(e);
  }

  lemma WTimesSilent(p: nat, m: nat, t: nat, j: nat, w: nat, a: nat)
    requires p >= 3 && m >= 3 && p * m > 2 && 1 <= a < p * m && !ProvesComposite(a, p * m)
    requires Trailing(p * m, t) && j <= t && forall k :: 0 <= k < j ==> !ReachesMinusOne(p * m, k)
    requires var e := Prefix(p * m - 1, j); Pow(w, e) % p == p - 1 && Pow(w, e) % m == 1
    requires Coprime(w, p * m)
    ensures ProvesComposite((w * a) % (p * m), p * m)
  {
    hide ProvesComposite, Pow, Prefix, Coprime, ReachesMinusOne;
    var n := p * m;
    var b := (w * a) % n;
    var e := Prefix(n - 1, j);
    SilentLevels(a, n, t, j, j);
    PowOfReduced(w, a, e, n);
    MixedSigns(Pow(w, e), Pow(a, e), p, m);
    if b == 0 {
      assert w * 0 == 0;
      DivModUnique(0, n, 0, 0);
      Cancels(w, a, 0, n);
      DivModUnique(a, n, 0, a);
    }
    if !ProvesComposite(b, n) {
      SilentLevels(b, n, t, j, j);
    }
  }

  // ---------------------------------------------------------------------
  // Every composite number
  // ---------------------------------------------------------------------

  ghost predicate Composite(n: nat) {
    exists d: nat :: 2 <= d < n && n % d == 0
  }

  /** The least divisor above 1 is prime. */
  lemma {:induction false} LeastDivisor(n: nat, d: nat, i: nat) returns (p: nat)
    requires n >= 2 && 2 <= i <= d < n && n % d == 0 && forall k :: 2 <= k < i ==> n % k != 0
    ensures 2 <= p < n && n % p == 0 && IsPrime(p)
    decreases d - i
  {
    if n % i == 0 {
      p := i;
      forall k | 2 <= k < i
        ensures i % k != 0
      {
        if i % k == 0 {
          DivisorOfDivisor(n, i, k);
        }
      }
    } else {
      p := LeastDivisor(n, d, i + 1);
    }
  }

  lemma DivisorOfDivisor(n: nat, i: nat, k: nat)
    requires i > 0 && k > 0 && n % i == 0 && i % k == 0
    ensures n % k == 0
  {
    var q, r := n / i, i / k;
    assert n == i * q && i == k * r;
    assert n == k * (r * q) by { assert (k * r) * q == k * (r * q); }
    MultipleMod(r * q, k);
  }

  lemma PrimeIsCoprime(p: nat, m: nat)
    requires IsPrime(p) && m % p != 0
    ensures Coprime(p, m)
  {
    PrimeGcd(p, m);
    EuclidIsBezout(p, m);
    CoprimeBy(p, Euclid(p, m).x, m, Euclid(p, m).y);
  }

  lemma OddFactor(p: nat, m: nat)
    requires p >= 1 && m >= 2 && (p * m) % 2 == 1
    ensures m >= 3
  {
    MultipleMod(p, 2);
  }

  /** An even number fails the Fermat test for its predecessor. */
  lemma EvenMultiplies(n: nat)
    requires n > 2 && n % 2 == 0
    ensures Multiplier(n - 1, n)
  {
    hide ProvesComposite, Coprime, Pow;
    MinusOneToOdd(n, n - 1);
    assert (n - 1) * (-1) + n * 1 == 1;
    CoprimeBy(n - 1, -1, n, 1);
    FermatFailureMultiplies(n - 1, n);
  }

  lemma OddMultiplier(p: nat, m: nat) returns (w: nat)
    requires IsPrime(p) && m >= 2 && (p * m) % 2 == 1 && p * m > 2 && Fits(p * m)
    ensures Multiplier(w, p * m)
  {
    hide ProvesComposite, Coprime, Fits, Bit, Prefix, Multiplier;
    if m % p == 0 {
      w := 1 + m;
      SquareFactorMultiplies(p, m);
    } else {
      PrimeIsCoprime(p, m);
      OddFactor(p, m);
      assert p * m == m * p;
      OddFactor(m, p);
      assert Prefix(p * m - 1, 0) > 0 by { PrefixEnds(p * m - 1, 0); }
      var t := FindTrailing(p * m, 0);
      w := CoprimeFactorsMultiply(p, m, t);
    }
  }

  lemma MultiplierExists(n: nat) returns (w: nat)
    requires n > 2 && Fits(n) && Composite(n)
    ensures Multiplier(w, n)
  {
    hide Multiplier, Fits;
    if n % 2 == 0 {
      EvenMultiplies(n);
      w := n - 1;
    } else {
      var d: nat :| 2 <= d < n && n % d == 0;
      var p := LeastDivisor(n, d, 2);
      var m := n / p;
      assert n == p * m && p * 1 == p && p * 0 == 0;
      w := OddMultiplier(p, m);
    }
  }

  /** Of the bases of a composite number at least half expose it. */
  lemma HalfOfAllBasesExpose(n: nat)
    requires n > 2 && Fits(n) && Composite(n)
    ensures |Bases(n)| == n - 1 && Exposing(n) <= Bases(n) && 2 * |Exposing(n)| >= |Bases(n)|
  {
    hide ProvesComposite, Coprime, Fits;
    BasesCount(n);
    var w := MultiplierExists(n);
    MultiplierGivesHalf(w, n);
  }

  // ---------------------------------------------------------------------
  // Several rounds
  // ---------------------------------------------------------------------

  /** The lists of k elements of s. */
  ghost function Lists(s: set<nat>, k: nat): set<seq<nat>> {
    if k == 0 then {[]} else set t <- Lists(s, k - 1), a <- s :: t + [a]
  }

  ghost function Extended(ts: set<seq<nat>>, a: nat): set<seq<nat>> {
    set t <- ts :: t + [a]
  }

  lemma {:induction false} ExtendedCount(ts: set<seq<nat>>, a: nat)
    ensures |Extended(ts, a)| == |ts|
    decreases |ts|
  {
    if ts == {} {
      assert Extended(ts, a) == {};
    } else {
      var t :| t in ts;
      var rest := ts - {t};
      ExtendedCount(rest, a);
      assert Extended(ts, a) == Extended(rest, a) + {t + [a]};
      forall u | u in rest
        ensures u + [a] != t + [a]
      {
        assert (u + [a])[..|u|] == u && (t + [a])[..|t|] == t;
      }
    }
  }

  ghost function Products(ts: set<seq<nat>>, s: set<nat>): set<seq<nat>> {
    set t <- ts, a <- s :: t + [a]
  }

  lemma ProductsUnion(ts: set<seq<nat>>, rest: set<nat>, a: nat)
    ensures Products(ts, rest + {a}) == Products(ts, rest) + Extended(ts, a)
  {
  }

  lemma LastsDiffer(ts: set<seq<nat>>, rest: set<nat>, a: nat)
    requires a !in rest
    ensures Products(ts, rest) !! Extended(ts, a)
  {
    assert forall x <- Products(ts, rest) :: |x| > 0 && x[|x| - 1] in rest;
    assert forall x <- Extended(ts, a) :: |x| > 0 && x[|x| - 1] == a;
  }

  lemma NoProducts(ts: set<seq<nat>>)
    ensures Products(ts, {}) == {}
  {
  }

  lemma {:induction false} ProductsCount(ts: set<seq<nat>>, s: set<nat>)
    ensures |Products(ts, s)| == |ts| * |s|
    decreases |s|
  {
    hide Products, Extended;
    if s == {} {
      NoProducts(ts);
    } else {
      var a :| a in s;
      var rest := s - {a};
      assert s == rest + {a};
      ProductsCount(ts, rest);
      ExtendedCount(ts, a);
      ProductsUnion(ts, rest, a);
      LastsDiffer(ts, rest, a);
      OneMore(|ts|, |rest|);
    }
  }

  lemma OneMore(x: int, y: int)
    ensures x * (y + 1) == x * y + x
  {
  }

  lemma {:induction false} ListsCount(s: set<nat>, k: nat)
    ensures |Lists(s, k)| == Pow(|s|, k)
  {
    if k > 0 {
      ListsCount(s, k - 1);
      ProductsCount(Lists(s, k - 1), s);
      assert Lists(s, k) == Products(Lists(s, k - 1), s);
    }
  }

  lemma {:induction false} PowersCompare(a: nat, b: nat, k: nat)
    requires 2 * a <= b
    ensures Pow(2, k) * Pow(a, k) <= Pow(b, k) && Pow(a, k) >= 0 && Pow(b, k) >= 0
  {
    if k > 0 {
      PowersCompare(a, b, k - 1);
      var x, y, z := Pow(2, k - 1), Pow(a, k - 1), Pow(b, k - 1);
      PowPositive(2, k - 1);
      CompareStep(a, b, x, y, z);
    }
  }

  lemma CompareStep(a: nat, b: nat, x: int, y: int, z: int)
    requires 2 * a <= b && x * y <= z && x > 0 && y >= 0 && z >= 0
    ensures (2 * x) * (a * y) <= b * z && a * y >= 0 && b * z >= 0
  {
    assert (2 * x) * (a * y) == (2 * a) * (x * y);
    assert x * y >= 0;
    assert (b - 2 * a) * (x * y) >= 0;
    assert b * (z - x * y) >= 0;
  }

  // ---------------------------------------------------------------------
  // Random strings
  // ---------------------------------------------------------------------

  /** The draws below bound whose base does not expose n. */
  ghost function SilentDraws(n: nat, bound: nat): (r: set<nat>)
    requires n > 2
    ensures forall d: nat :: d in r <==> d < bound && Base(d, n) in Silent(n)
  {
    if bound == 0 then {}
    else SilentDraws(n, bound - 1) + (if Base(bound - 1, n) in Silent(n) then {bound - 1} else {})
  }

  /** The silent bases up to a. */
  ghost function SilentUpTo(n: nat, a: nat): set<nat>
    requires n > 2
  {
    set b <- Silent(n) | b <= a
  }

  lemma SilentUpToNext(n: nat, a: nat)
    requires n > 2
    ensures |SilentUpTo(n, a + 1)| == |SilentUpTo(n, a)| + if a + 1 in Silent(n) then 1 else 0
  {
    hide Silent;
    assert SilentUpTo(n, a + 1) == SilentUpTo(n, a) + (if a + 1 in Silent(n) then {a + 1} else {});
  }

  lemma SilentUpToEnds(n: nat)
    requires n > 2
    ensures SilentUpTo(n, 0) == {} && SilentUpTo(n, n - 1) == Silent(n)
  {
    hide ProvesComposite;
  }

  lemma {:induction false} SilentUpToCount(n: nat, a: nat)
    requires n > 2
    ensures |SilentUpTo(n, a)| <= a
  {
    hide Silent, SilentUpTo;
    if a == 0 {
      SilentUpToEnds(n);
    } else {
      SilentUpToCount(n, a - 1);
      SilentUpToNext(n, a - 1);
    }
  }

  lemma DivModStep(d: nat, m: nat)
    requires m > 0
    ensures if d % m + 1 < m then (d + 1) / m == d / m && (d + 1) % m == d % m + 1
      else (d + 1) / m == d / m + 1 && (d + 1) % m == 0
  {
    var q, r := d / m, d % m;
    assert d == m * q + r;
    if r + 1 < m {
      DivModUnique(d + 1, m, q, r + 1);
    } else {
      assert d + 1 == m * (q + 1) + 0;
      DivModUnique(d + 1, m, q + 1, 0);
    }
  }

  /** A round of n-1 draws meets every silent base once; the last, broken round meets the
      silent bases up to its remainder. */
  lemma {:induction false} SilentDrawsCount(n: nat, bound: nat)
    requires n > 2
    ensures |SilentDraws(n, bound)| == bound / (n - 1) * |Silent(n)| + |SilentUpTo(n, bound % (n - 1))|
  {
    hide Silent, SilentUpTo, SilentDraws;
    if bound == 0 {
      SilentUpToEnds(n);
      DivModUnique(0, n - 1, 0, 0);
      assert |SilentDraws(n, 0)| == 0 by { NoDraws(n); }
    } else {
      SilentDrawsCount(n, bound - 1);
      OneDrawMore(n, bound - 1);
      NextRound(n, bound - 1);
    }
  }

  lemma NoDraws(n: nat)
    requires n > 2
    ensures SilentDraws(n, 0) == {}
  {
  }

  lemma OneDrawMore(n: nat, d: nat)
    requires n > 2
    ensures |SilentDraws(n, d + 1)| == |SilentDraws(n, d)| + if d % (n - 1) + 1 in Silent(n) then 1 else 0
  {
    hide Silent;
    assert Base(d, n) == d % (n - 1) + 1;
    assert d !in SilentDraws(n, d);
  }

  lemma NextRound(n: nat, d: nat)
    requires n > 2
    ensures (d + 1) / (n - 1) * |Silent(n)| + |SilentUpTo(n, (d + 1) % (n - 1))|
      == d / (n - 1) * |Silent(n)| + |SilentUpTo(n, d % (n - 1))| + if d % (n - 1) + 1 in Silent(n) then 1 else 0
  {
    hide Silent, SilentUpTo;
    var r := d % (n - 1);
    DivModStep(d, n - 1);
    SilentUpToEnds(n);
    SilentUpToNext(n, r);
    OneMore(|Silent(n)|, d / (n - 1));
  }

  /** Reducing a draw modulo n-1 is not quite even: the surplus is at most half a round. */
  lemma SilentDrawsBound(n: nat, bound: nat)
    requires n > 2 && Fits(n) && Composite(n)
    ensures 2 * |SilentDraws(n, bound)| <= bound + (n - 1) / 2
  {
    hide ProvesComposite, Fits, SilentDraws, Silent, Composite;
    SilentIsHalf(n);
    SilentDrawsCount(n, bound);
    var q, r, m := bound / (n - 1), bound % (n - 1), n - 1;
    SilentUpToCount(n, r);
    SubsetCount(SilentUpTo(n, r), Silent(n));
    RoundsBound(bound, q, r, m, |Silent(n)|, |SilentUpTo(n, r)|);
  }

  lemma SilentIsHalf(n: nat)
    requires n > 2 && Fits(n) && Composite(n)
    ensures 2 * |Silent(n)| <= n - 1
  {
    hide ProvesComposite, Fits;
    HalfOfAllBasesExpose(n);
    assert Bases(n) == Exposing(n) + Silent(n) && Exposing(n) !! Silent(n);
  }

  lemma SubsetCount(s: set<nat>, t: set<nat>)
    requires s <= t
    ensures |s| <= |t|
  {
    assert t == s + (t - s);
  }

  lemma RoundsBound(bound: nat, q: nat, r: nat, m: nat, silent: nat, part: nat)
    requires m > 0 && q == bound / m && r == bound % m
    requires 2 * silent <= m && part <= silent && part <= r
    ensures 2 * (q * silent + part) <= bound + m / 2
  {
    assert bound == m * q + r;
    assert (m - 2 * silent) * q >= 0;
    assert 2 * (q * silent) <= m * q;
  }

  ghost function Below(bound: nat): (r: set<nat>)
    ensures forall d :: d in r <==> 0 <= d < bound
  {
    if bound == 0 then {} else Below(bound - 1) + {bound - 1}
  }

  /** The lists of k draws below bound none of which exposes n: those on which k rounds of
      the test find nothing. */
  ghost function Missing(n: nat, bound: nat, k: nat): set<seq<nat>>
    requires n > 2
  {
    set draws <- Lists(Below(bound), k) | forall j :: 0 <= j < |draws| ==> !ProvesComposite(Base(draws[j], n), n)
  }

  lemma {:induction false} ListedIff(s: set<nat>, k: nat, draws: seq<nat>)
    ensures draws in Lists(s, k) <==> |draws| == k && forall j :: 0 <= j < k ==> draws[j] in s
  {
    if k > 0 && draws != [] {
      var n := |draws| - 1;
      ListedIff(s, k - 1, draws[..n]);
      assert draws == draws[..n] + [draws[n]];
    }
  }

  lemma MissingAreSilent(n: nat, bound: nat, k: nat)
    requires n > 2
    ensures Missing(n, bound, k) == Lists(SilentDraws(n, bound), k)
  {
    hide ProvesComposite, Lists;
    forall draws
      ensures draws in Missing(n, bound, k) <==> draws in Lists(SilentDraws(n, bound), k)
    {
      ListedIff(Below(bound), k, draws);
      ListedIff(SilentDraws(n, bound), k, draws);
    }
  }

  /** Those lists are exactly what the rounds of the test let pass. */
  lemma MissingIff(n: nat, bound: nat, draws: seq<nat>)
    requires n > 2
    ensures draws in Missing(n, bound, |draws|) <==>
      forall j :: 0 <= j < |draws| ==> draws[j] < bound && !ProvesComposite(Base(draws[j], n), n)
  {
    hide ProvesComposite, Lists;
    ListedIff(Below(bound), |draws|, draws);
  }

  /** The error bound that the test's comment claims, for the strings that the program
      draws and reduces: of the lists of k strings below 2^bits, of which there are
      2^(bits*k), the ones that leave a composite number unexposed are one in 2^k, but for
      a surplus of half the number for each string. */
  lemma ErrorBound(n: nat, bits: nat, k: nat)
    requires n > 2 && Fits(n) && Composite(n)
    ensures Pow(2, bits) >= 0 && |Lists(Below(Pow(2, bits)), k)| == Pow(Pow(2, bits), k)
    ensures Pow(2, k) * |Missing(n, Pow(2, bits), k)| <= Pow(Pow(2, bits) + (n - 1) / 2, k)
  {
    hide ProvesComposite, Fits, Lists, Pow, Missing, SilentDraws;
    PowPositive(2, bits);
    var bound := Pow(2, bits);
    BelowCount(bound);
    ListsCount(Below(bound), k);
    MissingAreSilent(n, bound, k);
    SilentDrawsBound(n, bound);
    ListsCount(SilentDraws(n, bound), k);
    PowersCompare(|SilentDraws(n, bound)|, bound + (n - 1) / 2, k);
  }

  lemma {:induction false} BelowCount(bound: nat)
    ensures |Below(bound)| == bound
  {
    if bound > 0 { BelowCount(bound - 1); }
  }
}
