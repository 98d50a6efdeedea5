/** A few declarations that several modules share. */
module Common {

  datatype Option<+T> = None | Some(value: T)

  type Byte = x: int | 0 <= x < 256

  function Abs(x: int): nat { if x < 0 then -x else x }

  function Max(x: int, y: int): int { if x >= y then x else y }

  function Pow2(n: nat): (r: nat)
    ensures n < r
  {
    if n == 0 then 1 else 2 * Pow2(n - 1)
  }

  lemma Doubles(n: nat)
    ensures Pow2(0) == 1 && Pow2(n + 1) == 2 * Pow2(n)
  {
  }

  lemma EightBitsUp(n: nat)
    ensures Pow2(n + 8) == 256 * Pow2(n)
  {
    assert Pow2(n + 2) == 4 * Pow2(n);
    assert Pow2(n + 4) == 4 * Pow2(n + 2);
    assert Pow2(n + 6) == 4 * Pow2(n + 4);
    assert Pow2(n + 8) == 4 * Pow2(n + 6);
  }
}
