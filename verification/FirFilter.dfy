/** A 16-tap filter: its convolution, its behavioural form, and the state machine with
    datapath that computes it in four clock cycles. */
module FirFilter {
  import opened Common

  const TAPS: nat := 16
  const COEFS: seq<int> := [-6, -4, 13, 16, -18, -41, 23, 154, 222, 154, 23, -41, -18, 16, 13, -4]

  function Coef(k: nat): int
    requires k < TAPS
  {
    COEFS[k]
  }

  // ---------------------------------------------------------------------
  // Fixed-width numbers
  // ---------------------------------------------------------------------

  /** Signed two's complement numbers of 8, 17 and 19 bits. */
  function Wrap8(x: int): int { (x + 0x80) % 0x100 - 0x80 }
  function Wrap17(x: int): int { (x + 0x1_0000) % 0x2_0000 - 0x1_0000 }
  function Wrap19(x: int): int { (x + 0x4_0000) % 0x8_0000 - 0x4_0000 }

  lemma Fits19(x: int)
    requires -0x4_0000 <= x < 0x4_0000
    ensures Wrap19(x) == x
  {
  }

  predicate InByte(x: int) { -128 <= x < 128 }

  predicate Window(w: seq<int>) {
    |w| == TAPS && forall i :: 0 <= i < TAPS ==> InByte(w[i])
  }

  lemma Wrap8InByte(x: int)
    ensures InByte(Wrap8(x))
  {
  }

  /** Each narrowing keeps a number that fits, and always lands on the one number of its
      range that differs by a multiple of the range. */
  lemma NarrowingKeepsWhatFits(x: int)
    ensures -0x80 <= Wrap8(x) < 0x80 && (Wrap8(x) - x) % 0x100 == 0 && (InByte(x) ==> Wrap8(x) == x)
    ensures -0x1_0000 <= Wrap17(x) < 0x1_0000 && (Wrap17(x) - x) % 0x2_0000 == 0
    ensures -0x4_0000 <= Wrap19(x) < 0x4_0000 && (Wrap19(x) - x) % 0x8_0000 == 0
    ensures -0x1_0000 <= x < 0x1_0000 ==> Wrap17(x) == x
    ensures -0x4_0000 <= x < 0x4_0000 ==> Wrap19(x) == x
  {
  }

  // ---------------------------------------------------------------------
  // What the filter is for
  // ---------------------------------------------------------------------

  /** Sample i of a stream that was silent before it began. */
  function At(xs: seq<int>, i: int): int {
    if 0 <= i < |xs| then xs[i] else 0
  }

  /** The convolution at n, taps k and up. */
  function Conv(xs: seq<int>, n: int, k: nat): int
    requires k <= TAPS
    decreases TAPS - k
  {
    if k == TAPS then 0 else Conv(xs, n, k + 1) + Coef(k) * At(xs, n - k)
  }

  /** Four neighbouring samples, weighted. */
  function Quad(xs: seq<int>, n: int, a: int, b: int, c: int, d: int): int {
    a * At(xs, n) + b * At(xs, n - 1) + c * At(xs, n - 2) + d * At(xs, n - 3)
  }

  /** The convolution written out. */
  lemma ConvInFull(xs: seq<int>, n: int)
    ensures Conv(xs, n, 0) == Quad(xs, n, -6, -4, 13, 16) + Quad(xs, n - 4, -18, -41, 23, 154)
      + Quad(xs, n - 8, 222, 154, 23, -41) + Quad(xs, n - 12, -18, 16, 13, -4)
  {
    hide At;
    assert Conv(xs, n, 14) == 13 * At(xs, n - 14) + -4 * At(xs, n - 15);
    assert Conv(xs, n, 12) == Quad(xs, n - 12, -18, 16, 13, -4);
    assert Conv(xs, n, 10) == 23 * At(xs, n - 10) + -41 * At(xs, n - 11) + Conv(xs, n, 12);
    assert Conv(xs, n, 8) == Quad(xs, n - 8, 222, 154, 23, -41) + Conv(xs, n, 12);
    assert Conv(xs, n, 6) == 23 * At(xs, n - 6) + 154 * At(xs, n - 7) + Conv(xs, n, 8);
    assert Conv(xs, n, 4) == Quad(xs, n - 4, -18, -41, 23, 154) + Conv(xs, n, 8);
    assert Conv(xs, n, 2) == 13 * At(xs, n - 2) + 16 * At(xs, n - 3) + Conv(xs, n, 4);
  }

  /** The taps after the first are symmetric, and all of them add up to 502: a stream that
      has been constant for sixteen samples comes out 502 times as large. */
  lemma ConstantStream(xs: seq<int>, n: nat, x: int)
    requires 15 <= n < |xs| && forall i :: n - 15 <= i <= n ==> xs[i] == x
    ensures Conv(xs, n, 0) == 502 * x
    ensures forall k :: 1 <= k < TAPS ==> Coef(k) == Coef(TAPS - k)
  {
    ConvInFull(xs, n);
    hide Conv;
    assert forall i :: n - 15 <= i <= n ==> At(xs, i) == x;
  }

  function Ramp(m: nat): seq<int> { seq(m, i => i) }

  /** The stimulus counts up from 0; once it has filled the register the results rise by 502
      each time. These are the numbers of the program's log. */
  lemma RampResponse(m: nat, n: nat)
    requires n < m
    ensures n >= 15 ==> Conv(Ramp(m), n, 0) == 502 * n - 4064
    ensures var recorded := [0, -6, -16, -13, 6, 7, -33, -50, 87, 446, 959, 1495, 1990, 2467, 2960];
      n < 15 ==> Conv(Ramp(m), n, 0) == recorded[n]
  {
    ConvInFull(Ramp(m), n);
    hide Conv;
    assert forall i :: 0 <= i < m ==> At(Ramp(m), i) == i;
    assert forall i :: i < 0 ==> At(Ramp(m), i) == 0;
    if n >= 15 {
      hide At;
    } else if n < 8 {
      assert n == 0 || n == 1 || n == 2 || n == 3 || n == 4 || n == 5 || n == 6 || n == 7;
    } else {
      assert n == 8 || n == 9 || n == 10 || n == 11 || n == 12 || n == 13 || n == 14;
    }
  }

  lemma {:induction false} ConvLooksBack(xs: seq<int>, v: int, n: nat, k: nat)
    requires n < |xs| && k <= TAPS
    ensures Conv(xs + [v], n, k) == Conv(xs, n, k)
    decreases TAPS - k
  {
    if k < TAPS { ConvLooksBack(xs, v, n, k + 1); }
  }

  // ---------------------------------------------------------------------
  // Sums over the shift register
  // ---------------------------------------------------------------------

  /** The contribution of the stored samples k..14. */
  function Tail(w: seq<int>, k: nat): int
    requires |w| == TAPS && k < TAPS
    decreases TAPS - k
  {
    if k == TAPS - 1 then 0 else Tail(w, k + 1) + w[k] * Coef(k + 1)
  }

  function AbsTail(k: nat): nat
    requires k < TAPS
    decreases TAPS - k
  {
    if k == TAPS - 1 then 0 else AbsTail(k + 1) + Abs(Coef(k + 1))
  }

  lemma CoefficientsAreSmall()
    ensures Abs(Coef(0)) == 6 && AbsTail(0) == 760 && AbsTail(3) == 727 && AbsTail(7) == 491 && AbsTail(11) == 51
  {
    assert AbsTail(14) == 4 && AbsTail(13) == 17 && AbsTail(12) == 33 && AbsTail(11) == 51;
    assert AbsTail(10) == 92 && AbsTail(9) == 115 && AbsTail(8) == 269 && AbsTail(7) == 491;
    assert AbsTail(6) == 645 && AbsTail(5) == 668 && AbsTail(4) == 709 && AbsTail(3) == 727;
    assert AbsTail(2) == 743 && AbsTail(1) == 756;
  }

  lemma AbsTailGrows(k: nat)
    requires k < TAPS - 1
    ensures AbsTail(k + 1) <= AbsTail(k)
  {
    hide Coef;
  }

  lemma {:induction false} AbsTailShrinks(k: nat)
    requires k < TAPS
    ensures AbsTail(k) <= 760
    decreases k
  {
    hide AbsTail;
    if k == 0 {
      CoefficientsAreSmall();
    } else {
      AbsTailShrinks(k - 1);
      AbsTailGrows(k - 1);
    }
  }

  lemma ProductBound(a: int, c: int)
    requires InByte(a)
    ensures Abs(a * c) <= 128 * Abs(c)
  {
    if c >= 0 {
      assert -128 * c <= a * c <= 128 * c;
    } else {
      assert 128 * c <= a * c <= -128 * c;
    }
  }

  lemma {:induction false} CoefficientBound(k: nat)
    requires k < TAPS
    ensures Abs(Coef(k)) <= 222
  {
  }

  /** No product of a sample and a coefficient leaves 17 bits. */
  lemma ProductNeverWraps(a: int, k: nat)
    requires InByte(a) && k < TAPS
    ensures Wrap17(a * Coef(k)) == a * Coef(k)
  {
    ProductBound(a, Coef(k));
    CoefficientBound(k);
  }

  /** Accumulating the stored samples i down to k, wrapping after each. */
  function Taps(acc: int, w: seq<int>, i: int, k: nat): int
    requires |w| == TAPS && k - 1 <= i < TAPS - 1
    decreases i + 1
  {
    if i < k then acc else Taps(Wrap19(acc + w[i] * Coef(i + 1)), w, i - 1, k)
  }

  /** The accumulator never wraps: from any value it can hold once the samples above i
      are in, adding the rest gives the exact sum. */
  lemma {:induction false} TapsAreExact(acc: int, w: seq<int>, i: int, k: nat)
    requires Window(w) && k - 1 <= i < TAPS - 1
    requires Abs(acc) <= 128 * (6 + AbsTail(i + 1))
    ensures Taps(acc, w, i, k) == acc + Tail(w, k) - Tail(w, i + 1)
    ensures Abs(Taps(acc, w, i, k)) <= 128 * (6 + AbsTail(k))
    decreases i + 1
  {
    hide Coef, Wrap19;
    if i >= k {
      var next := acc + w[i] * Coef(i + 1);
      ProductBound(w[i], Coef(i + 1));
      AbsTailShrinks(i);
      Fits19(next);
      TapsAreExact(next, w, i - 1, k);
    }
  }

  lemma HeadTap(s: int)
    requires InByte(s)
    ensures Wrap19(s * Coef(0)) == s * Coef(0) && Abs(s * Coef(0)) <= 128 * 6
  {
  }

  // ---------------------------------------------------------------------
  // Behavioural form
  // ---------------------------------------------------------------------

  function Silence(): seq<int> { seq(TAPS, i => 0) }

  function Shifted(w: seq<int>, s: int): seq<int>
    requires |w| == TAPS
  {
    [s] + w[..TAPS - 1]
  }

  /** The shift register holds the last sixteen samples, newest first. */
  predicate Holds(w: seq<int>, xs: seq<int>) {
    |w| == TAPS && forall i :: 0 <= i < TAPS ==> w[i] == At(xs, |xs| - 1 - i)
  }

  lemma ShiftedHolds(w: seq<int>, xs: seq<int>, s: int)
    requires Holds(w, xs)
    ensures Holds(Shifted(w, s), xs + [s])
  {
  }

  lemma {:induction false} TailIsConv(w: seq<int>, xs: seq<int>, s: int, k: nat)
    requires Holds(w, xs) && k < TAPS
    ensures Tail(w, k) == Conv(xs + [s], |xs|, k + 1)
    decreases TAPS - k
  {
    hide Coef;
    if k < TAPS - 1 {
      TailIsConv(w, xs, s, k + 1);
      assert At(xs + [s], |xs| - (k + 1)) == At(xs, |xs| - 1 - k);
      assert w[k] * Coef(k + 1) == Coef(k + 1) * At(xs, |xs| - 1 - k);
    }
  }

  lemma HeadOfConv(xs: seq<int>, s: int)
    ensures Conv(xs + [s], |xs|, 0) == Conv(xs + [s], |xs|, 1) + s * Coef(0)
  {
    hide Coef;
    assert At(xs + [s], |xs| - 0) == s;
    assert s * Coef(0) == Coef(0) * s;
  }

  lemma LastTail(w: seq<int>)
    requires |w| == TAPS
    ensures Tail(w, 15) == 0 && AbsTail(15) == 0
  {
  }

  /** The value for a new sample, as the filter adds it up. */
  function Filtered(w: seq<int>, s: int): int
    requires |w| == TAPS
  {
    Taps(Wrap19(s * Coef(0)), w, TAPS - 2, 0)
  }

  lemma FilteredFrom(w: seq<int>, s: int, i: int)
    requires |w| == TAPS && i == TAPS - 2
    ensures Filtered(w, s) == Taps(Wrap19(s * Coef(0)), w, i, 0)
  {
    hide Taps, Coef, Wrap19;
  }

  /** However it wraps on the way, that value is the convolution. */
  lemma FilteredIsConv(w: seq<int>, xs: seq<int>, s: int)
    requires Holds(w, xs) && Window(w) && InByte(s)
    ensures Filtered(w, s) == Conv(xs + [s], |xs|, 0)
  {
    hide Coef, Wrap19, Abs, Taps, Tail, Holds, InByte;
    HeadTap(s);
    LastTail(w);
    TapsAreExact(s * Coef(0), w, 14, 0);
    TailIsConv(w, xs, s, 0);
    HeadOfConv(xs, s);
  }

  /** The samples as the filter sees them: the low eight bits. */
  function Bytes(samples: seq<int>): (r: seq<int>)
    ensures |r| == |samples| && forall i :: 0 <= i < |r| ==> InByte(r[i]) && r[i] == Wrap8(samples[i])
  {
    seq(|samples|, i requires 0 <= i < |samples| => Wrap8(samples[i]))
  }

  /** Samples that fit are taken as they are. */
  lemma BytesOfBytes(samples: seq<int>)
    requires forall s <- samples :: InByte(s)
    ensures Bytes(samples) == samples
  {
    hide Wrap8;
    forall i | 0 <= i < |samples|
      ensures Wrap8(samples[i]) == samples[i]
    {
      assert samples[i] in samples;
      NarrowingKeepsWhatFits(samples[i]);
    }
  }

  lemma BytesSnoc(samples: seq<int>, x: int)
    ensures Bytes(samples + [x]) == Bytes(samples) + [Wrap8(x)]
  {
  }

  class Fir {
    const shift: array<int>

    constructor ()
      ensures fresh(shift) && shift[..] == Silence()
    {
      shift := new int[TAPS](i => 0);
    }

    /** The samples move up by one and the new one comes in. */
    method Shift(sample: int)
      requires shift.Length == TAPS
      modifies shift
      ensures shift[..] == Shifted(old(shift[..]), sample)
    {
      var i := TAPS - 2;
      while i >= 0
        invariant -1 <= i <= TAPS - 2
        invariant forall k :: i + 1 < k < TAPS ==> shift[k] == old(shift[k - 1])
        invariant forall k :: 0 <= k <= i + 1 ==> shift[k] == old(shift[k])
      {
        shift[i + 1] := shift[i];
        i := i - 1;
      }
      shift[0] := sample;
      forall k | 0 <= k < TAPS
        ensures shift[..][k] == Shifted(old(shift[..]), sample)[k]
      {
      }
    }

    /** One turn of the main loop. */
    method Filter(sample: int) returns (result: int)
      requires Window(shift[..])
      modifies shift
      ensures result == Filtered(old(shift[..]), Wrap8(sample))
      ensures shift[..] == Shifted(old(shift[..]), Wrap8(sample))
    {
      hide Coef, Wrap19, Wrap8, Wrap17, Filtered;
      var sampleTmp := Wrap8(sample);
      var acc := Wrap19(sampleTmp * Coef(0));
      var i := TAPS - 2;
      FilteredFrom(shift[..], sampleTmp, i);
      while i >= 0
        invariant -1 <= i <= TAPS - 2
        invariant shift[..] == old(shift[..])
        invariant Taps(acc, shift[..], i, 0) == Filtered(shift[..], sampleTmp)
      {
        assert InByte(shift[..][i]);
        ProductNeverWraps(shift[i], i + 1);
        var pro := Wrap17(shift[i] * Coef(i + 1));
        acc := Wrap19(acc + pro);
        i := i - 1;
      }
      result := acc;
      Shift(sampleTmp);
    }

    /** Every result is the convolution of the samples read so far, or of their low eight
        bits where they do not fit a byte. */
    method Entry(samples: seq<int>) returns (results: seq<int>)
      requires shift[..] == Silence()
      modifies shift
      ensures |results| == |samples|
      ensures forall n :: 0 <= n < |results| ==> results[n] == Conv(Bytes(samples), n, 0)
      ensures (forall s <- samples :: InByte(s)) ==>
        forall n :: 0 <= n < |results| ==> results[n] == Conv(samples, n, 0)
    {
      hide Coef, Wrap8, Conv, Filtered;
      results := [];
      ghost var xs := Bytes([]);
      for i := 0 to |samples|
        invariant |results| == i && xs == Bytes(samples[..i])
        invariant Window(shift[..]) && Holds(shift[..], xs)
        invariant forall n :: 0 <= n < i ==> results[n] == Conv(xs, n, 0)
      {
        var s := samples[i];
        Wrap8InByte(s);
        FilteredIsConv(shift[..], xs, Wrap8(s));
        ShiftedHolds(shift[..], xs, Wrap8(s));
        forall n | 0 <= n < i
          ensures Conv(xs + [Wrap8(s)], n, 0) == Conv(xs, n, 0)
        {
          ConvLooksBack(xs, Wrap8(s), n, 0);
        }
        var result := Filter(s);
        results := results + [result];
        BytesSnoc(samples[..i], s);
        assert samples[..i + 1] == samples[..i] + [s];
        xs := xs + [Wrap8(s)];
      }
      assert samples[..|samples|] == samples;
      if forall s <- samples :: InByte(s) { BytesOfBytes(samples); }
    }
  }
}
