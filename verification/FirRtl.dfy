/** The filter as a sequencing machine and a four-state datapath, joined by the state
    signal. The datapath runs whenever the state or the sample signal changes. */
module FirRtl {
  import opened Common
  import opened FirFilter

  datatype FsmState = ResetS | FirstS | SecondS | ThirdS | OutputS

  /** The registers of both halves and the signals between them; out lists the
      results for which the ready signal was raised. */
  datatype Rtl = Rtl(fsm: FsmState, stateOut: nat, acc: int, shift: seq<int>, sample: int, out: seq<int>)

  function Fresh(sample: int): Rtl {
    Rtl(ResetS, 0, 0, Silence(), sample, [])
  }

  function NextFsm(fsm: FsmState, valid: bool): FsmState {
    match fsm
    case ResetS => FirstS
    case FirstS => if valid then SecondS else FirstS
    case SecondS => ThirdS
    case ThirdS => OutputS
    case OutputS => FirstS
  }

  function StateCode(fsm: FsmState): nat {
    match fsm
    case ResetS => 0
    case FirstS => 1
    case SecondS => 2
    case ThirdS => 3
    case OutputS => 4
  }

  /** One execution of the datapath. */
  function Computed(r: Rtl): Rtl
    requires |r.shift| == TAPS
  {
    if r.stateOut == 1 then r.(acc := Taps(Wrap19(Wrap8(r.sample) * Coef(0)), r.shift, 14, 11))
    else if r.stateOut == 2 then r.(acc := Taps(r.acc, r.shift, 10, 7))
    else if r.stateOut == 3 then r.(acc := Taps(r.acc, r.shift, 6, 3))
    else if r.stateOut == 4 then
      var total := Taps(r.acc, r.shift, 2, 0);
      r.(acc := total, shift := Shifted(r.shift, Wrap8(r.sample)), out := r.out + [total])
    else r
  }

  /** A clock edge, at which the sample signal may also take a new value, or a change
      of the sample between two edges. */
  datatype Step =
    | Clock(valid: bool, sample: int)
    | Change(sample: int)

  function Next(r: Rtl, step: Step): (t: Rtl)
    requires |r.shift| == TAPS
    ensures |t.shift| == TAPS
  {
    match step
    case Clock(valid, x) =>
      var t := r.(fsm := NextFsm(r.fsm, valid), stateOut := StateCode(r.fsm), sample := x);
      if t.stateOut != r.stateOut || x != r.sample then Computed(t) else t
    case Change(x) =>
      if x != r.sample then Computed(r.(sample := x)) else r
  }

  /** A sample is held from the edge that accepts it until the state signal goes back to 1. */
  predicate Holding(r: Rtl, step: Step) {
    match step
    case Clock(valid, x) => r.fsm.ResetS? || (r.fsm.FirstS? && !valid) || x == r.sample
    case Change(_) => (r.fsm.ResetS? || r.fsm.FirstS?) && r.stateOut != 4
  }

  predicate Accepts(r: Rtl, step: Step) {
    step.Clock? && step.valid && r.fsm.FirstS?
  }

  // ---------------------------------------------------------------------
  // Invariant: what the accumulator holds in each state
  // ---------------------------------------------------------------------

  function Partial(w: seq<int>, s: int, k: nat): int
    requires |w| == TAPS && k < TAPS
  {
    s * Coef(0) + Tail(w, k)
  }

  /** The state signal trails the state by one edge. */
  predicate InStep(fsm: FsmState, stateOut: nat) {
    match fsm
    case ResetS => true
    case FirstS => stateOut == 0 || stateOut == 1 || stateOut == 4
    case SecondS => stateOut == 1
    case ThirdS => stateOut == 2
    case OutputS => stateOut == 3
  }

  predicate Busy(r: Rtl) {
    r.fsm.SecondS? || r.fsm.ThirdS? || r.fsm.OutputS?
  }

  ghost predicate AccOk(r: Rtl)
    requires |r.shift| == TAPS
  {
    r.fsm.ResetS? ||
    (&& (r.stateOut == 1 ==> r.acc == Partial(r.shift, Wrap8(r.sample), 11))
     && (r.stateOut == 2 ==> r.acc == Partial(r.shift, Wrap8(r.sample), 7))
     && (r.stateOut == 3 ==> r.acc == Partial(r.shift, Wrap8(r.sample), 3)))
  }

  /** xs are the accepted samples; all but one being worked on have their result. */
  ghost predicate Inv(r: Rtl, xs: seq<int>) {
    && InStep(r.fsm, r.stateOut)
    && Window(r.shift)
    && AccOk(r)
    && |xs| == |r.out| + (if Busy(r) then 1 else 0)
    && (Busy(r) ==> xs[|xs| - 1] == Wrap8(r.sample))
    && Holds(r.shift, xs[..|r.out|])
    && forall n :: 0 <= n < |r.out| ==> r.out[n] == Conv(xs, n, 0)
  }

  lemma FreshInv(sample: int)
    ensures Inv(Fresh(sample), [])
  {
    hide Tail, Taps, Conv, Wrap8;
  }

  lemma PartialBound(w: seq<int>, s: int, k: nat)
    requires Window(w) && InByte(s) && k < TAPS - 1
    ensures Abs(Partial(w, s, k)) <= 128 * (6 + AbsTail(k))
  {
    hide Coef, Wrap19, Tail, AbsTail, Taps;
    HeadTap(s);
    LastTail(w);
    TapsAreExact(s * Coef(0), w, 14, k);
  }

  lemma FirstState(w: seq<int>, s: int)
    requires Window(w) && InByte(s)
    ensures Taps(Wrap19(s * Coef(0)), w, 14, 11) == Partial(w, s, 11)
  {
    hide Coef, Wrap19, Tail, AbsTail, Taps;
    HeadTap(s);
    LastTail(w);
    TapsAreExact(s * Coef(0), w, 14, 11);
  }

  /** Adding samples i down to k to the partial sum above them. */
  lemma LaterState(w: seq<int>, s: int, i: nat, k: nat)
    requires Window(w) && InByte(s) && k <= i < TAPS - 2
    ensures Taps(Partial(w, s, i + 1), w, i, k) == Partial(w, s, k)
  {
    hide Coef, Wrap19, Tail, AbsTail, Taps;
    PartialBound(w, s, i + 1);
    TapsAreExact(Partial(w, s, i + 1), w, i, k);
  }

  lemma WholeSum(w: seq<int>, xs: seq<int>, s: int)
    requires Window(w) && InByte(s) && Holds(w, xs)
    ensures Partial(w, s, 0) == Conv(xs + [s], |xs|, 0)
  {
    hide Coef, Tail, Holds;
    TailIsConv(w, xs, s, 0);
    HeadOfConv(xs, s);
  }

  // ---------------------------------------------------------------------
  // Steps
  // ---------------------------------------------------------------------

  /** In state 1 the accumulator is computed afresh, so running the datapath again for
      a new sample leaves no trace of the old one. */
  lemma ComputedInFirst(r: Rtl)
    requires Window(r.shift) && r.stateOut == 1
    ensures Computed(r) == r.(acc := Partial(r.shift, Wrap8(r.sample), 11))
  {
    hide Coef, Wrap19, Tail, Taps, Wrap8, Partial;
    Wrap8InByte(r.sample);
    FirstState(r.shift, Wrap8(r.sample));
  }

  lemma ComputedLater(r: Rtl)
    requires Window(r.shift)
    requires r.stateOut == 2 ==> r.acc == Partial(r.shift, Wrap8(r.sample), 11)
    requires r.stateOut == 3 ==> r.acc == Partial(r.shift, Wrap8(r.sample), 7)
    requires r.stateOut == 4 ==> r.acc == Partial(r.shift, Wrap8(r.sample), 3)
    ensures r.stateOut == 2 ==> Computed(r) == r.(acc := Partial(r.shift, Wrap8(r.sample), 7))
    ensures r.stateOut == 3 ==> Computed(r) == r.(acc := Partial(r.shift, Wrap8(r.sample), 3))
    ensures r.stateOut == 4 ==>
      var total := Partial(r.shift, Wrap8(r.sample), 0);
      Computed(r) == r.(acc := total, shift := Shifted(r.shift, Wrap8(r.sample)), out := r.out + [total])
  {
    hide Coef, Wrap19, Tail, Taps, Wrap8, Partial, Shifted;
    Wrap8InByte(r.sample);
    LaterState(r.shift, Wrap8(r.sample), 10, 7);
    LaterState(r.shift, Wrap8(r.sample), 6, 3);
    LaterState(r.shift, Wrap8(r.sample), 2, 0);
  }

  function TakenBy(r: Rtl, step: Step): seq<int> {
    if Accepts(r, step) then [Wrap8(r.sample)] else []
  }

  lemma ConvsLookBack(xs: seq<int>, v: int, m: nat)
    requires m <= |xs|
    ensures forall n :: 0 <= n < m ==> Conv(xs + [v], n, 0) == Conv(xs, n, 0)
  {
    hide Conv;
    forall n | 0 <= n < m
      ensures Conv(xs + [v], n, 0) == Conv(xs, n, 0)
    {
      ConvLooksBack(xs, v, n, 0);
    }
  }

  /** Waiting for a sample, or accepting one. */
  lemma FirstKeeps(r: Rtl, xs: seq<int>, step: Step)
    requires Inv(r, xs) && r.fsm.FirstS? && Holding(r, step)
    ensures Inv(Next(r, step), xs + TakenBy(r, step))
  {
    hide Tail, Taps, Conv, Wrap8, Wrap19, Partial, Window, Holds, Shifted, Coef;
    assert |r.shift| == TAPS by { WindowLength(r.shift); }
    assert xs[..|xs|] == xs;
    ConvsLookBack(xs, Wrap8(r.sample), |r.out|);
    assert (xs + [Wrap8(r.sample)])[..|r.out|] == xs;
    assert xs + [] == xs;
    match step
    case Clock(valid, x) => ComputedInFirst(r.(fsm := NextFsm(r.fsm, valid), stateOut := 1, sample := x));
    case Change(x) => if r.stateOut == 1 { ComputedInFirst(r.(sample := x)); }
  }

  lemma WindowLength(w: seq<int>)
    requires Window(w)
    ensures |w| == TAPS
  {
  }

  lemma ShiftedWindow(w: seq<int>, s: int)
    requires Window(w) && InByte(s)
    ensures Window(Shifted(w, s))
  {
  }

  lemma SecondThirdKeep(r: Rtl, xs: seq<int>, step: Step)
    requires Inv(r, xs) && (r.fsm.SecondS? || r.fsm.ThirdS?) && Holding(r, step)
    ensures Inv(Next(r, step), xs)
  {
    hide Tail, Taps, Conv, Wrap8, Wrap19, Partial, Window, Holds, Shifted, Coef;
    assert |r.shift| == TAPS by { WindowLength(r.shift); }
    ComputedLater(r.(fsm := NextFsm(r.fsm, step.valid), stateOut := StateCode(r.fsm)));
  }

  lemma OutputKeeps(r: Rtl, xs: seq<int>, step: Step)
    requires Inv(r, xs) && r.fsm.OutputS? && Holding(r, step)
    ensures Inv(Next(r, step), xs)
  {
    hide Tail, Taps, Conv, Wrap8, Wrap19, Partial, Window, Holds, Shifted, Coef;
    assert |r.shift| == TAPS by { WindowLength(r.shift); }
    var s := Wrap8(r.sample);
    Wrap8InByte(r.sample);
    ComputedLater(r.(fsm := FirstS, stateOut := 4));
    var before := xs[..|r.out|];
    assert xs == before + [s];
    assert xs[..|xs|] == xs;
    WholeSum(r.shift, before, s);
    ShiftedHolds(r.shift, before, s);
    ShiftedWindow(r.shift, s);
  }

  lemma ResetKeeps(r: Rtl, xs: seq<int>, step: Step)
    requires Inv(r, xs) && r.fsm.ResetS? && Holding(r, step)
    ensures Inv(Next(r, step), xs)
  {
    hide Tail, Taps, Conv, Wrap8, Wrap19, Partial, Holds, Shifted, Coef;
  }

  lemma StepKeeps(r: Rtl, xs: seq<int>, step: Step)
    requires Inv(r, xs) && Holding(r, step)
    ensures Inv(Next(r, step), xs + TakenBy(r, step))
  {
    hide Computed, Wrap8, Window, AccOk, Holds, Conv;
    assert |r.shift| == TAPS by { WindowLength(r.shift); }
    assert xs + [] == xs;
    match r.fsm
    case ResetS => ResetKeeps(r, xs, step);
    case FirstS => FirstKeeps(r, xs, step);
    case SecondS => SecondThirdKeep(r, xs, step);
    case ThirdS => SecondThirdKeep(r, xs, step);
    case OutputS => OutputKeeps(r, xs, step);
  }

  // ---------------------------------------------------------------------
  // Runs
  // ---------------------------------------------------------------------

  ghost predicate Possible(r: Rtl, steps: seq<Step>)
    requires |r.shift| == TAPS
    decreases |steps|
  {
    steps == [] || (Holding(r, steps[0]) && Possible(Next(r, steps[0]), steps[1..]))
  }

  ghost function Run(r: Rtl, steps: seq<Step>): (t: Rtl)
    requires |r.shift| == TAPS
    ensures |t.shift| == TAPS
    decreases |steps|
  {
    if steps == [] then r else Run(Next(r, steps[0]), steps[1..])
  }

  /** The samples accepted in the course of a run. */
  ghost function Accepted(r: Rtl, steps: seq<Step>): seq<int>
    requires |r.shift| == TAPS
    decreases |steps|
  {
    if steps == [] then [] else TakenBy(r, steps[0]) + Accepted(Next(r, steps[0]), steps[1..])
  }

  lemma {:induction false} RunKeeps(r: Rtl, xs: seq<int>, steps: seq<Step>)
    requires Inv(r, xs) && Possible(r, steps)
    ensures Inv(Run(r, steps), xs + Accepted(r, steps))
    decreases |steps|
  {
    hide Next, TakenBy, AccOk, Holds, Conv;
    if steps == [] {
      assert xs + [] == xs;
    } else {
      StepKeeps(r, xs, steps[0]);
      RunKeeps(Next(r, steps[0]), xs + TakenBy(r, steps[0]), steps[1..]);
      assert xs + TakenBy(r, steps[0]) + Accepted(Next(r, steps[0]), steps[1..]) == xs + Accepted(r, steps);
    }
  }

  /** The accepted samples as they stood on the signal. */
  ghost function Signals(r: Rtl, steps: seq<Step>): seq<int>
    requires |r.shift| == TAPS
    decreases |steps|
  {
    if steps == [] then []
    else (if Accepts(r, steps[0]) then [r.sample] else []) + Signals(Next(r, steps[0]), steps[1..])
  }

  lemma {:induction false} AcceptedAsTheyStand(r: Rtl, steps: seq<Step>)
    requires |r.shift| == TAPS && forall s <- Signals(r, steps) :: InByte(s)
    ensures Accepted(r, steps) == Signals(r, steps)
    decreases |steps|
  {
    hide Next, Wrap8, InByte, Accepts;
    if steps != [] {
      var rest := Signals(Next(r, steps[0]), steps[1..]);
      assert forall s <- rest :: s in Signals(r, steps);
      AcceptedAsTheyStand(Next(r, steps[0]), steps[1..]);
      if Accepts(r, steps[0]) {
        assert Signals(r, steps)[0] == r.sample;
        NarrowingKeepsWhatFits(r.sample);
      }
    }
  }

  /** For every stream, however long each sample is waited for and however the sample
      signal moves in between, the machine's results are exactly the convolutions of
      the samples it accepted, in order, all but a sample still being worked on. */
  lemma RtlIsConvolution(sample: int, steps: seq<Step>)
    requires Possible(Fresh(sample), steps)
    ensures var t := Run(Fresh(sample), steps);
      var xs := Accepted(Fresh(sample), steps);
      && |xs| == |t.out| + (if Busy(t) then 1 else 0)
      && forall n :: 0 <= n < |t.out| ==> t.out[n] == Conv(xs, n, 0)
    ensures var t, xs := Run(Fresh(sample), steps), Signals(Fresh(sample), steps);
      (forall s <- xs :: InByte(s)) ==>
        && |xs| == |t.out| + (if Busy(t) then 1 else 0)
        && forall n :: 0 <= n < |t.out| ==> t.out[n] == Conv(xs, n, 0)
  {
    hide Run, Accepted, Signals, Possible, Conv, Holds, AccOk, Window;
    FreshInv(sample);
    RunKeeps(Fresh(sample), [], steps);
    assert [] + Accepted(Fresh(sample), steps) == Accepted(Fresh(sample), steps);
    if forall s <- Signals(Fresh(sample), steps) :: InByte(s) { AcceptedAsTheyStand(Fresh(sample), steps); }
  }

  lemma RunCons(r: Rtl, step: Step, rest: seq<Step>)
    requires |r.shift| == TAPS
    ensures Run(r, [step] + rest) == Run(Next(r, step), rest)
  {
    hide Next;
    assert ([step] + rest)[1..] == rest;
  }

  lemma FourClocks(r: Rtl, a: Step, b: Step, c: Step, d: Step)
    requires |r.shift| == TAPS
    ensures Run(r, [a, b, c, d]) == Next(Next(Next(Next(r, a), b), c), d)
  {
    var last := Next(Next(Next(Next(r, a), b), c), d);
    assert Run(last, []) == last;
    hide *;
    RunCons(r, a, [b, c, d]);
    RunCons(Next(r, a), b, [c, d]);
    RunCons(Next(Next(r, a), b), c, [d]);
    RunCons(Next(Next(Next(r, a), b), c), d, []);
    assert [a, b, c, d] == [a] + [b, c, d] && [b, c, d] == [b] + [c, d] && [c, d] == [c] + [d] && [d] == [d] + [];
  }

  /** A sample accepted on one edge has its result three edges later, whatever the
      valid input does meanwhile. */
  lemma ResultAfterThreeEdges(r: Rtl, xs: seq<int>, v0: bool, v1: bool, v2: bool)
    requires Inv(r, xs) && r.fsm.FirstS?
    ensures var x := r.sample;
      var t := Run(r, [Clock(true, x), Clock(v0, x), Clock(v1, x), Clock(v2, x)]);
      && t.fsm.FirstS? && t.stateOut == 4 && t.sample == x
      && t.out == r.out + [Conv(xs + [Wrap8(x)], |r.out|, 0)]
  {
    hide Taps, Window, AccOk, Holds, Conv, Wrap8, Wrap19, Coef;
    var x := r.sample;
    var ys := xs + [Wrap8(x)];
    WindowLength(r.shift);
    var r1 := Next(r, Clock(true, x));
    StepKeeps(r, xs, Clock(true, x));
    WindowLength(r1.shift);
    assert ys + [] == ys;
    var r2 := Next(r1, Clock(v0, x));
    StepKeeps(r1, ys, Clock(v0, x));
    WindowLength(r2.shift);
    var r3 := Next(r2, Clock(v1, x));
    StepKeeps(r2, ys, Clock(v1, x));
    WindowLength(r3.shift);
    var r4 := Next(r3, Clock(v2, x));
    StepKeeps(r3, ys, Clock(v2, x));
    FourClocks(r, Clock(true, x), Clock(v0, x), Clock(v1, x), Clock(v2, x));
    assert r4.out == r.out + [r4.out[|r.out|]];
  }

  // ---------------------------------------------------------------------
  // A sample that moves between edges
  // ---------------------------------------------------------------------

  /** Adding up stays exact while the sum has room for what is still to come. */
  lemma {:induction false} TapsHaveRoom(acc: int, w: seq<int>, i: int, k: nat)
    requires Window(w) && k - 1 <= i < TAPS - 1
    requires Abs(acc) + 128 * (AbsTail(k) - AbsTail(i + 1)) < 0x4_0000
    ensures Taps(acc, w, i, k) == acc + Tail(w, k) - Tail(w, i + 1)
    decreases i + 1
  {
    hide Coef, Wrap19, AbsTail, Tail;
    if i >= k {
      var next := acc + w[i] * Coef(i + 1);
      ProductBound(w[i], Coef(i + 1));
      TailStep(w, i);
      AbsTailFalls(k, i);
      Fits19(next);
      TapsHaveRoom(next, w, i - 1, k);
    }
  }

  lemma TailStep(w: seq<int>, i: nat)
    requires |w| == TAPS && i < TAPS - 1
    ensures Tail(w, i) == Tail(w, i + 1) + w[i] * Coef(i + 1) && AbsTail(i) == AbsTail(i + 1) + Abs(Coef(i + 1))
  {
    hide Coef;
  }

  lemma {:induction false} AbsTailFalls(k: nat, i: nat)
    requires k <= i < TAPS
    ensures AbsTail(i) <= AbsTail(k)
    decreases i - k
  {
    hide AbsTail;
    if k < i {
      AbsTailFalls(k + 1, i);
      AbsTailGrows(k);
    }
  }

  /** The contribution of the stored samples k..i. */
  function Between(w: seq<int>, i: nat, k: nat): int
    requires |w| == TAPS && k <= i < TAPS - 1
  {
    Tail(w, k) - Tail(w, i + 1)
  }

  /** The samples as they stand once the one being worked on has moved to x. */
  function Moved(r: Rtl, xs: seq<int>, x: int): seq<int> {
    if Busy(r) && xs != [] then xs[..|xs| - 1] + [Wrap8(x)] else xs
  }

  /** Whatever happens from here on, every result has its sample and is its convolution. */
  ghost predicate RightFrom(r: Rtl, xs: seq<int>)
    requires |r.shift| == TAPS
  {
    forall steps :: Possible(r, steps) ==> RightAlong(r, xs, steps)
  }

  ghost predicate RightAlong(r: Rtl, xs: seq<int>, steps: seq<Step>)
    requires |r.shift| == TAPS
  {
    var t, ys := Run(r, steps), xs + Accepted(r, steps);
    |t.out| <= |ys| && forall n :: 0 <= n < |t.out| ==> t.out[n] == Conv(ys, n, 0)
  }

  lemma InvIsRight(r: Rtl, xs: seq<int>)
    requires Inv(r, xs)
    ensures |r.shift| == TAPS && RightFrom(r, xs)
  {
    hide Run, Possible, Accepted, Conv, AccOk, Holds;
    forall steps | Possible(r, steps)
      ensures RightAlong(r, xs, steps)
    {
      RunKeeps(r, xs, steps);
    }
  }

  /** The sums of the taps that a change of the sample adds once more. */
  function Repeated(r: Rtl): int
    requires |r.shift| == TAPS
  {
    if r.stateOut == 2 then Between(r.shift, 10, 7) else if r.stateOut == 3 then Between(r.shift, 6, 3) else 0
  }

  /** The head of the sum stays that of the old sample, the other taps of this state are
      added twice. */
  lemma ChangedLate(r: Rtl, x: int)
    requires Window(r.shift) && AccOk(r) && !r.fsm.ResetS? && x != r.sample && (r.stateOut == 2 || r.stateOut == 3)
    ensures var t, k := Next(r, Change(x)), if r.stateOut == 2 then 7 else 3;
      t == r.(sample := x, acc := Wrap8(r.sample) * Coef(0) + Tail(r.shift, k) + Repeated(r))
  {
    hide Coef, Wrap19, Tail, AbsTail, Taps, Wrap8;
    var s := Wrap8(r.sample);
    Wrap8InByte(r.sample);
    CoefficientsAreSmall();
    if r.stateOut == 2 {
      PartialBound(r.shift, s, 7);
      TapsHaveRoom(r.acc, r.shift, 10, 7);
    } else {
      PartialBound(r.shift, s, 3);
      TapsHaveRoom(r.acc, r.shift, 6, 3);
    }
  }

  lemma MovedKeeps(r: Rtl, xs: seq<int>, t: Rtl, x: int)
    requires Inv(r, xs) && t == r.(sample := x, acc := t.acc) && AccOk(t)
    ensures Inv(t, Moved(r, xs, x))
  {
    hide Conv, Holds, AccOk, Window, Wrap8;
    if Busy(r) {
      var before := xs[..|xs| - 1];
      assert before == xs[..|r.out|] && Moved(r, xs, x)[..|r.out|] == before;
      assert xs == before + [xs[|xs| - 1]];
      ConvsLookBack(before, xs[|xs| - 1], |r.out|);
      ConvsLookBack(before, Wrap8(x), |r.out|);
    } else {
      assert xs[..|xs|] == xs;
    }
  }

  lemma BetweenBound(w: seq<int>, i: nat, k: nat)
    requires Window(w) && k <= i < TAPS - 1
    ensures Abs(Between(w, i, k)) <= 128 * (AbsTail(k) - AbsTail(i + 1))
    decreases i - k
  {
    hide Coef;
    ProductBound(w[k], Coef(k + 1));
    if k < i { BetweenBound(w, i, k + 1); }
  }

  lemma SurplusBound(r: Rtl)
    requires Window(r.shift) && AccOk(r) && !r.fsm.ResetS? && (r.stateOut == 2 || r.stateOut == 3)
    ensures var k := if r.stateOut == 2 then 7 else 3;
      Abs(Wrap8(r.sample) * Coef(0) + Tail(r.shift, k) + Repeated(r)) <= 128 * 1000
  {
    hide Coef, Tail, AbsTail, Wrap8, Between;
    var s := Wrap8(r.sample);
    Wrap8InByte(r.sample);
    CoefficientsAreSmall();
    if r.stateOut == 2 {
      PartialBound(r.shift, s, 7);
      BetweenBound(r.shift, 10, 7);
    } else {
      PartialBound(r.shift, s, 3);
      BetweenBound(r.shift, 6, 3);
    }
  }

  /** The clock goes on adding from whatever the accumulator holds. */
  lemma LateClock(t: Rtl, valid: bool)
    requires Window(t.shift) && Abs(t.acc) <= 128 * 1300
    requires (t.fsm.ThirdS? && t.stateOut == 2) || (t.fsm.OutputS? && t.stateOut == 3)
    ensures var u := Next(t, Clock(valid, t.sample));
      && (t.fsm.ThirdS? ==> u == t.(fsm := OutputS, stateOut := 3, acc := t.acc + Between(t.shift, 6, 3)))
      && (t.fsm.OutputS? ==> u.out == t.out + [t.acc + Between(t.shift, 2, 0)])
  {
    hide Coef, Wrap19, Wrap8, Tail, Taps, AbsTail, Shifted;
    CoefficientsAreSmall();
    if t.fsm.ThirdS? {
      TapsHaveRoom(t.acc, t.shift, 6, 3);
    } else {
      TapsHaveRoom(t.acc, t.shift, 2, 0);
    }
  }

  /** What the clock makes of a late change: the next result keeps the surplus. */
  lemma LateResult(r: Rtl, xs: seq<int>, x: int) returns (steps: seq<Step>)
    requires Inv(r, xs) && !r.fsm.ResetS? && x != r.sample && (r.stateOut == 2 || r.stateOut == 3)
    ensures |r.shift| == TAPS
    ensures var t := Next(r, Change(x));
      && Possible(t, steps) && Accepted(t, steps) == []
      && Run(t, steps).out
         == r.out + [Conv(Moved(r, xs, x), |r.out|, 0) + Repeated(r) - (Wrap8(x) - Wrap8(r.sample)) * Coef(0)]
  {
    hide Wrap19, Wrap8, Tail, Taps, AbsTail, Conv, Holds, Shifted, Run, Possible, Accepted, Window, AccOk, Coef;
    WindowLength(r.shift);
    var t := Next(r, Change(x));
    var v := Clock(false, x);
    var before := xs[..|r.out|];
    assert Moved(r, xs, x) == before + [Wrap8(x)];
    Wrap8InByte(x);
    WholeSum(r.shift, before, Wrap8(x));
    ChangedLate(r, x);
    SurplusBound(r);
    Distribute(Wrap8(x), Wrap8(r.sample), Coef(0));
    LateClock(t, false);
    if r.stateOut == 2 {
      steps := [v, v];
      var t1 := Next(t, v);
      ThirdTapsBound(t.shift);
      LateClock(t1, false);
      TwoSteps(t, v, v, []);
      NoSteps(Next(t1, v));
      assert [v, v] + [] == [v, v];
    } else {
      steps := [v];
      OneStep(t, v);
    }
  }

  lemma ThirdTapsBound(w: seq<int>)
    requires Window(w)
    ensures |w| == TAPS && Abs(Between(w, 6, 3)) <= 128 * 236
  {
    hide Between, AbsTail;
    CoefficientsAreSmall();
    BetweenBound(w, 6, 3);
  }

  lemma Distribute(x: int, y: int, c: int)
    ensures (x - y) * c == x * c - y * c
  {
  }

  lemma NoSteps(r: Rtl)
    requires |r.shift| == TAPS
    ensures Run(r, []) == r && Possible(r, []) && Accepted(r, []) == []
  {
  }

  lemma ResultIsOff(t: Rtl, ys: seq<int>, steps: seq<Step>, out: seq<int>, off: int)
    requires |t.shift| == TAPS && Possible(t, steps) && Accepted(t, steps) == []
    requires off != 0 && Run(t, steps).out == out + [Conv(ys, |out|, 0) + off]
    ensures !RightFrom(t, ys)
  {
    hide Run, Possible, Accepted, Conv;
    assert ys + [] == ys;
    assert Run(t, steps).out[|out|] == Conv(ys, |out|, 0) + off;
    assert !RightAlong(t, ys, steps);
  }

  /** A change of the sample between two edges leaves all results right, for the sample as
      it then stands, always while the state signal is 0 or 1; at 2 and 3, when the machine
      is at work, exactly if the taps that are added once more make up for the head of the
      sum, which stays that of the old sample; and never at 4, where the result is
      delivered and the sample shifted in a second time. */
  lemma ChangeIsHarmlessIff(r: Rtl, xs: seq<int>, x: int)
    requires Inv(r, xs) && x != r.sample
    ensures |r.shift| == TAPS
    ensures RightFrom(Next(r, Change(x)), Moved(r, xs, x)) <==>
      if r.stateOut == 4 then false
      else if r.stateOut == 2 || r.stateOut == 3 then
        r.fsm.ResetS? || Repeated(r) == (Wrap8(x) - Wrap8(r.sample)) * Coef(0)
      else true
  {
    hide Run, Possible, Accepted, Conv, Holds, Wrap8, Wrap19, Coef, Tail, Taps, RightFrom, Shifted, Repeated, Window;
    WindowLength(r.shift);
    var t := Next(r, Change(x));
    if r.stateOut == 4 {
      SecondDelivery(r, xs, x);
    } else if (r.stateOut == 2 || r.stateOut == 3) && !r.fsm.ResetS? {
      LateChange(r, xs, x);
    } else {
      if r.stateOut == 1 { ComputedInFirst(r.(sample := x)); }
      MovedKeeps(r, xs, t, x);
      InvIsRight(t, Moved(r, xs, x));
    }
  }

  lemma SecondDelivery(r: Rtl, xs: seq<int>, x: int)
    requires Inv(r, xs) && x != r.sample && r.stateOut == 4
    ensures |r.shift| == TAPS && !RightFrom(Next(r, Change(x)), Moved(r, xs, x))
  {
    hide Conv, Holds, Wrap8, Wrap19, Coef, Tail, Taps, Shifted, Run, Possible, Accepted, AccOk;
    WindowLength(r.shift);
    var t := Next(r, Change(x));
    assert |t.out| == |r.out| + 1 && Moved(r, xs, x) == xs;
    NoSteps(t);
    assert xs + [] == xs;
    assert !RightAlong(t, xs, []);
  }

  lemma LateChange(r: Rtl, xs: seq<int>, x: int)
    requires Inv(r, xs) && x != r.sample && (r.stateOut == 2 || r.stateOut == 3) && !r.fsm.ResetS?
    ensures |r.shift| == TAPS
    ensures RightFrom(Next(r, Change(x)), Moved(r, xs, x))
       <==> Repeated(r) == (Wrap8(x) - Wrap8(r.sample)) * Coef(0)
  {
    hide Conv, Holds, Wrap8, Wrap19, Coef, Tail, Taps, Shifted, Run, Possible, Accepted, RightFrom, Repeated, Window;
    WindowLength(r.shift);
    var t := Next(r, Change(x));
    ChangedLate(r, x);
    Distribute(Wrap8(x), Wrap8(r.sample), Coef(0));
    if Repeated(r) == (Wrap8(x) - Wrap8(r.sample)) * Coef(0) {
      MovedKeeps(r, xs, t, x);
      InvIsRight(t, Moved(r, xs, x));
    } else {
      var steps := LateResult(r, xs, x);
      ResultIsOff(t, Moved(r, xs, x), steps, r.out, Repeated(r) - (Wrap8(x) - Wrap8(r.sample)) * Coef(0));
    }
  }

  // ---------------------------------------------------------------------
  // Reset in mid-stream
  // ---------------------------------------------------------------------

  /** One execution of the datapath with the reset signal high or low. */
  function Execution(r: Rtl, reset: bool): (t: Rtl)
    requires |r.shift| == TAPS
    ensures |t.shift| == TAPS
  {
    Computed(if reset then r.(acc := 0, shift := Silence()) else r)
  }

  /** The datapath runs as reset is raised and again as it is lowered; the state signal
      keeps its value throughout. */
  function AfterReset(r: Rtl): Rtl
    requires |r.shift| == TAPS
  {
    Execution(Execution(r.(fsm := ResetS), true), false)
  }

  lemma ResetForgetsIff(r: Rtl)
    requires |r.shift| == TAPS
    ensures AfterReset(r).shift == Silence() <==> r.stateOut != 4 || Wrap8(r.sample) == 0
    ensures AfterReset(r).fsm.ResetS? && AfterReset(r).sample == r.sample && AfterReset(r).stateOut == r.stateOut
    ensures |AfterReset(r).shift| == TAPS
  {
    hide Taps, Wrap8, Wrap19, Coef;
    var t := AfterReset(r);
    if r.stateOut == 4 {
      assert t.shift[0] == Wrap8(r.sample) && t.shift[1] == Wrap8(r.sample);
      assert Silence()[0] == 0;
    }
  }

  /** The machine as it comes out of a reset, its results counted anew. */
  function Restarted(r: Rtl): Rtl
    requires |r.shift| == TAPS
  {
    AfterReset(r).(out := [])
  }

  /** Whatever happens from here on, the results are the convolutions of the samples
      accepted from here on. */
  ghost predicate FiltersFromHere(r: Rtl)
    requires |r.shift| == TAPS
  {
    forall steps :: Possible(r, steps) ==> ConvolvesAlong(r, steps)
  }

  ghost predicate ConvolvesAlong(r: Rtl, steps: seq<Step>)
    requires |r.shift| == TAPS
  {
    var t, xs := Run(r, steps), Accepted(r, steps);
    forall n :: 0 <= n < |t.out| ==> t.out[n] == Conv(xs, n, 0)
  }

  lemma QuietRestartFilters(r: Rtl, steps: seq<Step>)
    requires r.fsm.ResetS? && r.shift == Silence() && r.out == [] && Possible(r, steps)
    ensures ConvolvesAlong(r, steps)
  {
    hide Conv, AccOk;
    assert Inv(r, []) by { assert AccOk(r) by { FreshAccOk(r); } }
    RunKeeps(r, [], steps);
    assert [] + Accepted(r, steps) == Accepted(r, steps);
  }

  lemma FreshAccOk(r: Rtl)
    requires |r.shift| == TAPS && r.fsm.ResetS?
    ensures AccOk(r)
  {
  }

  /** The run that shows it: one sample, accepted on the second edge after the reset. */
  function OneSample(y: int): seq<Step> {
    [Clock(false, y), Clock(true, y), Clock(false, y), Clock(false, y), Clock(false, y)]
  }

  /** Two copies of the byte that was on the sample signal stand in the register. */
  function Remains(x: int): seq<int> {
    [x, x] + seq(TAPS - 2, i => 0)
  }

  lemma RemainsWindow(x: int)
    requires InByte(x)
    ensures Window(Remains(x))
  {
  }

  lemma RemainsTail(x: int)
    ensures Tail(Remains(x), 0) == 9 * x
  {
    var w := Remains(x);
    assert Tail(w, 14) == 0 && Tail(w, 13) == 0 && Tail(w, 12) == 0 && Tail(w, 11) == 0 && Tail(w, 10) == 0;
    assert Tail(w, 9) == 0 && Tail(w, 8) == 0 && Tail(w, 7) == 0 && Tail(w, 6) == 0 && Tail(w, 5) == 0;
    assert Tail(w, 4) == 0 && Tail(w, 3) == 0 && Tail(w, 2) == 0;
    assert Tail(w, 1) == x * 13 && Tail(w, 0) == x * 13 + x * -4;
  }

  lemma ResetInStateFour(r: Rtl)
    requires |r.shift| == TAPS && r.stateOut == 4
    ensures Restarted(r).shift == Remains(Wrap8(r.sample))
  {
    hide Taps, Wrap8, Wrap19, Coef;
    var x := Wrap8(r.sample);
    var once := Shifted(Silence(), x);
    assert once == [x] + seq(TAPS - 1, i => 0);
    assert Shifted(once, x) == Remains(x);
  }

  /** The first result after such a reset is off by nine times the byte. */
  lemma FirstResultAfterReset(t: Rtl, x: int, y: int)
    requires InByte(x) && t.fsm.ResetS? && t.stateOut == 4 && t.shift == Remains(x) && t.out == []
    ensures Possible(t, OneSample(y)) && Accepted(t, OneSample(y)) == [Wrap8(y)]
    ensures Run(t, OneSample(y)).out == [Conv([Wrap8(y)], 0, 0) + 9 * x]
  {
    hide Taps, Wrap8, Wrap19, Coef, Conv, Partial, Shifted, Tail, Run, Possible, Accepted, Remains, Window;
    var c0, c1, v := Clock(false, y), Clock(true, y), Clock(false, y);
    RemainsWindow(x);
    var s := Wrap8(y);
    Wrap8InByte(y);
    var t1 := Next(t, c0);
    assert t1 == t.(fsm := FirstS, stateOut := 0, sample := y);
    var t2 := Next(t1, c1);
    ComputedInFirst(t1.(fsm := SecondS, stateOut := 1));
    assert t2 == t1.(fsm := SecondS, stateOut := 1, acc := Partial(t.shift, s, 11));
    var t3 := Next(t2, v);
    ComputedLater(t2.(fsm := ThirdS, stateOut := 2));
    var t4 := Next(t3, v);
    ComputedLater(t3.(fsm := OutputS, stateOut := 3));
    var t5 := Next(t4, v);
    ComputedLater(t4.(fsm := FirstS, stateOut := 4));
    assert t5.out == [Partial(t.shift, s, 0)];
    assert Partial(t.shift, s, 0) == Conv([s], 0, 0) + 9 * x by { ResultOverRemains(x, s); }
    assert TakenBy(t, c0) == [] && TakenBy(t1, c1) == [s] && TakenBy(t2, v) == [] && TakenBy(t3, v) == []
      && TakenBy(t4, v) == [];
    assert Holding(t, c0) && Holding(t1, c1) && Holding(t2, v) && Holding(t3, v) && Holding(t4, v);
    FiveSteps(t, c0, c1, v);
  }

  lemma FiveSteps(t: Rtl, a: Step, b: Step, v: Step)
    requires |t.shift| == TAPS
    ensures var t2 := Next(Next(t, a), b);
      var t4 := Next(Next(t2, v), v);
      && Run(t, [a, b, v, v, v]) == Next(t4, v)
      && (Possible(t, [a, b, v, v, v]) <==>
            Holding(t, a) && Holding(Next(t, a), b) && Holding(t2, v) && Holding(Next(t2, v), v) && Holding(t4, v))
      && Accepted(t, [a, b, v, v, v])
         == TakenBy(t, a) + TakenBy(Next(t, a), b) + (TakenBy(t2, v) + TakenBy(Next(t2, v), v) + TakenBy(t4, v))
  {
    hide *;
    var t2 := Next(Next(t, a), b);
    TwoSteps(t, a, b, [v, v, v]);
    TwoSteps(t2, v, v, [v]);
    OneStep(Next(Next(t2, v), v), v);
    assert [a, b, v, v, v] == [a, b] + [v, v, v] && [v, v, v] == [v, v] + [v];
  }

  lemma ResultOverRemains(x: int, s: int)
    requires InByte(s)
    ensures Partial(Remains(x), s, 0) == Conv([s], 0, 0) + 9 * x
  {
    hide Coef, Remains, Tail;
    RemainsTail(x);
    WholeSumOfSilence(s);
  }

  lemma WholeSumOfSilence(s: int)
    requires InByte(s)
    ensures Conv([s], 0, 0) == s * Coef(0)
  {
    hide Coef, Conv;
    SilenceTail();
    WholeSum(Silence(), [], s);
    assert [] + [s] == [s];
  }

  lemma SilenceTail()
    ensures Window(Silence()) && Holds(Silence(), []) && Tail(Silence(), 0) == 0
  {
    hide Coef;
    var w := Silence();
    assert Tail(w, 14) == 0 && Tail(w, 13) == 0 && Tail(w, 12) == 0 && Tail(w, 11) == 0 && Tail(w, 10) == 0;
    assert Tail(w, 9) == 0 && Tail(w, 8) == 0 && Tail(w, 7) == 0 && Tail(w, 6) == 0 && Tail(w, 5) == 0;
    assert Tail(w, 4) == 0 && Tail(w, 3) == 0 && Tail(w, 2) == 0 && Tail(w, 1) == 0;
  }

  /** What two more steps amount to. */
  lemma TwoSteps(r: Rtl, a: Step, b: Step, rest: seq<Step>)
    requires |r.shift| == TAPS
    ensures var r2 := Next(Next(r, a), b);
      && Run(r, [a, b] + rest) == Run(r2, rest)
      && (Possible(r, [a, b] + rest) <==> Holding(r, a) && Holding(Next(r, a), b) && Possible(r2, rest))
      && Accepted(r, [a, b] + rest) == TakenBy(r, a) + TakenBy(Next(r, a), b) + Accepted(r2, rest)
  {
    hide *;
    ConsStep(r, a, [b] + rest);
    ConsStep(Next(r, a), b, rest);
    assert [a, b] + rest == [a] + ([b] + rest);
  }

  lemma OneStep(r: Rtl, a: Step)
    requires |r.shift| == TAPS
    ensures Run(r, [a]) == Next(r, a) && (Possible(r, [a]) <==> Holding(r, a)) && Accepted(r, [a]) == TakenBy(r, a)
  {
    hide Next, Holding, TakenBy;
    assert Run(Next(r, a), []) == Next(r, a);
    ConsStep(r, a, []);
    assert [a] == [a] + [];
  }

  lemma ConsStep(r: Rtl, step: Step, rest: seq<Step>)
    requires |r.shift| == TAPS
    ensures Run(r, [step] + rest) == Run(Next(r, step), rest)
    ensures Possible(r, [step] + rest) <==> Holding(r, step) && Possible(Next(r, step), rest)
    ensures Accepted(r, [step] + rest) == TakenBy(r, step) + Accepted(Next(r, step), rest)
  {
    hide Next, Holding, TakenBy;
    assert ([step] + rest)[1..] == rest;
  }

  /** After a reset the machine filters what it accepts from then on, for every run, if
      and only if the reset did not find it presenting a result, with the state signal
      at 4, while a nonzero byte stood on the sample signal. */
  lemma ResetRestartsIff(r: Rtl)
    requires |r.shift| == TAPS
    ensures FiltersFromHere(Restarted(r)) <==> r.stateOut != 4 || Wrap8(r.sample) == 0
  {
    hide Run, Possible, Accepted, Conv, AfterReset, ConvolvesAlong, Wrap8, Taps, Computed, Remains, OneSample;
    var t := Restarted(r);
    ResetForgetsIff(r);
    if r.stateOut != 4 || Wrap8(r.sample) == 0 {
      forall steps | Possible(t, steps)
        ensures ConvolvesAlong(t, steps)
      {
        QuietRestartFilters(t, steps);
      }
    } else {
      var x := Wrap8(r.sample);
      Wrap8InByte(r.sample);
      ResetInStateFour(r);
      FirstResultAfterReset(t, x, 0);
      FirstResultIsOff(t, x, 0);
    }
  }

  lemma FirstResultIsOff(t: Rtl, x: int, y: int)
    requires |t.shift| == TAPS && x != 0 && Accepted(t, OneSample(y)) == [Wrap8(y)]
    requires Run(t, OneSample(y)).out == [Conv([Wrap8(y)], 0, 0) + 9 * x]
    ensures !ConvolvesAlong(t, OneSample(y))
  {
    hide Run, Accepted, Conv, Wrap8;
    assert Run(t, OneSample(y)).out[0] != Conv([Wrap8(y)], 0, 0);
  }

  /** The bad case is one that every accepted sample leads to: when its result is
      presented the state signal is 4 and the sample is still there. */
  lemma EveryResultIsAtRisk(r: Rtl, xs: seq<int>, v0: bool, v1: bool, v2: bool)
    requires Inv(r, xs) && r.fsm.FirstS?
    ensures var x := r.sample;
      var t := Run(r, [Clock(true, x), Clock(v0, x), Clock(v1, x), Clock(v2, x)]);
      FiltersFromHere(Restarted(t)) <==> Wrap8(x) == 0
  {
    hide Run, FiltersFromHere, AccOk, Holds, Conv, Window, Restarted, Wrap8;
    var x := r.sample;
    WindowLength(r.shift);
    ResultAfterThreeEdges(r, xs, v0, v1, v2);
    ResetRestartsIff(Run(r, [Clock(true, x), Clock(v0, x), Clock(v1, x), Clock(v2, x)]));
  }

  // ---------------------------------------------------------------------
  // The two modules
  // ---------------------------------------------------------------------

  class FirFsm {
    var state: FsmState
    var stateOut: nat

    constructor ()
      ensures state == ResetS && stateOut == 0
    {
      state, stateOut := ResetS, 0;
    }

    method Entry(reset: bool, inValid: bool)
      modifies this
      ensures state == if reset then ResetS else NextFsm(old(state), inValid)
      ensures stateOut == if reset then old(stateOut) else StateCode(old(state))
    {
      if reset {
        state := ResetS;
        return;
      }
      match state
      case ResetS => state := FirstS; stateOut := 0;
      case FirstS =>
        if inValid {
          state := SecondS;
        }
        stateOut := 1;
      case SecondS => state := ThirdS; stateOut := 2;
      case ThirdS => state := OutputS; stateOut := 3;
      case OutputS => state := FirstS; stateOut := 4;
    }
  }

  class FirData {
    var acc: int
    const shift: array<int>
    var results: seq<int>

    ghost predicate Valid() {
      shift.Length == TAPS
    }

    ghost function View(fsm: FsmState, stateOut: nat, sample: int): Rtl
      reads this, shift
    {
      Rtl(fsm, stateOut, acc, shift[..], sample, results)
    }

    constructor ()
      ensures Valid() && fresh(shift)
      ensures forall fsm, sample :: fsm == ResetS ==> View(fsm, 0, sample) == Fresh(sample)
    {
      acc, results := 0, [];
      shift := new int[TAPS](i => 0);
      new;
      assert shift[..] == Silence();
    }

    method ClearRegisters()
      requires Valid()
      modifies this`acc, shift
      ensures acc == 0 && shift[..] == Silence()
    {
      acc := 0;
      for i := 0 to TAPS
        invariant acc == 0 && forall k :: 0 <= k < i ==> shift[k] == 0
      {
        shift[i] := 0;
      }
      assert shift[..] == Silence();
    }

    /** The contribution of one stored sample. */
    method AddTap(i: nat)
      requires Valid() && i < TAPS - 1
      modifies this`acc
      ensures acc == Wrap19(old(acc) + shift[i] * Coef(i + 1))
    {
      acc := Wrap19(acc + shift[i] * Coef(i + 1));
    }

    method ShiftIn(sample: int)
      requires Valid()
      modifies shift
      ensures shift[..] == Shifted(old(shift[..]), sample)
    {
      var i := TAPS - 2;
      while i >= 0
        invariant -1 <= i <= TAPS - 2
        invariant forall k :: i + 1 < k < TAPS ==> shift[k] == old(shift[k - 1])
        invariant forall k :: 0 <= k <= i + 1 ==> shift[k] == old(shift[k])
      {
        shift[i + 1] := shift[i];
        i := i - 1;
      }
      shift[0] := sample;
      forall k | 0 <= k < TAPS
        ensures shift[..][k] == Shifted(old(shift[..]), sample)[k]
      {
      }
    }

    method FirstTaps(sample: int)
      requires Valid()
      modifies this`acc
      ensures acc == Taps(Wrap19(Wrap8(sample) * Coef(0)), shift[..], 14, 11)
    {
      hide Coef, Wrap19, Wrap8;
      acc := Wrap19(Wrap8(sample) * Coef(0));
      AddTap(14);
      AddTap(13);
      AddTap(12);
      AddTap(11);
    }

    method SecondTaps()
      requires Valid()
      modifies this`acc
      ensures acc == Taps(old(acc), shift[..], 10, 7)
    {
      hide Coef, Wrap19;
      AddTap(10);
      AddTap(9);
      AddTap(8);
      AddTap(7);
    }

    method ThirdTaps()
      requires Valid()
      modifies this`acc
      ensures acc == Taps(old(acc), shift[..], 6, 3)
    {
      hide Coef, Wrap19;
      AddTap(6);
      AddTap(5);
      AddTap(4);
      AddTap(3);
    }

    method LastTaps()
      requires Valid()
      modifies this`acc
      ensures acc == Taps(old(acc), shift[..], 2, 0)
    {
      hide Coef, Wrap19;
      AddTap(2);
      AddTap(1);
      AddTap(0);
    }

    /** The datapath's one process: reset first, then whatever the state calls for. */
    method Entry(reset: bool, stateOut: nat, sample: int)
      requires Valid()
      modifies this, shift
      ensures forall fsm ::
        var before := old(View(fsm, stateOut, sample));
        View(fsm, stateOut, sample) == Execution(before, reset)
    {
      hide Taps, Wrap8, Wrap19, Coef, Shifted, Silence;
      if reset {
        ClearRegisters();
      }
      match stateOut
      case 1 => FirstTaps(sample);
      case 2 => SecondTaps();
      case 3 => ThirdTaps();
      case 4 =>
        LastTaps();
        ShiftIn(Wrap8(sample));
        results := results + [acc];
      case _ =>
    }
  }
}
