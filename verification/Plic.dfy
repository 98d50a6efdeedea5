/** The platform interrupt controller: a bit per interrupt, a line to the hart, and
    the claim and completion register. */
module Plic {
  import opened Common

  const WIDTH: nat := 64
  const LINES: nat := 32

  /** The 64-bit number whose high bits below k are those in s. */
  function Value(s: set<nat>, k: nat): nat {
    if k == 0 then 0 else Value(s, k - 1) + if k - 1 in s then Pow2(k - 1) else 0
  }

  /** A set bit keeps the number above its own position, which is what the bound of
      the claim loop relies on. */
  lemma {:induction false} BitBelowValue(s: set<nat>, k: nat, i: nat)
    requires i in s && i < k
    ensures i < Pow2(i) <= Value(s, k)
  {
    if i < k - 1 { BitBelowValue(s, k - 1, i); }
  }

  lemma {:induction false} NoBitsNoValue(s: set<nat>, k: nat)
    requires s == {}
    ensures Value(s, k) == 0
  {
    if k > 0 { NoBitsNoValue(s, k - 1); }
  }

  function BitsFrom(lo: nat, hi: nat): (r: set<nat>)
    requires lo <= hi
    ensures forall b :: b in r <==> lo <= b < hi
    decreases hi - lo
  {
    if lo == hi then {} else {lo} + BitsFrom(lo + 1, hi)
  }

  /** The bits of 1 << i as the source widens it: shifting into the sign bit of an int
      sets all upper bits of the 64-bit word. */
  function Mask(i: nat): set<nat> {
    if i < LINES - 1 then {i} else BitsFrom(LINES - 1, WIDTH)
  }

  /** Raising a line widens the int 1 << i to the 64-bit word: for lines below 31 this is
      the bit's own value, and line 31 takes all upper bits with it. */
  lemma RaisedWord(i: nat)
    requires i < 32
    ensures Value(Mask(i), 64) == if i < 31 then Pow2(i) else 0xffff_ffff_8000_0000
    ensures forall b <- Mask(i) :: b < 64
  {
    hide Value;
    if i < 31 {
      OneRunOfBits(Mask(i), i, i + 1, 64);
    } else {
      OneRunOfBits(Mask(i), 31, 64, 64);
      hide Pow2;
      TopBits();
    }
  }

  lemma TopBits()
    ensures Pow2(64) - Pow2(31) == 0xffff_ffff_8000_0000
  {
    hide Pow2;
    Doubles(31);
    EightBitsUp(0); EightBitsUp(8); EightBitsUp(16); EightBitsUp(24);
    EightBitsUp(32); EightBitsUp(40); EightBitsUp(48); EightBitsUp(56);
  }

  lemma {:induction false} OneRunOfBits(s: set<nat>, lo: nat, hi: nat, k: nat)
    requires lo <= hi && forall b: nat :: b in s <==> lo <= b < hi
    ensures Value(s, k) == if k <= lo then 0 else Pow2(if k < hi then k else hi) - Pow2(lo)
  {
    if k > 0 { OneRunOfBits(s, lo, hi, k - 1); }
  }

  predicate Hit(irqs: set<nat>, i: nat) {
    irqs * Mask(i) != {}
  }

  /** The lowest line from i on with a bit in irqs; LINES when there is none. */
  function LowestFrom(irqs: set<nat>, i: nat): (r: nat)
    requires i <= LINES
    ensures i <= r <= LINES
    ensures r < LINES ==> Hit(irqs, r)
    ensures forall j :: i <= j < r ==> !Hit(irqs, j)
    decreases LINES - i
  {
    if i == LINES || Hit(irqs, i) then i else LowestFrom(irqs, i + 1)
  }

  function Lowest(irqs: set<nat>): nat { LowestFrom(irqs, 0) }

  lemma SomethingIsHit(irqs: set<nat>)
    requires irqs != {} && forall b <- irqs :: b < WIDTH
    ensures Lowest(irqs) < LINES && Lowest(irqs) < Value(irqs, WIDTH)
  {
    var b :| b in irqs;
    var i := if b < LINES - 1 then b else LINES - 1;
    assert b in irqs * Mask(i);
    assert Hit(irqs, i);
    var m := Lowest(irqs);
    assert Hit(irqs, m);
    var c :| c in irqs * Mask(m);
    BitBelowValue(irqs, WIDTH, c);
  }

  // ---------------------------------------------------------------------
  // State and steps
  // ---------------------------------------------------------------------

  datatype Event = Raised(id: nat) | Claimed(id: nat) | Triggered | Completed

  /** scheduled: the run process has been notified and has not yet run. */
  datatype State = State(pending: set<nat>, enabled: set<nat>, eip: bool, scheduled: bool, trace: seq<Event>)

  function Irqs(s: State): set<nat> { s.pending * s.enabled }

  datatype Step =
    | Raise(id: nat)
    | Claim
    | Complete
    | Tick

  predicate Enabled(s: State, step: Step) {
    match step
    case Raise(id) => id < LINES
    case Claim => true
    case Complete => true
    case Tick => s.scheduled
  }

  function Gateway(s: State, id: nat): State {
    s.(pending := s.pending + Mask(id), scheduled := true, trace := s.trace + [Raised(id)])
  }

  /** What a claim answers; zero means that there is nothing to claim. */
  function ClaimId(s: State): nat {
    if Irqs(s) == {} then 0 else Lowest(Irqs(s))
  }

  function AfterClaim(s: State): State {
    if Irqs(s) == {} then s
    else s.(pending := s.pending - Mask(ClaimId(s)), trace := s.trace + [Claimed(ClaimId(s))])
  }

  function AfterComplete(s: State): State {
    s.(eip := false, scheduled := true, trace := s.trace + [Completed])
  }

  function AfterTick(s: State): State {
    if !s.eip && Irqs(s) != {} then s.(scheduled := false, eip := true, trace := s.trace + [Triggered])
    else s.(scheduled := false)
  }

  function Next(s: State, step: Step): State {
    match step
    case Raise(id) => Gateway(s, id)
    case Claim => AfterClaim(s)
    case Complete => AfterComplete(s)
    case Tick => AfterTick(s)
  }

  function Initial(enabled: set<nat>): State {
    State({}, enabled, false, false, [])
  }

  /** Since it was last claimed, a line has been raised. */
  function Outstanding(trace: seq<Event>, id: nat): bool {
    if trace == [] then false
    else
      var e := trace[|trace| - 1];
      if e == Raised(id) then true else if e == Claimed(id) then false else Outstanding(trace[..|trace| - 1], id)
  }

  lemma OutstandingSnoc(trace: seq<Event>, e: Event, id: nat)
    ensures Outstanding(trace + [e], id) == if e == Raised(id) then true else if e == Claimed(id) then false
      else Outstanding(trace, id)
  {
    assert (trace + [e])[..|trace|] == trace;
  }

  ghost predicate Inv(s: State) {
    && (forall b <- s.pending :: b < WIDTH)
    && (Irqs(s) != {} ==> s.eip || s.scheduled)
    && (forall id: nat :: id < LINES ==> (Mask(id) <= s.pending <==> Outstanding(s.trace, id)))
    && (forall id: nat :: id < LINES ==> Mask(id) <= s.pending || s.pending * Mask(id) == {})
  }

  lemma MasksAreDisjoint(i: nat, j: nat)
    requires i < LINES && j < LINES && i != j
    ensures Mask(i) * Mask(j) == {} && Mask(i) != {} && forall b <- Mask(i) :: b < WIDTH
  {
    assert i in Mask(i);
  }

  lemma InitialInv(enabled: set<nat>)
    ensures Inv(Initial(enabled))
  {
    forall id: nat | id < LINES
      ensures !(Mask(id) <= {})
    {
      assert id in Mask(id);
    }
  }

  /** Raising, claiming, completing and running the process in any order: a line's bit
      is high exactly while it has been raised and not claimed since, and whenever an
      enabled bit is high the hart's line is up or the process that raises it is due. */
  lemma StepKeeps(s: State, step: Step)
    requires Inv(s) && Enabled(s, step)
    ensures Inv(Next(s, step))
  {
    hide Mask, Lowest, Outstanding, Value;
    var t := Next(s, step);
    match step
    case Raise(k) =>
      forall id: nat | id < LINES
        ensures Mask(id) <= t.pending <==> Outstanding(t.trace, id)
        ensures Mask(id) <= t.pending || t.pending * Mask(id) == {}
      {
        LineSet(s.pending, k, id);
        OutstandingSnoc(s.trace, Raised(k), id);
      }
      LineBits(k);
    case Claim =>
      if Irqs(s) != {} {
        SomethingIsHit(Irqs(s));
        var m := ClaimId(s);
        forall id: nat | id < LINES
          ensures Mask(id) <= t.pending <==> Outstanding(t.trace, id)
          ensures Mask(id) <= t.pending || t.pending * Mask(id) == {}
        {
          LineCleared(s.pending, m, id);
          OutstandingSnoc(s.trace, Claimed(m), id);
        }
        assert Irqs(t) <= Irqs(s);
      }
    case Complete =>
      forall id: nat | id < LINES
        ensures Outstanding(t.trace, id) == Outstanding(s.trace, id)
      {
        OutstandingSnoc(s.trace, Completed, id);
      }
    case Tick =>
      forall id: nat | id < LINES
        ensures Outstanding(t.trace, id) == Outstanding(s.trace, id)
      {
        OutstandingSnoc(s.trace, Triggered, id);
      }
  }

  lemma LineBits(k: nat)
    requires k < LINES
    ensures k in Mask(k) && forall b <- Mask(k) :: b < WIDTH
  {
  }

  /** Setting or clearing one line's bits leaves every other line's alone. */
  lemma LineSet(p: set<nat>, k: nat, id: nat)
    requires k < LINES && id < LINES && (Mask(id) <= p || p * Mask(id) == {})
    ensures var q := p + Mask(k);
      if id == k then Mask(id) <= q
      else (Mask(id) <= q <==> Mask(id) <= p) && (Mask(id) <= q || q * Mask(id) == {})
  {
    LineBits(id);
    if id != k {
      MasksAreDisjoint(id, k);
      assert (p + Mask(k)) * Mask(id) == p * Mask(id);
    }
  }

  lemma LineCleared(p: set<nat>, k: nat, id: nat)
    requires k < LINES && id < LINES && (Mask(id) <= p || p * Mask(id) == {})
    ensures var q := p - Mask(k);
      if id == k then !(Mask(id) <= q) && q * Mask(id) == {}
      else (Mask(id) <= q <==> Mask(id) <= p) && (Mask(id) <= q || q * Mask(id) == {})
  {
    LineBits(id);
    if id != k {
      MasksAreDisjoint(id, k);
      assert (p - Mask(k)) * Mask(id) == p * Mask(id);
    }
  }

  ghost predicate Possible(s: State, steps: seq<Step>)
    decreases |steps|
  {
    steps == [] || (Enabled(s, steps[0]) && Possible(Next(s, steps[0]), steps[1..]))
  }

  ghost function Run(s: State, steps: seq<Step>): State
    decreases |steps|
  {
    if steps == [] then s else Run(Next(s, steps[0]), steps[1..])
  }

  lemma {:induction false} RunKeeps(s: State, steps: seq<Step>)
    requires Inv(s) && Possible(s, steps)
    ensures Inv(Run(s, steps)) && Run(s, steps).enabled == s.enabled
    decreases |steps|
  {
    hide Inv;
    if steps != [] {
      StepKeeps(s, steps[0]);
      RunKeeps(Next(s, steps[0]), steps[1..]);
    }
  }

  /** No interrupt is lost: in every reachable state an enabled line that has been
      raised and not claimed since is high, and the hart is being told or about to be. */
  lemma NoLostInterrupt(enabled: set<nat>, steps: seq<Step>, id: nat)
    requires Possible(Initial(enabled), steps) && id < LINES && Mask(id) <= enabled
    requires Outstanding(Run(Initial(enabled), steps).trace, id)
    ensures var s := Run(Initial(enabled), steps);
      Hit(Irqs(s), id) && (s.eip || s.scheduled)
  {
    InitialInv(enabled);
    RunKeeps(Initial(enabled), steps);
    LineBits(id);
    assert id in Irqs(Run(Initial(enabled), steps)) * Mask(id);
  }

  /** A line stays high until a claim answers with it. */
  lemma HighUntilClaimed(s: State, step: Step, id: nat)
    requires Inv(s) && Enabled(s, step) && id < LINES && Mask(id) <= s.pending
    ensures Mask(id) <= Next(s, step).pending <==> !(step.Claim? && Irqs(s) != {} && ClaimId(s) == id)
  {
    hide Mask, Lowest, Outstanding;
    if step.Claim? && Irqs(s) != {} {
      SomethingIsHit(Irqs(s));
      LineCleared(s.pending, ClaimId(s), id);
    } else if step.Raise? {
      LineSet(s.pending, step.id, id);
    }
  }

  /** A claim that answers zero is ambiguous exactly when line 0 is in use: it means
      that nothing was waiting, or that line 0 was, and is no longer. */
  lemma ZeroMeansNothingIff(s: State)
    requires Inv(s)
    ensures ClaimId(s) == 0 <==> Irqs(s) == {} || Hit(Irqs(s), 0)
  {
    hide Mask, Value, Outstanding;
    if Irqs(s) != {} {
      SomethingIsHit(Irqs(s));
      assert Lowest(Irqs(s)) > 0 ==> !Hit(Irqs(s), 0);
    }
  }

  // ---------------------------------------------------------------------
  // What the hart is told
  // ---------------------------------------------------------------------

  /** The hart's line is up: it has been triggered and no completion has come since. */
  predicate LineUp(trace: seq<Event>) {
    if trace == [] then false
    else
      var e := trace[|trace| - 1];
      e.Triggered? || (!e.Completed? && LineUp(trace[..|trace| - 1]))
  }

  /** Some line that the hart listens to has been raised and not claimed since. */
  ghost predicate Waiting(trace: seq<Event>, enabled: set<nat>) {
    exists id: nat :: id < 32 && Outstanding(trace, id) && Mask(id) * enabled != {}
  }

  /** Each trigger so far came with a line waiting and the hart's line down. */
  ghost predicate ToldWithReason(trace: seq<Event>, enabled: set<nat>) {
    forall k :: 0 <= k < |trace| && trace[k].Triggered? ==> !LineUp(trace[..k]) && Waiting(trace[..k], enabled)
  }

  ghost predicate Told(s: State) {
    (s.eip <==> LineUp(s.trace)) && ToldWithReason(s.trace, s.enabled)
  }

  lemma ToldSnoc(trace: seq<Event>, e: Event, enabled: set<nat>)
    requires ToldWithReason(trace, enabled)
    requires e.Triggered? ==> !LineUp(trace) && Waiting(trace, enabled)
    ensures ToldWithReason(trace + [e], enabled)
    ensures LineUp(trace + [e]) <==> e.Triggered? || (!e.Completed? && LineUp(trace))
  {
    hide Waiting;
    var t := trace + [e];
    assert t[..|trace|] == trace;
    forall k | 0 <= k < |t| && t[k].Triggered?
      ensures !LineUp(t[..k]) && Waiting(t[..k], enabled)
    {
      if k < |trace| { assert t[..k] == trace[..k]; }
    }
  }

  /** A bit that is high and enabled belongs to a line that is waiting. */
  lemma SomethingWaits(s: State)
    requires Inv(s) && Irqs(s) != {}
    ensures Waiting(s.trace, s.enabled)
  {
    hide Outstanding, Value;
    SomethingIsHit(Irqs(s));
    var m := Lowest(Irqs(s));
    assert Hit(Irqs(s), m);
    var b :| b in Irqs(s) * Mask(m);
    assert b in s.pending * Mask(m) && b in Mask(m) * s.enabled;
    assert Mask(m) <= s.pending;
  }

  lemma StepTells(s: State, step: Step)
    requires Inv(s) && Told(s) && Enabled(s, step)
    ensures Told(Next(s, step))
  {
    hide Inv, Waiting, Mask, LineUp, ToldWithReason, ClaimId;
    match step
    case Raise(id) => ToldSnoc(s.trace, Raised(id), s.enabled);
    case Claim => ToldSnoc(s.trace, Claimed(ClaimId(s)), s.enabled);
    case Complete => ToldSnoc(s.trace, Completed, s.enabled);
    case Tick =>
      if !s.eip && Irqs(s) != {} {
        SomethingWaits(s);
        ToldSnoc(s.trace, Triggered, s.enabled);
      }
  }

  lemma {:induction false} RunTells(s: State, steps: seq<Step>)
    requires Inv(s) && Told(s) && Possible(s, steps)
    ensures Told(Run(s, steps))
    decreases |steps|
  {
    hide Inv, Told;
    if steps != [] {
      StepKeeps(s, steps[0]);
      StepTells(s, steps[0]);
      RunTells(Next(s, steps[0]), steps[1..]);
    }
  }

  /** The hart is never triggered with nothing waiting, nor twice without a completion in
      between. */
  lemma TriggeredOnlyWithReason(enabled: set<nat>, steps: seq<Step>, k: nat)
    requires Possible(Initial(enabled), steps)
    requires k < |Run(Initial(enabled), steps).trace| && Run(Initial(enabled), steps).trace[k] == Triggered
    ensures var before := Run(Initial(enabled), steps).trace[..k];
      !LineUp(before) && exists id: nat :: id < 32 && Outstanding(before, id) && Mask(id) * enabled != {}
  {
    hide Inv, Run, Possible, Mask;
    InitialInv(enabled);
    RunKeeps(Initial(enabled), steps);
    RunTells(Initial(enabled), steps);
    assert Waiting(Run(Initial(enabled), steps).trace[..k], enabled);
  }

  function Ticks(steps: seq<Step>): nat {
    if steps == [] then 0 else (if steps[0].Tick? then 1 else 0) + Ticks(steps[1..])
  }

  function Notifications(steps: seq<Step>): nat {
    if steps == [] then 0 else (if steps[0].Raise? || steps[0].Complete? then 1 else 0) + Notifications(steps[1..])
  }

  lemma {:induction false} TicksAreNotified(s: State, steps: seq<Step>)
    requires Possible(s, steps)
    ensures Ticks(steps) <= Notifications(steps) + if s.scheduled then 1 else 0
    decreases |steps|
  {
    hide ClaimId, Irqs;
    if steps != [] { TicksAreNotified(Next(s, steps[0]), steps[1..]); }
  }

  /** From reset the process runs at most once for each interrupt that comes in and each
      completion. */
  lemma OneRunPerNotification(enabled: set<nat>, steps: seq<Step>)
    requires Possible(Initial(enabled), steps)
    ensures Ticks(steps) <= Notifications(steps)
  {
    TicksAreNotified(Initial(enabled), steps);
  }

  // ---------------------------------------------------------------------
  // Service by the handler
  // ---------------------------------------------------------------------

  /** The controller's process raises the line, the handler claims and completes. */
  function Service(s: State): State {
    AfterComplete(AfterClaim(AfterTick(s)))
  }

  function ServiceTimes(s: State, n: nat): State
    decreases n
  {
    if n == 0 then s else ServiceTimes(Service(s), n - 1)
  }

  /** The lines in irqs, lowest first. */
  function Ascending(irqs: set<nat>, i: nat): seq<nat>
    requires i <= LINES
    decreases LINES - i
  {
    if i == LINES then [] else (if Hit(irqs, i) then [i] else []) + Ascending(irqs, i + 1)
  }

  function ClaimsOf(trace: seq<Event>): seq<nat> {
    if trace == [] then []
    else
      var e := trace[|trace| - 1];
      ClaimsOf(trace[..|trace| - 1]) + if e.Claimed? then [e.id] else []
  }

  lemma ClaimsSnoc(trace: seq<Event>, e: Event)
    ensures ClaimsOf(trace + [e]) == ClaimsOf(trace) + if e.Claimed? then [e.id] else []
  {
    assert (trace + [e])[..|trace|] == trace;
  }

  /** Only the lines below i are affected by which bits below i are high. */
  lemma {:induction false} AscendingAgrees(a: set<nat>, b: set<nat>, i: nat)
    requires i <= LINES && forall j :: i <= j < LINES ==> Hit(a, j) == Hit(b, j)
    ensures Ascending(a, i) == Ascending(b, i)
    decreases LINES - i
  {
    hide Hit;
    if i < LINES { AscendingAgrees(a, b, i + 1); }
  }

  lemma {:induction false} AscendingSkips(irqs: set<nat>, i: nat, m: nat)
    requires i <= m <= LINES && forall j :: i <= j < m ==> !Hit(irqs, j)
    ensures Ascending(irqs, i) == Ascending(irqs, m)
    decreases m - i
  {
    hide Hit;
    if i < m { AscendingSkips(irqs, i + 1, m); }
  }

  /** Claiming takes the first line off the list. */
  lemma ClaimTakesFirst(s: State)
    requires Inv(s) && Irqs(s) != {}
    ensures Ascending(Irqs(s), 0) == [ClaimId(s)] + Ascending(Irqs(AfterClaim(s)), 0)
  {
    hide Outstanding, Value, Mask;
    SomethingIsHit(Irqs(s));
    var m := ClaimId(s);
    var t := AfterClaim(s);
    AscendingSkips(Irqs(s), 0, m);
    forall j: nat | j < LINES
      ensures Hit(Irqs(t), j) == (j != m && Hit(Irqs(s), j))
    {
      LineBits(m);
      if j != m {
        MasksAreDisjoint(j, m);
        forall b | b in Irqs(s) * Mask(j)
          ensures b in Irqs(t)
        {
          assert b !in Mask(j) * Mask(m);
        }
        assert Irqs(t) * Mask(j) == Irqs(s) * Mask(j);
      } else {
        assert Irqs(t) * Mask(j) == {};
      }
    }
    AscendingSkips(Irqs(t), 0, m + 1);
    AscendingAgrees(Irqs(s), Irqs(t), m + 1);
  }

  lemma ServiceOnce(s: State)
    requires Inv(s) && s.scheduled && !s.eip
    ensures Inv(Service(s)) && Service(s).scheduled && !Service(s).eip
    ensures Irqs(s) != {} ==>
      && ClaimsOf(Service(s).trace) == ClaimsOf(s.trace) + [ClaimId(s)]
      && Ascending(Irqs(s), 0) == [ClaimId(s)] + Ascending(Irqs(Service(s)), 0)
  {
    hide Inv, Outstanding, Ascending, ClaimsOf, Mask, Lowest;
    StepKeeps(s, Tick);
    var a := AfterTick(s);
    StepKeeps(a, Claim);
    var b := AfterClaim(a);
    StepKeeps(b, Complete);
    if Irqs(s) != {} {
      ClaimTakesFirst(a);
      ClaimsSnoc(s.trace, Triggered);
      ClaimsSnoc(a.trace, Claimed(ClaimId(a)));
      ClaimsSnoc(b.trace, Completed);
    }
  }

  /** As many rounds as there are lines waiting serve each of them once, lowest line
      first, and leave none. */
  lemma {:induction false} AllServedInOrder(s: State)
    requires Inv(s) && s.scheduled && !s.eip
    ensures var n := |Ascending(Irqs(s), 0)|;
      && ClaimsOf(ServiceTimes(s, n).trace) == ClaimsOf(s.trace) + Ascending(Irqs(s), 0)
      && Irqs(ServiceTimes(s, n)) == {}
    decreases |Ascending(Irqs(s), 0)|
  {
    hide Inv, Ascending, ClaimsOf, Service, Lowest, Hit, Outstanding;
    if Irqs(s) == {} {
      NothingToList(Irqs(s), 0);
      assert ClaimsOf(s.trace) + [] == ClaimsOf(s.trace);
    } else {
      ServiceOnce(s);
      AllServedInOrder(Service(s));
      assert ClaimsOf(s.trace) + [ClaimId(s)] + Ascending(Irqs(Service(s)), 0)
        == ClaimsOf(s.trace) + Ascending(Irqs(s), 0);
    }
  }

  lemma {:induction false} NothingToList(irqs: set<nat>, i: nat)
    requires i <= LINES && irqs == {}
    ensures Ascending(irqs, i) == []
    decreases LINES - i
  {
    if i < LINES { NothingToList(irqs, i + 1); }
  }

  // ---------------------------------------------------------------------
  // The controller object
  // ---------------------------------------------------------------------

  class InterruptController {
    var pendingInterrupts: set<nat>
    const enabledMask: set<nat>
    var eip: bool
    var scheduled: bool
    var trace: seq<Event>

    ghost function View(): State
      reads this
    {
      State(pendingInterrupts, enabledMask, eip, scheduled, trace)
    }

    constructor (enabled: set<nat>)
      ensures View() == Initial(enabled)
    {
      enabledMask := enabled;
      pendingInterrupts, eip, scheduled, trace := {}, false, false, [];
    }

    method GatewayIncomingInterrupt(id: nat)
      requires id < LINES
      modifies this
      ensures View() == Next(old(View()), Raise(id))
    {
      pendingInterrupts := pendingInterrupts + Mask(id);
      scheduled := true;
      trace := trace + [Raised(id)];
    }

    /** A read of the claim register: a search for the lowest line, bounded by the
        value of the interrupt word itself. */
    method ReadClaim() returns (minId: nat)
      requires forall b <- pendingInterrupts :: b < WIDTH
      modifies this
      ensures minId == ClaimId(old(View())) && View() == Next(old(View()), Claim)
    {
      hide Mask, Value, Hit;
      var irqs := pendingInterrupts * enabledMask;
      minId := 0;
      var bound := Value(irqs, WIDTH);
      if irqs == {} { NoBitsNoValue(irqs, WIDTH); } else { SomethingIsHit(irqs); }
      var i := 0;
      while i < bound
        invariant irqs != {} ==> i <= Lowest(irqs) && Lowest(irqs) == LowestFrom(irqs, i)
        invariant View() == old(View()) && minId == 0
      {
        if Hit(irqs, i) {
          pendingInterrupts := pendingInterrupts - Mask(i);
          minId := i;
          trace := trace + [Claimed(i)];
          return;
        }
        i := i + 1;
      }
    }

    method WriteResponse()
      modifies this
      ensures View() == Next(old(View()), Complete)
    {
      eip := false;
      scheduled := true;
      trace := trace + [Completed];
    }

    method RunOnce()
      requires scheduled
      modifies this
      ensures View() == Next(old(View()), Tick)
    {
      scheduled := false;
      if !eip {
        var irqs := pendingInterrupts * enabledMask;
        if irqs != {} {
          eip := true;
          trace := trace + [Triggered];
        }
      }
    }
  }
}
