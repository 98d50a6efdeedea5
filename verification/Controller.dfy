/** The controller that turns a stream of command words into configured units. */
module Controller {
  import opened ContextWords

  const UNITS: nat := 14

  /** The physical number and the operation wired to each slot. */
  function UnitNumber(i: nat): bv64
    requires i < UNITS
  {
    if i < 4 then if i == 0 then 0 else if i == 1 then 1 else if i == 2 then 2 else 3
    else if i < 8 then if i == 4 then 4 else if i == 5 then 5 else if i == 6 then 6 else 7
    else if i < 12 then if i == 8 then 8 else if i == 9 then 9 else if i == 10 then 10 else 11
    else if i == 12 then 12 else 13
  }

  function UnitKind(i: nat): bv64
    requires i < UNITS
  {
    if i < 4 then Wide(CONFIG_LOAD) else if i < 8 then Wide(CONFIG_ADD) else if i < 10 then Wide(CONFIG_MUL)
    else if i == 10 then Wide(CONFIG_SQRT) else if i == 11 then Wide(CONFIG_SIN) else Wide(CONFIG_STORE)
  }

  lemma NumbersFit(i: nat)
    requires i < UNITS
    ensures UnitNumber(i) < 32
  {
  }

  // ---------------------------------------------------------------------
  // State
  // ---------------------------------------------------------------------

  datatype Status = Idle | Direct | Indirect0 | Indirect1

  /** What the word-processing thread is waiting for: the next word, the end of a
      read-after-write stall on a unit, or a unit to allocate. A stall is watched
      only from one clock period after it began. */
  datatype Phase =
    | Ready
    | Stalled(word: bv32, unit: nat, watching: bool)
    | Allocating

  /** What happens to the units. */
  datatype Event =
    | Assigned(command: Command, name: nat, unit: nat, context: bv64)
    | Sent(unit: nat, context: bv64)
    | Configured
    | Released(unit: nat)

  datatype State = State(
    status: Status, flc: bv32, ext: bv32, phase: Phase,
    slots: seq<bv64>, table: map<nat, nat>, pending: set<nat>, trace: seq<Event>)

  function InitialSlots(): (r: seq<bv64>) {
    seq(UNITS, i requires 0 <= i < UNITS => UnitContext(UnitNumber(i), UnitKind(i)))
  }

  function Initial(): State {
    State(Idle, 0, 0, Ready, InitialSlots(), map[], {}, [])
  }

  /** A name as the number by which the translation table knows it. */
  function Name(x: bv32): nat { x as nat }

  /** The translation table answers 0 for a name it has never seen. */
  function Lookup(table: map<nat, nat>, name: nat): nat {
    if name in table then table[name] else 0
  }

  function NextStatus(status: Status, w: bv32): Status {
    if status == Indirect0 then Indirect1 else if ExtAux(w) != 0 then Indirect0 else Direct
  }

  // ---------------------------------------------------------------------
  // Steps
  // ---------------------------------------------------------------------

  datatype Step =
    | Write(word: bv32)
    | Watch
    | Allocate
    | Dispatch
    | Release(unit: nat)

  predicate WellFormed(s: State) {
    && |s.slots| == UNITS
    && (forall i <- s.pending :: i < UNITS)
    && (forall k :: k in s.table ==> s.table[k] < UNITS)
    && (s.phase.Stalled? ==> s.phase.unit < UNITS)
  }

  /** Each word is consumed before the next is written, and a unit asks for its
      release once it has been sent its context. */
  predicate Enabled(s: State, step: Step)
    requires WellFormed(s)
  {
    match step
    case Write(_) => s.phase.Ready?
    case Watch => s.phase.Stalled?
    case Allocate => s.phase.Allocating?
    case Dispatch => true
    case Release(i) => i < UNITS && Busy(s.slots[i]) && i !in s.pending
  }

  predicate Hazard(s: State, w: bv32)
    requires WellFormed(s)
  {
    && Op(w) == CONFIG_LOAD && Op(s.flc) == CONFIG_STORE && AddrHead(w) == AddrHead(s.flc)
    && Busy(s.slots[Lookup(s.table, Name(Lgid(s.flc)))])
  }

  function Accept(s: State, w: bv32): State {
    s.(flc := w, phase := if s.status == Direct then Allocating else Ready)
  }

  function Written(s: State, w: bv32): State
    requires WellFormed(s)
  {
    var t := s.(status := NextStatus(s.status, w));
    if t.status == Indirect1 then t.(ext := w, phase := Allocating)
    else if Hazard(t, w) then t.(phase := Stalled(w, Lookup(t.table, Name(Lgid(t.flc))), false))
    else Accept(t, w)
  }

  /** A word that arrives while the one before it has to wait: it takes its place, and the
      event that would have it processed finds nobody listening. */
  function Overwritten(s: State, w: bv32): State {
    s.(status := NextStatus(s.status, w), phase := if s.phase.Stalled? then s.phase.(word := w) else s.phase)
  }

  function Arrived(s: State, w: bv32): State
    requires WellFormed(s)
  {
    if s.phase.Ready? then Written(s, w) else Overwritten(s, w)
  }

  function Watched(s: State): State {
    if s.phase.Stalled? then s.(phase := s.phase.(watching := true)) else s
  }

  predicate Suits(slots: seq<bv64>, op: bv32, i: nat)
    requires i < |slots|
  {
    UnitOp(slots[i]) == Wide(op) && !Busy(slots[i])
  }

  /** The first slot from k on that suits the operation; |slots| when there is none. */
  function FindIdle(slots: seq<bv64>, op: bv32, k: nat): (r: nat)
    requires k <= |slots|
    ensures k <= r <= |slots|
    ensures r < |slots| ==> Suits(slots, op, r)
    ensures forall i :: k <= i < r ==> !Suits(slots, op, i)
    decreases |slots| - k
  {
    if k == |slots| || Suits(slots, op, k) then k else FindIdle(slots, op, k + 1)
  }

  function Translated(table: map<nat, nat>, name: nat): bv64
    requires forall k :: k in table ==> table[k] < UNITS
  {
    UnitNumber(Lookup(table, name))
  }

  /** Unit i taken for the current command; the name is bound before the inputs
      are translated. */
  function Assign(s: State, i: nat): State
    requires WellFormed(s) && i < UNITS
  {
    var name := Name(Lgid(s.flc));
    var table := s.table[name := i];
    var context := Allocated(s.slots[i], Decoded(s.flc, s.ext),
      Translated(table, Name(MuxA(s.flc))), Translated(table, Name(MuxB(s.flc))));
    s.(phase := Ready, slots := s.slots[i := context], table := table, pending := s.pending + {i},
       trace := s.trace + [Assigned(Decoded(s.flc, s.ext), name, i, context)])
  }

  function AllocateOnce(s: State): State
    requires WellFormed(s)
  {
    var i := FindIdle(s.slots, Op(s.flc), 0);
    if i < UNITS then Assign(s, i) else s
  }

  function Delivery(slots: seq<bv64>, i: nat): seq<Event>
    requires i < |slots|
  {
    if UnitOp(slots[i]) == Wide(CONFIG_STORE) then [Sent(i, slots[i]), Configured] else [Sent(i, slots[i])]
  }

  /** The calls that the dispatch loop makes for the slots below k. */
  function Deliveries(slots: seq<bv64>, pending: set<nat>, k: nat): seq<Event>
    requires forall i <- pending :: i < |slots|
  {
    if k == 0 then []
    else Deliveries(slots, pending, k - 1) + (if k - 1 in pending then Delivery(slots, k - 1) else [])
  }

  const BITS: nat := 32

  function Dispatched(s: State): State
    requires WellFormed(s)
  {
    s.(pending := {}, trace := s.trace + Deliveries(s.slots, s.pending, BITS))
  }

  function Idled(s: State, i: nat): State
    requires WellFormed(s) && i < UNITS
  {
    s.(slots := s.slots[i := WithBusy(s.slots[i], false)], trace := s.trace + [Released(i)])
  }

  /** A release also ends a watched stall on a unit that is no longer busy. */
  function Freed(s: State, i: nat): State
    requires WellFormed(s) && i < UNITS
  {
    var t := Idled(s, i);
    if s.phase.Stalled? && s.phase.watching && !Busy(t.slots[s.phase.unit]) then Accept(t, s.phase.word) else t
  }

  function Next(s: State, step: Step): State
    requires WellFormed(s) && Enabled(s, step)
  {
    match step
    case Write(w) => Written(s, w)
    case Watch => Watched(s)
    case Allocate => AllocateOnce(s)
    case Dispatch => Dispatched(s)
    case Release(i) => Freed(s, i)
  }

  // ---------------------------------------------------------------------
  // The life of a unit, read off the trace
  // ---------------------------------------------------------------------

  /** Idle, chosen but not yet sent its context, running with the context it was
      chosen with; Broken once anything has happened out of this order. */
  datatype Life = Free | Chosen(context: bv64) | Running(context: bv64) | Broken

  function LifeAfter(l: Life, e: Event, i: nat): Life {
    match e
    case Assigned(_, _, u, ctx) => if u != i then l else if l.Free? then Chosen(ctx) else Broken
    case Sent(u, ctx) => if u != i then l else if l == Chosen(ctx) then Running(ctx) else Broken
    case Released(u) => if u != i then l else if l.Running? then Free else Broken
    case Configured => l
  }

  function LifeOf(trace: seq<Event>, i: nat): Life {
    if trace == [] then Free else LifeAfter(LifeOf(trace[..|trace| - 1], i), trace[|trace| - 1], i)
  }

  /** The unit most recently bound to a name. */
  function LastFor(trace: seq<Event>, name: nat): nat {
    if trace == [] then 0
    else
      var e := trace[|trace| - 1];
      if e.Assigned? && e.name == name then e.unit else LastFor(trace[..|trace| - 1], name)
  }

  /** The commands that have been given a unit, in order. */
  function Commands(trace: seq<Event>): seq<Command> {
    if trace == [] then []
    else
      var e := trace[|trace| - 1];
      Commands(trace[..|trace| - 1]) + (if e.Assigned? then [e.command] else [])
  }

  lemma Snoc(trace: seq<Event>, e: Event, i: nat)
    ensures LifeOf(trace + [e], i) == LifeAfter(LifeOf(trace, i), e, i)
    ensures LastFor(trace + [e], i) == if e.Assigned? && e.name == i then e.unit else LastFor(trace, i)
    ensures Commands(trace + [e]) == Commands(trace) + if e.Assigned? then [e.command] else []
  {
    assert (trace + [e])[..|trace|] == trace;
  }

  // ---------------------------------------------------------------------
  // The invariant
  // ---------------------------------------------------------------------

  predicate Identity(ctx: bv64, i: nat)
    requires i < UNITS
  {
    Phid(ctx) == UnitNumber(i) && UnitOp(ctx) == UnitKind(i)
  }

  predicate SlotOk(ctx: bv64, pending: set<nat>, trace: seq<Event>, i: nat)
    requires i < UNITS
  {
    && Identity(ctx, i)
    && LifeOf(trace, i) == (if !Busy(ctx) then Free else if i in pending then Chosen(ctx) else Running(ctx))
    && (i in pending ==> Busy(ctx))
  }

  predicate SlotsOk(s: State)
    requires WellFormed(s)
  {
    forall i: nat :: i < UNITS ==> SlotOk(s.slots[i], s.pending, s.trace, i)
  }

  ghost predicate TableOk(table: map<nat, nat>, trace: seq<Event>) {
    forall name: nat :: Lookup(table, name) == LastFor(trace, name)
  }

  predicate PhaseOk(s: State) {
    && (s.phase.Stalled? ==> (s.status == Direct || s.status == Indirect0) && Op(s.phase.word) == CONFIG_LOAD)
    && (s.phase.Allocating? ==> s.status == Direct || s.status == Indirect1)
  }

  ghost predicate Inv(s: State) {
    WellFormed(s) && SlotsOk(s) && TableOk(s.table, s.trace) && PhaseOk(s)
  }

  lemma InitialInv()
    ensures Inv(Initial())
  {
    hide Phid, UnitOp, Busy, UnitContext, UnitNumber, UnitKind, Op;
    var s := Initial();
    forall i: nat | i < UNITS
      ensures SlotOk(s.slots[i], s.pending, s.trace, i)
    {
      FreshUnit(i);
    }
  }

  lemma FreshUnit(i: nat)
    requires i < UNITS
    ensures Identity(UnitContext(UnitNumber(i), UnitKind(i)), i) && !Busy(UnitContext(UnitNumber(i), UnitKind(i)))
  {
    hide Phid, UnitOp, Busy, UnitContext;
    FreshContext(UnitNumber(i), UnitKind(i));
  }

  // ---------------------------------------------------------------------
  // Every step keeps the invariant
  // ---------------------------------------------------------------------

  /** The decoded word pair is in range for every operation some unit performs. */
  lemma DecodedInRange(w: bv32, e: bv32)
    requires Op(w) < 6
    ensures InRange(Decoded(w, e))
  {
  }

  lemma KindsAreSupported(op: bv32)
    requires op < 8
    ensures op >= 6 ==> forall i: nat :: i < UNITS ==> UnitKind(i) != Wide(op)
  {
  }

  lemma OpIsThreeBits(w: bv32)
    ensures Op(w) < 8
  {
  }

  /** Only a word whose operation some unit performs ever finds a slot. */
  lemma FoundOperation(s: State, i: nat)
    requires WellFormed(s) && SlotsOk(s) && i < UNITS && Suits(s.slots, Op(s.flc), i)
    ensures Op(s.flc) < 6
  {
    hide Op, UnitKind, UnitOp, Phid, UnitNumber, Busy, LifeOf, Wide;
    assert SlotOk(s.slots[i], s.pending, s.trace, i);
    OpIsThreeBits(s.flc);
    KindsAreSupported(Op(s.flc));
  }

  lemma IdentityKept(s: bv64, t: bv64, i: nat)
    requires i < UNITS && Identity(s, i) && SameUnit(s, t)
    ensures Identity(t, i)
  {
    hide Phid, UnitOp, UnitNumber, UnitKind;
  }

  ghost predicate Carries(t: bv64, c: Command, a: bv64, b: bv64) {
    match c
    case Load(_, aux, len, inc, addr) =>
      UnitOpAux(t) == Wide(aux) && UnitBatchLen(t) == Wide(len) && UnitAddrInc(t) == Wide(inc)
        && UnitAddr(t) == Wide(addr)
    case Store(_, _, _, inc, addr) =>
      UnitMuxA(t) == a && UnitAddrInc(t) == Wide(inc) && UnitAddr(t) == Wide(addr)
    case Arith(_, _, aux, _, _) =>
      UnitOpAux(t) == Wide(aux) && UnitMuxA(t) == a && UnitMuxB(t) == b
  }

  /** A found unit gets a context that carries the whole command, with its inputs
      translated to the units most recently bound to their names. */
  lemma AssignedContext(s: State, i: nat)
    requires Inv(s) && i < UNITS && Suits(s.slots, Op(s.flc), i)
    ensures var t := Assign(s, i);
      Busy(t.slots[i]) && SameUnit(s.slots[i], t.slots[i])
      && Carries(t.slots[i], Decoded(s.flc, s.ext),
           Translated(t.table, Name(MuxA(s.flc))), Translated(t.table, Name(MuxB(s.flc))))
  {
    hide Name, Busy, SameUnit, Wide, Decoded, Op, MuxA, MuxB, Lgid, UnitNumber, InRange, Allocated;
    hide Name, UnitOpAux, UnitBatchLen, UnitAddrInc, UnitAddr, UnitMuxA, UnitMuxB, SlotsOk, TableOk;
    FoundOperation(s, i);
    DecodedInRange(s.flc, s.ext);
    var t := Assign(s, i);
    NumbersFit(Lookup(t.table, Name(MuxA(s.flc))));
    NumbersFit(Lookup(t.table, Name(MuxB(s.flc))));
    AllocationCarriesCommand(s.slots[i], Decoded(s.flc, s.ext),
      Translated(t.table, Name(MuxA(s.flc))), Translated(t.table, Name(MuxB(s.flc))));
  }

  lemma AssignKeeps(s: State, i: nat)
    requires Inv(s) && i < UNITS && Suits(s.slots, Op(s.flc), i)
    ensures Inv(Assign(s, i))
  {
    hide Name, Busy, SameUnit, Wide, Decoded, Op, MuxA, MuxB, Lgid, Identity, Allocated, Carries, Translated;
    hide LifeOf, LastFor;
    var t := Assign(s, i);
    var e := t.trace[|s.trace|];
    assert t.trace == s.trace + [e];
    AssignedContext(s, i);
    assert SlotOk(s.slots[i], s.pending, s.trace, i);
    IdentityKept(s.slots[i], t.slots[i], i);
    forall j: nat | j < UNITS
      ensures SlotOk(t.slots[j], t.pending, t.trace, j)
    {
      assert SlotOk(s.slots[j], s.pending, s.trace, j);
      Snoc(s.trace, e, j);
    }
    forall name: nat
      ensures Lookup(t.table, name) == LastFor(t.trace, name)
    {
      Snoc(s.trace, e, name);
      assert Lookup(s.table, name) == LastFor(s.trace, name);
    }
  }

  /** Delivering the contexts below k turns exactly the chosen units among them
      into running ones. */
  lemma DeliveriesRun(trace: seq<Event>, slots: seq<bv64>, pending: set<nat>, k: nat, i: nat)
    requires forall j <- pending :: j < |slots|
    requires i in pending ==> LifeOf(trace, i) == Chosen(slots[i])
    ensures LifeOf(trace + Deliveries(slots, pending, k), i)
         == if i in pending && i < k then Running(slots[i]) else LifeOf(trace, i)
    ensures LastFor(trace + Deliveries(slots, pending, k), i) == LastFor(trace, i)
    ensures Commands(trace + Deliveries(slots, pending, k)) == Commands(trace)
  {
    hide LifeOf, LastFor, Commands, UnitOp, Wide;
    if k == 0 {
      assert trace + Deliveries(slots, pending, k) == trace;
    } else {
      DeliveriesRun(trace, slots, pending, k - 1, i);
      var before := trace + Deliveries(slots, pending, k - 1);
      if k - 1 in pending {
        var mid := before + [Sent(k - 1, slots[k - 1])];
        Snoc(before, Sent(k - 1, slots[k - 1]), i);
        Snoc(mid, Configured, i);
        assert trace + Deliveries(slots, pending, k) == before + Delivery(slots, k - 1);
        assert before + [Sent(k - 1, slots[k - 1]), Configured] == mid + [Configured];
      } else {
        assert trace + Deliveries(slots, pending, k) == before;
      }
    }
  }

  lemma DispatchKeeps(s: State)
    requires Inv(s)
    ensures Inv(Dispatched(s))
    ensures Commands(Dispatched(s).trace) == Commands(s.trace)
  {
    hide Busy, Identity, LifeOf, LastFor, Deliveries, Commands, Op;
    var t := Dispatched(s);
    forall j: nat | j < UNITS
      ensures SlotOk(t.slots[j], t.pending, t.trace, j)
    {
      assert SlotOk(s.slots[j], s.pending, s.trace, j);
      DeliveriesRun(s.trace, s.slots, s.pending, BITS, j);
    }
    forall name: nat
      ensures Lookup(t.table, name) == LastFor(t.trace, name)
    {
      assert Lookup(s.table, name) == LastFor(s.trace, name);
      assert name in s.pending ==> SlotOk(s.slots[name], s.pending, s.trace, name);
      DeliveriesRun(s.trace, s.slots, s.pending, BITS, name);
    }
    assert 0 in s.pending ==> SlotOk(s.slots[0], s.pending, s.trace, 0);
    DeliveriesRun(s.trace, s.slots, s.pending, BITS, 0);
  }

  lemma IdledKeeps(s: State, i: nat)
    requires Inv(s) && Enabled(s, Release(i))
    ensures Inv(Idled(s, i))
  {
    hide Busy, SameUnit, WithBusy, Identity, LifeOf, LastFor, Op;
    var t := Idled(s, i);
    var e := Event.Released(i);
    assert SlotsOk(t) by {
      hide TableOk, PhaseOk;
      BusyField(s.slots[i], false);
      assert SlotOk(s.slots[i], s.pending, s.trace, i);
      IdentityKept(s.slots[i], t.slots[i], i);
      forall j: nat | j < UNITS
        ensures SlotOk(t.slots[j], t.pending, t.trace, j)
      {
        assert SlotOk(s.slots[j], s.pending, s.trace, j);
        Snoc(s.trace, e, j);
      }
    }
    assert TableOk(t.table, t.trace) by {
      hide SlotsOk, PhaseOk;
      forall name: nat
        ensures Lookup(t.table, name) == LastFor(t.trace, name)
      {
        Snoc(s.trace, e, name);
        assert Lookup(s.table, name) == LastFor(s.trace, name);
      }
    }
  }

  lemma ReleaseKeeps(s: State, i: nat)
    requires Inv(s) && Enabled(s, Release(i))
    ensures Inv(Freed(s, i))
  {
    hide Busy, SlotOk, TableOk, Op;
    IdledKeeps(s, i);
  }

  /** Whatever happens next, slots keep their number and operation, no busy unit is
      handed out, contexts are sent once each and the table stays up to date. */
  lemma StepKeeps(s: State, step: Step)
    requires Inv(s) && Enabled(s, step)
    ensures Inv(Next(s, step))
  {
    hide Name, SlotOk, LifeOf, LastFor, Lookup, Busy, Op, Lgid, AddrHead, ExtAux, Deliveries, Assign;
    match step
    case Write(w) =>
      assert Lookup(s.table, Name(Lgid(s.flc))) < UNITS by { LookupBound(s, Name(Lgid(s.flc))); }
    case Watch =>
    case Allocate =>
      var i := FindIdle(s.slots, Op(s.flc), 0);
      if i < UNITS { AssignKeeps(s, i); }
    case Dispatch => DispatchKeeps(s);
    case Release(i) => ReleaseKeeps(s, i);
  }

  lemma LookupBound(s: State, name: nat)
    requires WellFormed(s)
    ensures Lookup(s.table, name) < UNITS
  {
  }

  // ---------------------------------------------------------------------
  // Runs
  // ---------------------------------------------------------------------

  /** The schedules that can happen from s. */
  ghost predicate Possible(s: State, steps: seq<Step>)
    requires WellFormed(s)
    decreases |steps|
  {
    steps == [] || (Enabled(s, steps[0]) && WellFormed(Next(s, steps[0])) && Possible(Next(s, steps[0]), steps[1..]))
  }

  ghost function Run(s: State, steps: seq<Step>): (r: State)
    requires WellFormed(s) && Possible(s, steps)
    ensures WellFormed(r)
    decreases |steps|
  {
    if steps == [] then s else Run(Next(s, steps[0]), steps[1..])
  }

  lemma {:induction false} RunKeeps(s: State, steps: seq<Step>)
    requires Inv(s) && Possible(s, steps)
    ensures Inv(Run(s, steps))
    decreases |steps|
  {
    hide SlotsOk, TableOk, PhaseOk, Next, Enabled;
    if steps != [] {
      assert Inv(Next(s, steps[0])) by { StepKeeps(s, steps[0]); }
      RunKeeps(Next(s, steps[0]), steps[1..]);
    }
  }

  // ---------------------------------------------------------------------
  // What the invariant means
  // ---------------------------------------------------------------------

  function Assignments(trace: seq<Event>, i: nat): nat {
    if trace == [] then 0
    else
      var e := trace[|trace| - 1];
      Assignments(trace[..|trace| - 1], i) + if e.Assigned? && e.unit == i then 1 else 0
  }

  function Sendings(trace: seq<Event>, i: nat): nat {
    if trace == [] then 0
    else
      var e := trace[|trace| - 1];
      Sendings(trace[..|trace| - 1], i) + if e.Sent? && e.unit == i then 1 else 0
  }

  function Releases(trace: seq<Event>, i: nat): nat {
    if trace == [] then 0
    else
      var e := trace[|trace| - 1];
      Releases(trace[..|trace| - 1], i) + if e.Released? && e.unit == i then 1 else 0
  }

  lemma {:induction false} LifeCounts(trace: seq<Event>, i: nat)
    requires LifeOf(trace, i) != Broken
    ensures Assignments(trace, i) == Sendings(trace, i) + if LifeOf(trace, i).Chosen? then 1 else 0
    ensures Assignments(trace, i) == Releases(trace, i) + if LifeOf(trace, i).Free? then 0 else 1
  {
    if trace != [] { LifeCounts(trace[..|trace| - 1], i); }
  }

  /** In every reachable state a unit is busy exactly when it has been assigned once
      more than it has been released, and marked for dispatch exactly when it has
      been assigned once more than it has been sent a context. */
  lemma UnitAccounts(steps: seq<Step>, i: nat)
    requires Possible(Initial(), steps) && i < UNITS
    ensures var s := Run(Initial(), steps);
      && Assignments(s.trace, i) == Releases(s.trace, i) + (if Busy(s.slots[i]) then 1 else 0)
      && Assignments(s.trace, i) == Sendings(s.trace, i) + (if i in s.pending then 1 else 0)
      && Identity(s.slots[i], i)
  {
    hide Busy, Identity, LifeOf, Assignments, Sendings, Releases, Run, TableOk, PhaseOk;
    InitialInv();
    RunKeeps(Initial(), steps);
    var s := Run(Initial(), steps);
    assert SlotOk(s.slots[i], s.pending, s.trace, i);
    LifeCounts(s.trace, i);
  }

  /** The context of a newly assigned unit holds every field of its command, and its
      inputs are the units that were last given the input names, the new assignment
      included: a command that names itself as an input is fed by its own unit. */
  lemma InputsAreTheLastNamed(s: State, i: nat)
    requires Inv(s) && i < UNITS && Suits(s.slots, Op(s.flc), i)
    ensures var t := Assign(s, i);
      var a, b := LastFor(t.trace, Name(MuxA(s.flc))), LastFor(t.trace, Name(MuxB(s.flc)));
      a < UNITS && b < UNITS && Carries(t.slots[i], Decoded(s.flc, s.ext), UnitNumber(a), UnitNumber(b))
  {
    hide Name, Suits, SlotsOk, PhaseOk, MuxA, MuxB, Lgid, Decoded, Allocated, Carries, UnitNumber, LastFor;
    AssignKeeps(s, i);
    AssignedContext(s, i);
    var t := Assign(s, i);
    LookupBound(t, Name(MuxA(s.flc)));
    LookupBound(t, Name(MuxB(s.flc)));
  }

  /** The units that carry out a command, by their numbers: four loaders, four adders, two
      multipliers, one unit each for square roots and sines, two storers. */
  predicate Serves(u: nat, c: Command) {
    match c
    case Load(_, _, _, _, _) => u < 4
    case Arith(_, op, _, _, _) =>
      (op == 0 && 4 <= u < 8) || (op == 1 && 8 <= u < 10) || (op == 2 && u == 10) || (op == 3 && u == 11)
    case Store(_, _, _, _, _) => 12 <= u < 14
  }

  lemma KindsOfUnits(i: nat, op: bv32)
    requires i < UNITS && op < 8 && UnitKind(i) == Wide(op)
    ensures op == 4 ==> i < 4
    ensures op == 5 ==> 12 <= i < 14
    ensures op != 4 && op != 5 ==>
      (op == 0 && 4 <= i < 8) || (op == 1 && 8 <= i < 10) || (op == 2 && i == 10) || (op == 3 && i == 11)
  {
  }

  /** The other way round: such a unit has the operation. */
  lemma ServersHaveTheKind(u: nat, c: Command, w: bv32, e: bv32)
    requires Serves(u, c) && c == Decoded(w, e)
    ensures u < UNITS && UnitKind(u) == Wide(Op(w))
  {
    hide Op, Decoded;
    DecodedKind(w, e);
    var op := Op(w);
    assert u < 4 ==> c.Load? && op == 4;
    assert u >= 12 ==> c.Store? && op == 5;
    hide Serves;
    if c.Arith? { ArithServers(u, c, op); }
  }

  lemma ArithServers(u: nat, c: Command, op: bv32)
    requires Serves(u, c) && c.Arith? && c.op == op
    ensures u < UNITS && UnitKind(u) == Wide(op)
  {
  }

  lemma DecodedKind(w: bv32, e: bv32)
    ensures Decoded(w, e).Load? <==> Op(w) == 4
    ensures Decoded(w, e).Store? <==> Op(w) == 5
    ensures Decoded(w, e).Arith? ==> Decoded(w, e).op == Op(w)
  {
    hide Op, Lgid, OpAux, MuxA, MuxB, FullAddr, FullAddrInc, FullBatchLen;
  }

  lemma SuitableServes(s: State, i: nat)
    requires Inv(s) && i < UNITS && Suits(s.slots, Op(s.flc), i)
    ensures Serves(i, Decoded(s.flc, s.ext))
  {
    hide Busy, UnitOp, Phid, Wide, Op, UnitKind, UnitNumber, Decoded, LifeOf, TableOk, PhaseOk;
    assert SlotOk(s.slots[i], s.pending, s.trace, i);
    OpIsThreeBits(s.flc);
    KindsOfUnits(i, Op(s.flc));
    DecodedKind(s.flc, s.ext);
  }

  predicate EveryoneServes(trace: seq<Event>) {
    forall k :: 0 <= k < |trace| && trace[k].Assigned? ==> Serves(trace[k].unit, trace[k].command)
  }

  lemma {:induction false} DeliveriesAreNoAssignments(slots: seq<bv64>, pending: set<nat>, k: nat)
    requires forall i <- pending :: i < |slots|
    ensures forall j :: 0 <= j < |Deliveries(slots, pending, k)| ==> !Deliveries(slots, pending, k)[j].Assigned?
  {
    hide UnitOp, Wide;
    if k > 0 { DeliveriesAreNoAssignments(slots, pending, k - 1); }
  }

  lemma StepServes(s: State, step: Step)
    requires Inv(s) && EveryoneServes(s.trace) && Enabled(s, step)
    ensures EveryoneServes(Next(s, step).trace)
  {
    hide SlotsOk, TableOk, PhaseOk, Op, Busy, Deliveries, WithBusy, Lgid, AddrHead, ExtAux, Wide, UnitOp, Name;
    hide Allocated, Decoded, Serves;
    match step
    case Write(_) =>
    case Watch =>
    case Allocate =>
      var i := FindIdle(s.slots, Op(s.flc), 0);
      if i < UNITS { SuitableServes(s, i); }
    case Dispatch => DeliveriesAreNoAssignments(s.slots, s.pending, BITS);
    case Release(_) =>
  }

  /** In every run each command is carried out by a unit that is wired for it. */
  lemma {:induction false} UnitsServeTheirCommands(s: State, steps: seq<Step>)
    requires Inv(s) && EveryoneServes(s.trace) && Possible(s, steps)
    ensures EveryoneServes(Run(s, steps).trace)
    decreases |steps|
  {
    hide SlotsOk, TableOk, PhaseOk, Next, Enabled, EveryoneServes;
    if steps != [] {
      StepKeeps(s, steps[0]);
      StepServes(s, steps[0]);
      UnitsServeTheirCommands(Next(s, steps[0]), steps[1..]);
    }
  }

  // ---------------------------------------------------------------------
  // The command stream
  // ---------------------------------------------------------------------

  /** The two-word reader on its own: nothing stalls and units never run out. */
  datatype Reader = Reader(status: Status, flc: bv32, ext: bv32, out: seq<Command>)

  function Read(r: Reader, w: bv32): Reader {
    var status := NextStatus(r.status, w);
    if status == Indirect1 then Reader(status, r.flc, w, r.out + [Decoded(r.flc, w)])
    else if status == Direct then Reader(status, w, r.ext, r.out + [Decoded(w, r.ext)])
    else Reader(status, w, r.ext, r.out)
  }

  function ReadAll(r: Reader, ws: seq<bv32>): Reader
    decreases |ws|
  {
    if ws == [] then r else ReadAll(Read(r, ws[0]), ws[1..])
  }

  /** The words that software writes for one command. */
  function Words(c: Command): seq<bv32> {
    match c
    case Load(id, aux, len, inc, addr) => [LoaderFlc(id, CONFIG_LOAD, len, aux, 1, inc, addr), FlcExt(len, inc, addr)]
    case Store(id, aux, a, inc, addr) => [StorerFlc(id, CONFIG_STORE, a, aux, 1, inc, addr), FlcExt(0, inc, addr)]
    case Arith(id, op, aux, a, b) => [ArithFlc(id, op, a, b, aux)]
  }

  function Encode(cs: seq<Command>): seq<bv32> {
    if cs == [] then [] else Words(cs[0]) + Encode(cs[1..])
  }

  lemma ReadCommand(r: Reader, c: Command)
    requires r.status != Indirect0 && InRange(c)
    ensures var ws := Words(c);
      var q := if |ws| == 1 then Read(r, ws[0]) else Read(Read(r, ws[0]), ws[1]);
      q.out == r.out + [c] && q.status != Indirect0
  {
    hide Name, LoaderFlc, StorerFlc, ArithFlc, FlcExt, Op, ExtAux, Lgid, OpAux, MuxA, MuxB, FullAddr, FullAddrInc;
    hide FullBatchLen, InRange;
    match c
    case Load(_, _, len, inc, addr) => LoadFields(c, FlcExt(len, inc, addr));
    case Store(_, _, _, inc, addr) => StoreFields(c, FlcExt(0, inc, addr));
    case Arith(_, _, _, _, _) => ArithFields(c); ArithOperation(c);
  }

  lemma ArithOperation(c: Command)
    requires c.Arith? && InRange(c)
    ensures c.op != CONFIG_LOAD && c.op != CONFIG_STORE
  {
  }

  /** Reading back an encoded list yields exactly that list, whatever was read before. */
  lemma {:induction false} EncodedIsReadBack(r: Reader, cs: seq<Command>)
    requires r.status != Indirect0 && forall c <- cs :: InRange(c)
    ensures ReadAll(r, Encode(cs)).out == r.out + cs
    decreases |cs|
  {
    hide Read, InRange;
    if cs != [] {
      var c, ws, rest := cs[0], Words(cs[0]), Encode(cs[1..]);
      var q := if |ws| == 1 then Read(r, ws[0]) else Read(Read(r, ws[0]), ws[1]);
      ReadCommand(r, c);
      EncodedIsReadBack(q, cs[1..]);
      assert r.out + [c] + cs[1..] == r.out + cs;
      if |ws| == 1 {
        assert (ws + rest)[1..] == rest;
      } else {
        assert (ws + rest)[1..][1..] == rest;
        assert (ws + rest)[1..][0] == ws[1];
      }
    }
  }

  lemma {:induction false} ReadAppend(r: Reader, p: seq<bv32>, q: seq<bv32>)
    ensures ReadAll(r, p + q) == ReadAll(ReadAll(r, p), q)
    decreases |p|
  {
    hide Read;
    if p == [] {
      assert p + q == q;
    } else {
      assert (p + q)[1..] == p[1..] + q;
      ReadAppend(Read(r, p[0]), p[1..], q);
    }
  }

  lemma {:induction false} ReadOnlyAppends(r: Reader, ws: seq<bv32>)
    ensures r.out <= ReadAll(r, ws).out
    decreases |ws|
  {
    hide Decoded, NextStatus;
    if ws != [] { ReadOnlyAppends(Read(r, ws[0]), ws[1..]); }
  }

  /** The controller has consumed what the reader has, except that the last command
      may still be stalled or waiting for a unit. */
  ghost predicate Follows(s: State, r: Reader) {
    && s.status == r.status && s.ext == r.ext
    && match s.phase
       case Ready => s.flc == r.flc && r.out == Commands(s.trace)
       case Stalled(w, _, _) =>
         w == r.flc && r.out == Commands(s.trace) + (if s.status == Direct then [Decoded(w, s.ext)] else [])
       case Allocating => s.flc == r.flc && r.out == Commands(s.trace) + [Decoded(s.flc, s.ext)]
  }

  lemma WriteFollows(s: State, r: Reader, w: bv32)
    requires WellFormed(s) && s.phase.Ready? && Follows(s, r)
    ensures Follows(Written(s, w), Read(r, w))
  {
    hide Name, Decoded, Commands, Hazard, Lgid, NextStatus, Lookup;
    var status := NextStatus(s.status, w);
    NeverIdleAgain(s.status, w);
    var t := s.(status := status);
    match status
    case Indirect1 => assert Written(s, w) == t.(ext := w, phase := Allocating);
    case Direct => assert Read(r, w) == Reader(status, w, r.ext, r.out + [Decoded(w, r.ext)]);
    case Indirect0 => assert Read(r, w) == Reader(status, w, r.ext, r.out);
  }

  lemma NeverIdleAgain(status: Status, w: bv32)
    ensures NextStatus(status, w) != Idle
  {
    hide ExtAux;
  }

  lemma AllocateFollows(s: State, r: Reader)
    requires WellFormed(s) && s.phase.Allocating? && Follows(s, r)
    ensures Follows(AllocateOnce(s), r)
  {
    hide Name, Decoded, Commands, Allocated, Lgid, MuxA, MuxB, Translated, Op;
    var i := FindIdle(s.slots, Op(s.flc), 0);
    if i < UNITS {
      var t := Assign(s, i);
      Snoc(s.trace, t.trace[|s.trace|], 0);
    }
  }

  lemma ReleaseFollows(s: State, r: Reader, i: nat)
    requires WellFormed(s) && PhaseOk(s) && i < UNITS && Follows(s, r)
    ensures Follows(Freed(s, i), r)
  {
    hide Decoded, Commands, Op, Busy, WithBusy;
    Snoc(s.trace, Event.Released(i), 0);
    assert Idled(s, i).trace == s.trace + [Event.Released(i)];
  }

  lemma StepFollows(s: State, r: Reader, step: Step)
    requires Inv(s) && Enabled(s, step) && Follows(s, r)
    ensures Follows(Next(s, step), if step.Write? then Read(r, step.word) else r)
  {
    hide Decoded, Commands, Dispatched, SlotsOk, TableOk, PhaseOk, Read, Written, AllocateOnce, Freed, Busy;
    match step
    case Write(w) => WriteFollows(s, r, w);
    case Watch => WatchFollows(s, r);
    case Allocate => AllocateFollows(s, r);
    case Dispatch => DispatchFollows(s, r);
    case Release(i) => ReleaseFollows(s, r, i);
  }

  lemma WatchFollows(s: State, r: Reader)
    requires Follows(s, r)
    ensures Follows(Watched(s), r)
  {
    hide Decoded, Commands;
  }

  lemma DispatchFollows(s: State, r: Reader)
    requires Inv(s) && Follows(s, r)
    ensures Follows(Dispatched(s), r)
  {
    hide Decoded, Commands, Deliveries, SlotsOk, TableOk;
    DispatchKeeps(s);
  }

  /** The words written in the course of a schedule. */
  function WordsOf(steps: seq<Step>): seq<bv32> {
    if steps == [] then []
    else (if steps[0].Write? then [steps[0].word] else []) + WordsOf(steps[1..])
  }

  lemma {:induction false} RunFollows(s: State, r: Reader, steps: seq<Step>)
    requires Inv(s) && Follows(s, r) && Possible(s, steps)
    ensures Follows(Run(s, steps), ReadAll(r, WordsOf(steps)))
    decreases |steps|
  {
    hide Follows, SlotsOk, TableOk, PhaseOk, Next, Enabled, Read;
    if steps != [] {
      var q := if steps[0].Write? then Read(r, steps[0].word) else r;
      StepKeeps(s, steps[0]);
      StepFollows(s, r, steps[0]);
      RunFollows(Next(s, steps[0]), q, steps[1..]);
      if steps[0].Write? {
        assert ([steps[0].word] + WordsOf(steps[1..]))[1..] == WordsOf(steps[1..]);
      } else {
        assert WordsOf(steps) == WordsOf(steps[1..]);
      }
    }
  }

  /** However stalls, retries, dispatches and releases fall between the words, an
      encoded list of commands is carried out in order, each command once: units are
      only ever assigned to a prefix of the list, and to all of it once the last
      word has been consumed. */
  lemma CommandStreamSurvives(cs: seq<Command>, steps: seq<Step>)
    requires forall c <- cs :: InRange(c)
    requires Possible(Initial(), steps) && WordsOf(steps) <= Encode(cs)
    ensures Commands(Run(Initial(), steps).trace) <= cs
    ensures WordsOf(steps) == Encode(cs) && Run(Initial(), steps).phase.Ready?
      ==> Commands(Run(Initial(), steps).trace) == cs
  {
    hide InRange, SlotsOk, TableOk, Read, Run, Possible, Encode;
    var r := Reader(Idle, 0, 0, []);
    InitialInv();
    RunFollows(Initial(), r, steps);
    EncodedIsReadBack(r, cs);
    var done := WordsOf(steps);
    var rest := Encode(cs)[|done|..];
    assert Encode(cs) == done + rest;
    ReadAppend(r, done, rest);
    ReadOnlyAppends(ReadAll(r, done), rest);
    assert [] + cs == cs;
  }

  // ---------------------------------------------------------------------
  // Waiting for a unit
  // ---------------------------------------------------------------------

  /** An attempt to allocate changes nothing exactly when every unit that could carry out
      the command is busy. */
  lemma RetriesWhileAllBusy(s: State)
    requires Inv(s) && s.phase.Allocating?
    ensures AllocateOnce(s) == s <==> forall u: nat :: u < 14 && Serves(u, Decoded(s.flc, s.ext)) ==> Busy(s.slots[u])
  {
    hide Busy, Op, UnitKind, Decoded, Wide, AllocateOnce, Serves, SlotsOk, TableOk, PhaseOk;
    RetriesWhileKindBusy(s);
    forall u: nat | u < UNITS
      ensures UnitKind(u) == Wide(Op(s.flc)) <==> Serves(u, Decoded(s.flc, s.ext))
    {
      KindServes(u, s.flc, s.ext);
    }
  }

  lemma KindServes(u: nat, w: bv32, e: bv32)
    requires u < UNITS
    ensures UnitKind(u) == Wide(Op(w)) <==> Serves(u, Decoded(w, e))
  {
    hide Op, UnitKind, Decoded, Wide;
    OpIsThreeBits(w);
    DecodedKind(w, e);
    if UnitKind(u) == Wide(Op(w)) { KindsOfUnits(u, Op(w)); }
    if Serves(u, Decoded(w, e)) { ServersHaveTheKind(u, Decoded(w, e), w, e); }
  }

  lemma RetriesWhileKindBusy(s: State)
    requires Inv(s) && s.phase.Allocating?
    ensures AllocateOnce(s) == s <==> forall i: nat :: i < UNITS && UnitKind(i) == Wide(Op(s.flc)) ==> Busy(s.slots[i])
  {
    hide Busy, Op, LifeOf, UnitKind, UnitNumber, Phid, UnitOp, Allocated, Decoded, Wide;
    var r := FindIdle(s.slots, Op(s.flc), 0);
    forall i: nat | i < UNITS
      ensures UnitOp(s.slots[i]) == UnitKind(i)
    {
      assert SlotOk(s.slots[i], s.pending, s.trace, i);
    }
    if r < UNITS {
      assert Suits(s.slots, Op(s.flc), r);
    } else {
      forall i: nat | i < UNITS && UnitKind(i) == Wide(Op(s.flc))
        ensures Busy(s.slots[i])
      {
        assert !Suits(s.slots, Op(s.flc), i);
      }
    }
  }

  /** A word with an operation that no unit performs is never rejected: the
      controller asks for a unit for ever. */
  lemma {:induction false} ReservedOperationWaitsForEver(s: State, steps: seq<Step>)
    requires Inv(s) && s.phase.Allocating? && Op(s.flc) >= 6 && Possible(s, steps)
    ensures Run(s, steps).phase.Allocating?
    decreases |steps|
  {
    hide SlotsOk, TableOk, PhaseOk, Op, Enabled, Next;
    if steps != [] {
      StepKeeps(s, steps[0]);
      ReservedOperationWaits(s, steps[0]);
      ReservedOperationWaitsForEver(Next(s, steps[0]), steps[1..]);
    }
  }

  lemma ReservedOperationWaits(s: State, step: Step)
    requires Inv(s) && s.phase.Allocating? && Op(s.flc) >= 6 && Enabled(s, step)
    ensures Next(s, step).phase.Allocating? && Next(s, step).flc == s.flc
  {
    hide SlotsOk, TableOk, PhaseOk, Op, Busy, Deliveries, WithBusy, Assign, Suits;
    var i := FindIdle(s.slots, Op(s.flc), 0);
    if i < UNITS { FoundOperation(s, i); }
  }

  // ---------------------------------------------------------------------
  // Dispatch
  // ---------------------------------------------------------------------

  predicate StoreSent(e: Event) {
    e.Sent? && UnitOp(e.context) == Wide(CONFIG_STORE)
  }

  /** The array is told to start right after each store context, and at no other time. */
  predicate StartsAfterStores(trace: seq<Event>) {
    && (trace != [] ==> !trace[0].Configured? && !StoreSent(trace[|trace| - 1]))
    && forall k :: 0 <= k < |trace| - 1 ==> (trace[k + 1].Configured? <==> StoreSent(trace[k]))
  }

  lemma StartsAppend(a: seq<Event>, b: seq<Event>)
    requires StartsAfterStores(a) && StartsAfterStores(b)
    ensures StartsAfterStores(a + b)
  {
    hide StoreSent;
    forall k | 0 <= k < |a + b| - 1
      ensures (a + b)[k + 1].Configured? <==> StoreSent((a + b)[k])
    {
      if k < |a| - 1 {
        assert a[k + 1].Configured? <==> StoreSent(a[k]);
      } else if k >= |a| {
        assert b[k - |a| + 1].Configured? <==> StoreSent(b[k - |a|]);
      }
    }
  }

  lemma NothingStarts()
    ensures StartsAfterStores([])
  {
  }

  lemma DeliveryStarts(slots: seq<bv64>, i: nat)
    requires i < |slots|
    ensures StartsAfterStores(Delivery(slots, i))
  {
    hide UnitOp, Wide;
  }

  lemma {:induction false} DeliveriesStart(slots: seq<bv64>, pending: set<nat>, k: nat)
    requires forall j <- pending :: j < |slots|
    ensures StartsAfterStores(Deliveries(slots, pending, k))
  {
    hide UnitOp, Wide, StartsAfterStores, Delivery;
    if k == 0 {
      assert StartsAfterStores([]) by { NothingStarts(); }
    } else {
      DeliveriesStart(slots, pending, k - 1);
      if k - 1 in pending {
        DeliveryStarts(slots, k - 1);
        StartsAppend(Deliveries(slots, pending, k - 1), Delivery(slots, k - 1));
      } else {
        assert Deliveries(slots, pending, k) == Deliveries(slots, pending, k - 1);
      }
    }
  }

  lemma {:induction false} RunStartsAfterStores(s: State, steps: seq<Step>)
    requires Inv(s) && StartsAfterStores(s.trace) && Possible(s, steps)
    ensures StartsAfterStores(Run(s, steps).trace)
    decreases |steps|
  {
    hide Name, SlotsOk, TableOk, PhaseOk, Op, Busy, Deliveries, WithBusy, Lgid, AddrHead, ExtAux, Wide, UnitOp;
    hide Allocated, Decoded;
    if steps != [] {
      StepKeeps(s, steps[0]);
      var t := Next(s, steps[0]);
      StepStartsAfterStores(s, steps[0]);
      RunStartsAfterStores(t, steps[1..]);
    }
  }

  lemma StepStartsAfterStores(s: State, step: Step)
    requires Inv(s) && StartsAfterStores(s.trace) && Enabled(s, step)
    ensures StartsAfterStores(Next(s, step).trace)
  {
    hide Name, SlotsOk, TableOk, PhaseOk, Op, Busy, Deliveries, WithBusy, Lgid, AddrHead, ExtAux, Wide, UnitOp;
    hide Allocated, Decoded, StartsAfterStores;
    match step
    case Write(_) =>
    case Watch =>
    case Allocate =>
      var i := FindIdle(s.slots, Op(s.flc), 0);
      if i < UNITS {
        var e := Assign(s, i).trace[|s.trace|];
        assert StartsAfterStores([e]) by { OtherEventsNeedNoStart(e); }
        StartsAppend(s.trace, [e]);
      }
    case Dispatch =>
      DeliveriesStart(s.slots, s.pending, BITS);
      StartsAppend(s.trace, Deliveries(s.slots, s.pending, BITS));
    case Release(i) =>
      OtherEventsNeedNoStart(Event.Released(i));
      StartsAppend(s.trace, [Event.Released(i)]);
  }

  lemma OtherEventsNeedNoStart(e: Event)
    requires !e.Sent? && !e.Configured?
    ensures StartsAfterStores([e])
  {
  }

  // ---------------------------------------------------------------------
  // Read after write
  // ---------------------------------------------------------------------

  /** The most recent assignment; Configured when there is none. */
  function LastAssignment(trace: seq<Event>): Event {
    if trace == [] then Configured
    else
      var e := trace[|trace| - 1];
      if e.Assigned? then e else LastAssignment(trace[..|trace| - 1])
  }

  lemma LastSnoc(trace: seq<Event>, e: Event)
    ensures LastAssignment(trace + [e]) == if e.Assigned? then e else LastAssignment(trace)
  {
    assert (trace + [e])[..|trace|] == trace;
  }

  lemma {:induction false} DeliveriesAssignNothing(trace: seq<Event>, slots: seq<bv64>, pending: set<nat>, k: nat)
    requires forall j <- pending :: j < |slots|
    ensures LastAssignment(trace + Deliveries(slots, pending, k)) == LastAssignment(trace)
  {
    hide LastAssignment, UnitOp, Wide;
    if k == 0 {
      assert trace + Deliveries(slots, pending, k) == trace;
    } else {
      DeliveriesAssignNothing(trace, slots, pending, k - 1);
      var before := trace + Deliveries(slots, pending, k - 1);
      if k - 1 in pending {
        var sent := Sent(k - 1, slots[k - 1]);
        LastSnoc(before, sent);
        LastSnoc(before + [sent], Configured);
        assert trace + Deliveries(slots, pending, k) == before + Delivery(slots, k - 1);
        assert before + [sent, Configured] == before + [sent] + [Configured];
      } else {
        assert trace + Deliveries(slots, pending, k) == before;
      }
    }
  }

  ghost predicate IsLast(e: Event, flc: bv32, ext: bv32, table: map<nat, nat>) {
    e.Assigned? && e.command == Decoded(flc, ext) && e.name == Name(Lgid(flc)) && Lookup(table, e.name) == e.unit
  }

  /** Between commands the word in hand is the command most recently given a unit,
      and its name still stands for that unit. */
  ghost predicate Settled(s: State) {
    && (s.status == Idle ==> s.flc == 0)
    && (s.phase.Ready? && (s.status == Direct || s.status == Indirect1)
        ==> IsLast(LastAssignment(s.trace), s.flc, s.ext, s.table))
  }

  lemma StepSettles(s: State, step: Step)
    requires Inv(s) && Settled(s) && Enabled(s, step)
    ensures Settled(Next(s, step))
  {
    hide Decoded, Deliveries, SlotsOk, TableOk, Op, Busy, ExtAux, AddrHead, WithBusy, Allocated, Translated;
    hide LastAssignment;
    match step
    case Write(_) => hide IsLast;
    case Watch => hide IsLast;
    case Allocate =>
      var i := FindIdle(s.slots, Op(s.flc), 0);
      if i < UNITS {
        hide Name, Lgid, MuxA, MuxB;
        var t := Assign(s, i);
        LastSnoc(s.trace, t.trace[|s.trace|]);
      }
    case Dispatch =>
      hide IsLast;
      DeliveriesAssignNothing(s.trace, s.slots, s.pending, BITS);
    case Release(i) =>
      hide IsLast;
      LastSnoc(s.trace, Event.Released(i));
      assert Idled(s, i).trace == s.trace + [Event.Released(i)];
  }

  lemma {:induction false} RunSettles(s: State, steps: seq<Step>)
    requires Inv(s) && Settled(s) && Possible(s, steps)
    ensures Settled(Run(s, steps))
    decreases |steps|
  {
    hide SlotsOk, TableOk, PhaseOk, Next, Enabled, Settled;
    if steps != [] {
      StepKeeps(s, steps[0]);
      StepSettles(s, steps[0]);
      RunSettles(Next(s, steps[0]), steps[1..]);
    }
  }

  lemma StoreDecodes(w: bv32, e: bv32)
    requires Op(w) == CONFIG_STORE
    ensures Decoded(w, e).Store? && w != 0
  {
  }

  /** In every reachable state, a load word that follows a store to the same address
      block is held back exactly while the unit carrying out that very store is busy. */
  lemma LoadWaitsForItsStore(steps: seq<Step>, w: bv32)
    requires Possible(Initial(), steps)
    requires
      var s := Run(Initial(), steps);
      s.phase.Ready? && s.status != Indirect0 && Op(w) == CONFIG_LOAD && Op(s.flc) == CONFIG_STORE
        && AddrHead(w) == AddrHead(s.flc)
    ensures var s := Run(Initial(), steps);
      var e := LastAssignment(s.trace);
      && e.Assigned? && e.command == Decoded(s.flc, s.ext) && e.command.Store? && e.unit < UNITS
      && (Written(s, w).phase == Stalled(w, e.unit, false) <==> Busy(s.slots[e.unit]))
      && (!Busy(s.slots[e.unit]) ==> Written(s, w).flc == w)
  {
    hide Name, Possible, Run, Decoded, SlotsOk, TableOk, PhaseOk, Op, Busy, ExtAux, AddrHead, Lgid, LastAssignment;
    InitialInv();
    RunKeeps(Initial(), steps);
    assert Settled(Initial());
    RunSettles(Initial(), steps);
    var s := Run(Initial(), steps);
    StoreDecodes(s.flc, s.ext);
    LookupBound(s, Name(Lgid(s.flc)));
  }

  /** A stall ends exactly at a release, of whatever unit, that happens while the stall is
      watched and leaves the stalled-on unit idle. */
  lemma StallEndsIff(s: State, step: Step)
    requires Inv(s) && s.phase.Stalled? && Enabled(s, step)
    ensures !Next(s, step).phase.Stalled? <==>
      step.Release? && s.phase.watching && (step.unit == s.phase.unit || !Busy(s.slots[s.phase.unit]))
  {
    hide SlotsOk, TableOk, PhaseOk, Op, Busy, Deliveries, WithBusy, Decoded, SameUnit;
    BusyField(s.slots[s.phase.unit], false);
  }

  /** Once a clock period has passed, the release of the unit it waits for lets a load go on. */
  lemma OwnReleaseEndsStall(s: State)
    requires Inv(s) && s.phase.Stalled? && Enabled(s, Release(s.phase.unit))
    ensures var t := Next(s, Watch);
      && WellFormed(t) && Enabled(t, Release(s.phase.unit))
      && Next(t, Release(s.phase.unit)).flc == s.phase.word && !Next(t, Release(s.phase.unit)).phase.Stalled?
  {
    hide SlotsOk, TableOk, PhaseOk, Op, Busy, WithBusy, Decoded, SameUnit;
    BusyField(s.slots[s.phase.unit], false);
  }

  ghost predicate NoRelease(steps: seq<Step>) {
    forall step <- steps :: !step.Release?
  }

  lemma {:induction false} StallsUntilARelease(s: State, steps: seq<Step>)
    requires Inv(s) && s.phase.Stalled? && Possible(s, steps) && NoRelease(steps)
    ensures Run(s, steps).phase.Stalled?
    decreases |steps|
  {
    hide SlotsOk, TableOk, PhaseOk, Next, Enabled;
    if steps != [] {
      StepKeeps(s, steps[0]);
      StallEndsIff(s, steps[0]);
      StallsUntilARelease(Next(s, steps[0]), steps[1..]);
    }
  }

  /** So a release within the first clock period of a stall is lost: the unit is idle,
      yet the load stays held back until some other unit is released, and once the
      stall is watched the first such release lets it go on. */
  lemma EarlyReleaseIsLost(s: State, steps: seq<Step>)
    requires Inv(s) && s.phase.Stalled? && !s.phase.watching && Enabled(s, Release(s.phase.unit))
    requires var t := Freed(s, s.phase.unit); WellFormed(t) && Possible(t, steps) && NoRelease(steps)
    ensures !Busy(Freed(s, s.phase.unit).slots[s.phase.unit])
    ensures var u := Run(Freed(s, s.phase.unit), steps);
      && u.phase.Stalled?
      && forall i :: u.phase.watching && Enabled(u, Release(i)) ==> !Next(u, Release(i)).phase.Stalled?
  {
    hide SlotsOk, TableOk, PhaseOk, Op, Possible, Busy, SameUnit, WithBusy, NoRelease, Run, Next, Enabled;
    BusyField(s.slots[s.phase.unit], false);
    ReleaseKeeps(s, s.phase.unit);
    var t := Freed(s, s.phase.unit);
    StallsUntilARelease(t, steps);
    RunKeeps(t, steps);
    var u := Run(t, steps);
    assert !Busy(u.slots[u.phase.unit]) by { IdleStaysIdle(t, steps); }
    forall i | u.phase.watching && Enabled(u, Release(i))
      ensures !Next(u, Release(i)).phase.Stalled?
    {
      StallEndsIff(u, Release(i));
    }
  }

  /** Holding a load back does not hold back its second word. If that is written during
      the stall, it takes the place of the first, and the release that ends the stall leaves
      a controller that is ready for more, without having given the load a unit: the
      extension word stands where the last command is expected. */
  lemma SecondWordInAStallIsLost(s: State, w: bv32)
    requires Inv(s) && s.phase.Stalled? && s.phase.watching && s.status == Indirect0
    requires Enabled(s, Release(s.phase.unit))
    ensures var u := Arrived(s, w);
      WellFormed(u) && Enabled(u, Release(s.phase.unit))
      && var t := Next(u, Release(s.phase.unit));
         && t.phase.Ready? && t.status == Indirect1 && t.flc == w && t.ext == s.ext
         && Commands(t.trace) == Commands(s.trace)
  {
    hide Name, SlotsOk, TableOk, PhaseOk, Op, Busy, SameUnit, WithBusy, Commands, Lgid, AddrHead;
    BusyField(s.slots[s.phase.unit], false);
    Snoc(s.trace, Event.Released(s.phase.unit), 0);
    assert Idled(Arrived(s, w), s.phase.unit).trace == s.trace + [Event.Released(s.phase.unit)];
  }

  /** During a stall nothing is assigned. */
  lemma {:induction false} IdleStaysIdle(s: State, steps: seq<Step>)
    requires Inv(s) && s.phase.Stalled? && Possible(s, steps) && NoRelease(steps)
    ensures Run(s, steps).phase.Stalled? && Run(s, steps).phase.unit == s.phase.unit && Run(s, steps).slots == s.slots
    decreases |steps|
  {
    hide SlotsOk, TableOk, PhaseOk, Next, Enabled;
    if steps != [] {
      StepKeeps(s, steps[0]);
      StalledStep(s, steps[0]);
      IdleStaysIdle(Next(s, steps[0]), steps[1..]);
    }
  }

  lemma StalledStep(s: State, step: Step)
    requires WellFormed(s) && s.phase.Stalled? && Enabled(s, step) && !step.Release?
    ensures var t := Next(s, step);
      t.phase.Stalled? && t.phase.unit == s.phase.unit && t.slots == s.slots
  {
    hide WellFormed, Deliveries, Written, AllocateOnce, Freed, Busy;
    match step
    case Watch => assert Next(s, step) == Watched(s);
    case Dispatch => assert Next(s, step) == Dispatched(s);
  }

  lemma StorerTwelveIsFirst()
    ensures FindIdle(InitialSlots(), CONFIG_STORE, 0) == 12
  {
    hide Phid, UnitOp, Busy, UnitContext;
    var slots := InitialSlots();
    forall i: nat | i < UNITS
      ensures Suits(slots, CONFIG_STORE, i) <==> i >= 12
    {
      FreshUnit(i);
      assert slots[i] == UnitContext(UnitNumber(i), UnitKind(i));
      assert UnitKind(i) == Wide(CONFIG_STORE) <==> i >= 12;
    }
    var r := FindIdle(slots, CONFIG_STORE, 0);
    assert Suits(slots, CONFIG_STORE, 12);
  }

  lemma Cons(s: State, step: Step, rest: seq<Step>)
    requires WellFormed(s) && Enabled(s, step) && WellFormed(Next(s, step)) && Possible(Next(s, step), rest)
    ensures Possible(s, [step] + rest) && Run(s, [step] + rest) == Run(Next(s, step), rest)
  {
    hide Enabled, Next, WellFormed;
    assert ([step] + rest)[1..] == rest;
  }

  lemma StoreIsTaken(s: State, c: Command)
    requires Inv(s) && s == Initial() && c.Store? && InRange(c)
    ensures var t := Written(Written(s, Words(c)[0]), Words(c)[1]);
      Written(s, Words(c)[0]).phase.Ready? && Inv(Written(s, Words(c)[0])) && Inv(t) && t.phase.Allocating?
    ensures var t := AllocateOnce(Written(Written(s, Words(c)[0]), Words(c)[1]));
      Inv(t) && t.phase.Ready? && t.status == Indirect1 && t.flc == Words(c)[0] && Op(t.flc) == CONFIG_STORE
      && Lookup(t.table, Name(Lgid(t.flc))) == 12 && Busy(t.slots[12])
  {
    hide Name, StorerFlc, FlcExt, InRange, AddrHead, Op, ExtAux, Lgid, OpAux, MuxA, MuxB, FullAddr, FullAddrInc;
    hide Busy, UnitOp, UnitContext, Wide, Allocated, FindIdle, Decoded, SlotsOk, TableOk, Carries, SameUnit, Translated;
    StoreFields(c, FlcExt(0, c.addrInc, c.addr));
    StorerTwelveIsFirst();
    ZeroWord();
    StepKeeps(s, Write(Words(c)[0]));
    var s1 := Written(s, Words(c)[0]);
    StepKeeps(s1, Write(Words(c)[1]));
    var s2 := Written(s1, Words(c)[1]);
    AssignedContext(s2, 12);
    StepKeeps(s2, Allocate);
  }

  lemma LoadIsStalled(s: State, d: Command)
    requires Inv(s) && s.phase.Ready? && s.status == Indirect1 && d.Load? && InRange(d) && s.pending == {}
    requires Op(s.flc) == CONFIG_STORE && AddrHead(s.flc) == AddrHead(Words(d)[0])
    requires Lookup(s.table, Name(Lgid(s.flc))) == 12 && Busy(s.slots[12])
    ensures var t := Written(s, Words(d)[0]);
      Inv(t) && t.phase == Stalled(Words(d)[0], 12, false) && Enabled(t, Release(12))
  {
    hide Name, LoaderFlc, FlcExt, InRange, AddrHead, Op, ExtAux, Lgid, OpAux, FullAddr, FullAddrInc, FullBatchLen;
    hide Busy, SlotsOk, TableOk;
    LoadFields(d, FlcExt(d.batchLen, d.addrInc, d.addr));
    StepKeeps(s, Write(Words(d)[0]));
  }

  /** Such a stall is reachable: a store, dispatched, then a load from its block. */
  lemma EarlyReleaseCanHappen(c: Command, d: Command) returns (steps: seq<Step>)
    requires c.Store? && d.Load? && InRange(c) && InRange(d)
    requires AddrHead(Words(c)[0]) == AddrHead(Words(d)[0])
    ensures Possible(Initial(), steps)
    ensures var s := Run(Initial(), steps);
      s.phase == Stalled(Words(d)[0], 12, false) && Enabled(s, Release(12))
  {
    hide Name, LoaderFlc, StorerFlc, ArithFlc, FlcExt, InRange, AddrHead, Op, Lgid, Busy, SlotsOk, TableOk, PhaseOk;
    hide Written, AllocateOnce, Deliveries, Hazard, Lookup;
    InitialInv();
    var s0 := Initial();
    StoreIsTaken(s0, c);
    var s1 := Written(s0, Words(c)[0]);
    var s2 := Written(s1, Words(c)[1]);
    var s3 := AllocateOnce(s2);
    var s4 := Dispatched(s3);
    StepKeeps(s3, Dispatch);
    LoadIsStalled(s4, d);
    Cons(s4, Write(Words(d)[0]), []);
    steps := [Write(Words(d)[0])] + [];
    Cons(s3, Dispatch, steps);
    steps := [Dispatch] + steps;
    Cons(s2, Allocate, steps);
    steps := [Allocate] + steps;
    Cons(s1, Write(Words(c)[1]), steps);
    steps := [Write(Words(c)[1])] + steps;
    Cons(s0, Write(Words(c)[0]), steps);
    steps := [Write(Words(c)[0])] + steps;
  }

  lemma ZeroWord()
    ensures Op(0) != CONFIG_LOAD && Op(0) != CONFIG_STORE
  {
  }

  // ---------------------------------------------------------------------
  // The controller object
  // ---------------------------------------------------------------------

  class ReconfigController {
    var status: Status
    var flc: bv32
    var flcExt: bv32
    var phase: Phase
    var slcs: seq<bv64>
    var translationTable: map<nat, nat>
    var dp: set<nat>
    /** The calls made to the array, with the assignments and releases between them. */
    var trace: seq<Event>

    ghost function View(): State
      reads this
    {
      State(status, flc, flcExt, phase, slcs, translationTable, dp, trace)
    }

    constructor ()
      ensures View() == Initial()
    {
      status, flc, flcExt, phase := Idle, 0, 0, Ready;
      slcs := InitialSlots();
      translationTable, dp, trace := map[], {}, [];
    }

    /** A word arrives: the state machine moves, and the word is processed until it has been
        consumed or has to wait, or takes the place of one that waits. */
    method Operation(w: bv32)
      requires WellFormed(View())
      modifies this
      ensures View() == Arrived(old(View()), w)
    {
      hide Hazard, ExtAux, Accept;
      if status == Indirect0 {
        status := Indirect1;
      } else if ExtAux(w) != 0 {
        status := Indirect0;
      } else {
        status := Direct;
      }
      if phase.Ready? {
        Preprocess(w);
      } else if phase.Stalled? {
        phase := phase.(word := w);
      }
    }

    method Preprocess(w: bv32)
      requires WellFormed(View()) && status != Idle
      modifies this
      ensures View() == if old(status) == Indirect1 then old(View()).(ext := w, phase := Allocating)
                        else if Hazard(old(View()), w)
                        then old(View()).(phase := Stalled(w, Lookup(old(translationTable), Name(Lgid(old(flc)))),
                          false))
                        else Accept(old(View()), w)
    {
      if status == Indirect1 {
        flcExt := w;
        phase := Allocating;
        return;
      }
      if Op(w) == CONFIG_LOAD && Op(flc) == CONFIG_STORE && AddrHead(w) == AddrHead(flc) {
        var rawUnit := Lookup(translationTable, Name(Lgid(flc)));
        if Busy(slcs[rawUnit]) {
          phase := Stalled(w, rawUnit, false);
          return;
        }
      }
      TakeWord(w);
    }

    method TakeWord(w: bv32)
      modifies this
      ensures View() == Accept(old(View()), w)
    {
      flc := w;
      phase := if status == Direct then Allocating else Ready;
    }

    /** One search through the slots; a controller that finds none tries again. */
    method TryAllocate()
      requires WellFormed(View()) && Enabled(View(), Allocate)
      modifies this
      ensures View() == Next(old(View()), Allocate)
    {
      var i := 0;
      while i < UNITS && !Suits(slcs, Op(flc), i)
        invariant i <= UNITS
        invariant FindIdle(slcs, Op(flc), 0) == FindIdle(slcs, Op(flc), i)
      {
        i := i + 1;
      }
      if i < UNITS {
        Configure(i);
      }
    }

    method Configure(i: nat)
      requires WellFormed(View()) && i < UNITS
      modifies this
      ensures View() == Assign(old(View()), i)
    {
      hide Name, Lgid, Decoded, Allocated, MuxA, MuxB, UnitNumber;
      var name := Name(Lgid(flc));
      translationTable := translationTable[name := i];
      var command := Decoded(flc, flcExt);
      var context := Allocated(slcs[i], command,
        Translated(translationTable, Name(MuxA(flc))), Translated(translationTable, Name(MuxB(flc))));
      dp := dp + {i};
      slcs := slcs[i := context];
      trace := trace + [Assigned(command, name, i, context)];
      phase := Ready;
    }

    /** The loop over the bits of the dispatch mask. */
    method DispatchAll()
      requires WellFormed(View())
      modifies this
      ensures View() == Next(old(View()), Dispatch)
    {
      hide UnitOp, Wide;
      var i := 0;
      while i < BITS
        invariant i <= BITS
        invariant View() == old(View()).(pending := dp, trace := trace)
        invariant dp == set j | j in old(dp) && i <= j
        invariant trace == old(trace) + Deliveries(slcs, old(dp), i)
      {
        if i in dp {
          trace := trace + [Sent(i, slcs[i])];
          if UnitOp(slcs[i]) == Wide(CONFIG_STORE) {
            trace := trace + [Configured];
          }
          dp := dp - {i};
        }
        i := i + 1;
      }
      assert dp == {};
    }

    /** The busy monitor begins to listen, one clock period into a stall. */
    method MonitorBusy()
      requires WellFormed(View()) && Enabled(View(), Watch)
      modifies this
      ensures View() == Next(old(View()), Watch)
    {
      phase := phase.(watching := true);
    }

    method ReleaseBusy(id: nat)
      requires WellFormed(View()) && id < UNITS
      modifies this
      ensures View() == Freed(old(View()), id)
    {
      hide Busy, WithBusy;
      slcs := slcs[id := WithBusy(slcs[id], false)];
      trace := trace + [Event.Released(id)];
      if phase.Stalled? && phase.watching && !Busy(slcs[phase.unit]) {
        TakeWord(phase.word);
      }
    }
  }
}
