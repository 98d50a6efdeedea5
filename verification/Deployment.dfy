/** From the words of a program to the running array: the controller's deliveries taken in
    by the units and by the crossbar between them. */
module Deployment {
  import opened ContextWords
  import opened Controller
  import opened Routing
  import ArrayTypes
  import Loader
  import ArithPe
  import Storer
  import Dataflow
  import Distributor
  import Crossbar
  import ArrayLinks
  import Common
  import NumberTheory

  // ---------------------------------------------------------------------
  // What the array makes of the controller's calls
  // ---------------------------------------------------------------------

  /** The four units of the data path, and the crossbar. */
  datatype Array = Array(
    a: Loader.State, b: Loader.State, pe: ArithPe.State, st: Storer.State, net: Crossbar.Net)

  function AtReset(): Array {
    Array(Loader.Reset(), Loader.Reset(), ArithPe.Reset(), Storer.Reset(), Crossbar.Start())
  }

  /** The parts of a context that a loader reads. */
  function LoaderPart(context: bv64): Loader.Context {
    Loader.Context(Value(Phid(context)), UnitOpAux(context) != 0, Value(UnitBatchLen(context)),
      Value(UnitAddrInc(context)), Value(UnitAddr(context)))
  }

  /** A context goes to every unit, of which number u is the arithmetic one of the data
      path, and through the whole crossbar. */
  function Given(u: nat, x: Array, context: bv64): Array
    requires Crossbar.Shaped(x.net)
  {
    var part := LoaderPart(context);
    Array(
      Loader.Written(x.a, 0, part), Loader.Written(x.b, 1, part), ArithPe.Written(x.pe, u, part.phid),
      Storer.Written(x.st, 12, part.phid, part.addrInc, part.addr), Crossbar.Configured(x.net, RouteOf(context)))
  }

  /** So does the start signal. */
  function Begun(x: Array): Array
    requires Crossbar.Shaped(x.net)
  {
    Array(Loader.Started(x.a), Loader.Started(x.b), ArithPe.Started(x.pe), Storer.Started(x.st),
      Crossbar.AllStarted(x.net))
  }

  function Told(u: nat, x: Array, e: Event): (y: Array)
    requires Crossbar.Shaped(x.net)
    ensures Crossbar.Shaped(y.net)
  {
    match e
    case Sent(_, context) => Given(u, x, context)
    case Configured => Begun(x)
    case _ => x
  }

  /** The array after all the calls in a trace. */
  function Delivered(u: nat, trace: seq<Event>): (x: Array)
    ensures Crossbar.Shaped(x.net)
  {
    if trace == [] then AtReset() else Told(u, Delivered(u, trace[..|trace| - 1]), trace[|trace| - 1])
  }

  lemma DeliveredSnoc(u: nat, trace: seq<Event>, e: Event)
    ensures Delivered(u, trace + [e]) == Told(u, Delivered(u, trace), e)
  {
    assert (trace + [e])[..|trace|] == trace;
  }

  // ---------------------------------------------------------------------
  // The program
  // ---------------------------------------------------------------------

  /** Two loads, the sums or products of what they load, and a store of these, under four
      names. With aux the length field of the loads is an exponent of two. */
  datatype Job = Job(
    op: bv32, aux: bool, nameA: bv32, nameB: bv32, nameOp: bv32, nameOut: bv32, length: bv32,
    incA: bv32, addrA: bv32, incB: bv32, addrB: bv32, incS: bv32, addrS: bv32)

  ghost predicate JobOk(job: Job) {
    && (job.op == CONFIG_ADD || job.op == CONFIG_MUL) && (job.aux ==> job.length < 32)
    && job.nameA < 16 && job.nameB < 16 && job.nameOp < 16 && job.nameOut < 16 && job.length < 0x8000
    && job.incA < 0x1000 && job.incB < 0x1000 && job.incS < 0x1000
    && job.addrA < 0x2_0000 && job.addrB < 0x2_0000 && job.addrS < 0x2_0000
    && job.nameA != job.nameB && job.nameA != job.nameOp && job.nameB != job.nameOp && job.nameOp != job.nameOut
  }

  function Flag(b: bool): bv32 { if b then 1 else 0 }

  function CommandAt(job: Job, m: nat): Command
    requires m < 4
  {
    if m == 0 then Load(job.nameA, Flag(job.aux), job.length, job.incA, job.addrA)
    else if m == 1 then Load(job.nameB, Flag(job.aux), job.length, job.incB, job.addrB)
    else if m == 2 then Arith(job.nameOp, job.op, 0, job.nameA, job.nameB)
    else Store(job.nameOut, 0, job.nameOp, job.incS, job.addrS)
  }

  function Program(job: Job): (cs: seq<Command>)
    ensures |cs| == 4
  {
    seq(4, m requires 0 <= m < 4 => CommandAt(job, m))
  }

  /** A field of a command, as the 64-bit context carries it. */
  function Field(x: bv32): nat { Value(Wide(x)) }

  /** How many elements a job works on. */
  function Elements(job: Job): nat {
    if job.aux then
      NumberTheory.PowPositive(2, Field(job.length));
      NumberTheory.Pow(2, Field(job.length))
    else Field(job.length)
  }

  lemma {:induction false} PowersOfTwo(n: nat)
    ensures Common.Pow2(n) == NumberTheory.Pow(2, n)
  {
    if n > 0 { PowersOfTwo(n - 1); }
  }

  function ConfigOf(job: Job, op: (ArrayTypes.Word, ArrayTypes.Word) -> ArrayTypes.Word,
                    memory: nat -> ArrayTypes.Word): Dataflow.Config {
    Dataflow.Config(Elements(job), Field(job.addrA), Field(job.incA), Field(job.addrB), Field(job.incB),
      Field(job.addrS), Field(job.incS), op, memory)
  }

  /** The first adder, or the first multiplier. */
  function ArithUnit(job: Job): nat { if job.op == CONFIG_MUL then 8 else 4 }

  /** The unit that command m gets. */
  function UnitOf(job: Job, m: nat): (i: nat)
    requires m < 4
    ensures i < UNITS
  {
    if m == 0 then 0 else if m == 1 then 1 else if m == 2 then ArithUnit(job) else 12
  }

  // ---------------------------------------------------------------------
  // The array after the first j contexts
  // ---------------------------------------------------------------------

  function ArithRoute(job: Job): Distributor.Route {
    Distributor.Route(ArithUnit(job), Distributor.ArithKind, 0, 1)
  }

  function StoreRoute(job: Job): Distributor.Route {
    Distributor.Route(12, Distributor.StoreKind, ArithUnit(job), 0)
  }

  function NetAfter(job: Job, j: nat): (net: Crossbar.Net)
    requires j <= 4
    ensures Crossbar.Shaped(net)
  {
    if j <= 2 then Crossbar.Start()
    else if j == 3 then Crossbar.Configured(Crossbar.Start(), ArithRoute(job))
    else Crossbar.AllStarted(
      Crossbar.Configured(Crossbar.Configured(Crossbar.Start(), ArithRoute(job)), StoreRoute(job)))
  }

  function LoadA(job: Job): Loader.Context {
    Loader.Context(0, job.aux, Field(job.length), Field(job.incA), Field(job.addrA))
  }

  function LoadB(job: Job): Loader.Context {
    Loader.Context(1, job.aux, Field(job.length), Field(job.incB), Field(job.addrB))
  }

  function WrittenUnits(job: Job, j: nat): Array
    requires j <= 4
  {
    Array(
      if j >= 1 then Loader.Written(Loader.Reset(), 0, LoadA(job)) else Loader.Reset(),
      if j >= 2 then Loader.Written(Loader.Reset(), 1, LoadB(job)) else Loader.Reset(),
      if j >= 3 then ArithPe.Written(ArithPe.Reset(), ArithUnit(job), ArithUnit(job)) else ArithPe.Reset(),
      if j >= 4 then Storer.Written(Storer.Reset(), 12, 12, Field(job.incS), Field(job.addrS)) else Storer.Reset(),
      NetAfter(job, j))
  }

  function Expected(job: Job, j: nat): (x: Array)
    requires j <= 4
    ensures Crossbar.Shaped(x.net)
  {
    var x := WrittenUnits(job, j);
    if j < 4 then x
    else x.(a := Loader.Started(x.a), b := Loader.Started(x.b), pe := ArithPe.Started(x.pe), st := Storer.Started(x.st))
  }

  /** The slot of command m's unit holds the command, its inputs translated to the units
      of the commands before it. */
  ghost predicate ContextOk(context: bv64, job: Job, m: nat)
    requires m < 4
  {
    && Identity(context, UnitOf(job, m))
    && Carries(context, CommandAt(job, m), if m == 2 then UnitNumber(0) else UnitNumber(ArithUnit(job)), UnitNumber(1))
  }

  /** They are routes that a crossbar may be given. */
  lemma RoutesAreOk(job: Job)
    ensures Crossbar.RouteOk(ArithRoute(job)) && Crossbar.RouteOk(StoreRoute(job))
  {
  }

  lemma LoadsDoNotRoute(net: Crossbar.Net, r: Distributor.Route)
    requires Crossbar.Shaped(net) && r.kind.LoadKind?
    ensures Crossbar.Configured(net, r) == net
  {
    var t := Crossbar.Configured(net, r);
    assert t.dists == net.dists;
    assert t.selects == net.selects;
  }

  lemma StoresUseOneInput(net: Crossbar.Net, r: Distributor.Route)
    requires Crossbar.Shaped(net) && r.kind.StoreKind?
    ensures Crossbar.Configured(net, r) == Crossbar.Configured(net, r.(muxB := 0))
  {
    var t, u := Crossbar.Configured(net, r), Crossbar.Configured(net, r.(muxB := 0));
    assert t.dists == u.dists;
    assert t.selects == u.selects;
  }

  lemma KindOfUnit(i: nat)
    requires i < UNITS
    ensures KindOf(UnitKind(i)) == if i < 4 then Distributor.LoadKind
      else if i < 12 then Distributor.ArithKind else Distributor.StoreKind
    ensures UnitKind(i) == Wide(CONFIG_LOAD) <==> i < 4
    ensures UnitKind(i) == Wide(CONFIG_ADD) <==> 4 <= i < 8
    ensures UnitKind(i) == Wide(CONFIG_MUL) <==> 8 <= i < 10
    ensures UnitKind(i) == Wide(CONFIG_STORE) <==> i >= 12
  {
  }

  lemma ArithUnitNumber(job: Job)
    ensures ArithUnit(job) == 4 || ArithUnit(job) == 8
  {
  }

  /** What the units read in the context of command m. */
  lemma PartsOfContext(context: bv64, job: Job, m: nat)
    requires m < 4 && ContextOk(context, job, m)
    ensures LoaderPart(context).phid == UnitOf(job, m)
    ensures m == 0 ==> LoaderPart(context) == LoadA(job)
    ensures m == 1 ==> LoaderPart(context) == LoadB(job)
    ensures m == 3 ==> LoaderPart(context).addrInc == Field(job.incS) && LoaderPart(context).addr == Field(job.addrS)
    ensures m < 2 ==> RouteOf(context).kind.LoadKind?
    ensures m == 2 ==> RouteOf(context) == ArithRoute(job)
    ensures m == 3 ==> RouteOf(context).(muxB := 0) == StoreRoute(job)
  {
    hide Phid, UnitOp, UnitOpAux, UnitMuxA, UnitMuxB, UnitAddr, UnitAddrInc, UnitBatchLen, UnitNumber, UnitKind;
    hide KindOf, Wide, Value;
    ArithUnitNumber(job);
    hide ArithUnit;
    KindOfUnit(UnitOf(job, m));
    NumberIsIndex(UnitOf(job, m));
    NumberIsIndex(0);
    NumberIsIndex(1);
    NumberIsIndex(ArithUnit(job));
    FlagIsCarried(job.aux);
  }

  lemma FlagIsCarried(b: bool)
    ensures Wide(Flag(b)) != 0 <==> b
  {
  }

  lemma NextExpected(job: Job, m: nat, context: bv64)
    requires m < 4 && ContextOk(context, job, m)
    ensures var x := Given(ArithUnit(job), Expected(job, m), context);
      Crossbar.Shaped(x.net) && Expected(job, m + 1) == if m == 3 then Begun(x) else x
  {
    hide LoaderPart, RouteOf, ContextOk, Crossbar.Configured, Crossbar.AllStarted, Crossbar.Start, Crossbar.Shaped;
    hide Loader.Started, ArithPe.Started, Storer.Started;
    PartsOfContext(context, job, m);
    var x := Expected(job, m);
    ConfiguredShape(x.net, RouteOf(context));
    if m < 2 { LoadsDoNotRoute(x.net, RouteOf(context)); }
    if m == 3 { StoresUseOneInput(x.net, RouteOf(context)); }
  }

  lemma ConfiguredShape(net: Crossbar.Net, r: Distributor.Route)
    requires Crossbar.Shaped(net)
    ensures Crossbar.Shaped(Crossbar.Configured(net, r))
  {
  }

  // ---------------------------------------------------------------------
  // The controller, k commands in and j contexts out
  // ---------------------------------------------------------------------

  predicate Taken(job: Job, i: nat, k: nat) {
    exists m: nat :: m < k && m < 4 && UnitOf(job, m) == i
  }

  predicate Marked(job: Job, i: nat, j: nat, k: nat) {
    exists m: nat :: j <= m < k && m < 4 && UnitOf(job, m) == i
  }

  ghost predicate NamesOk(table: map<nat, nat>, job: Job, k: nat) {
    Bound(table, ArithUnit(job), Name(job.nameA), Name(job.nameB), Name(job.nameOp), k)
  }

  /** The names that commands still to come refer to. */
  ghost predicate Bound(table: map<nat, nat>, u: nat, a: nat, b: nat, sum: nat, k: nat) {
    && (1 <= k < 4 ==> Controller.Lookup(table, a) == 0)
    && (2 <= k < 4 ==> Controller.Lookup(table, b) == 1)
    && (k == 3 ==> Controller.Lookup(table, sum) == u)
  }

  lemma TableNext(table: map<nat, nat>, u: nat, a: nat, b: nat, sum: nat, out: nat, k: nat)
    requires a != b && a != sum && b != sum && sum != out && k < 4 && Bound(table, u, a, b, sum, k)
    ensures
      var next := if k == 0 then table[a := 0] else if k == 1 then table[b := 1]
        else if k == 2 then table[sum := u] else table[out := 12];
      Bound(next, u, a, b, sum, k + 1)
  {
  }

  ghost predicate SlotsTaken(s: Controller.State, job: Job, k: nat) {
    && |s.slots| == UNITS
    && (forall i: nat :: i < UNITS ==> (Busy(s.slots[i]) <==> Taken(job, i, k)))
    && (forall m: nat :: m < k && m < 4 ==> ContextOk(s.slots[UnitOf(job, m)], job, m))
  }

  ghost predicate Deployed(s: Controller.State, job: Job, j: nat, k: nat) {
    && j <= k <= 4
    && Commands(s.trace) == Program(job)[..k]
    && (forall i: nat :: i in s.pending <==> Marked(job, i, j, k))
    && SlotsTaken(s, job, k)
    && NamesOk(s.table, job, k)
    && Delivered(ArithUnit(job), s.trace) == Expected(job, j)
  }

  lemma InitiallyDeployed(job: Job)
    ensures Deployed(Controller.Initial(), job, 0, 0)
  {
    hide Busy, UnitContext, UnitKind, UnitNumber;
    forall i: nat | i < UNITS
      ensures !Busy(Controller.Initial().slots[i])
    {
      FreshUnit(i);
    }
    assert Program(job)[..0] == [];
  }

  // Dispatching

  function UnitsBelow(job: Job, n: nat): nat {
    if n == 0 then 0 else if n == 1 then 1 else if n <= ArithUnit(job) then 2 else if n <= 12 then 3 else 4
  }

  /** How many contexts are out once the dispatch loop has passed the slots below n. */
  function OutBelow(job: Job, n: nat, j: nat, k: nat): nat
    requires j <= k <= 4
  {
    if UnitsBelow(job, n) <= j then j else if UnitsBelow(job, n) >= k then k else UnitsBelow(job, n)
  }

  lemma SlotOfUnit(job: Job, n: nat, j: nat, k: nat)
    requires j <= k <= 4
    ensures Marked(job, n, j, k) ==> (
      && OutBelow(job, n, j, k) < k && UnitOf(job, OutBelow(job, n, j, k)) == n
      && OutBelow(job, n + 1, j, k) == OutBelow(job, n, j, k) + 1)
    ensures !Marked(job, n, j, k) ==> OutBelow(job, n + 1, j, k) == OutBelow(job, n, j, k)
  {
    var m := UnitsBelow(job, n);
    assert UnitsBelow(job, n + 1) == m + 1 ==> m < 4 && UnitOf(job, m) == n;
  }

  lemma {:induction false} DispatchDelivers(s: Controller.State, job: Job, j: nat, k: nat, n: nat)
    requires Inv(s) && Deployed(s, job, j, k) && n <= BITS
    ensures var trace := s.trace + Deliveries(s.slots, s.pending, n);
      Delivered(ArithUnit(job), trace) == Expected(job, OutBelow(job, n, j, k))
  {
    hide Delivered, Told, ContextOk, Expected, TableOk, PhaseOk, SlotOk, UnitOp, Wide, Commands, Marked, UnitOf;
    hide NamesOk, OutBelow, Busy, Delivery;
    if n == 0 {
      assert OutBelow(job, 0, j, k) == j by { NothingOut(job, j, k); }
      assert s.trace + [] == s.trace;
    } else {
      DispatchDelivers(s, job, j, k, n - 1);
      SlotOfUnit(job, n - 1, j, k);
      var before := s.trace + Deliveries(s.slots, s.pending, n - 1);
      if n - 1 in s.pending {
        assert s.trace + Deliveries(s.slots, s.pending, n) == before + Delivery(s.slots, n - 1);
        DeliveryTells(s, job, OutBelow(job, n - 1, j, k), before);
      } else {
        assert s.trace + Deliveries(s.slots, s.pending, n) == before;
      }
    }
  }

  lemma NothingOut(job: Job, j: nat, k: nat)
    requires j <= k <= 4
    ensures OutBelow(job, 0, j, k) == j
  {
  }

  lemma DeliveryTells(s: Controller.State, job: Job, m: nat, before: seq<Event>)
    requires Inv(s) && m < 4 && ContextOk(s.slots[UnitOf(job, m)], job, m)
    requires Delivered(ArithUnit(job), before) == Expected(job, m)
    ensures Delivered(ArithUnit(job), before + Delivery(s.slots, UnitOf(job, m))) == Expected(job, m + 1)
  {
    hide Delivered, Given, Begun, ContextOk, Expected, TableOk, PhaseOk, UnitOp, Wide, UnitKind, UnitNumber, Phid, Busy;
    hide LifeOf;
    var i := UnitOf(job, m);
    var sent := Sent(i, s.slots[i]);
    assert SlotOk(s.slots[i], s.pending, s.trace, i);
    KindOfUnit(i);
    NextExpected(job, m, s.slots[i]);
    DeliveredSnoc(ArithUnit(job), before, sent);
    DeliveredSnoc(ArithUnit(job), before + [sent], Configured);
    assert before + [sent, Configured] == before + [sent] + [Configured];
  }

  lemma DispatchDeploys(s: Controller.State, job: Job, j: nat, k: nat)
    requires Inv(s) && Deployed(s, job, j, k)
    ensures Deployed(Dispatched(s), job, k, k)
  {
    hide Delivered, ContextOk, Expected, TableOk, PhaseOk, SlotsOk, Commands, Deliveries, NamesOk, UnitOf, Busy, Taken;
    DispatchKeeps(s);
    DispatchDelivers(s, job, j, k, BITS);
    assert UnitsBelow(job, BITS) == 4;
  }

  // Allocating

  lemma Decoding(w: bv32, e: bv32, c: Command)
    requires Decoded(w, e) == c
    ensures Lgid(w) == c.lgid
    ensures c.Load? ==> Op(w) == CONFIG_LOAD
    ensures c.Store? ==> Op(w) == CONFIG_STORE && MuxA(w) == c.muxA
    ensures c.Arith? ==> Op(w) == c.op && MuxA(w) == c.muxA && MuxB(w) == c.muxB
  {
    hide Op, Lgid, MuxA, MuxB, OpAux, FullAddr, FullAddrInc, FullBatchLen;
  }

  function OperationOf(job: Job, m: nat): bv32
    requires m < 4
  {
    if m < 2 then CONFIG_LOAD else if m == 2 then job.op else CONFIG_STORE
  }

  /** The first idle unit that suits command k is the one the data path expects. */
  lemma FoundUnit(s: Controller.State, job: Job, k: nat)
    requires Inv(s) && JobOk(job) && k < 4 && SlotsTaken(s, job, k)
    ensures FindIdle(s.slots, OperationOf(job, k), 0) == UnitOf(job, k)
  {
    hide Busy, UnitKind, UnitNumber, Phid, UnitOp, Wide, LifeOf, ContextOk, TableOk, PhaseOk, Taken;
    var op := OperationOf(job, k);
    forall i: nat | i < UNITS
      ensures Suits(s.slots, op, i) <==> UnitKind(i) == Wide(op) && !Taken(job, i, k)
    {
      assert SlotOk(s.slots[i], s.pending, s.trace, i);
    }
    forall i: nat | i < UNITS
      ensures UnitKind(i) == Wide(op) && !Taken(job, i, k) <==>
        if k < 2 then k <= i < 4 else if k == 3 then i >= 12
        else if job.op == CONFIG_ADD then 4 <= i < 8 else 8 <= i < 10
    {
      KindOfUnit(i);
      TakenSoFar(job, i, k);
    }
    var r := FindIdle(s.slots, op, 0);
    assert Suits(s.slots, op, UnitOf(job, k));
  }

  lemma TakenSoFar(job: Job, i: nat, k: nat)
    requires k < 4
    ensures Taken(job, i, k) <==> (k >= 1 && i == 0) || (k >= 2 && i == 1) || (k >= 3 && i == ArithUnit(job))
  {
    assert k >= 1 ==> UnitOf(job, 0) == 0;
    assert k >= 2 ==> UnitOf(job, 1) == 1;
    assert k >= 3 ==> UnitOf(job, 2) == ArithUnit(job);
  }

  lemma TakenNext(job: Job, i: nat, k: nat)
    requires k < 4
    ensures Taken(job, i, k + 1) <==> Taken(job, i, k) || i == UnitOf(job, k)
  {
    assert i == UnitOf(job, k) ==> Taken(job, i, k + 1);
  }

  lemma MarkedNext(job: Job, i: nat, j: nat, k: nat)
    requires j <= k < 4
    ensures Marked(job, i, j, k + 1) <==> Marked(job, i, j, k) || i == UnitOf(job, k)
  {
    assert i == UnitOf(job, k) ==> Marked(job, i, j, k + 1);
  }

  lemma AllocateDeploys(s: Controller.State, job: Job, j: nat, k: nat)
    requires Inv(s) && JobOk(job) && Deployed(s, job, j, k) && k < 4
    requires s.phase.Allocating? && Decoded(s.flc, s.ext) == CommandAt(job, k)
    ensures Deployed(AllocateOnce(s), job, j, k + 1)
  {
    hide Busy, SlotsOk, TableOk, PhaseOk, SlotsTaken, NamesOk, Decoded, Assign, Op, Suits, Deployed;
    FoundUnitHere(s, job, j, k);
    AssignDeploys(s, job, j, k);
  }

  lemma FoundUnitHere(s: Controller.State, job: Job, j: nat, k: nat)
    requires Inv(s) && JobOk(job) && Deployed(s, job, j, k) && k < 4 && Decoded(s.flc, s.ext) == CommandAt(job, k)
    ensures FindIdle(s.slots, Op(s.flc), 0) == UnitOf(job, k) && Op(s.flc) == OperationOf(job, k)
  {
    hide Busy, SlotsOk, TableOk, PhaseOk, SlotsTaken, NamesOk, Decoded, Op, Suits, Commands, Delivered, Expected;
    hide Marked, FindIdle, CommandAt, OperationOf, UnitOf;
    DecodedOperation(s.flc, s.ext, job, k);
    FoundUnit(s, job, k);
  }

  lemma DecodedOperation(w: bv32, e: bv32, job: Job, k: nat)
    requires k < 4 && Decoded(w, e) == CommandAt(job, k)
    ensures Op(w) == OperationOf(job, k)
  {
    hide Decoded, Op;
    Decoding(w, e, CommandAt(job, k));
  }

  lemma AssignDeploys(s: Controller.State, job: Job, j: nat, k: nat)
    requires Inv(s) && JobOk(job) && Deployed(s, job, j, k) && k < 4
    requires Decoded(s.flc, s.ext) == CommandAt(job, k) && Suits(s.slots, Op(s.flc), UnitOf(job, k))
    ensures Deployed(Assign(s, UnitOf(job, k)), job, j, k + 1)
  {
    hide Busy, SlotsOk, TableOk, PhaseOk, SlotsTaken, NamesOk, Decoded, Suits, Marked, Op, Lgid, MuxA, MuxB, Allocated;
    hide Commands, Delivered, Expected, ContextOk, Name;
    var i := UnitOf(job, k);
    var t := Assign(s, i);
    var e := t.trace[|s.trace|];
    Snoc(s.trace, e, 0);
    DeliveredSnoc(ArithUnit(job), s.trace, e);
    assert Program(job)[..k] + [CommandAt(job, k)] == Program(job)[..k + 1];
    forall x: nat
      ensures x in t.pending <==> Marked(job, x, j, k + 1)
    {
      MarkedNext(job, x, j, k);
    }
    NamesNext(s.table, job, k);
    TableKey(s, job, k);
    AssignedSlot(s, job, k);
    TakenSlots(s, t, job, k);
  }

  lemma TableKey(s: Controller.State, job: Job, k: nat)
    requires k < 4 && Decoded(s.flc, s.ext) == CommandAt(job, k)
    ensures Name(Lgid(s.flc)) == Name(CommandAt(job, k).lgid)
  {
    hide Decoded, Lgid;
    Decoding(s.flc, s.ext, CommandAt(job, k));
  }

  function Back(n: nat): bv32
    requires n < 0x1_0000_0000
  {
    n as bv32
  }

  lemma ThereAndBack(x: bv32)
    ensures x as nat < 0x1_0000_0000 && Back(x as nat) == x
  {
  }

  /** Names that differ as words differ as numbers. */
  lemma NamesDiffer(x: bv32, y: bv32)
    requires x != y
    ensures Name(x) != Name(y)
  {
    hide Back;
    ThereAndBack(x);
    ThereAndBack(y);
  }

  lemma NamesNext(table: map<nat, nat>, job: Job, k: nat)
    requires JobOk(job) && k < 4 && NamesOk(table, job, k)
    ensures var next := table[Name(CommandAt(job, k).lgid) := UnitOf(job, k)];
      && NamesOk(next, job, k + 1)
      && (k == 2 ==> Bound(next, ArithUnit(job), Name(job.nameA), Name(job.nameB), Name(job.nameOp), 2))
      && (k == 3 ==> Controller.Lookup(next, Name(job.nameOp)) == ArithUnit(job))
  {
    hide Name;
    NamesDiffer(job.nameA, job.nameB);
    NamesDiffer(job.nameA, job.nameOp);
    NamesDiffer(job.nameB, job.nameOp);
    NamesDiffer(job.nameOp, job.nameOut);
    TableNext(table, ArithUnit(job), Name(job.nameA), Name(job.nameB), Name(job.nameOp), Name(job.nameOut), k);
  }

  lemma AssignedSlot(s: Controller.State, job: Job, k: nat)
    requires Inv(s) && JobOk(job) && k < 4 && NamesOk(s.table, job, k)
    requires Decoded(s.flc, s.ext) == CommandAt(job, k) && Suits(s.slots, Op(s.flc), UnitOf(job, k))
    ensures var t := Assign(s, UnitOf(job, k));
      Busy(t.slots[UnitOf(job, k)]) && ContextOk(t.slots[UnitOf(job, k)], job, k)
  {
    hide Busy, UnitKind, UnitNumber, Phid, UnitOp, Wide, LifeOf, TableOk, PhaseOk, Allocated, Decoded, SameUnit;
    hide Op, Lgid, MuxA, MuxB, Suits, UnitOpAux, UnitBatchLen, UnitAddr, UnitAddrInc, UnitMuxA, UnitMuxB, Identity;
    var i := UnitOf(job, k);
    Decoding(s.flc, s.ext, CommandAt(job, k));
    AssignedContext(s, i);
    assert SlotOk(s.slots[i], s.pending, s.trace, i);
    IdentityKept(s.slots[i], Assign(s, i).slots[i], i);
    NamesNext(s.table, job, k);
    TableKey(s, job, k);
  }

  lemma TakenSlots(s: Controller.State, t: Controller.State, job: Job, k: nat)
    requires k < 4 && SlotsTaken(s, job, k) && |t.slots| == UNITS
    requires t.slots == s.slots[UnitOf(job, k) := t.slots[UnitOf(job, k)]]
    requires Busy(t.slots[UnitOf(job, k)]) && ContextOk(t.slots[UnitOf(job, k)], job, k)
    ensures SlotsTaken(t, job, k + 1)
  {
    hide Busy, ContextOk, Taken;
    forall i: nat | i < UNITS
      ensures Busy(t.slots[i]) <==> Taken(job, i, k + 1)
    {
      TakenNext(job, i, k);
    }
  }

  // ---------------------------------------------------------------------
  // Every schedule
  // ---------------------------------------------------------------------

  lemma OtherStepDeploys(s: Controller.State, job: Job, step: Step, j: nat, k: nat)
    requires Inv(s) && Enabled(s, step) && Deployed(s, job, j, k) && (step.Write? || step.Watch?)
    ensures Deployed(Next(s, step), job, j, k)
  {
    hide SlotsOk, TableOk, PhaseOk, Commands, Delivered, Expected, Marked, SlotsTaken, NamesOk, Busy, Program;
    hide Hazard, WellFormed;
    WritingTouchesNothing(s, step);
    SameSlotsTaken(s, Next(s, step), job, k);
  }

  lemma WritingTouchesNothing(s: Controller.State, step: Step)
    requires WellFormed(s) && Enabled(s, step) && (step.Write? || step.Watch?)
    ensures var t := Next(s, step);
      t.slots == s.slots && t.table == s.table && t.pending == s.pending && t.trace == s.trace
  {
    hide Hazard, NextStatus, WellFormed, AllocateOnce, Dispatched, Freed, Busy, Lgid;
    match step
    case Write(w) => assert Next(s, step) == Written(s, w);
    case Watch => assert Next(s, step) == Watched(s);
  }

  lemma SameSlotsTaken(s: Controller.State, t: Controller.State, job: Job, k: nat)
    requires SlotsTaken(s, job, k) && t.slots == s.slots
    ensures SlotsTaken(t, job, k)
  {
    hide ContextOk, Busy, Taken;
  }

  /** The command that waits for a unit is the next one of the program. */
  lemma NextCommand(s: Controller.State, r: Reader, job: Job, j: nat, k: nat)
    requires Deployed(s, job, j, k) && Follows(s, r) && s.phase.Allocating? && r.out <= Program(job)
    ensures k < 4 && Decoded(s.flc, s.ext) == CommandAt(job, k)
  {
    hide Commands, Delivered, Expected, Marked, SlotsTaken, NamesOk, Decoded;
    assert r.out == Program(job)[..k] + [Decoded(s.flc, s.ext)];
    assert r.out[k] == Program(job)[k];
  }

  lemma StepDeploys(s: Controller.State, r: Reader, job: Job, step: Step, j: nat, k: nat) returns (j': nat, k': nat)
    requires Inv(s) && JobOk(job) && Enabled(s, step) && Deployed(s, job, j, k) && !step.Release?
    requires Follows(s, r) && r.out <= Program(job)
    ensures Deployed(Next(s, step), job, j', k')
  {
    hide SlotsOk, TableOk, PhaseOk, Deployed, Dispatched, AllocateOnce, Busy, Follows, JobOk, Written, Program;
    j', k' := j, k;
    match step
    case Write(_) => OtherStepDeploys(s, job, step, j, k);
    case Watch => OtherStepDeploys(s, job, step, j, k);
    case Allocate =>
      NextCommand(s, r, job, j, k);
      AllocateDeploys(s, job, j, k);
      k' := k + 1;
    case Dispatch =>
      DispatchBounds(s, job, j, k);
      DispatchDeploys(s, job, j, k);
      j' := k;
  }

  lemma DispatchBounds(s: Controller.State, job: Job, j: nat, k: nat)
    requires Deployed(s, job, j, k)
    ensures j <= k <= 4
  {
  }

  lemma {:induction false} RunDeploys(s: Controller.State, r: Reader, job: Job, steps: seq<Step>, j: nat, k: nat)
    returns (j': nat, k': nat)
    requires Inv(s) && JobOk(job) && Deployed(s, job, j, k) && Follows(s, r)
    requires Possible(s, steps) && NoRelease(steps) && ReadAll(r, WordsOf(steps)).out <= Program(job)
    ensures Deployed(Run(s, steps), job, j', k')
    decreases |steps|
  {
    hide SlotsOk, TableOk, PhaseOk, Deployed, Follows, JobOk, Next, Enabled, Read, Program;
    ReadOnlyAppends(r, WordsOf(steps));
    if steps == [] {
      j', k' := j, k;
    } else {
      var step := steps[0];
      var q := if step.Write? then Read(r, step.word) else r;
      assert !step.Release?;
      j', k' := StepDeploys(s, r, job, step, j, k);
      StepKeeps(s, step);
      StepFollows(s, r, step);
      if step.Write? {
        assert ([step.word] + WordsOf(steps[1..]))[1..] == WordsOf(steps[1..]);
      } else {
        assert WordsOf(steps) == WordsOf(steps[1..]);
      }
      j', k' := RunDeploys(Next(s, step), q, job, steps[1..], j', k');
    }
  }

  lemma ProgramInRange(job: Job)
    requires JobOk(job)
    ensures forall c <- Program(job) :: InRange(c)
  {
    forall m: nat | m < 4
      ensures InRange(CommandAt(job, m))
    {
      CommandInRange(job, m);
    }
  }

  lemma CommandInRange(job: Job, m: nat)
    requires JobOk(job) && m < 4
    ensures InRange(CommandAt(job, m))
  {
    LoadInRange(job.nameA, Flag(job.aux), job.length, job.incA, job.addrA);
    LoadInRange(job.nameB, Flag(job.aux), job.length, job.incB, job.addrB);
    ArithInRange(job.nameOp, job.op, job.nameA, job.nameB);
    StoreInRange(job.nameOut, job.nameOp, job.incS, job.addrS);
    hide InRange;
  }

  lemma LoadInRange(name: bv32, aux: bv32, length: bv32, inc: bv32, addr: bv32)
    requires name < 16 && aux < 2 && length < 0x8000 && inc < 0x1000 && addr < 0x2_0000
    ensures InRange(Load(name, aux, length, inc, addr))
  {
  }

  lemma ArithInRange(name: bv32, op: bv32, a: bv32, b: bv32)
    requires name < 16 && (op == CONFIG_ADD || op == CONFIG_MUL) && a < 16 && b < 16
    ensures InRange(Arith(name, op, 0, a, b))
  {
  }

  lemma StoreInRange(name: bv32, a: bv32, inc: bv32, addr: bv32)
    requires name < 16 && a < 16 && inc < 0x1000 && addr < 0x2_0000
    ensures InRange(Store(name, 0, a, inc, addr))
  {
  }

  lemma AllOut(s: Controller.State, job: Job, j: nat, k: nat)
    requires Deployed(s, job, j, k) && Commands(s.trace) == Program(job) && s.pending == {}
    ensures Delivered(ArithUnit(job), s.trace) == Expected(job, 4)
  {
    hide Commands, Delivered, Expected, SlotsTaken, NamesOk;
    assert |Program(job)[..k]| == k;
    assert j < 4 ==> Marked(job, UnitOf(job, j), j, 4);
  }

  /** The crossbar joins the loaders to the two inputs of arithmetic unit u and this to the
      storer, and each of these sources feeds nobody else. */
  ghost predicate Wired(net: Crossbar.Net, u: nat)
    requires Crossbar.Shaped(net) && (u == 4 || u == 8)
  {
    var a := 2 * (u - 4);
    && ArrayLinks.OnlyBranch(net.dists[0].branches, a) && net.selects[a] == 0
    && ArrayLinks.OnlyBranch(net.dists[1].branches, a + 1) && net.selects[a + 1] == 1
    && ArrayLinks.OnlyBranch(net.dists[u].branches, 16) && net.selects[16] == u
    && forall d :: 0 <= d < Distributor.SOURCES ==> !net.dists[d].ready
  }

  function JoinedNet(u: nat): (net: Crossbar.Net)
    ensures Crossbar.Shaped(net)
  {
    Crossbar.AllStarted(
      Crossbar.Configured(
        Crossbar.Configured(Crossbar.Start(), Distributor.Route(u, Distributor.ArithKind, 0, 1)),
        Distributor.Route(12, Distributor.StoreKind, u, 0)))
  }

  lemma AddersNet()
    ensures Wired(JoinedNet(4), 4)
  {
  }

  lemma MultipliersNet()
    ensures Wired(JoinedNet(8), 8)
  {
  }

  lemma NetIsWired(job: Job)
    ensures (ArithUnit(job) == 4 || ArithUnit(job) == 8) && Wired(NetAfter(job, 4), ArithUnit(job))
  {
    hide Wired, Crossbar.AllStarted, Crossbar.Configured, Crossbar.Start;
    ArithUnitNumber(job);
    assert NetAfter(job, 4) == JoinedNet(ArithUnit(job));
    AddersNet();
    MultipliersNet();
  }

  /** However the dispatches fall among the words: once the program's words have been
      consumed and every context has been dispatched, the units stand where the data path
      starts from, and the crossbar joins them as its links do. */
  lemma ProgramReachesStart(job: Job, steps: seq<Step>, op: (ArrayTypes.Word, ArrayTypes.Word) -> ArrayTypes.Word,
    memory: nat -> ArrayTypes.Word)
    requires JobOk(job) && Possible(Controller.Initial(), steps) && NoRelease(steps)
    requires WordsOf(steps) == Encode(Program(job))
    requires var s := Run(Controller.Initial(), steps); s.phase.Ready? && s.pending == {}
    ensures var x := Delivered(ArithUnit(job), Run(Controller.Initial(), steps).trace);
      var t := Dataflow.Start(ConfigOf(job, op, memory));
      && x.a == t.a && x.b == t.b && x.pe == t.pe && x.st == t.st
      && Wired(x.net, if job.op == CONFIG_MUL then 8 else 4)
      && Crossbar.RouteOk(ArithRoute(job)) && Crossbar.RouteOk(StoreRoute(job))
  {
    hide SlotsOk, TableOk, PhaseOk, Deployed, JobOk, Run, Possible, Program, Encode, Delivered, NetAfter, Wired, Read;
    var r := Reader(Idle, 0, 0, []);
    InitialInv();
    InitiallyDeployed(job);
    ProgramInRange(job);
    CommandStreamSurvives(Program(job), steps);
    EncodedIsReadBack(r, Program(job));
    assert [] + Program(job) == Program(job);
    var j, k := RunDeploys(Controller.Initial(), r, job, steps, 0, 0);
    PowersOfTwo(Field(job.length));
    RoutesAreOk(job);
    AllOut(Run(Controller.Initial(), steps), job, j, k);
    NetIsWired(job);
  }

  // ---------------------------------------------------------------------
  // A schedule that gets there
  // ---------------------------------------------------------------------

  lemma {:induction false} RunAppends(s: Controller.State, p: seq<Step>, q: seq<Step>)
    requires WellFormed(s) && Possible(s, p) && Possible(Run(s, p), q)
    ensures Possible(s, p + q) && Run(s, p + q) == Run(Run(s, p), q) && WordsOf(p + q) == WordsOf(p) + WordsOf(q)
    decreases |p|
  {
    hide Enabled, Next, WellFormed;
    if p == [] {
      assert p + q == q;
    } else {
      assert (p + q)[1..] == p[1..] + q;
      RunAppends(Next(s, p[0]), p[1..], q);
    }
  }

  /** Between two commands of the program. */
  ghost predicate Between(s: Controller.State, job: Job, k: nat) {
    && Inv(s) && Deployed(s, job, 0, k) && s.phase.Ready? && s.status != Indirect0
    && (k < 4 ==> Op(s.flc) != CONFIG_STORE)
  }

  /** The first word of a command tells whether there is a second. */
  lemma WordsDecode(c: Command, e: bv32)
    requires InRange(c)
    ensures var ws := Words(c);
      && 1 <= |ws| <= 2 && (ExtAux(ws[0]) != 0 <==> |ws| == 2)
      && Decoded(ws[0], if |ws| == 2 then ws[1] else e) == c
  {
    hide LoaderFlc, StorerFlc, ArithFlc, FlcExt, Op, ExtAux, Lgid, OpAux, MuxA, MuxB, FullAddr, FullAddrInc;
    hide FullBatchLen, InRange;
    match c
    case Load(_, _, len, inc, addr) => LoadFields(c, FlcExt(len, inc, addr));
    case Store(_, _, _, inc, addr) => StoreFields(c, FlcExt(0, inc, addr));
    case Arith(_, _, _, _, _) =>
      ArithFields(c);
      ArithOperation(c);
  }

  /** The words of the next command bring it to the point of asking for a unit. */
  lemma WordsAreTaken(s: Controller.State, ws: seq<bv32>)
    requires WellFormed(s) && s.phase.Ready? && s.status != Indirect0 && Op(s.flc) != CONFIG_STORE
    requires 1 <= |ws| <= 2 && (ExtAux(ws[0]) != 0 <==> |ws| == 2)
    ensures var u := Written(s, ws[0]);
      && WellFormed(u) && u.flc == ws[0]
      && (|ws| == 1 ==> u.phase.Allocating? && u.status == Direct && u.ext == s.ext)
      && (|ws| == 2 ==> (
            var t := Written(u, ws[1]);
            u.phase.Ready? && WellFormed(t) && t.phase.Allocating? && t.status == Indirect1
            && t.flc == ws[0] && t.ext == ws[1]))
  {
    hide Op, ExtAux, AddrHead, Busy, Lgid;
  }

  /** Its words written, it gets its unit at once. */
  lemma CommandGoesIn(s: Controller.State, job: Job, k: nat) returns (steps: seq<Step>)
    requires JobOk(job) && k < 4 && Between(s, job, k)
    ensures Possible(s, steps) && NoRelease(steps) && WordsOf(steps) == Words(CommandAt(job, k))
    ensures Between(Run(s, steps), job, k + 1)
  {
    hide SlotsOk, TableOk, PhaseOk, Deployed, JobOk, Written, AllocateOnce, Words, Op, Program, Hazard, InRange;
    hide Decoded, CommandAt, ExtAux;
    var c := CommandAt(job, k);
    CommandInRange(job, k);
    WordsDecode(c, s.ext);
    var w := Words(c);
    WordsAreTaken(s, w);
    StepKeeps(s, Write(w[0]));
    OtherStepDeploys(s, job, Write(w[0]), 0, k);
    var u := Written(s, w[0]);
    var t := u;
    if |w| == 2 {
      StepKeeps(u, Write(w[1]));
      OtherStepDeploys(u, job, Write(w[1]), 0, k);
      t := Written(u, w[1]);
    }
    StepKeeps(t, Allocate);
    AllocateDeploys(t, job, 0, k);
    Settles(t, job, k);
    Cons(t, Allocate, []);
    steps := [Allocate] + [];
    if |w| == 2 {
      Cons(u, Write(w[1]), steps);
      assert WordsOf([Write(w[1])] + steps) == [w[1]] + WordsOf(steps) by { WordsOfCons(Write(w[1]), steps); }
      steps := [Write(w[1])] + steps;
    }
    Cons(s, Write(w[0]), steps);
    WordsOfCons(Write(w[0]), steps);
    steps := [Write(w[0])] + steps;
  }

  lemma WordsOfCons(step: Step, rest: seq<Step>)
    ensures WordsOf([step] + rest) == (if step.Write? then [step.word] else []) + WordsOf(rest)
  {
    assert ([step] + rest)[1..] == rest;
  }

  lemma Settles(t: Controller.State, job: Job, k: nat)
    requires Inv(t) && JobOk(job) && Deployed(t, job, 0, k) && k < 4
    requires Decoded(t.flc, t.ext) == CommandAt(job, k)
    ensures var u := AllocateOnce(t);
      u.phase.Ready? && u.status == t.status && u.flc == t.flc && (k < 3 ==> Op(u.flc) != CONFIG_STORE)
  {
    hide SlotsOk, TableOk, PhaseOk, Deployed, Op, Decoded, Allocated, Suits, Lgid, MuxA, MuxB;
    FoundUnitHere(t, job, 0, k);
  }

  /** Such a schedule exists: the words one after the other, each command given its unit as
      soon as it has been read, and one dispatch at the end. */
  lemma ProgramCanBeDeployed(job: Job) returns (steps: seq<Step>)
    requires JobOk(job)
    ensures Possible(Controller.Initial(), steps) && NoRelease(steps) && WordsOf(steps) == Encode(Program(job))
    ensures var s := Run(Controller.Initial(), steps); s.phase.Ready? && s.pending == {}
  {
    hide JobOk, Possible, Run, Words, CommandAt, Between, WordsOf, Encode, NoRelease, Controller.Initial, WellFormed;
    var s := Controller.Initial();
    FirstCommand(job);
    var p0 := CommandGoesIn(s, job, 0);
    var p1 := CommandGoesIn(Run(s, p0), job, 1);
    RunAppends(s, p0, p1);
    var p2 := CommandGoesIn(Run(s, p0 + p1), job, 2);
    RunAppends(s, p0 + p1, p2);
    var p3 := CommandGoesIn(Run(s, p0 + p1 + p2), job, 3);
    RunAppends(s, p0 + p1 + p2, p3);
    DispatchLast(Run(s, p0 + p1 + p2 + p3), job);
    RunAppends(s, p0 + p1 + p2 + p3, [Dispatch]);
    EncodeFour(job);
    steps := p0 + p1 + p2 + p3 + [Dispatch];
    assert NoRelease(steps) by { NoneReleases(p0, p1, p2, p3); }
    assert WordsOf(steps) == WordsOf(p0) + WordsOf(p1) + WordsOf(p2) + WordsOf(p3);
  }

  lemma FirstCommand(job: Job)
    ensures WellFormed(Controller.Initial()) && Between(Controller.Initial(), job, 0)
  {
    hide SlotsOk, TableOk, PhaseOk, Deployed;
    InitialInv();
    InitiallyDeployed(job);
    ZeroWord();
  }

  lemma NoneReleases(p0: seq<Step>, p1: seq<Step>, p2: seq<Step>, p3: seq<Step>)
    requires NoRelease(p0) && NoRelease(p1) && NoRelease(p2) && NoRelease(p3)
    ensures NoRelease(p0 + p1 + p2 + p3 + [Dispatch])
  {
  }

  lemma DispatchLast(t: Controller.State, job: Job)
    requires Between(t, job, 4)
    ensures WellFormed(t) && Possible(t, [Dispatch]) && WordsOf([Dispatch]) == []
    ensures var u := Run(t, [Dispatch]); u.phase.Ready? && u.pending == {}
  {
    hide SlotsOk, TableOk, PhaseOk, Deliveries, Deployed;
    StepKeeps(t, Dispatch);
    Cons(t, Dispatch, []);
    assert [Dispatch] + [] == [Dispatch];
  }

  lemma EncodeFour(job: Job)
    ensures Encode(Program(job)) == Words(CommandAt(job, 0)) + Words(CommandAt(job, 1)) + Words(CommandAt(job, 2))
      + Words(CommandAt(job, 3))
  {
    hide Words, CommandAt;
    var cs := Program(job);
    assert Encode(cs[4..]) == [];
    assert Encode(cs[3..]) == Words(cs[3]) + Encode(cs[3..][1..]) && cs[3..][1..] == cs[4..];
    assert Encode(cs[2..]) == Words(cs[2]) + Encode(cs[2..][1..]) && cs[2..][1..] == cs[3..];
    assert Encode(cs[1..]) == Words(cs[1]) + Encode(cs[1..][1..]) && cs[1..][1..] == cs[2..];
    assert Encode(cs) == Words(cs[0]) + Encode(cs[1..]);
  }
}
