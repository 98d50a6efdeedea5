/** The data path of the array: two loaders, one arithmetic unit and one storer
    joined by crossbar links and the data memory. Any unit may take the next
    step; the theorems hold for every schedule. */
module Dataflow {
  import opened Common
  import opened ArrayTypes
  import Loader
  import ArithPe
  import Storer

  /** A configured computation. memory is the data memory before it starts. */
  datatype Config = Config(
    length: nat,
    addrA: nat, incA: nat, addrB: nat, incB: nat, addrS: nat, incS: nat,
    op: (Word, Word) -> Word, memory: nat -> Word)

  /** A crossbar path: nothing on it; a transaction inside the distributor and
      combiner; delivered to the receiver's queue; answered. */
  datatype Link = Idle | Moving(p: Payload) | Delivered | Answered

  /** The storer's memory port. */
  datatype Port = PortIdle | Pending(store: Store) | Done

  /** hopA, hopB and hopS record what has been put on each link, log what the
      memory has been told to store. */
  datatype State = State(
    a: Loader.State, b: Loader.State, pe: ArithPe.State, st: Storer.State,
    linkA: Link, linkB: Link, linkS: Link, port: Port,
    hopA: seq<Payload>, hopB: seq<Payload>, hopS: seq<Payload>, log: seq<Store>)

  datatype Side = A | B

  datatype Action =
    | Fetch(side: Side) | MemoryRead(side: Side) | LoaderSend(side: Side)
    | Deliver(side: Side) | LoaderDone(side: Side)
    | PeAccept | PeSend | DeliverResult | PeDone
    | StorerAccept | StorerSend | MemoryWrite | StorerDone

  // ---------------------------------------------------------------------
  // Steps
  // ---------------------------------------------------------------------

  /** The word at an address: the last one stored there, or the initial one. */
  function Lookup(memory: nat -> Word, log: seq<Store>, addr: nat): Word
  {
    if log == [] then memory(addr)
    else if log[|log| - 1].addr == addr then log[|log| - 1].data
    else Lookup(memory, log[..|log| - 1], addr)
  }

  function LoaderOf(s: State, side: Side): Loader.State { if side == A then s.a else s.b }

  function LinkOf(s: State, side: Side): Link { if side == A then s.linkA else s.linkB }

  function HopOf(s: State, side: Side): seq<Payload> { if side == A then s.hopA else s.hopB }

  function WithLoader(s: State, side: Side, l: Loader.State, link: Link, hop: seq<Payload>): State {
    if side == A then s.(a := l, linkA := link, hopA := hop) else s.(b := l, linkB := link, hopB := hop)
  }

  predicate Enabled(s: State, act: Action) {
    match act
    case Fetch(side) => Loader.CanRead(LoaderOf(s, side))
    case MemoryRead(side) => LoaderOf(s, side).fetches != []
    case LoaderSend(side) => Loader.CanSend(LoaderOf(s, side))
    case Deliver(side) => LinkOf(s, side).Moving?
    case LoaderDone(side) => LoaderOf(s, side).sending && LinkOf(s, side).Answered?
    case PeAccept => ArithPe.CanAccept(s.pe)
    case PeSend => ArithPe.CanSend(s.pe)
    case DeliverResult => s.linkS.Moving?
    case PeDone => s.pe.sending && s.linkS.Answered?
    case StorerAccept => Storer.CanAccept(s.st)
    case StorerSend => Storer.CanSend(s.st)
    case MemoryWrite => s.port.Pending?
    case StorerDone => s.st.sending && s.port.Done?
  }

  function Step(c: Config, s: State, act: Action): State
    requires Enabled(s, act)
  {
    match act
    case Fetch(side) =>
      WithLoader(s, side, Loader.Read(LoaderOf(s, side)), LinkOf(s, side), HopOf(s, side))
    case MemoryRead(side) =>
      var l := LoaderOf(s, side);
      WithLoader(s, side, Loader.Returned(l, Lookup(c.memory, s.log, l.fetches[0])), LinkOf(s, side), HopOf(s, side))
    case LoaderSend(side) =>
      var l := LoaderOf(s, side);
      var p := Loader.Outgoing(l);
      WithLoader(s, side, Loader.Sent(l), Moving(p), HopOf(s, side) + [p])
    case Deliver(side) =>
      var p := LinkOf(s, side).p;
      WithLoader(s, side, LoaderOf(s, side), Delivered, HopOf(s, side))
      .(pe := if side == A then ArithPe.ArrivedA(s.pe, p) else ArithPe.ArrivedB(s.pe, p))
    case LoaderDone(side) =>
      WithLoader(s, side, Loader.Completed(LoaderOf(s, side)), Idle, HopOf(s, side))
    case PeAccept =>
      s.(pe := ArithPe.Accepted(s.pe, c.op), linkA := Answered, linkB := Answered)
    case PeSend =>
      s.(pe := ArithPe.Sent(s.pe), linkS := Moving(s.pe.out[0]), hopS := s.hopS + [s.pe.out[0]])
    case DeliverResult =>
      s.(st := Storer.Arrived(s.st, s.linkS.p), linkS := Delivered)
    case PeDone =>
      s.(pe := ArithPe.Completed(s.pe), linkS := Idle)
    case StorerAccept =>
      s.(st := Storer.Accepted(s.st), linkS := Answered)
    case StorerSend =>
      s.(st := Storer.Sent(s.st), port := Pending(s.st.buffer[0]))
    case MemoryWrite =>
      s.(log := s.log + [s.port.store], port := Done)
    case StorerDone =>
      s.(st := Storer.Completed(s.st), port := PortIdle)
  }

  /** All four units have received their contexts and all_config. */
  function Start(c: Config): State {
    var l := Loader.Reset();
    State(
      Loader.Started(Loader.Written(l, 0, Loader.Context(0, false, c.length, c.incA, c.addrA))),
      Loader.Started(Loader.Written(l, 1, Loader.Context(1, false, c.length, c.incB, c.addrB))),
      ArithPe.Started(ArithPe.Written(ArithPe.Reset(), 4, 4)),
      Storer.Started(Storer.Written(Storer.Reset(), 12, 12, c.incS, c.addrS)),
      Idle, Idle, Idle, PortIdle, [], [], [], [])
  }

  /** The state after a schedule, or nothing where the schedule takes a step
      that is not enabled. */
  function Run(c: Config, schedule: seq<Action>): Option<State>
  {
    if schedule == [] then Some(Start(c))
    else
      var n := |schedule| - 1;
      var before := Run(c, schedule[..n]);
      if before.Some? && Enabled(before.value, schedule[n])
      then Some(Step(c, before.value, schedule[n]))
      else None
  }

  // ---------------------------------------------------------------------
  // What the computation is meant to do
  // ---------------------------------------------------------------------

  /** The k-th operand the source promises for each loader. */
  function Operand(c: Config, side: Side, k: nat): Word {
    if side == A then c.memory(StreamAddr(c.addrA, c.incA, k))
    else c.memory(StreamAddr(c.addrB, c.incB, k))
  }

  function LoadAddr(c: Config, side: Side, k: nat): nat {
    if side == A then StreamAddr(c.addrA, c.incA, k) else StreamAddr(c.addrB, c.incB, k)
  }

  function OperandPayload(c: Config, side: Side, k: nat): Payload {
    Payload(Operand(c, side, k), k + 1 == c.length)
  }

  function Result(c: Config, k: nat): Word { c.op(Operand(c, A, k), Operand(c, B, k)) }

  function ResultPayload(c: Config, k: nat): Payload {
    Payload(Result(c, k), k + 1 == c.length)
  }

  function Final(c: Config, k: nat): Store {
    Store(StreamAddr(c.addrS, c.incS, k), Result(c, k))
  }

  /** No word the storer writes overlaps a word a loader reads. */
  ghost predicate Disjoint(c: Config) {
    forall i, j, side ::
      0 <= i < c.length && 0 <= j < c.length ==>
        Far(StreamAddr(c.addrS, c.incS, i), LoadAddr(c, side, j))
  }

  predicate Far(x: nat, y: nat) { x + 4 <= y || y + 4 <= x }

  ghost predicate Configured(c: Config) { c.length >= 1 && Disjoint(c) }

  // ---------------------------------------------------------------------
  // The invariant, one part a unit. The parts count from the memory backwards:
  // each speaks of its unit, the links beside it and the number of words the
  // next unit has taken.
  // ---------------------------------------------------------------------

  function OnTheWay(link: Link): nat { if link.Moving? || link.Delivered? then 1 else 0 }

  ghost predicate LogOk(c: Config, log: seq<Store>) {
    forall i :: 0 <= i < |log| ==> log[i] == Final(c, i)
  }

  function StorerSentCount(port: Port, stored: nat): nat { stored + if port.Pending? then 1 else 0 }

  function StorerTakenCount(st: Storer.State, port: Port, stored: nat): nat {
    StorerSentCount(port, stored) + |st.buffer|
  }

  ghost predicate StorerOk(c: Config, st: Storer.State, port: Port, delivered: bool, stored: nat) {
    var sent := StorerSentCount(port, stored);
    var taken := StorerTakenCount(st, port, stored);
    && st.sound && st.addr == c.addrS && st.addrInc == c.incS
    && taken <= c.length
    && st.advance == |st.buffer| <= Storer.POOL_SIZE
    && (forall i :: 0 <= i < |st.buffer| ==> st.buffer[i] == Final(c, sent + i))
    && (port.Pending? ==> port.store == Final(c, stored))
    && st.result == (if delivered then [ResultPayload(c, taken)] else [])
    && (delivered ==> taken < c.length)
    && (st.iniDone <==> taken < c.length)
    && (st.sending <==> !port.PortIdle?)
    && st.pool + |st.buffer| + (if st.sending then 1 else 0) == Storer.POOL_SIZE + 1
    && st.releases == (if sent == c.length && !st.sending then 1 else 0)
    && st.addrCounter == (if st.releases == 1 then 0 else taken)
  }

  function PeTakenCount(pe: ArithPe.State, linkS: Link, stored: nat): nat {
    stored + OnTheWay(linkS) + |pe.out|
  }

  ghost predicate PeOk(c: Config, pe: ArithPe.State, linkS: Link, hop: seq<Payload>,
                       deliveredA: bool, deliveredB: bool, stTaken: nat) {
    var sent := stTaken + OnTheWay(linkS);
    var taken := PeTakenCount(pe, linkS, stTaken);
    && pe.sound
    && taken <= c.length
    && pe.advance == |pe.out| <= ArithPe.POOL_SIZE
    && (forall i :: 0 <= i < |pe.out| ==> pe.out[i] == ResultPayload(c, sent + i))
    && (linkS.Moving? ==> linkS.p == ResultPayload(c, stTaken))
    && pe.srcA == (if deliveredA then [OperandPayload(c, A, taken)] else [])
    && pe.srcB == (if deliveredB then [OperandPayload(c, B, taken)] else [])
    && (deliveredA || deliveredB ==> taken < c.length)
    && (pe.iniDone <==> taken < c.length)
    && (pe.sending <==> !linkS.Idle?)
    && pe.pool + |pe.out| + (if pe.sending then 1 else 0) == ArithPe.POOL_SIZE + 1
    && pe.releases == (if sent == c.length && !pe.sending then 1 else 0)
    && |hop| == sent
    && (forall i :: 0 <= i < |hop| ==> hop[i] == ResultPayload(c, i))
  }

  function ReceivedCount(l: Loader.State, link: Link, peTaken: nat): nat {
    peTaken + OnTheWay(link) + |l.issue|
  }

  ghost predicate LoaderOk(c: Config, side: Side, l: Loader.State, link: Link, hop: seq<Payload>, peTaken: nat) {
    var sent := peTaken + OnTheWay(link);
    var received := ReceivedCount(l, link, peTaken);
    && l.sound && l.batchLen == c.length
    && l.addr == (if side == A then c.addrA else c.addrB)
    && l.addrInc == (if side == A then c.incA else c.incB)
    && l.dataCnt == received + |l.fetches| <= c.length
    && l.advance == |l.fetches| + |l.issue| <= Loader.POOL_SIZE
    && (forall i :: 0 <= i < |l.issue| ==> l.issue[i] == Operand(c, side, sent + i))
    && (forall i :: 0 <= i < |l.fetches| ==> l.fetches[i] == LoadAddr(c, side, received + i))
    && (link.Moving? ==> link.p == OperandPayload(c, side, peTaken))
    && (l.iniDone <==> l.dataCnt < c.length)
    && l.addrCounter == (if l.dataCnt == c.length then 0 else l.dataCnt)
    && (l.sending <==> !link.Idle?)
    && l.pool + l.advance + (if l.sending then 1 else 0) == Loader.POOL_SIZE + 1
    && l.releases == (if sent == c.length && !l.sending then 1 else 0)
    && |hop| == sent
    && (forall i :: 0 <= i < |hop| ==> hop[i] == OperandPayload(c, side, i))
  }

  function StorerTaken(s: State): nat { StorerTakenCount(s.st, s.port, |s.log|) }

  function PeTaken(s: State): nat { PeTakenCount(s.pe, s.linkS, StorerTaken(s)) }

  ghost predicate LoaderInv(c: Config, s: State, side: Side) {
    LoaderOk(c, side, LoaderOf(s, side), LinkOf(s, side), HopOf(s, side), PeTaken(s))
  }

  ghost predicate Inv(c: Config, s: State) {
    && LogOk(c, s.log)
    && StorerOk(c, s.st, s.port, s.linkS.Delivered?, |s.log|)
    && PeOk(c, s.pe, s.linkS, s.hopS, s.linkA.Delivered?, s.linkB.Delivered?, StorerTaken(s))
    && LoaderInv(c, s, A) && LoaderInv(c, s, B)
  }

  lemma StartInv(c: Config)
    requires Configured(c)
    ensures Inv(c, Start(c))
  {
  }

  // ---------------------------------------------------------------------
  // Steps of the loader
  // ---------------------------------------------------------------------

  lemma LoaderFetchOk(c: Config, side: Side, l: Loader.State, link: Link, hop: seq<Payload>, n: nat)
    requires LoaderOk(c, side, l, link, hop, n) && Loader.CanRead(l)
    ensures LoaderOk(c, side, Loader.Read(l), link, hop, n)
  {
    hide StreamAddr;
  }

  lemma LoaderReturnedOk(c: Config, side: Side, l: Loader.State, link: Link, hop: seq<Payload>, n: nat)
    requires LoaderOk(c, side, l, link, hop, n) && l.fetches != []
    ensures l.fetches[0] == LoadAddr(c, side, ReceivedCount(l, link, n)) && ReceivedCount(l, link, n) < c.length
    ensures LoaderOk(c, side, Loader.Returned(l, Operand(c, side, ReceivedCount(l, link, n))), link, hop, n)
  {
  }

  lemma LoaderSendOk(c: Config, side: Side, l: Loader.State, link: Link, hop: seq<Payload>, n: nat)
    requires LoaderOk(c, side, l, link, hop, n) && Loader.CanSend(l)
    ensures link.Idle?
    ensures LoaderOk(c, side, Loader.Sent(l), Moving(Loader.Outgoing(l)), hop + [Loader.Outgoing(l)], n)
  {
    hide StreamAddr;
    assert Loader.Outgoing(l) == OperandPayload(c, side, n);
  }

  lemma LoaderDeliverOk(c: Config, side: Side, l: Loader.State, link: Link, hop: seq<Payload>, n: nat)
    requires LoaderOk(c, side, l, link, hop, n) && link.Moving?
    ensures LoaderOk(c, side, l, Delivered, hop, n)
    ensures n < c.length && link.p == OperandPayload(c, side, n)
  {
  }

  lemma LoaderAnsweredOk(c: Config, side: Side, l: Loader.State, link: Link, hop: seq<Payload>, n: nat)
    requires LoaderOk(c, side, l, link, hop, n) && link.Delivered?
    ensures LoaderOk(c, side, l, Answered, hop, n + 1)
  {
  }

  lemma LoaderDoneOk(c: Config, side: Side, l: Loader.State, link: Link, hop: seq<Payload>, n: nat)
    requires LoaderOk(c, side, l, link, hop, n) && l.sending && link.Answered?
    ensures LoaderOk(c, side, Loader.Completed(l), Idle, hop, n)
  {
  }

  // ---------------------------------------------------------------------
  // Steps of the arithmetic unit
  // ---------------------------------------------------------------------

  lemma PeArrivedOk(c: Config, side: Side, pe: ArithPe.State, linkS: Link, hop: seq<Payload>, dA: bool, dB: bool,
    n: nat)
    requires PeOk(c, pe, linkS, hop, dA, dB, n) && PeTakenCount(pe, linkS, n) < c.length
    ensures !dA ==> PeOk(c, ArithPe.ArrivedA(pe, OperandPayload(c, A, PeTakenCount(pe, linkS, n))), linkS, hop, true,
      dB, n)
    ensures !dB ==> PeOk(c, ArithPe.ArrivedB(pe, OperandPayload(c, B, PeTakenCount(pe, linkS, n))), linkS, hop, dA,
      true, n)
  {
  }

  lemma PeAcceptOk(c: Config, pe: ArithPe.State, linkS: Link, hop: seq<Payload>, dA: bool, dB: bool, n: nat)
    requires PeOk(c, pe, linkS, hop, dA, dB, n) && ArithPe.CanAccept(pe)
    ensures dA && dB
    ensures PeOk(c, ArithPe.Accepted(pe, c.op), linkS, hop, false, false, n)
    ensures PeTakenCount(ArithPe.Accepted(pe, c.op), linkS, n) == PeTakenCount(pe, linkS, n) + 1
  {
    hide StreamAddr, Operand;
  }

  lemma PeSendOk(c: Config, pe: ArithPe.State, linkS: Link, hop: seq<Payload>, dA: bool, dB: bool, n: nat)
    requires PeOk(c, pe, linkS, hop, dA, dB, n) && ArithPe.CanSend(pe)
    ensures PeOk(c, ArithPe.Sent(pe), Moving(pe.out[0]), hop + [pe.out[0]], dA, dB, n)
    ensures PeTakenCount(ArithPe.Sent(pe), Moving(pe.out[0]), n) == PeTakenCount(pe, linkS, n)
  {
    hide StreamAddr, ResultPayload, OperandPayload;
  }

  lemma PeDeliverOk(c: Config, pe: ArithPe.State, linkS: Link, hop: seq<Payload>, dA: bool, dB: bool, n: nat)
    requires PeOk(c, pe, linkS, hop, dA, dB, n) && linkS.Moving?
    ensures PeOk(c, pe, Delivered, hop, dA, dB, n)
    ensures n < c.length && linkS.p == ResultPayload(c, n)
  {
    hide StreamAddr;
  }

  lemma PeAnsweredOk(c: Config, pe: ArithPe.State, linkS: Link, hop: seq<Payload>, dA: bool, dB: bool, n: nat)
    requires PeOk(c, pe, linkS, hop, dA, dB, n) && linkS.Delivered?
    ensures PeOk(c, pe, Answered, hop, dA, dB, n + 1)
  {
    hide StreamAddr;
  }

  lemma PeDoneOk(c: Config, pe: ArithPe.State, linkS: Link, hop: seq<Payload>, dA: bool, dB: bool, n: nat)
    requires PeOk(c, pe, linkS, hop, dA, dB, n) && pe.sending && linkS.Answered?
    ensures PeOk(c, ArithPe.Completed(pe), Idle, hop, dA, dB, n)
  {
    hide StreamAddr;
  }

  // ---------------------------------------------------------------------
  // Steps of the storer
  // ---------------------------------------------------------------------

  lemma StorerArrivedOk(c: Config, st: Storer.State, port: Port, n: nat)
    requires StorerOk(c, st, port, false, n) && StorerTakenCount(st, port, n) < c.length
    ensures StorerOk(c, Storer.Arrived(st, ResultPayload(c, StorerTakenCount(st, port, n))), port, true, n)
  {
  }

  lemma StorerAcceptOk(c: Config, st: Storer.State, port: Port, delivered: bool, n: nat)
    requires StorerOk(c, st, port, delivered, n) && Storer.CanAccept(st)
    ensures delivered && StorerOk(c, Storer.Accepted(st), port, false, n)
    ensures StorerTakenCount(Storer.Accepted(st), port, n) == StorerTakenCount(st, port, n) + 1
  {
    hide StreamAddr;
  }

  lemma StorerSendOk(c: Config, st: Storer.State, port: Port, delivered: bool, n: nat)
    requires StorerOk(c, st, port, delivered, n) && Storer.CanSend(st)
    ensures StorerOk(c, Storer.Sent(st), Pending(st.buffer[0]), delivered, n)
    ensures StorerTakenCount(Storer.Sent(st), Pending(st.buffer[0]), n) == StorerTakenCount(st, port, n)
  {
    hide StreamAddr, Result;
  }

  lemma StorerWriteOk(c: Config, st: Storer.State, port: Port, delivered: bool, n: nat)
    requires StorerOk(c, st, port, delivered, n) && port.Pending?
    ensures port.store == Final(c, n) && StorerOk(c, st, Done, delivered, n + 1)
  {
    hide StreamAddr, Result;
  }

  lemma StorerDoneOk(c: Config, st: Storer.State, port: Port, delivered: bool, n: nat)
    requires StorerOk(c, st, port, delivered, n) && st.sending && port.Done?
    ensures StorerOk(c, Storer.Completed(st), PortIdle, delivered, n)
  {
  }

  // ---------------------------------------------------------------------
  // Every step keeps the invariant
  // ---------------------------------------------------------------------

  /** What has been stored so far does not touch what is still to be loaded. */
  lemma {:induction false} LoadsSeeInitialMemory(c: Config, log: seq<Store>, side: Side, j: nat)
    requires Configured(c) && |log| <= c.length && j < c.length && LogOk(c, log)
    ensures Lookup(c.memory, log, LoadAddr(c, side, j)) == c.memory(LoadAddr(c, side, j))
  {
    if log != [] {
      var n := |log| - 1;
      assert Far(StreamAddr(c.addrS, c.incS, n), LoadAddr(c, side, j));
      LoadsSeeInitialMemory(c, log[..n], side, j);
    }
  }

  lemma LogIsBounded(c: Config, st: Storer.State, port: Port, delivered: bool, n: nat)
    requires StorerOk(c, st, port, delivered, n)
    ensures n <= c.length
  {
  }

  lemma LoaderStepKeeps(c: Config, s: State, act: Action)
    requires Configured(c) && Inv(c, s) && Enabled(s, act)
    requires act.Fetch? || act.MemoryRead? || act.LoaderSend? || act.LoaderDone?
    ensures Inv(c, Step(c, s, act))
  {
    hide StreamAddr, LoaderOk, PeOk, StorerOk, LogOk, Disjoint, Lookup;
    hide Loader.Read, Loader.Returned, Loader.Sent, Loader.Completed, Loader.Outgoing;
    LogIsBounded(c, s.st, s.port, s.linkS.Delivered?, |s.log|);
    var side := act.side;
    var l, link, hop := LoaderOf(s, side), LinkOf(s, side), HopOf(s, side);
    match act
    case Fetch(_) => LoaderFetchOk(c, side, l, link, hop, PeTaken(s));
    case MemoryRead(_) =>
      LoaderReturnedOk(c, side, l, link, hop, PeTaken(s));
      LoadsSeeInitialMemory(c, s.log, side, ReceivedCount(l, link, PeTaken(s)));
    case LoaderSend(_) => LoaderSendOk(c, side, l, link, hop, PeTaken(s));
    case LoaderDone(_) => LoaderDoneOk(c, side, l, link, hop, PeTaken(s));
  }

  lemma DeliverKeeps(c: Config, s: State, side: Side)
    requires Configured(c) && Inv(c, s) && Enabled(s, Deliver(side))
    ensures Inv(c, Step(c, s, Deliver(side)))
  {
    hide StreamAddr, LoaderOk, PeOk, StorerOk, LogOk, Disjoint, OperandPayload;
    LoaderDeliverOk(c, side, LoaderOf(s, side), LinkOf(s, side), HopOf(s, side), PeTaken(s));
    PeArrivedOk(c, side, s.pe, s.linkS, s.hopS, s.linkA.Delivered?, s.linkB.Delivered?, StorerTaken(s));
  }

  lemma PeAcceptKeeps(c: Config, s: State)
    requires Configured(c) && Inv(c, s) && Enabled(s, PeAccept)
    ensures Inv(c, Step(c, s, PeAccept))
  {
    hide StreamAddr, LoaderOk, PeOk, StorerOk, LogOk, Disjoint, ArithPe.Accepted;
    PeAcceptOk(c, s.pe, s.linkS, s.hopS, s.linkA.Delivered?, s.linkB.Delivered?, StorerTaken(s));
    LoaderAnsweredOk(c, A, s.a, s.linkA, s.hopA, PeTaken(s));
    LoaderAnsweredOk(c, B, s.b, s.linkB, s.hopB, PeTaken(s));
  }

  lemma PeSendKeeps(c: Config, s: State)
    requires Configured(c) && Inv(c, s) && Enabled(s, PeSend)
    ensures Inv(c, Step(c, s, PeSend))
  {
    hide StreamAddr, LoaderOk, PeOk, StorerOk, LogOk, Disjoint;
    PeSendOk(c, s.pe, s.linkS, s.hopS, s.linkA.Delivered?, s.linkB.Delivered?, StorerTaken(s));
  }

  lemma DeliverResultKeeps(c: Config, s: State)
    requires Configured(c) && Inv(c, s) && Enabled(s, DeliverResult)
    ensures Inv(c, Step(c, s, DeliverResult))
  {
    hide StreamAddr, LoaderOk, PeOk, StorerOk, LogOk, Disjoint, ResultPayload;
    PeDeliverOk(c, s.pe, s.linkS, s.hopS, s.linkA.Delivered?, s.linkB.Delivered?, StorerTaken(s));
    StorerArrivedOk(c, s.st, s.port, |s.log|);
  }

  lemma PeDoneKeeps(c: Config, s: State)
    requires Configured(c) && Inv(c, s) && Enabled(s, PeDone)
    ensures Inv(c, Step(c, s, PeDone))
  {
    hide StreamAddr, LoaderOk, PeOk, StorerOk, LogOk, Disjoint;
    PeDoneOk(c, s.pe, s.linkS, s.hopS, s.linkA.Delivered?, s.linkB.Delivered?, StorerTaken(s));
  }

  lemma StorerAcceptKeeps(c: Config, s: State)
    requires Configured(c) && Inv(c, s) && Enabled(s, StorerAccept)
    ensures Inv(c, Step(c, s, StorerAccept))
  {
    hide StreamAddr, LoaderOk, PeOk, StorerOk, LogOk, Disjoint, Storer.Accepted;
    StorerAcceptOk(c, s.st, s.port, s.linkS.Delivered?, |s.log|);
    PeAnsweredOk(c, s.pe, s.linkS, s.hopS, s.linkA.Delivered?, s.linkB.Delivered?, StorerTaken(s));
  }

  lemma StorerSendKeeps(c: Config, s: State)
    requires Configured(c) && Inv(c, s) && Enabled(s, StorerSend)
    ensures Inv(c, Step(c, s, StorerSend))
  {
    hide StreamAddr, LoaderOk, PeOk, StorerOk, LogOk, Disjoint;
    StorerSendOk(c, s.st, s.port, s.linkS.Delivered?, |s.log|);
  }

  lemma MemoryWriteKeeps(c: Config, s: State)
    requires Configured(c) && Inv(c, s) && Enabled(s, MemoryWrite)
    ensures Inv(c, Step(c, s, MemoryWrite))
  {
    hide StreamAddr, LoaderOk, PeOk, StorerOk, Disjoint, Final;
    StorerWriteOk(c, s.st, s.port, s.linkS.Delivered?, |s.log|);
  }

  lemma StorerDoneKeeps(c: Config, s: State)
    requires Configured(c) && Inv(c, s) && Enabled(s, StorerDone)
    ensures Inv(c, Step(c, s, StorerDone))
  {
    hide StreamAddr, LoaderOk, PeOk, StorerOk, LogOk, Disjoint;
    StorerDoneOk(c, s.st, s.port, s.linkS.Delivered?, |s.log|);
  }

  lemma StepKeeps(c: Config, s: State, act: Action)
    requires Configured(c) && Inv(c, s) && Enabled(s, act)
    ensures Inv(c, Step(c, s, act))
  {
    hide Inv;
    hide Step;
    match act
    case Fetch(_) => LoaderStepKeeps(c, s, act);
    case MemoryRead(_) => LoaderStepKeeps(c, s, act);
    case LoaderSend(_) => LoaderStepKeeps(c, s, act);
    case LoaderDone(_) => LoaderStepKeeps(c, s, act);
    case Deliver(side) => DeliverKeeps(c, s, side);
    case PeAccept => PeAcceptKeeps(c, s);
    case PeSend => PeSendKeeps(c, s);
    case DeliverResult => DeliverResultKeeps(c, s);
    case PeDone => PeDoneKeeps(c, s);
    case StorerAccept => StorerAcceptKeeps(c, s);
    case StorerSend => StorerSendKeeps(c, s);
    case MemoryWrite => MemoryWriteKeeps(c, s);
    case StorerDone => StorerDoneKeeps(c, s);
  }

  // ---------------------------------------------------------------------
  // Every schedule comes to its end, and at the same state
  // ---------------------------------------------------------------------

  function One(b: bool): nat { if b then 1 else 0 }

  /** The number of steps taken for one operand stream. */
  function LoaderWork(s: State, side: Side): int {
    var l, link := LoaderOf(s, side), LinkOf(s, side);
    var sent := PeTaken(s) + OnTheWay(link);
    l.dataCnt + (sent + |l.issue|) + sent + (sent - One(link.Moving?)) + (sent - One(l.sending))
  }

  /** The number of steps taken altogether: eighteen for every word. */
  function Work(s: State): int {
    var peSent := StorerTaken(s) + OnTheWay(s.linkS);
    var stSent := StorerSentCount(s.port, |s.log|);
    LoaderWork(s, A) + LoaderWork(s, B)
    + PeTaken(s) + peSent + (peSent - One(s.linkS.Moving?)) + (peSent - One(s.pe.sending))
    + StorerTaken(s) + stSent + |s.log| + (stSent - One(s.st.sending))
  }

  const STEPS_PER_WORD: nat := 18

  /** How the sending flags and input queues mirror the links. */
  ghost predicate Linked(s: State) {
    && (s.a.sending <==> !s.linkA.Idle?) && (s.b.sending <==> !s.linkB.Idle?)
    && (s.pe.sending <==> !s.linkS.Idle?) && (s.st.sending <==> !s.port.PortIdle?)
    && (s.pe.srcA != [] <==> s.linkA.Delivered?) && (s.pe.srcB != [] <==> s.linkB.Delivered?)
    && (s.st.result != [] <==> s.linkS.Delivered?)
  }

  lemma InvLinked(c: Config, s: State)
    requires Inv(c, s)
    ensures Linked(s)
  {
    hide StreamAddr;
  }

  predicate IsLoaderAction(act: Action) {
    act.Fetch? || act.MemoryRead? || act.LoaderSend? || act.Deliver? || act.LoaderDone?
  }

  lemma LoaderStepWorks(c: Config, s: State, act: Action)
    requires Linked(s) && Enabled(s, act) && IsLoaderAction(act)
    ensures Work(Step(c, s, act)) == Work(s) + 1
  {
    hide StreamAddr;
    hide Lookup;
    var t := Step(c, s, act);
    assert StorerTaken(t) == StorerTaken(s) && PeTaken(t) == PeTaken(s);
    match act.side
    case A =>
      assert LoaderWork(t, B) == LoaderWork(s, B);
      assert LoaderWork(t, A) == LoaderWork(s, A) + 1;
    case B =>
      assert LoaderWork(t, A) == LoaderWork(s, A);
      assert LoaderWork(t, B) == LoaderWork(s, B) + 1;
  }

  lemma PeStepWorks(c: Config, s: State, act: Action)
    requires Linked(s) && Enabled(s, act)
    requires act.PeAccept? || act.PeSend? || act.DeliverResult? || act.PeDone?
    ensures Work(Step(c, s, act)) == Work(s) + 1
  {
    hide StreamAddr;
    hide Lookup;
    var t := Step(c, s, act);
    assert StorerTaken(t) == StorerTaken(s);
    assert PeTaken(t) == PeTaken(s) + One(act.PeAccept?);
    assert LoaderWork(t, A) == LoaderWork(s, A) && LoaderWork(t, B) == LoaderWork(s, B);
  }

  lemma StorerStepWorks(c: Config, s: State, act: Action)
    requires Linked(s) && Enabled(s, act)
    requires act.StorerAccept? || act.StorerSend? || act.MemoryWrite? || act.StorerDone?
    ensures Work(Step(c, s, act)) == Work(s) + 1
  {
    hide StreamAddr;
    hide Lookup;
    var t := Step(c, s, act);
    assert StorerTaken(t) == StorerTaken(s) + One(act.StorerAccept?);
    assert PeTaken(t) == PeTaken(s);
    assert LoaderWork(t, A) == LoaderWork(s, A) && LoaderWork(t, B) == LoaderWork(s, B);
  }

  lemma StepWorks(c: Config, s: State, act: Action)
    requires Inv(c, s) && Enabled(s, act)
    ensures Work(Step(c, s, act)) == Work(s) + 1
  {
    hide Work;
    hide Step;
    InvLinked(c, s);
    if IsLoaderAction(act) {
      LoaderStepWorks(c, s, act);
    } else if act.PeAccept? || act.PeSend? || act.DeliverResult? || act.PeDone? {
      PeStepWorks(c, s, act);
    } else {
      StorerStepWorks(c, s, act);
    }
  }

  lemma WorkIsBounded(c: Config, s: State)
    requires Configured(c) && Inv(c, s)
    ensures Work(s) <= STEPS_PER_WORD * c.length
  {
    hide StreamAddr;
  }

  /** The computation is complete: everything is stored, all links are free and
      every unit has released itself. */
  ghost predicate Finished(c: Config, s: State) {
    && |s.log| == c.length
    && s.a.releases == s.b.releases == s.pe.releases == s.st.releases == 1
    && s.linkA.Idle? && s.linkB.Idle? && s.linkS.Idle? && s.port.PortIdle?
  }

  lemma LoaderStuck(c: Config, side: Side, l: Loader.State, link: Link, hop: seq<Payload>, n: nat)
    requires c.length >= 1 && LoaderOk(c, side, l, link, hop, n)
    requires !Loader.CanRead(l) && l.fetches == [] && !Loader.CanSend(l) && !link.Moving? && !(l.sending
      && link.Answered?)
    ensures link.Delivered? || (link.Idle? && n == c.length && l.releases == 1)
  {
    hide StreamAddr;
  }

  lemma PeStuck(c: Config, pe: ArithPe.State, linkS: Link, hop: seq<Payload>, dA: bool, dB: bool, n: nat)
    requires PeOk(c, pe, linkS, hop, dA, dB, n)
    requires !ArithPe.CanAccept(pe) && !ArithPe.CanSend(pe) && !linkS.Moving? && !(pe.sending && linkS.Answered?)
    requires (dA || PeTakenCount(pe, linkS, n) == c.length) && (dB || PeTakenCount(pe, linkS, n) == c.length)
    ensures linkS.Delivered? || (linkS.Idle? && n == c.length && !dA && !dB && pe.releases == 1)
  {
    hide StreamAddr, Operand, Result;
  }

  lemma StorerStuck(c: Config, st: Storer.State, port: Port, delivered: bool, n: nat)
    requires StorerOk(c, st, port, delivered, n)
    requires !Storer.CanAccept(st) && !Storer.CanSend(st) && !port.Pending? && !(st.sending && port.Done?)
    requires delivered || StorerTakenCount(st, port, n) == c.length
    ensures !delivered && port.PortIdle? && n == c.length && st.releases == 1
  {
    hide StreamAddr, Result;
  }

  ghost predicate Blocked(s: State) { forall act :: !Enabled(s, act) }

  lemma LoaderBlocked(s: State, side: Side)
    requires Blocked(s)
    ensures var l, link := LoaderOf(s, side), LinkOf(s, side);
      !Loader.CanRead(l) && l.fetches == [] && !Loader.CanSend(l) && !link.Moving? && !(l.sending && link.Answered?)
  {
    hide Loader.CanRead, Loader.CanSend;
    assert !Enabled(s, Fetch(side)) && !Enabled(s, MemoryRead(side)) && !Enabled(s, LoaderSend(side));
    assert !Enabled(s, Deliver(side)) && !Enabled(s, LoaderDone(side));
  }

  lemma PeBlocked(s: State)
    requires Blocked(s)
    ensures !ArithPe.CanAccept(s.pe) && !ArithPe.CanSend(s.pe) && !s.linkS.Moving? && !(s.pe.sending
      && s.linkS.Answered?)
  {
    hide ArithPe.CanAccept, ArithPe.CanSend;
    assert !Enabled(s, PeAccept) && !Enabled(s, PeSend) && !Enabled(s, DeliverResult) && !Enabled(s, PeDone);
  }

  lemma StorerBlocked(s: State)
    requires Blocked(s)
    ensures !Storer.CanAccept(s.st) && !Storer.CanSend(s.st) && !s.port.Pending? && !(s.st.sending && s.port.Done?)
  {
    hide Storer.CanAccept, Storer.CanSend;
    assert !Enabled(s, StorerAccept) && !Enabled(s, StorerSend) && !Enabled(s, MemoryWrite) && !Enabled(s, StorerDone);
  }

  /** The array cannot get stuck: if nothing can step, it has finished. */
  lemma StuckMeansFinished(c: Config, s: State)
    requires Configured(c) && Inv(c, s)
    requires Blocked(s)
    ensures Finished(c, s)
  {
    hide StreamAddr, LoaderOk, PeOk, StorerOk, LogOk, Disjoint, Blocked, Enabled;
    hide Loader.CanRead, Loader.CanSend, ArithPe.CanAccept, ArithPe.CanSend, Storer.CanAccept, Storer.CanSend;
    LoaderBlocked(s, A);
    LoaderBlocked(s, B);
    PeBlocked(s);
    StorerBlocked(s);
    LoaderStuck(c, A, s.a, s.linkA, s.hopA, PeTaken(s));
    LoaderStuck(c, B, s.b, s.linkB, s.hopB, PeTaken(s));
    PeStuck(c, s.pe, s.linkS, s.hopS, s.linkA.Delivered?, s.linkB.Delivered?, StorerTaken(s));
    StorerStuck(c, s.st, s.port, s.linkS.Delivered?, |s.log|);
  }

  lemma FinishedWork(c: Config, s: State)
    requires Configured(c) && Inv(c, s)
    ensures Finished(c, s) <==> Work(s) == STEPS_PER_WORD * c.length
  {
    hide StreamAddr;
  }

  lemma {:induction false} RunKeeps(c: Config, schedule: seq<Action>)
    requires Configured(c) && Run(c, schedule).Some?
    ensures Inv(c, Run(c, schedule).value)
    ensures Work(Run(c, schedule).value) == |schedule|
  {
    if schedule == [] {
      StartInv(c);
    } else {
      var n := |schedule| - 1;
      RunKeeps(c, schedule[..n]);
      StepKeeps(c, Run(c, schedule[..n]).value, schedule[n]);
      StepWorks(c, Run(c, schedule[..n]).value, schedule[n]);
    }
  }

  /** The links, histories and the memory log hold exactly the promised
      transactions so far, and only the final word of each hop is marked last. */
  ghost predicate OnTrack(c: Config, s: State) {
    && |s.log| <= c.length && LogOk(c, s.log)
    && |s.hopA| <= c.length && (forall k :: 0 <= k < |s.hopA| ==> s.hopA[k] == OperandPayload(c, A, k))
    && |s.hopB| <= c.length && (forall k :: 0 <= k < |s.hopB| ==> s.hopB[k] == OperandPayload(c, B, k))
    && |s.hopS| <= c.length && (forall k :: 0 <= k < |s.hopS| ==> s.hopS[k] == ResultPayload(c, k))
    && s.a.releases <= 1 && s.b.releases <= 1 && s.pe.releases <= 1 && s.st.releases <= 1
  }

  ghost predicate Sound(s: State) { s.a.sound && s.b.sound && s.pe.sound && s.st.sound }

  lemma InvOnTrack(c: Config, s: State)
    requires Inv(c, s)
    ensures OnTrack(c, s) && Sound(s)
    ensures Finished(c, s) ==> |s.hopA| == |s.hopB| == |s.hopS| == c.length
  {
    hide StreamAddr;
  }

  lemma FinishedCannotStep(c: Config, s: State, act: Action)
    requires Configured(c) && Inv(c, s) && Finished(c, s)
    ensures !Enabled(s, act)
  {
    if Enabled(s, act) {
      StepKeeps(c, s, act);
      StepWorks(c, s, act);
      FinishedWork(c, s);
      WorkIsBounded(c, Step(c, s, act));
    }
  }

  /** For every schedule: no assertion of the source fails, nothing but the
      promised transactions is ever sent or stored, and the schedule can be
      continued until, after exactly 18 steps a word, all L words are stored in
      order and every unit has released itself once. */
  lemma EverySchedule(c: Config, schedule: seq<Action>)
    requires Configured(c) && Run(c, schedule).Some?
    ensures var s := Run(c, schedule).value;
      && Sound(s) && OnTrack(c, s)
      && |schedule| <= STEPS_PER_WORD * c.length
      && (|schedule| < STEPS_PER_WORD * c.length <==> exists act :: Enabled(s, act))
      && (|schedule| == STEPS_PER_WORD * c.length <==> Finished(c, s))
      && (Finished(c, s) ==> |s.hopA| == |s.hopB| == |s.hopS| == c.length)
  {
    hide Work;
    hide Step;
    hide Finished;
    hide Inv;
    hide OnTrack;
    hide Enabled;
    var s := Run(c, schedule).value;
    RunKeeps(c, schedule);
    InvOnTrack(c, s);
    WorkIsBounded(c, s);
    FinishedWork(c, s);
    if forall act :: !Enabled(s, act) {
      StuckMeansFinished(c, s);
    }
    if Finished(c, s) {
      forall act ensures !Enabled(s, act) { FinishedCannotStep(c, s, act); }
    }
  }

  /** The loader asks for its next word exactly while words are left and fewer than two are
      on their way to it or waiting to be sent. */
  predicate AsksForTwo(c: Config, s: State, side: Side) {
    var n := |LoaderOf(s, side).fetches| + |LoaderOf(s, side).issue|;
    Enabled(s, Fetch(side)) <==> |HopOf(s, side)| + n < c.length && n < 2
  }

  lemma LoaderCredit(c: Config, s: State, side: Side)
    requires LoaderInv(c, s, side)
    ensures AsksForTwo(c, s, side)
  {
    hide StreamAddr;
  }

  lemma PeCredit(c: Config, s: State)
    requires PeOk(c, s.pe, s.linkS, s.hopS, s.linkA.Delivered?, s.linkB.Delivered?, StorerTaken(s))
    ensures Enabled(s, PeAccept) <==> s.pe.srcA != [] && s.pe.srcB != [] && |s.pe.out| < 6
  {
    hide StreamAddr;
  }

  lemma StorerCredit(c: Config, s: State)
    requires StorerOk(c, s.st, s.port, s.linkS.Delivered?, |s.log|)
    ensures Enabled(s, StorerAccept) <==> s.st.result != [] && |s.st.buffer| < 2
  {
    hide StreamAddr;
  }

  /** In every run the loaders do; the arithmetic unit takes its operands while fewer than
      six results wait in it, the storer while fewer than two do. */
  lemma CreditsInWords(c: Config, schedule: seq<Action>)
    requires Configured(c) && Run(c, schedule).Some?
    ensures var s := Run(c, schedule).value;
      && AsksForTwo(c, s, A) && AsksForTwo(c, s, B)
      && (Enabled(s, PeAccept) <==> s.pe.srcA != [] && s.pe.srcB != [] && |s.pe.out| < 6)
      && (Enabled(s, StorerAccept) <==> s.st.result != [] && |s.st.buffer| < 2)
  {
    hide LogOk, StorerOk, PeOk, LoaderInv, Enabled, AsksForTwo, Run, Configured;
    RunKeeps(c, schedule);
    var s := Run(c, schedule).value;
    LoaderCredit(c, s, A);
    LoaderCredit(c, s, B);
    PeCredit(c, s);
    StorerCredit(c, s);
  }

  predicate NoneReady(s: State) { !s.a.ready && !s.b.ready && !s.pe.ready && !s.st.ready }

  lemma StepLeavesReady(c: Config, s: State, act: Action)
    requires Enabled(s, act) && NoneReady(s) && Inv(c, s)
    ensures NoneReady(Step(c, s, act))
  {
    hide StreamAddr, LogOk, StorerOk, PeOk, LoaderInv, Lookup;
  }

  lemma {:induction false} RunLeavesReady(c: Config, schedule: seq<Action>)
    requires Configured(c) && Run(c, schedule).Some?
    ensures NoneReady(Run(c, schedule).value)
  {
    hide Inv, Step, NoneReady, Configured, Start;
    if schedule == [] {
      assert NoneReady(Start(c)) by { StartLeavesReady(c); }
    } else {
      var n := |schedule| - 1;
      RunLeavesReady(c, schedule[..n]);
      RunKeeps(c, schedule[..n]);
      StepLeavesReady(c, Run(c, schedule[..n]).value, schedule[n]);
    }
  }

  lemma StartLeavesReady(c: Config)
    ensures NoneReady(Start(c))
  {
  }

  /** The start signal is given after every store context and reaches all units: in no run
      does a further one, or a context for another unit, disturb a unit at work. */
  lemma FurtherStartsAreHarmless(c: Config, schedule: seq<Action>, other: Loader.Context)
    requires Configured(c) && Run(c, schedule).Some?
    ensures var s := Run(c, schedule).value;
      && Loader.Started(s.a) == s.a && Loader.Started(s.b) == s.b
      && ArithPe.Started(s.pe) == s.pe && Storer.Started(s.st) == s.st
      && (other.phid != 0 ==> Loader.Written(s.a, 0, other) == s.a)
      && (other.phid != 1 ==> Loader.Written(s.b, 1, other) == s.b)
      && (other.phid != 4 ==> ArithPe.Written(s.pe, 4, other.phid) == s.pe)
      && (other.phid != 12 ==> Storer.Written(s.st, 12, other.phid, other.addrInc, other.addr) == s.st)
  {
    hide Run, Configured;
    RunLeavesReady(c, schedule);
  }

  ghost predicate CanBeFinished(c: Config, schedule: seq<Action>) {
    exists rest :: Run(c, schedule + rest).Some? && Finished(c, Run(c, schedule + rest).value)
  }

  /** A schedule goes on until all the work is done. */
  lemma {:induction false} CanAlwaysFinish(c: Config, schedule: seq<Action>)
    requires Configured(c) && Run(c, schedule).Some?
    ensures CanBeFinished(c, schedule)
    decreases STEPS_PER_WORD * c.length - |schedule|
  {
    hide Step, Finished, Disjoint, OnTrack, Sound;
    EverySchedule(c, schedule);
    if |schedule| < STEPS_PER_WORD * c.length {
      var act :| Enabled(Run(c, schedule).value, act);
      assert (schedule + [act])[..|schedule|] == schedule;
      CanAlwaysFinish(c, schedule + [act]);
      var rest :| Run(c, schedule + [act] + rest).Some? && Finished(c, Run(c, schedule + [act] + rest).value);
      assert schedule + ([act] + rest) == schedule + [act] + rest;
    } else {
      assert schedule + [] == schedule;
    }
  }

  /** An empty batch asks nothing of anyone, so no unit ever steps. */
  lemma {:induction false} EmptyBatchNeverSteps(c: Config, schedule: seq<Action>)
    requires c.length == 0
    ensures Run(c, schedule).Some? <==> schedule == []
  {
    if schedule != [] {
      var n := |schedule| - 1;
      EmptyBatchNeverSteps(c, schedule[..n]);
      assert !Enabled(Start(c), schedule[n]);
    }
  }

  /** Every schedule can be continued to the end, whatever it has done so far, if and only
      if there is a word to compute: an empty batch leaves its units waiting for ever. */
  lemma EveryScheduleEndsIff(c: Config)
    requires Disjoint(c)
    ensures (forall schedule :: Run(c, schedule).Some? ==> CanBeFinished(c, schedule)) <==> c.length >= 1
  {
    hide Disjoint;
    if c.length >= 1 {
      forall schedule | Run(c, schedule).Some?
        ensures CanBeFinished(c, schedule)
      {
        CanAlwaysFinish(c, schedule);
      }
    } else {
      assert Run(c, []) == Some(Start(c));
      forall rest | Run(c, [] + rest).Some?
        ensures !Finished(c, Run(c, [] + rest).value)
      {
        assert [] + rest == rest;
        EmptyBatchNeverSteps(c, rest);
      }
      assert !CanBeFinished(c, []);
    }
  }

  /** A finished array is as good as new: configured for another computation, its units
      start exactly as they would have from reset, but for the count of releases. */
  lemma ReadyForTheNext(c: Config, s: State, next: Config)
    requires Configured(c) && Inv(c, s) && Finished(c, s)
    ensures var t := Start(next);
      && Loader.Started(Loader.Written(s.a, 0, Loader.Context(0, false, next.length, next.incA, next.addrA)))
           == t.a.(releases := 1)
      && Loader.Started(Loader.Written(s.b, 1, Loader.Context(1, false, next.length, next.incB, next.addrB)))
           == t.b.(releases := 1)
      && ArithPe.Started(ArithPe.Written(s.pe, 4, 4)) == t.pe.(releases := 1)
      && Storer.Started(Storer.Written(s.st, 12, 12, next.incS, next.addrS)) == t.st.(releases := 1)
      && s.linkA == t.linkA && s.linkB == t.linkB && s.linkS == t.linkS && s.port == t.port
  {
    hide StreamAddr, LogOk, Disjoint;
    FinishedLoader(c, A, s.a, s.linkA, s.hopA, PeTaken(s));
    FinishedLoader(c, B, s.b, s.linkB, s.hopB, PeTaken(s));
  }

  lemma FinishedLoader(c: Config, side: Side, l: Loader.State, link: Link, hop: seq<Payload>, n: nat)
    requires LoaderOk(c, side, l, link, hop, n) && link.Idle? && n == c.length
    ensures l.sound && l.advance == 0 && l.fetches == [] && l.issue == [] && !l.sending
    ensures l.pool == Loader.POOL_SIZE + 1 && l.addrCounter == 0
  {
    hide StreamAddr;
  }

  /** The memory a finished computation leaves behind: result k stands at its
      address unless a later result went to the same place. */
  lemma {:induction false} FinalMemory(c: Config, log: seq<Store>, k: nat)
    requires LogOk(c, log) && k < |log|
    requires forall j :: k < j < |log| ==> log[j].addr != log[k].addr
    ensures Lookup(c.memory, log, Final(c, k).addr) == Result(c, k)
  {
    hide StreamAddr;
    var n := |log| - 1;
    if k < n {
      FinalMemory(c, log[..n], k);
    }
  }

  lemma {:induction false} OtherMemoryUnchanged(c: Config, log: seq<Store>, addr: nat)
    requires forall k :: 0 <= k < |log| ==> log[k].addr != addr
    ensures Lookup(c.memory, log, addr) == c.memory(addr)
  {
    if log != [] {
      OtherMemoryUnchanged(c, log[..|log| - 1], addr);
    }
  }

  /** Word k of a stream in the address space. */
  function Place(base: nat, inc: nat, k: nat): nat { base + 4 * (inc * k) }

  /** Field values of a configuration word, 17 bits for a base, 12 for a stride, 15 for the
      length; the results go to different places. */
  predicate InFields(c: Config) {
    && 1 <= c.length < 0x8000 && c.addrA < 0x2_0000 && c.addrB < 0x2_0000 && c.addrS < 0x2_0000
    && c.incA < 0x1000 && c.incB < 0x1000 && 1 <= c.incS < 0x1000
  }

  /** No result is stored over a word to be loaded: the four bytes of the two are apart. */
  ghost predicate Apart(c: Config) {
    && (forall i: nat, j: nat :: i < c.length && j < c.length ==>
          var x, y := Place(c.addrS, c.incS, i), Place(c.addrA, c.incA, j);
          x + 3 < y || y + 3 < x)
    && (forall i: nat, j: nat :: i < c.length && j < c.length ==>
          var x, y := Place(c.addrS, c.incS, i), Place(c.addrB, c.incB, j);
          x + 3 < y || y + 3 < x)
  }

  lemma StreamIsPlace(base: nat, inc: nat, k: nat)
    requires base < 0x2_0000 && inc < 0x1000 && k < 0x8000
    ensures StreamAddr(base, inc, k) == Place(base, inc, k)
  {
    StreamAddrDoesNotWrap(base, inc, k);
    assert k * inc * 4 == 4 * (inc * k);
  }

  lemma PlacesDiffer(base: nat, inc: nat, i: nat, j: nat)
    requires inc >= 1 && i < j
    ensures Place(base, inc, i) < Place(base, inc, j)
  {
    assert inc * j == inc * i + inc * (j - i);
    assert inc * (j - i) >= 1;
  }

  lemma ApartIsDisjoint(c: Config)
    requires InFields(c) && Apart(c)
    ensures Disjoint(c)
  {
    hide StreamAddr, Place;
    forall i, j, side | 0 <= i < c.length && 0 <= j < c.length
      ensures Far(StreamAddr(c.addrS, c.incS, i), LoadAddr(c, side, j))
    {
      StreamIsPlace(c.addrS, c.incS, i);
      StreamIsPlace(c.addrA, c.incA, j);
      StreamIsPlace(c.addrB, c.incB, j);
    }
  }

  /** The address is not one that a result goes to. */
  ghost predicate Elsewhere(c: Config, addr: nat) {
    forall j: nat :: j < c.length ==> addr != Place(c.addrS, c.incS, j)
  }

  lemma StoredPlaces(c: Config, log: seq<Store>, j: nat)
    requires InFields(c) && LogOk(c, log) && j < |log| <= c.length
    ensures log[j].addr == Place(c.addrS, c.incS, j)
  {
    hide StreamAddr, Place;
    StreamIsPlace(c.addrS, c.incS, j);
  }

  lemma ResultStands(c: Config, log: seq<Store>, k: nat)
    requires InFields(c) && LogOk(c, log) && |log| == c.length && k < c.length
    ensures Lookup(c.memory, log, Place(c.addrS, c.incS, k))
      == c.op(c.memory(Place(c.addrA, c.incA, k)), c.memory(Place(c.addrB, c.incB, k)))
  {
    hide Lookup, StreamAddr, Place;
    forall j | k < j < |log|
      ensures log[j].addr != log[k].addr
    {
      StoredPlaces(c, log, j);
      StoredPlaces(c, log, k);
      PlacesDiffer(c.addrS, c.incS, k, j);
    }
    FinalMemory(c, log, k);
    StreamIsPlace(c.addrS, c.incS, k);
    StreamIsPlace(c.addrA, c.incA, k);
    StreamIsPlace(c.addrB, c.incB, k);
  }

  /** What the array is for: whatever the schedule, once the 18 steps of each word are done,
      the memory holds the results of the operation on the two vectors where they were to go,
      and everything else as it was. */
  lemma VectorOperation(c: Config, schedule: seq<Action>, k: nat, addr: nat)
    requires InFields(c) && Apart(c) && k < c.length
    requires Run(c, schedule).Some? && |schedule| == 18 * c.length
    ensures var log := Run(c, schedule).value.log;
      && Lookup(c.memory, log, Place(c.addrS, c.incS, k))
           == c.op(c.memory(Place(c.addrA, c.incA, k)), c.memory(Place(c.addrB, c.incB, k)))
      && (Elsewhere(c, addr) ==> Lookup(c.memory, log, addr) == c.memory(addr))
  {
    hide Run, Disjoint, Sound, Enabled, Apart, Lookup, LogOk, InFields, Elsewhere;
    LengthInFields(c);
    ApartIsDisjoint(c);
    EverySchedule(c, schedule);
    var log := Run(c, schedule).value.log;
    ResultStands(c, log, k);
    if Elsewhere(c, addr) { NothingStored(c, log, addr); }
  }

  lemma LengthInFields(c: Config)
    requires InFields(c)
    ensures c.length >= 1
  {
  }

  lemma NothingStored(c: Config, log: seq<Store>, addr: nat)
    requires InFields(c) && LogOk(c, log) && |log| == c.length && Elsewhere(c, addr)
    ensures Lookup(c.memory, log, addr) == c.memory(addr)
  {
    hide Lookup, Place, LogOk;
    forall j | 0 <= j < |log|
      ensures log[j].addr != addr
    {
      StoredPlaces(c, log, j);
    }
    OtherMemoryUnchanged(c, log, addr);
  }

  // ---------------------------------------------------------------------
  // The modules, wired together
  // ---------------------------------------------------------------------

  /** What the array is told for one computation: the number of each unit, and the
      stride and address it will use. */
  function Contexts(c: Config): seq<Loader.Context> {
    [Loader.Context(0, false, c.length, c.incA, c.addrA), Loader.Context(1, false, c.length, c.incB, c.addrB),
     Loader.Context(4, false, 0, 0, 0), Loader.Context(12, false, 0, c.incS, c.addrS)]
  }

  /** Every context goes to every unit; each keeps its own, and starts when told to. */
  method ConfiguredLoader(id: nat, c: Config) returns (l: Loader.LoaderUnit)
    requires id == 0 || id == 1
    ensures fresh(l) && l.View() == Loader.Started(Loader.Written(Loader.Reset(), id, Contexts(c)[id]))
  {
    hide Loader.Started;
    l := new Loader.LoaderUnit(id);
    for i := 0 to 4
      invariant fresh(l) && l.id == id
      invariant l.View() == if i <= id then Loader.Reset() else Loader.Written(Loader.Reset(), id, Contexts(c)[id])
    {
      l.WriteContext(Contexts(c)[i]);
    }
    l.AllConfig();
  }

  method ConfiguredUnit(c: Config) returns (u: ArithPe.ArithUnit)
    ensures fresh(u) && u.op == c.op && u.View() == ArithPe.Started(ArithPe.Written(ArithPe.Reset(), 4, 4))
  {
    hide ArithPe.Started;
    u := new ArithPe.ArithUnit(4, c.op);
    for i := 0 to 4
      invariant fresh(u) && u.id == 4 && u.op == c.op
      invariant u.View() == if i <= 2 then ArithPe.Reset() else ArithPe.Written(ArithPe.Reset(), 4, 4)
    {
      u.WriteContext(Contexts(c)[i].phid);
    }
    u.AllConfig();
  }

  method ConfiguredStorer(c: Config) returns (u: Storer.StorerUnit)
    ensures fresh(u) && u.View() == Storer.Started(Storer.Written(Storer.Reset(), 12, 12, c.incS, c.addrS))
  {
    hide Storer.Started;
    u := new Storer.StorerUnit(12);
    for i := 0 to 4
      invariant fresh(u) && u.id == 12
      invariant u.View() == if i <= 3 then Storer.Reset() else Storer.Written(Storer.Reset(), 12, 12, c.incS, c.addrS)
    {
      var x := Contexts(c)[i];
      u.WriteContext(x.phid, x.addrInc, x.addr);
    }
    u.AllConfig();
  }

  /** The units as objects, and the links and histories between them. */
  class Fabric {
    const config: Config
    const a: Loader.LoaderUnit
    const b: Loader.LoaderUnit
    const pe: ArithPe.ArithUnit
    const st: Storer.StorerUnit
    var linkA: Link
    var linkB: Link
    var linkS: Link
    var port: Port
    var hopA: seq<Payload>
    var hopB: seq<Payload>
    var hopS: seq<Payload>
    var log: seq<Store>

    ghost predicate Valid()
      reads this
    {
      a != b && pe.op == config.op
    }

    function View(): State
      reads this, a, b, pe, st
    {
      State(a.View(), b.View(), pe.View(), st.View(), linkA, linkB, linkS, port, hopA, hopB, hopS, log)
    }

    /** Configuration: every unit receives every context, then all_config. */
    constructor (c: Config)
      ensures Valid() && config == c && View() == Start(c)
      ensures fresh(a) && fresh(b) && fresh(pe) && fresh(st)
    {
      hide Loader.Written, Loader.Started, ArithPe.Written, ArithPe.Started, Storer.Written, Storer.Started;
      config := c;
      var la := ConfiguredLoader(0, c);
      var lb := ConfiguredLoader(1, c);
      var unit := ConfiguredUnit(c);
      var sink := ConfiguredStorer(c);
      a, b, pe, st := la, lb, unit, sink;
      linkA, linkB, linkS, port := Idle, Idle, Idle, PortIdle;
      hopA, hopB, hopS, log := [], [], [], [];
    }

    method PerformLoader(act: Action)
      requires Valid() && Enabled(View(), act) && IsLoaderAction(act) && !act.Deliver?
      modifies this, if act.side == A then a else b
      ensures Valid() && View() == Step(config, old(View()), act)
    {
      hide StreamAddr;
      hide Lookup;
      var l := if act.side == A then a else b;
      match act
      case Fetch(_) =>
        l.ReadStep();
      case MemoryRead(_) =>
        l.EndRead(Lookup(config.memory, log, l.fetches[0]));
      case LoaderSend(side) =>
        var p := l.StartSend();
        if side == A {
          linkA, hopA := Moving(p), hopA + [p];
        } else {
          linkB, hopB := Moving(p), hopB + [p];
        }
      case LoaderDone(side) =>
        l.EndSend();
        if side == A {
          linkA := Idle;
        } else {
          linkB := Idle;
        }
    }

    method PerformPe(act: Action)
      requires Valid() && Enabled(View(), act)
      requires act.Deliver? || act.PeAccept? || act.PeSend? || act.PeDone?
      modifies this, pe
      ensures Valid() && View() == Step(config, old(View()), act)
    {
      hide StreamAddr, ArithPe.Accepted, ArithPe.Completed, ArithPe.ArrivedA, ArithPe.ArrivedB;
      match act
      case Deliver(side) =>
        if side == A {
          pe.Transport(0, linkA.p);
          linkA := Delivered;
        } else {
          pe.Transport(1, linkB.p);
          linkB := Delivered;
        }
      case PeAccept =>
        pe.Accept();
        linkA, linkB := Answered, Answered;
      case PeSend =>
        var p := pe.StartSend();
        linkS, hopS := Moving(p), hopS + [p];
      case PeDone =>
        pe.EndSend();
        linkS := Idle;
    }

    method PerformStorer(act: Action)
      requires Valid() && Enabled(View(), act)
      requires act.DeliverResult? || act.StorerAccept? || act.StorerSend? || act.MemoryWrite? || act.StorerDone?
      modifies this, st
      ensures Valid() && View() == Step(config, old(View()), act)
    {
      hide StreamAddr;
      match act
      case DeliverResult =>
        st.Transport(linkS.p);
        linkS := Delivered;
      case StorerAccept =>
        st.Accept();
        linkS := Answered;
      case StorerSend =>
        var w := st.StartSend();
        port := Pending(w);
      case MemoryWrite =>
        log := log + [port.store];
        port := Done;
      case StorerDone =>
        st.EndSend();
        port := PortIdle;
    }

    /** One atomic step of one unit, link or memory port. */
    method Perform(act: Action)
      requires Valid() && Enabled(View(), act)
      modifies this, a, b, pe, st
      ensures Valid() && View() == Step(config, old(View()), act)
    {
      hide Step;
      if IsLoaderAction(act) && !act.Deliver? {
        PerformLoader(act);
      } else if act.Deliver? || act.PeAccept? || act.PeSend? || act.PeDone? {
        PerformPe(act);
      } else {
        PerformStorer(act);
      }
    }
  }
}
