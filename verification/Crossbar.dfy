/** The whole crossbar: every source's distributor, every consumer port's combiner. */
module Crossbar {
  import opened Common
  import opened Distributor

  const PORTS: nat := 18

  /** selects: the source a port's combiner listens to. held: the request a unit has
      received through the port and not yet answered. current: the request a source
      waits on; taken counts its requests. */
  datatype Net = Net(
    dists: seq<State>, selects: seq<nat>, held: seq<Option<Trans>>,
    current: seq<Option<Trans>>, taken: seq<nat>, clean: seq<bool>)

  function Start(): Net {
    Net(seq(SOURCES, i => Distributor.Initial()), seq(PORTS, i => 0), seq(PORTS, i => None),
        seq(SOURCES, i => None), seq(SOURCES, i => 0), seq(SOURCES, i => true))
  }

  /** The unit behind a consumer port: two ports for each arithmetic unit, then the storers. */
  function UnitAt(p: nat): int {
    if p < 2 * ARITH_UNITS then p / 2 + LOADERS else p - 2 * ARITH_UNITS + LOADERS + ARITH_UNITS
  }

  /** The combiner's own reading of a context: the source it listens to afterwards. A
      port number below 16 never matches a storer, nor one from 16 up an arithmetic unit. */
  function SelectFor(p: nat, select: nat, r: Route): nat {
    if r.kind.ArithKind? && p / 2 + LOADERS == r.phid then if p % 2 == 0 then r.muxA else r.muxB
    else if r.kind.StoreKind? && p - 2 * ARITH_UNITS + LOADERS + ARITH_UNITS == r.phid then r.muxA
    else select
  }

  function Reselected(selects: seq<nat>, r: Route): (q: seq<nat>)
    requires |selects| == PORTS
    ensures |q| == PORTS
  {
    seq(PORTS, p requires 0 <= p < PORTS => SelectFor(p, selects[p], r))
  }

  datatype Step =
    | Configure(route: Route)
    | AllConfig
    | Request(source: nat, trans: Trans)
    | Deliver(source: nat)
    | Answer(port: nat)
    | Pop(source: nat)

  predicate Shaped(s: Net) {
    && |s.dists| == SOURCES && |s.current| == SOURCES && |s.taken| == SOURCES && |s.clean| == SOURCES
    && |s.selects| == PORTS && |s.held| == PORTS
    && forall d :: 0 <= d < SOURCES ==> |s.dists[d].branches| == BRANCHES
  }

  predicate RouteOk(r: Route) {
    match r.kind
    case LoadKind => true
    case ArithKind => 4 <= r.phid < 12 && r.muxA < SOURCES && r.muxB < SOURCES && r.muxA != r.phid && r.muxB != r.phid
    case StoreKind => 12 <= r.phid < 14 && r.muxA < SOURCES
  }

  predicate PortFree(s: Net, p: nat)
    requires Shaped(s) && p < PORTS
  {
    s.held[p].None? && forall d :: 0 <= d < SOURCES ==> !s.dists[d].branches[p].selected
  }

  /** A unit is configured between batches, while its sources are idle; a source
      starts only after the start signal; units answer what they hold. */
  predicate Enabled(s: Net, step: Step)
    requires Shaped(s)
  {
    match step
    case Configure(r) =>
      && RouteOk(r)
      && (!r.kind.LoadKind? ==> s.current[r.muxA].None?)
      && (r.kind.ArithKind? ==> s.current[r.muxB].None?)
      && (!r.kind.LoadKind? ==> forall p: nat :: p < PORTS && UnitAt(p) == r.phid ==> PortFree(s, p))
    case AllConfig => true
    case Request(d, _) => d < SOURCES && s.current[d].None? && !s.dists[d].ready
    case Deliver(d) => d < SOURCES && s.dists[d].requests != []
    case Answer(p) => p < PORTS && s.held[p].Some? && s.selects[p] < SOURCES
    case Pop(d) => d < SOURCES && s.dists[d].answers != []
  }

  function Configured(s: Net, r: Route): Net
    requires Shaped(s)
  {
    s.(dists := seq(SOURCES, d requires 0 <= d < SOURCES => Routed(s.dists[d], d, r)),
       selects := Reselected(s.selects, r))
  }

  function AllStarted(s: Net): Net
    requires Shaped(s)
  {
    s.(dists := seq(SOURCES, d requires 0 <= d < SOURCES => Started(s.dists[d])))
  }

  function Asked(s: Net, d: nat, t: Trans): Net
    requires Shaped(s) && d < SOURCES
  {
    s.(dists := s.dists[d := Requested(s.dists[d], t)], current := s.current[d := Some(t)],
       taken := s.taken[d := s.taken[d] + 1], clean := s.clean[d := s.dists[d].answers == []])
  }

  /** The last request sent to port p. */
  function SentTo(q: seq<Sending>, p: nat): Option<Trans> {
    if q == [] then None
    else if q[|q| - 1].port == p then Some(q[|q| - 1].trans)
    else SentTo(q[..|q| - 1], p)
  }

  /** The calls that source d's distributor makes as it serves its first request. */
  function Calls(s: Net, d: nat): (q: seq<Sending>)
    requires Shaped(s) && d < SOURCES && s.dists[d].requests != []
  {
    Delivered(s.dists[d]).downstream[|s.dists[d].downstream|..]
  }

  /** A combiner passes on what it is sent by the source it has selected, and drops what
      others send. */
  function Passed(s: Net, d: nat): (q: seq<Option<Trans>>)
    requires Shaped(s) && d < SOURCES && s.dists[d].requests != []
    ensures |q| == PORTS
  {
    seq(PORTS, p requires 0 <= p < PORTS =>
      if s.selects[p] == d && SentTo(Calls(s, d), p).Some? then SentTo(Calls(s, d), p) else s.held[p])
  }

  lemma {:induction false} SentToIff(q: seq<Sending>, t: Trans, p: nat)
    requires forall j :: 0 <= j < |q| ==> q[j].trans == t
    ensures SentTo(q, p) == if exists j :: 0 <= j < |q| && q[j].port == p then Some(t) else None
  {
    if q != [] {
      SentToIff(q[..|q| - 1], t, p);
      if j :| 0 <= j < |q| - 1 && q[j].port == p {
        assert q[..|q| - 1][j].port == p;
      }
    }
  }

  /** So a unit comes to hold the request exactly when its branch is open and its combiner
      listens to the source; all other units keep what they hold. */
  lemma PassedIff(s: Net, d: nat, p: nat)
    requires Shaped(s) && d < 12 && s.dists[d].requests != [] && p < 18
    ensures Passed(s, d)[p] ==
      if s.dists[d].branches[p].selected && s.selects[p] == d then Some(s.dists[d].requests[0]) else s.held[p]
  {
    var bs, t := s.dists[d].branches, s.dists[d].requests[0];
    SendingsHandOn(bs, t, BRANCHES);
    assert Calls(s, d) == SendingsUpTo(bs, t, BRANCHES);
    SentToIff(Calls(s, d), t, p);
  }

  function Spread(s: Net, d: nat): Net
    requires Shaped(s) && d < SOURCES && s.dists[d].requests != []
  {
    s.(dists := s.dists[d := Delivered(s.dists[d])], held := Passed(s, d))
  }

  function Answered(s: Net, p: nat): Net
    requires Shaped(s) && p < PORTS && s.held[p].Some? && s.selects[p] < SOURCES
  {
    var d := s.selects[p];
    s.(dists := s.dists[d := Received(s.dists[d], p, s.held[p].value)], held := s.held[p := None])
  }

  /** The source is no longer waiting once its distributor has answered it. */
  function Looked(s: Net, d: nat): Net
    requires Shaped(s) && d < SOURCES && s.dists[d].answers != []
  {
    var t := Popped(s.dists[d]);
    s.(dists := s.dists[d := t],
       current := if |t.upstream| > |s.dists[d].upstream| then s.current[d := None] else s.current)
  }

  function Next(s: Net, step: Step): Net
    requires Shaped(s) && Enabled(s, step)
  {
    match step
    case Configure(r) => Configured(s, r)
    case AllConfig => AllStarted(s)
    case Request(d, t) => Asked(s, d, t)
    case Deliver(d) => Spread(s, d)
    case Answer(p) => Answered(s, p)
    case Pop(d) => Looked(s, d)
  }

  // ---------------------------------------------------------------------
  // The invariant
  // ---------------------------------------------------------------------

  /** The branches of source d whose units hold its request. */
  function Awaits(s: Net, d: nat): (r: seq<bool>)
    requires Shaped(s)
    ensures |r| == BRANCHES
  {
    seq(BRANCHES, i requires 0 <= i < BRANCHES => i < PORTS && s.held[i].Some? && s.selects[i] == d)
  }

  ghost predicate DistOk(s: Net, d: nat)
    requires Shaped(s) && d < SOURCES
  {
    Ok(s.dists[d], s.current[d], Awaits(s, d), s.taken[d], s.clean[d])
  }

  /** A distributor sends only where the combiner at the other end listens to it. */
  predicate Agrees(s: Net, d: nat)
    requires Shaped(s) && d < SOURCES
  {
    forall i :: 0 <= i < BRANCHES && s.dists[d].branches[i].selected ==> i < PORTS && s.selects[i] == d
  }

  predicate HeldOk(s: Net, p: nat)
    requires Shaped(s) && p < PORTS
  {
    s.held[p].Some? ==>
      && s.selects[p] < SOURCES
      && s.current[s.selects[p]] == s.held[p]
      && s.dists[s.selects[p]].requests == []
  }

  ghost predicate Inv(s: Net) {
    && Shaped(s)
    && (forall d: nat :: d < SOURCES ==> DistOk(s, d))
    && (forall d: nat :: d < SOURCES ==> Agrees(s, d))
    && (forall p: nat :: p < PORTS ==> HeldOk(s, p))
  }

  lemma StartInv()
    ensures Inv(Start())
  {
    hide Ok;
    var s := Start();
    forall d: nat | d < SOURCES
      ensures DistOk(s, d)
    {
      assert Awaits(s, d) == Nobody();
      InitialOk(true);
    }
  }

  /** The two ends read a context alike: wherever a distributor opens a branch, the
      combiner there selects that distributor. */
  lemma EndsAgree(selects: seq<nat>, r: Route, d: nat)
    requires |selects| == PORTS && RouteOk(r) && d < SOURCES
    ensures var p := PortFor(r, d); p < BRANCHES ==> p < PORTS && UnitAt(p) == r.phid && Reselected(selects, r)[p] == d
    ensures forall p: nat :: p < PORTS && (r.kind.LoadKind? || UnitAt(p) != r.phid) ==>
      Reselected(selects, r)[p] == selects[p]
  {
  }

  lemma ConfigureKeeps(s: Net, r: Route)
    requires Inv(s) && Enabled(s, Configure(r))
    ensures Inv(Configured(s, r))
  {
    var t := Configured(s, r);
    forall d: nat | d < SOURCES
      ensures DistOk(t, d) && Agrees(t, d)
    {
      hide Ok, Reselected;
      EndsAgree(s.selects, r, d);
      assert DistOk(s, d) && Agrees(s, d);
      assert Awaits(t, d) == Awaits(s, d);
      if PortFor(r, d) < BRANCHES {
        RoutedOk(s.dists[d], d, r, Awaits(s, d), s.taken[d], s.clean[d]);
      }
    }
    forall p: nat | p < PORTS
      ensures HeldOk(t, p)
    {
      hide Reselected, DistOk, Agrees, PortFor;
      EndsAgree(s.selects, r, 0);
      assert HeldOk(s, p);
    }
  }

  lemma AllConfigKeeps(s: Net)
    requires Inv(s)
    ensures Inv(AllStarted(s))
  {
    hide Ok;
    var t := AllStarted(s);
    forall d: nat | d < SOURCES
      ensures DistOk(t, d) && Agrees(t, d)
    {
      assert DistOk(s, d) && Agrees(s, d);
      assert Awaits(t, d) == Awaits(s, d);
      StartedOk(s.dists[d], s.current[d], Awaits(s, d), s.taken[d], s.clean[d]);
    }
    forall p: nat | p < PORTS
      ensures HeldOk(t, p)
    {
      assert HeldOk(s, p);
    }
  }

  lemma RequestKeeps(s: Net, c: nat, x: Trans)
    requires Inv(s) && Enabled(s, Request(c, x))
    ensures Inv(Asked(s, c, x))
  {
    hide Ok;
    var t := Asked(s, c, x);
    forall d: nat | d < SOURCES
      ensures DistOk(t, d) && Agrees(t, d)
    {
      assert DistOk(s, d) && Agrees(s, d);
      assert Awaits(t, d) == Awaits(s, d);
      if d == c { RequestedOk(s.dists[d], x, Awaits(s, d), s.taken[d], s.clean[d]); }
    }
    forall p: nat | p < PORTS
      ensures HeldOk(t, p)
    {
      assert HeldOk(s, p);
    }
  }

  /** A queued request is the one its source waits on, and nobody holds it yet. */
  lemma QueuedRequest(s: Net, d: nat)
    requires Inv(s) && d < SOURCES && s.dists[d].requests != []
    ensures s.current[d] == Some(s.dists[d].requests[0]) && s.dists[d].requests == [s.dists[d].requests[0]]
    ensures forall i :: 0 <= i < BRANCHES ==> !Awaits(s, d)[i]
  {
    hide Agrees, HeldOk, Awaits;
    assert DistOk(s, d);
  }

  lemma DeliverKeeps(s: Net, c: nat)
    requires Inv(s) && Enabled(s, Deliver(c))
    ensures Inv(Spread(s, c))
  {
    hide Ok, Delivered, Passed;
    forall p: nat | p < PORTS
      ensures Passed(s, c)[p] == if s.dists[c].branches[p].selected && s.selects[p] == c
        then Some(s.dists[c].requests[0]) else s.held[p]
    {
      PassedIff(s, c, p);
    }
    var t := Spread(s, c);
    var x := s.dists[c].requests[0];
    QueuedRequest(s, c);
    assert DistOk(s, c) && Agrees(s, c);
    DeliveredOk(s.dists[c], x, Awaits(s, c), s.taken[c], s.clean[c]);
    var next := Delivered(s.dists[c]);
    assert next.requests == [] by { DeliveredClears(s.dists[c]); }
    forall i | 0 <= i < BRANCHES
      ensures Awaits(t, c)[i] == s.dists[c].branches[i].selected
        && next.branches[i].selected == s.dists[c].branches[i].selected
    {
      assert !Awaits(s, c)[i];
      assert SelectedOf(next.branches)[i] == SelectedOf(s.dists[c].branches)[i];
    }
    assert Awaits(t, c) == SelectedOf(s.dists[c].branches);
    forall d: nat | d < SOURCES
      ensures DistOk(t, d) && Agrees(t, d)
    {
      assert DistOk(s, d) && Agrees(s, d);
      if d != c {
        assert Awaits(t, d) == Awaits(s, d);
      }
    }
    forall p: nat | p < PORTS
      ensures HeldOk(t, p)
    {
      assert HeldOk(s, p);
      assert !Awaits(s, c)[p];
    }
  }

  lemma DeliveredClears(s: State)
    requires |s.requests| == 1
    ensures Delivered(s).requests == []
  {
  }

  lemma AnswerKeeps(s: Net, c: nat)
    requires Inv(s) && Enabled(s, Answer(c))
    ensures Inv(Answered(s, c))
  {
    hide Ok, Received;
    var t := Answered(s, c);
    var e := s.selects[c];
    assert HeldOk(s, c) && DistOk(s, e);
    ReceivedOk(s.dists[e], s.held[c].value, Awaits(s, e), s.taken[e], s.clean[e], c);
    ReceivedKeepsSelection(s.dists[e], c, s.held[c].value);
    assert Awaits(t, e) == Awaits(s, e)[c := false];
    forall d: nat | d < SOURCES
      ensures DistOk(t, d) && Agrees(t, d)
    {
      assert DistOk(s, d) && Agrees(s, d);
      if d != e {
        assert Awaits(t, d) == Awaits(s, d);
      }
    }
    forall p: nat | p < PORTS
      ensures HeldOk(t, p)
    {
      assert HeldOk(s, p);
    }
  }

  lemma ReceivedKeepsSelection(s: State, i: nat, x: Trans)
    requires i < |s.branches|
    ensures Received(s, i, x).requests == s.requests && |Received(s, i, x).branches| == |s.branches|
    ensures forall k :: 0 <= k < |s.branches| ==> Received(s, i, x).branches[k].selected == s.branches[k].selected
  {
  }

  lemma PoppedKeepsSelection(s: State)
    requires s.answers != []
    ensures Popped(s).requests == s.requests && |Popped(s).branches| == |s.branches|
    ensures forall k :: 0 <= k < |s.branches| ==> Popped(s).branches[k].selected ==> s.branches[k].selected
  {
    hide SentCount, ReceivedCount;
  }

  /** Source d's request is ready to be answered. */
  predicate Due(s: Net, d: nat)
    requires Shaped(s) && d < SOURCES
  {
    && s.current[d].Some? && s.dists[d].requests == [] && AnySelected(s.dists[d].branches)
    && forall p: nat :: p < PORTS && s.selects[p] == d ==> s.held[p].None?
  }

  lemma DueAwaits(s: Net, d: nat)
    requires Shaped(s) && d < SOURCES
    ensures (forall i :: 0 <= i < BRANCHES ==> !Awaits(s, d)[i])
       <==> forall p: nat :: p < PORTS && s.selects[p] == d ==> s.held[p].None?
  {
    if forall i :: 0 <= i < BRANCHES ==> !Awaits(s, d)[i] {
      forall p: nat | p < PORTS && s.selects[p] == d
        ensures s.held[p].None?
      {
        assert !Awaits(s, d)[p];
      }
    }
  }

  /** Looking at a queued answer, whichever request it belonged to, answers source d
      exactly when d's request has been sent, to at least one unit, and every unit it
      was sent to has answered. The answer queue being empty when the request came in,
      the source gets its own transaction back. After the last request of a batch the
      distributor's branches are closed. */
  lemma AnswersExactlyWhenDue(s: Net, d: nat)
    requires Inv(s) && Enabled(s, Pop(d))
    ensures var t := Looked(s, d);
      && t.dists[d].upstream == s.dists[d].upstream + (if Due(s, d) then [s.dists[d].answers[0]] else [])
      && (Due(s, d) ==> t.current[d].None?)
      && (!Due(s, d) ==> t.current == s.current)
      && (Due(s, d) && s.clean[d] ==> s.dists[d].answers[0] == s.current[d].value)
      && (Due(s, d) && s.current[d].value.last ==> !AnySelected(t.dists[d].branches))
  {
    hide Ok, AnySelected, Agrees, HeldOk, Complete;
    assert DistOk(s, d);
    DueAwaits(s, d);
    PoppedOk(s.dists[d], s.current[d], Awaits(s, d), s.taken[d], s.clean[d]);
    var u := s.dists[d].upstream;
    assert (u + [s.dists[d].answers[0]])[|u|] == s.dists[d].answers[0];
  }

  lemma PopKeeps(s: Net, c: nat)
    requires Inv(s) && Enabled(s, Pop(c))
    ensures Inv(Looked(s, c))
  {
    hide Ok, Popped, AnySelected;
    var t := Looked(s, c);
    assert DistOk(s, c);
    DueAwaits(s, c);
    PoppedOk(s.dists[c], s.current[c], Awaits(s, c), s.taken[c], s.clean[c]);
    PoppedKeepsSelection(s.dists[c]);
    forall d: nat | d < SOURCES
      ensures DistOk(t, d) && Agrees(t, d)
    {
      assert DistOk(s, d) && Agrees(s, d);
      assert Awaits(t, d) == Awaits(s, d);
    }
    forall p: nat | p < PORTS
      ensures HeldOk(t, p)
    {
      assert HeldOk(s, p);
    }
  }

  lemma StepKeeps(s: Net, step: Step)
    requires Inv(s) && Enabled(s, step)
    ensures Inv(Next(s, step))
  {
    hide Inv, Configured, AllStarted, Asked, Spread, Answered, Looked;
    match step
    case Configure(r) => ConfigureKeeps(s, r);
    case AllConfig => AllConfigKeeps(s);
    case Request(d, t) => RequestKeeps(s, d, t);
    case Deliver(d) => DeliverKeeps(s, d);
    case Answer(p) => AnswerKeeps(s, p);
    case Pop(d) => PopKeeps(s, d);
  }

  // ---------------------------------------------------------------------
  // Runs
  // ---------------------------------------------------------------------

  ghost predicate Possible(s: Net, steps: seq<Step>)
    requires Shaped(s)
    decreases |steps|
  {
    steps == [] || (Enabled(s, steps[0]) && Shaped(Next(s, steps[0])) && Possible(Next(s, steps[0]), steps[1..]))
  }

  ghost function Run(s: Net, steps: seq<Step>): (t: Net)
    requires Shaped(s) && Possible(s, steps)
    ensures Shaped(t)
    decreases |steps|
  {
    if steps == [] then s else Run(Next(s, steps[0]), steps[1..])
  }

  lemma {:induction false} RunKeeps(s: Net, steps: seq<Step>)
    requires Inv(s) && Possible(s, steps)
    ensures Inv(Run(s, steps))
    decreases |steps|
  {
    hide Next, Enabled, DistOk, Agrees, HeldOk, Shaped;
    if steps != [] {
      StepKeeps(s, steps[0]);
      RunKeeps(Next(s, steps[0]), steps[1..]);
    }
  }

  function RequestsFrom(steps: seq<Step>, d: nat): nat {
    if steps == [] then 0
    else (if steps[0].Request? && steps[0].source == d then 1 else 0) + RequestsFrom(steps[1..], d)
  }

  lemma {:induction false} TakenCounts(s: Net, steps: seq<Step>, d: nat)
    requires Shaped(s) && Possible(s, steps) && d < SOURCES
    ensures Run(s, steps).taken[d] == s.taken[d] + RequestsFrom(steps, d)
    decreases |steps|
  {
    hide Routed, Started, Requested, Delivered, Received, Popped, Reselected, Passed, PortFree;
    if steps != [] { TakenCounts(Next(s, steps[0]), steps[1..], d); }
  }

  /** In every run, under any order and coincidence of requests, deliveries, answers
      and configurations, each source has had exactly one answer for every request it
      has made, except for the one it still waits on. */
  lemma OneAnswerPerRequest(steps: seq<Step>, d: nat)
    requires Possible(Start(), steps) && d < SOURCES
    ensures var t := Run(Start(), steps);
      RequestsFrom(steps, d) == |t.dists[d].upstream| + (if t.current[d].Some? then 1 else 0)
  {
    hide Run, Possible, Next, Awaits, Agrees, HeldOk, RequestsFrom, Waiting, Quiet;
    StartInv();
    RunKeeps(Start(), steps);
    TakenCounts(Start(), steps, d);
    assert DistOk(Run(Start(), steps), d);
  }

  /** A source with an open branch is about to be started, or in a batch, or waits for the
      answer to the last request of one. */
  predicate InBatch(s: State, current: Option<Trans>) {
    AnySelected(s.branches) ==> s.ready || s.iniDone || (current.Some? && current.value.last)
  }

  ghost predicate Batches(s: Net)
    requires Shaped(s)
  {
    forall d :: 0 <= d < SOURCES ==> InBatch(s.dists[d], s.current[d])
  }

  lemma PoppedInBatch(s: State, current: Option<Trans>)
    requires s.answers != [] && InBatch(s, current)
    ensures var t := Popped(s);
      InBatch(t, if |t.upstream| > |s.upstream| then None else current)
  {
  }

  lemma RoutedInBatch(s: State, current: Option<Trans>, d: nat, r: Route)
    requires |s.branches| == BRANCHES && InBatch(s, current)
    ensures InBatch(Routed(s, d, r), current)
  {
  }

  lemma DeliveredInBatch(s: State, current: Option<Trans>)
    requires s.requests != [] && InBatch(s, current) && current == Some(s.requests[0])
    ensures InBatch(Delivered(s), current)
  {
    assert forall i :: 0 <= i < |s.branches| ==> AllSent(s.branches)[i].selected == s.branches[i].selected;
  }

  lemma ReceivedInBatch(s: State, current: Option<Trans>, p: nat, t: Trans)
    requires p < |s.branches| && InBatch(s, current)
    ensures InBatch(Received(s, p, t), current)
  {
    var bs := Received(s, p, t).branches;
    assert forall i :: 0 <= i < |bs| ==> bs[i].selected == s.branches[i].selected;
  }

  lemma AskedInBatch(s: State, t: Trans, awaits: seq<bool>, taken: nat, clean: bool)
    requires Ok(s, None, awaits, taken, clean) && InBatch(s, None) && !s.ready
    ensures InBatch(Requested(s, t), Some(t))
  {
  }

  lemma BatchesKept(s: Net, step: Step)
    requires Inv(s) && Enabled(s, step) && Batches(s)
    ensures Shaped(Next(s, step)) && Batches(Next(s, step))
  {
    hide Ok, Agrees, HeldOk, InBatch, Passed, Reselected, PortFree, RouteOk;
    hide Routed, Popped, Delivered, Received, Requested;
    StepKeeps(s, step);
    var t := Next(s, step);
    forall d | 0 <= d < SOURCES
      ensures InBatch(t.dists[d], t.current[d])
    {
      assert InBatch(s.dists[d], s.current[d]) && DistOk(s, d);
      match step
      case Configure(r) => RoutedInBatch(s.dists[d], s.current[d], d, r);
      case AllConfig => StartedInBatch(s.dists[d], s.current[d]);
      case Request(e, x) =>
        if d == e { AskedInBatch(s.dists[d], x, Awaits(s, d), s.taken[d], s.clean[d]); }
      case Deliver(e) =>
        if d == e {
          WaitsForItsRequest(s.dists[d], s.current[d], Awaits(s, d), s.taken[d], s.clean[d]);
          DeliveredInBatch(s.dists[d], s.current[d]);
        }
      case Answer(p) =>
        if d == s.selects[p] { ReceivedInBatch(s.dists[d], s.current[d], p, s.held[p].value); }
      case Pop(e) =>
        if d == e { PoppedInBatch(s.dists[d], s.current[d]); }
    }
  }

  lemma StartedInBatch(s: State, current: Option<Trans>)
    requires InBatch(s, current)
    ensures InBatch(Started(s), current)
  {
  }

  lemma WaitsForItsRequest(s: State, current: Option<Trans>, awaits: seq<bool>, taken: nat, clean: bool)
    requires Ok(s, current, awaits, taken, clean) && s.requests != []
    ensures current == Some(s.requests[0])
  {
  }

  lemma {:induction false} RunKeepsBatches(s: Net, steps: seq<Step>)
    requires Inv(s) && Batches(s) && Possible(s, steps)
    ensures Inv(Run(s, steps)) && Batches(Run(s, steps))
    decreases |steps|
  {
    hide Next, Enabled, DistOk, Agrees, HeldOk, Shaped, Batches;
    if steps != [] {
      StepKeeps(s, steps[0]);
      BatchesKept(s, steps[0]);
      RunKeepsBatches(Next(s, steps[0]), steps[1..]);
    }
  }

  lemma StartsClosed()
    ensures Batches(Start())
  {
  }

  /** In every run the branches that a configuration has opened stay open from one request of
      the batch to the next: looking at an answer to any but the last closes none. */
  lemma BranchesStayOpen(steps: seq<Step>, d: nat, i: nat)
    requires Possible(Start(), steps) && d < 12 && i < 20
    requires var s := Run(Start(), steps);
      Enabled(s, Pop(d)) && s.current[d].Some? && !s.current[d].value.last
    ensures var s := Run(Start(), steps);
      Next(s, Pop(d)).dists[d].branches[i].selected == s.dists[d].branches[i].selected
  {
    hide Run, Possible, Agrees, HeldOk, Inv, Batches;
    StartInv();
    StartsClosed();
    RunKeepsBatches(Start(), steps);
    var s := Run(Start(), steps);
    assert DistOk(s, d) by { DistsOk(s, d); }
    assert InBatch(s.dists[d], s.current[d]) by { BatchOf(s, d); }
    hide Awaits;
    StaysOpen(s.dists[d], s.current[d].value, Awaits(s, d), s.taken[d], s.clean[d], i);
  }

  lemma DistsOk(s: Net, d: nat)
    requires Inv(s) && d < SOURCES
    ensures Shaped(s) && DistOk(s, d)
  {
  }

  lemma BatchOf(s: Net, d: nat)
    requires Shaped(s) && Batches(s) && d < SOURCES
    ensures InBatch(s.dists[d], s.current[d])
  {
  }

  lemma StaysOpen(s: State, t: Trans, awaits: seq<bool>, taken: nat, clean: bool, i: nat)
    requires Ok(s, Some(t), awaits, taken, clean) && InBatch(s, Some(t)) && !t.last && s.answers != [] && i < BRANCHES
    ensures |Popped(s).branches| == BRANCHES && Popped(s).branches[i].selected == s.branches[i].selected
  {
    if s.branches[i].selected { assert AnySelected(s.branches); }
  }

  function Trues(bs: seq<bool>, k: nat): nat
    requires k <= |bs|
  {
    if k == 0 then 0 else Trues(bs, k - 1) + if bs[k - 1] then 1 else 0
  }

  lemma {:induction false} TruesShrink(bs: seq<bool>, p: nat, k: nat)
    requires p < |bs| && bs[p] && k <= |bs|
    ensures Trues(bs[p := false], k) == Trues(bs, k) - if p < k then 1 else 0
  {
    if k > 0 { TruesShrink(bs, p, k - 1); }
  }

  lemma {:induction false} FewerTrues(a: seq<bool>, b: seq<bool>, k: nat)
    requires k <= |a| == |b| && forall i :: 0 <= i < k && a[i] ==> b[i]
    ensures Trues(a, k) <= Trues(b, k)
  {
    if k > 0 { FewerTrues(a, b, k - 1); }
  }

  /** The number of branches open at source d. */
  function OpenBranches(s: Net, d: nat): nat
    requires Shaped(s) && d < SOURCES
  {
    Trues(SelectedOf(s.dists[d].branches), BRANCHES)
  }

  /** How many steps source d's request still needs: to be sent, to be answered by each
      unit that holds it, and to be settled. */
  function StepsLeft(s: Net, d: nat): nat
    requires Shaped(s) && d < SOURCES
  {
    if s.current[d].None? then 0
    else if s.dists[d].requests != [] then 2 + OpenBranches(s, d)
    else 1 + Trues(Awaits(s, d), BRANCHES)
  }

  lemma StepsLeftBound(s: Net, d: nat)
    requires Inv(s) && d < SOURCES
    ensures StepsLeft(s, d) <= 2 + OpenBranches(s, d)
  {
    hide Agrees, HeldOk, Awaits, Trues;
    if s.current[d].Some? && s.dists[d].requests == [] {
      assert DistOk(s, d);
      FewerTrues(Awaits(s, d), SelectedOf(s.dists[d].branches), BRANCHES);
    }
  }

  /** A request that some branch is open for can always be moved towards its answer:
      it can be sent, or a unit that holds it can answer, or it is due and an answer
      is queued that will settle it. */
  lemma NeverStuck(s: Net, d: nat) returns (step: Step)
    requires Inv(s) && d < SOURCES && s.current[d].Some? && AnySelected(s.dists[d].branches)
    ensures Enabled(s, step)
    ensures step == Deliver(d) || (step.Answer? && s.selects[step.port] == d) || (step == Pop(d) && Due(s, d))
  {
    hide AnySelected, Agrees, HeldOk, Out, Quiet, Awaits;
    assert DistOk(s, d);
    DueAwaits(s, d);
    if s.dists[d].requests != [] {
      step := Deliver(d);
    } else if p: nat :| p < PORTS && s.selects[p] == d && s.held[p].Some? {
      step := Answer(p);
    } else {
      assert forall i :: 0 <= i < BRANCHES ==> !Awaits(s, d)[i];
      step := Pop(d);
    }
  }

  /** Each such step leaves one step fewer, and the branches as open as they were. */
  lemma StepCounts(s: Net, d: nat, step: Step)
    requires Inv(s) && d < SOURCES && s.current[d].Some? && AnySelected(s.dists[d].branches) && Enabled(s, step)
    requires step == Deliver(d) || (step.Answer? && s.selects[step.port] == d) || (step == Pop(d) && Due(s, d))
    ensures Shaped(Next(s, step))
    ensures var t := Next(s, step);
      && StepsLeft(t, d) < StepsLeft(s, d)
      && (t.current[d].Some? ==> t.current[d] == s.current[d] && AnySelected(t.dists[d].branches))
      && (t.current[d].None? ==> |t.dists[d].upstream| == |s.dists[d].upstream| + 1)
      && (t.current[d].Some? ==> t.dists[d].upstream == s.dists[d].upstream)
  {
    hide Agrees, Awaits, Trues, Passed, Complete;
    assert DistOk(s, d);
    match step
    case Deliver(_) => DeliverCounts(s, d);
    case Answer(p) => AnswerCounts(s, p);
    case Pop(_) => AnswersExactlyWhenDue(s, d);
  }

  lemma DeliverCounts(s: Net, d: nat)
    requires Inv(s) && Enabled(s, Deliver(d)) && AnySelected(s.dists[d].branches)
    ensures var t := Spread(s, d);
      && Shaped(t) && t.current == s.current && StepsLeft(t, d) < StepsLeft(s, d)
      && AnySelected(t.dists[d].branches) && t.dists[d].upstream == s.dists[d].upstream
  {
    hide Agrees, HeldOk, Trues, Passed, Awaits, Ok;
    QueuedRequest(s, d);
    DeliverKeeps(s, d);
    var t := Spread(s, d);
    assert DistOk(s, d) && DistOk(t, d);
    assert s.current[d].Some? && t.dists[d].requests == [];
    SentBranches(s.dists[d]);
    HeldAfterDelivery(t, d);
    FewerTrues(Awaits(t, d), SelectedOf(t.dists[d].branches), BRANCHES);
  }

  lemma SentBranches(s: State)
    requires s.requests != []
    ensures SelectedOf(Delivered(s).branches) == SelectedOf(s.branches)
    ensures AnySelected(s.branches) ==> AnySelected(Delivered(s).branches)
  {
    if AnySelected(s.branches) {
      var i :| 0 <= i < |s.branches| && s.branches[i].selected;
      assert Delivered(s).branches[i].selected;
    }
  }

  lemma HeldAfterDelivery(s: Net, d: nat)
    requires Inv(s) && d < SOURCES && s.current[d].Some? && s.dists[d].requests == []
    ensures forall i :: 0 <= i < BRANCHES && Awaits(s, d)[i] ==> SelectedOf(s.dists[d].branches)[i]
  {
    hide Agrees, HeldOk, Awaits;
    assert DistOk(s, d);
  }

  lemma AnswerCounts(s: Net, p: nat)
    requires Inv(s) && Enabled(s, Answer(p)) && AnySelected(s.dists[s.selects[p]].branches)
    ensures var t, d := Answered(s, p), s.selects[p];
      && Shaped(t) && t.current == s.current && StepsLeft(t, d) < StepsLeft(s, d)
      && AnySelected(t.dists[d].branches) && t.dists[d].upstream == s.dists[d].upstream
  {
    hide Agrees, Trues, Ok;
    var d := s.selects[p];
    var t := Answered(s, p);
    assert HeldOk(s, p);
    ReceivedKeepsSelection(s.dists[d], p, s.held[p].value);
    assert Awaits(t, d) == Awaits(s, d)[p := false];
    TruesShrink(Awaits(s, d), p, BRANCHES);
    var i :| 0 <= i < BRANCHES && s.dists[d].branches[i].selected;
    assert t.dists[d].branches[i].selected;
  }

  /** So from any reachable state the units alone can bring source d its answer, within
      two steps and one for each open branch. */
  lemma {:induction false} AnswerArrives(s: Net, d: nat) returns (steps: seq<Step>)
    requires Inv(s) && d < SOURCES && s.current[d].Some? && AnySelected(s.dists[d].branches)
    ensures Possible(s, steps) && |steps| <= StepsLeft(s, d) <= 2 + OpenBranches(s, d)
    ensures var t := Run(s, steps);
      t.current[d].None? && |t.dists[d].upstream| == |s.dists[d].upstream| + 1
    decreases StepsLeft(s, d)
  {
    hide Next, Enabled, DistOk, Agrees, HeldOk, AnySelected, StepsLeft, OpenBranches;
    var step := NeverStuck(s, d);
    StepKeeps(s, step);
    StepCounts(s, d, step);
    StepsLeftBound(s, d);
    var t := Next(s, step);
    var rest: seq<Step> := [];
    if t.current[d].Some? {
      rest := AnswerArrives(t, d);
    }
    steps := [step] + rest;
    assert steps[1..] == rest;
  }

  /** With no branch open the request is swallowed: its source waits for ever. */
  lemma {:induction false} NoBranchNoAnswer(s: Net, steps: seq<Step>, d: nat)
    requires Inv(s) && Possible(s, steps) && d < SOURCES && s.current[d].Some? && !AnySelected(s.dists[d].branches)
    ensures Run(s, steps).current[d].Some? && Run(s, steps).dists[d].upstream == s.dists[d].upstream
    decreases |steps|
  {
    hide Enabled, Next, DistOk, Agrees, HeldOk, Shaped, AnySelected;
    if steps != [] {
      StepKeeps(s, steps[0]);
      StaysUnanswered(s, steps[0], d);
      NoBranchNoAnswer(Next(s, steps[0]), steps[1..], d);
    }
  }

  lemma StaysUnanswered(s: Net, step: Step, d: nat)
    requires Inv(s) && Enabled(s, step) && d < SOURCES && s.current[d].Some? && !AnySelected(s.dists[d].branches)
    ensures Shaped(Next(s, step))
    ensures var t := Next(s, step);
      t.current[d].Some? && t.dists[d].upstream == s.dists[d].upstream && !AnySelected(t.dists[d].branches)
  {
    hide DistOk, Agrees, HeldOk, Complete, PortFree, Reselected, Passed;
    StepKeeps(s, step);
    match step
    case Configure(r) =>
    case AllConfig =>
    case Request(c, x) =>
    case Deliver(c) => if c == d { assert SelectedOf(Delivered(s.dists[d]).branches)
      == SelectedOf(s.dists[d].branches); }
    case Answer(p) => ReceivedKeepsSelection(s.dists[s.selects[p]], p, s.held[p].value);
    case Pop(c) => AnswersExactlyWhenDue(s, c); PoppedKeepsSelection(s.dists[c]);
  }

  /** Configuring an arithmetic unit opens a branch to its first input, from the source
      named there; its second input is fed exactly when the two sources differ. */
  lemma BothInputsFedIff(s: Net, r: Route)
    requires Inv(s) && Enabled(s, Configure(r)) && r.kind.ArithKind?
    ensures var t := Configured(s, r);
      var a := 2 * (r.phid - LOADERS);
      && t.dists[r.muxA].branches[a].selected && t.selects[a] == r.muxA && t.selects[a + 1] == r.muxB
      && ((exists d: nat :: d < SOURCES && t.dists[d].branches[a + 1].selected) <==> r.muxA != r.muxB)
      && (forall d: nat :: d < SOURCES && t.dists[d].branches[a + 1].selected ==> d == r.muxB)
  {
    hide DistOk, Agrees, HeldOk;
    var t := Configured(s, r);
    var a := 2 * (r.phid - LOADERS);
    assert UnitAt(a) == r.phid && UnitAt(a + 1) == r.phid;
    assert PortFree(s, a) && PortFree(s, a + 1);
    if r.muxA != r.muxB {
      assert t.dists[r.muxB].branches[a + 1].selected;
    }
  }

  // ---------------------------------------------------------------------
  // The combiner
  // ---------------------------------------------------------------------

  datatype Reply = Reply(source: nat, trans: Trans)

  function Replies(source: nat, ts: seq<Trans>): seq<Reply> {
    if ts == [] then [] else [Reply(source, ts[0])] + Replies(source, ts[1..])
  }

  /** The combiner in front of one consumer port. */
  class CombinerUnit {
    const portId: nat
    var select: nat
    var ready: bool
    var iniDone: bool
    var requestPeq: seq<Trans>
    var responsePeq: seq<Trans>
    var forwarded: seq<Trans>
    var replies: seq<Reply>

    constructor (portId: nat)
      ensures this.portId == portId && select == 0 && !ready && !iniDone
      ensures requestPeq == responsePeq == forwarded == [] && replies == []
    {
      this.portId := portId;
      select, ready, iniDone := 0, false, false;
      requestPeq, responsePeq, forwarded, replies := [], [], [], [];
    }

    /** The combiner selects what the crossbar expects at its port, and is ready for
        the start signal exactly when the context is for its own unit. */
    method WriteContextReg(r: Route)
      requires portId < PORTS && RouteOk(r)
      modifies this`select, this`ready
      ensures select == SelectFor(portId, old(select), r)
      ensures ready == (old(ready) || (!r.kind.LoadKind? && UnitAt(portId) == r.phid))
    {
      if r.kind.ArithKind? {
        if portId / 2 + LOADERS == r.phid {
          ready := true;
          select := if portId % 2 == 0 then r.muxA else r.muxB;
        }
      } else if r.kind.StoreKind? {
        if portId - 2 * ARITH_UNITS + LOADERS + ARITH_UNITS == r.phid {
          ready := true;
          select := r.muxA;
        }
      }
    }

    method AllConfig()
      modifies this`ready, this`iniDone
      ensures !ready && iniDone == (old(iniDone) || old(ready))
    {
      if ready {
        ready := false;
        iniDone := true;
      }
    }

    method NbTransportFw(source: nat, t: Trans)
      modifies this`requestPeq
      ensures requestPeq == old(requestPeq) + if source == select then [t] else []
    {
      if source == select {
        requestPeq := requestPeq + [t];
      }
    }

    method RequestThread()
      modifies this`requestPeq, this`forwarded
      ensures requestPeq == [] && forwarded == old(forwarded) + old(requestPeq)
    {
      while requestPeq != []
        invariant forwarded + requestPeq == old(forwarded) + old(requestPeq)
        decreases |requestPeq|
      {
        forwarded := forwarded + [requestPeq[0]];
        requestPeq := requestPeq[1..];
      }
    }

    method NbTransportBw(t: Trans)
      modifies this`responsePeq
      ensures responsePeq == old(responsePeq) + [t]
    {
      responsePeq := responsePeq + [t];
    }

    method ResponseThread()
      modifies this`responsePeq, this`replies
      ensures responsePeq == [] && replies == old(replies) + Replies(select, old(responsePeq))
    {
      while responsePeq != []
        invariant replies + Replies(select, responsePeq) == old(replies) + Replies(select, old(responsePeq))
        decreases |responsePeq|
      {
        replies := replies + [Reply(select, responsePeq[0])];
        responsePeq := responsePeq[1..];
      }
    }
  }
}
