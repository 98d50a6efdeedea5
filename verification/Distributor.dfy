/** One distributor of the crossbar: it sends a request to every selected branch and
    answers upstream once, when all of them have answered. */
module Distributor {
  import opened Common

  const LOADERS: nat := 4
  const ARITH_UNITS: nat := 8
  const SOURCES: nat := 12
  const BRANCHES: nat := 20

  datatype Trans = Trans(id: nat, last: bool)

  datatype Branch = Branch(selected: bool, hasSend: bool, hasReceive: bool)

  const UNUSED_BRANCH := Branch(false, false, false)
  const OPEN_BRANCH := Branch(true, false, false)

  datatype Kind = LoadKind | ArithKind | StoreKind

  /** The part of a unit's context that the crossbar looks at. */
  datatype Route = Route(phid: nat, kind: Kind, muxA: nat, muxB: nat)

  datatype Sending = Sending(port: nat, trans: Trans)

  /** Branch flags, the two queues, and the calls made downstream and upstream. */
  datatype State = State(
    branches: seq<Branch>, ready: bool, iniDone: bool, requests: seq<Trans>, answers: seq<Trans>,
    downstream: seq<Sending>, upstream: seq<Trans>)

  function Initial(): State {
    State(seq(BRANCHES, i => UNUSED_BRANCH), false, false, [], [], [], [])
  }

  /** The port of a consumer that reads from source id; BRANCHES when it reads from
      another source. Input b is considered only when input a does not match. */
  function PortFor(r: Route, id: nat): nat {
    if r.kind.ArithKind? && r.phid >= LOADERS then
      if r.muxA == id then 2 * (r.phid - LOADERS)
      else if r.muxB == id then 2 * (r.phid - LOADERS) + 1
      else BRANCHES
    else if r.kind.StoreKind? && r.phid >= LOADERS && r.muxA == id then r.phid - LOADERS + ARITH_UNITS
    else BRANCHES
  }

  function Routed(s: State, id: nat, r: Route): State
    requires |s.branches| == BRANCHES
  {
    var p := PortFor(r, id);
    if p < BRANCHES then s.(ready := true, branches := s.branches[p := OPEN_BRANCH]) else s
  }

  function Started(s: State): State {
    if s.ready then s.(ready := false, iniDone := true) else s
  }

  function Requested(s: State, t: Trans): State {
    s.(requests := s.requests + [t])
  }

  function MarkSent(b: Branch): Branch {
    if b.selected then b.(hasSend := true) else b
  }

  function AllSent(bs: seq<Branch>): (r: seq<Branch>)
    ensures |r| == |bs|
  {
    seq(|bs|, i requires 0 <= i < |bs| => MarkSent(bs[i]))
  }

  function SendingsUpTo(bs: seq<Branch>, t: Trans, k: nat): seq<Sending>
    requires k <= |bs|
  {
    if k == 0 then []
    else SendingsUpTo(bs, t, k - 1) + (if bs[k - 1].selected then [Sending(k - 1, t)] else [])
  }

  /** A request handed on to the first k branches: to the selected ones and no others, once
      each, in the order of their ports. */
  ghost predicate HandedOn(q: seq<Sending>, bs: seq<Branch>, t: Trans, k: nat)
    requires k <= |bs|
  {
    && (forall j :: 0 <= j < |q| ==> q[j].trans == t && q[j].port < k && bs[q[j].port].selected)
    && (forall i, j :: 0 <= i < j < |q| ==> q[i].port < q[j].port)
    && (forall i :: 0 <= i < k && bs[i].selected ==> exists j :: 0 <= j < |q| && q[j].port == i)
  }

  lemma {:induction false} SendingsHandOn(bs: seq<Branch>, t: Trans, k: nat)
    requires k <= |bs|
    ensures HandedOn(SendingsUpTo(bs, t, k), bs, t, k)
  {
    hide HandedOn;
    if k == 0 {
      NothingHandedOn(bs, t);
    } else {
      SendingsHandOn(bs, t, k - 1);
      HandedOnFurther(SendingsUpTo(bs, t, k - 1), bs, t, k - 1);
    }
  }

  lemma NothingHandedOn(bs: seq<Branch>, t: Trans)
    ensures HandedOn([], bs, t, 0)
  {
  }

  lemma HandedOnFurther(q: seq<Sending>, bs: seq<Branch>, t: Trans, k: nat)
    requires k < |bs| && HandedOn(q, bs, t, k)
    ensures HandedOn(q + (if bs[k].selected then [Sending(k, t)] else []), bs, t, k + 1)
  {
    if bs[k].selected {
      var r := q + [Sending(k, t)];
      assert r[|q|].port == k;
      forall i | 0 <= i < k && bs[i].selected
        ensures exists j :: 0 <= j < |r| && r[j].port == i
      {
        var j :| 0 <= j < |q| && q[j].port == i;
        assert r[j].port == i;
      }
    } else {
      assert q + [] == q;
    }
  }

  /** The first queued request goes to all selected branches. */
  function Delivered(s: State): State
    requires s.requests != []
  {
    var t := s.requests[0];
    s.(requests := s.requests[1..], iniDone := s.iniDone && !t.last, branches := AllSent(s.branches),
       downstream := s.downstream + SendingsUpTo(s.branches, t, |s.branches|))
  }

  function Received(s: State, i: nat, t: Trans): State
    requires i < |s.branches|
  {
    s.(branches := s.branches[i := s.branches[i].(hasReceive := true)], answers := s.answers + [t])
  }

  function SentCount(bs: seq<Branch>, k: nat): nat
    requires k <= |bs|
  {
    if k == 0 then 0 else SentCount(bs, k - 1) + if bs[k - 1].selected && bs[k - 1].hasSend then 1 else 0
  }

  function ReceivedCount(bs: seq<Branch>, k: nat): nat
    requires k <= |bs|
  {
    if k == 0 then 0 else ReceivedCount(bs, k - 1) + if bs[k - 1].selected && bs[k - 1].hasReceive then 1 else 0
  }

  predicate Complete(bs: seq<Branch>) {
    SentCount(bs, |bs|) == ReceivedCount(bs, |bs|) && SentCount(bs, |bs|) != 0
  }

  function Cleared(bs: seq<Branch>, keep: bool): (r: seq<Branch>)
    ensures |r| == |bs|
  {
    seq(|bs|, i requires 0 <= i < |bs| => Branch(bs[i].selected && keep, false, false))
  }

  /** One queued answer is looked at; the request is answered when the counts agree. */
  function Popped(s: State): State
    requires s.answers != []
  {
    var t := s.(answers := s.answers[1..]);
    if Complete(s.branches)
    then t.(branches := Cleared(s.branches, s.iniDone), upstream := s.upstream + [s.answers[0]])
    else t
  }

  // ---------------------------------------------------------------------
  // What the counts say
  // ---------------------------------------------------------------------

  /** Flags while a request is out: sent to exactly the selected branches. */
  predicate Out(bs: seq<Branch>) {
    forall i :: 0 <= i < |bs| ==> bs[i].hasSend == bs[i].selected && (bs[i].hasReceive ==> bs[i].selected)
  }

  predicate AllAnswered(bs: seq<Branch>) {
    forall i :: 0 <= i < |bs| && bs[i].selected ==> bs[i].hasReceive
  }

  predicate AnySelected(bs: seq<Branch>) {
    exists i :: 0 <= i < |bs| && bs[i].selected
  }

  predicate Quiet(bs: seq<Branch>) {
    forall i :: 0 <= i < |bs| ==> !bs[i].hasSend && !bs[i].hasReceive
  }

  lemma {:induction false} CountsCompare(bs: seq<Branch>, k: nat)
    requires Out(bs) && k <= |bs|
    ensures ReceivedCount(bs, k) <= SentCount(bs, k)
    ensures ReceivedCount(bs, k) == SentCount(bs, k) <==> forall i :: 0 <= i < k && bs[i].selected ==> bs[i].hasReceive
    ensures SentCount(bs, k) != 0 <==> exists i :: 0 <= i < k && bs[i].selected
  {
    if k != 0 {
      CountsCompare(bs, k - 1);
      if bs[k - 1].selected {
        assert SentCount(bs, k) == SentCount(bs, k - 1) + 1;
      }
    }
  }

  /** The equal-counts test is exactly "some branch was selected and all selected
      branches have answered". */
  lemma CompleteIff(bs: seq<Branch>)
    requires Out(bs)
    ensures Complete(bs) <==> AnySelected(bs) && AllAnswered(bs)
  {
    CountsCompare(bs, |bs|);
  }

  lemma {:induction false} QuietCounts(bs: seq<Branch>, k: nat)
    requires Quiet(bs) && k <= |bs|
    ensures SentCount(bs, k) == 0
  {
    if k != 0 { QuietCounts(bs, k - 1); }
  }

  // ---------------------------------------------------------------------
  // The exchange with the source and the branches
  // ---------------------------------------------------------------------

  /** What a distributor owes: current is the source's unanswered request, awaits
      the branches that hold it unanswered, taken the number of requests so far.
      When the answer queue was empty as the request came in, clean says so. */
  ghost predicate Ok(s: State, current: Option<Trans>, awaits: seq<bool>, taken: nat, clean: bool) {
    && |s.branches| == BRANCHES && |awaits| == BRANCHES
    && taken == |s.upstream| + (if current.Some? then 1 else 0)
    && (current.None? || s.requests != [] ==> Quiet(s.branches) && forall i :: 0 <= i < BRANCHES ==> !awaits[i])
    && (current.None? ==> s.requests == [])
    && (current.Some? ==> !s.ready && (s.requests == [] || s.requests == [current.value]))
    && (current.Some? && s.requests == [] ==> Waiting(s, current.value, awaits))
    && (current.Some? && clean ==> forall e <- s.answers :: e == current.value)
  }

  ghost predicate Waiting(s: State, t: Trans, awaits: seq<bool>)
    requires |awaits| == |s.branches|
  {
    && Out(s.branches)
    && (forall i :: 0 <= i < |awaits| ==> awaits[i] == (s.branches[i].selected && !s.branches[i].hasReceive))
    && (AnySelected(s.branches) && AllAnswered(s.branches) ==> s.answers != [])
    && (t.last ==> !s.iniDone)
  }

  function Nobody(): (r: seq<bool>)
    ensures |r| == BRANCHES && forall i :: 0 <= i < BRANCHES ==> !r[i]
  {
    seq(BRANCHES, i => false)
  }

  function SelectedOf(bs: seq<Branch>): (r: seq<bool>)
    ensures |r| == |bs| && forall i :: 0 <= i < |bs| ==> r[i] == bs[i].selected
  {
    seq(|bs|, i requires 0 <= i < |bs| => bs[i].selected)
  }

  lemma InitialOk(clean: bool)
    ensures Ok(Initial(), None, Nobody(), 0, clean)
  {
  }

  lemma RoutedOk(s: State, id: nat, r: Route, awaits: seq<bool>, taken: nat, clean: bool)
    requires Ok(s, None, awaits, taken, clean)
    ensures Ok(Routed(s, id, r), None, awaits, taken, clean)
  {
  }

  lemma StartedOk(s: State, current: Option<Trans>, awaits: seq<bool>, taken: nat, clean: bool)
    requires Ok(s, current, awaits, taken, clean)
    ensures Ok(Started(s), current, awaits, taken, clean)
  {
  }

  lemma RequestedOk(s: State, t: Trans, awaits: seq<bool>, taken: nat, clean: bool)
    requires Ok(s, None, awaits, taken, clean) && !s.ready
    ensures Ok(Requested(s, t), Some(t), awaits, taken + 1, s.answers == [])
  {
  }

  lemma DeliveredOk(s: State, t: Trans, awaits: seq<bool>, taken: nat, clean: bool)
    requires Ok(s, Some(t), awaits, taken, clean) && s.requests != []
    ensures Ok(Delivered(s), Some(t), SelectedOf(s.branches), taken, clean)
    ensures SelectedOf(Delivered(s).branches) == SelectedOf(s.branches)
  {
  }

  lemma ReceivedOk(s: State, t: Trans, awaits: seq<bool>, taken: nat, clean: bool, i: nat)
    requires Ok(s, Some(t), awaits, taken, clean) && s.requests == [] && i < BRANCHES && awaits[i]
    ensures Ok(Received(s, i, t), Some(t), awaits[i := false], taken, clean)
  {
    var r := Received(s, i, t);
    assert r.answers != [];
    assert forall e <- r.answers :: e in s.answers || e == t;
  }

  /** Looking at an answer, stale or not, answers the source's request exactly when
      some branch was selected and all of them have answered; the request is then
      settled, and after the last one of a batch no branch is selected. */
  lemma PoppedOk(s: State, current: Option<Trans>, awaits: seq<bool>, taken: nat, clean: bool)
    requires Ok(s, current, awaits, taken, clean) && s.answers != []
    ensures
      var done :=
        && current.Some? && s.requests == [] && AnySelected(s.branches)
        && forall i :: 0 <= i < BRANCHES ==> !awaits[i];
      && (done ==> |Popped(s).upstream| == |s.upstream| + 1 && Ok(Popped(s), None, awaits, taken, clean))
      && (done && clean ==> Popped(s).upstream == s.upstream + [current.value])
      && (done && current.value.last ==> !AnySelected(Popped(s).branches))
      && (!done ==>
            && Popped(s).upstream == s.upstream && Popped(s).branches == s.branches
            && Ok(Popped(s), current, awaits, taken, clean))
  {
    assert s.answers[0] in s.answers;
    assert forall e <- s.answers[1..] :: e in s.answers;
    if current.Some? && s.requests == [] {
      hide SentCount, ReceivedCount;
      CompleteIff(s.branches);
      assert AllAnswered(s.branches) <==> forall i :: 0 <= i < BRANCHES ==> !awaits[i];
    } else {
      QuietCounts(s.branches, BRANCHES);
    }
  }

  /** What serving all queued requests, one after another, comes to. */
  function AllDelivered(s: State): State
    decreases |s.requests|
  {
    if s.requests == [] then s else AllDelivered(Delivered(s))
  }

  function AllPopped(s: State): State
    decreases |s.answers|
  {
    if s.answers == [] then s else AllPopped(Popped(s))
  }

  class DistributorUnit {
    const id: nat
    const branchTb: array<Branch>
    var ready: bool
    var iniDone: bool
    var requestPeq: seq<Trans>
    var responsePeq: seq<Trans>
    var sendings: seq<Sending>
    var replies: seq<Trans>

    ghost predicate Valid() {
      branchTb.Length == BRANCHES
    }

    ghost function View(): State
      reads this, branchTb
    {
      State(branchTb[..], ready, iniDone, requestPeq, responsePeq, sendings, replies)
    }

    constructor (id: nat)
      ensures Valid() && this.id == id && fresh(branchTb)
      ensures View() == Initial()
    {
      this.id := id;
      branchTb := new Branch[BRANCHES](i => UNUSED_BRANCH);
      ready, iniDone := false, false;
      requestPeq, responsePeq, sendings, replies := [], [], [], [];
    }

    method WriteContextReg(r: Route)
      requires Valid()
      modifies this, branchTb
      ensures View() == Routed(old(View()), id, r)
    {
      var portId := BRANCHES;
      if r.kind.ArithKind? && r.phid >= LOADERS {
        if r.muxA == id {
          portId := 2 * (r.phid - LOADERS);
        } else if r.muxB == id {
          portId := 2 * (r.phid - LOADERS) + 1;
        }
      } else if r.kind.StoreKind? && r.phid >= LOADERS && r.muxA == id {
        portId := r.phid - LOADERS + ARITH_UNITS;
      }
      if portId < BRANCHES {
        ready := true;
        branchTb[portId] := OPEN_BRANCH;
      }
      assert portId < BRANCHES ==> branchTb[..] == old(branchTb[..])[portId := OPEN_BRANCH];
    }

    method AllConfig()
      modifies this
      ensures View() == Started(old(View()))
    {
      if ready {
        ready := false;
        iniDone := true;
      }
    }

    method NbTransportFw(t: Trans)
      modifies this
      ensures View() == Requested(old(View()), t)
    {
      requestPeq := requestPeq + [t];
    }

    method SendFirst()
      requires Valid() && requestPeq != []
      modifies this, branchTb
      ensures View() == Delivered(old(View()))
      ensures |sendings| >= |old(sendings)| && sendings[..|old(sendings)|] == old(sendings)
      ensures HandedOn(sendings[|old(sendings)|..], old(branchTb[..]), old(requestPeq)[0], BRANCHES)
    {
      hide HandedOn;
      var t := requestPeq[0];
      requestPeq := requestPeq[1..];
      if t.last {
        iniDone := false;
      }
      for i := 0 to BRANCHES
        invariant forall k :: 0 <= k < BRANCHES ==>
          branchTb[k] == if k < i then MarkSent(old(branchTb[k])) else old(branchTb[k])
        invariant sendings == old(sendings) + SendingsUpTo(old(branchTb[..]), t, i)
        invariant ready == old(ready) && iniDone == (old(iniDone) && !t.last) && replies == old(replies)
        invariant requestPeq == old(requestPeq)[1..] && responsePeq == old(responsePeq)
      {
        if branchTb[i].selected {
          branchTb[i] := branchTb[i].(hasSend := true);
          sendings := sendings + [Sending(i, t)];
        }
      }
      assert branchTb[..] == AllSent(old(branchTb[..]));
      SendingsHandOn(old(branchTb[..]), t, BRANCHES);
      assert sendings[|old(sendings)|..] == SendingsUpTo(old(branchTb[..]), t, BRANCHES);
    }

    method RequestThread()
      requires Valid()
      modifies this, branchTb
      ensures View() == AllDelivered(old(View()))
    {
      while requestPeq != []
        invariant AllDelivered(View()) == AllDelivered(old(View()))
        decreases |requestPeq|
      {
        SendFirst();
      }
    }

    method NbTransportBw(i: nat, t: Trans)
      requires Valid() && i < BRANCHES
      modifies this, branchTb
      ensures View() == Received(old(View()), i, t)
    {
      branchTb[i] := branchTb[i].(hasReceive := true);
      responsePeq := responsePeq + [t];
      assert branchTb[..] == old(branchTb[..])[i := branchTb[i]];
    }

    method TestComplete() returns (complete: bool)
      requires Valid()
      ensures complete == Complete(branchTb[..])
    {
      var sent, received := 0, 0;
      for i := 0 to BRANCHES
        invariant sent == SentCount(branchTb[..], i) && received == ReceivedCount(branchTb[..], i)
      {
        var flags := branchTb[i];
        if flags.selected && flags.hasSend {
          sent := sent + 1;
        }
        if flags.selected && flags.hasReceive {
          received := received + 1;
        }
      }
      complete := sent == received && sent != 0;
    }

    method ClearFlags()
      requires Valid()
      modifies branchTb
      ensures branchTb[..] == Cleared(old(branchTb[..]), iniDone)
    {
      for i := 0 to BRANCHES
        invariant forall k :: 0 <= k < BRANCHES ==>
          branchTb[k] == if k < i then Branch(old(branchTb[k]).selected && iniDone, false, false) else old(branchTb[k])
      {
        if !iniDone {
          branchTb[i] := branchTb[i].(selected := false);
        }
        branchTb[i] := branchTb[i].(hasSend := false, hasReceive := false);
      }
      assert branchTb[..] == Cleared(old(branchTb[..]), iniDone);
    }

    method AnswerFirst()
      requires Valid() && responsePeq != []
      modifies this, branchTb
      ensures View() == Popped(old(View()))
    {
      hide Complete, Cleared;
      var t := responsePeq[0];
      responsePeq := responsePeq[1..];
      var complete := TestComplete();
      if complete {
        ClearFlags();
        replies := replies + [t];
      }
    }

    method ResponseThread()
      requires Valid()
      modifies this, branchTb
      ensures View() == AllPopped(old(View()))
    {
      while responsePeq != []
        invariant AllPopped(View()) == AllPopped(old(View()))
        decreases |responsePeq|
      {
        AnswerFirst();
      }
    }
  }
}
