/** The links of the data path are what the crossbar looks like to a source that feeds
    one consumer. */
module ArrayLinks {
  import opened Common
  import opened ArrayTypes
  import Dataflow
  import opened Distributor
  import Crossbar

  /** Source d's distributor has one branch open, the one to port p. */
  predicate OnlyBranch(bs: seq<Branch>, p: nat) {
    p < |bs| && forall i :: 0 <= i < |bs| ==> (bs[i].selected <==> i == p)
  }

  /** The link from source d to port p: idle between requests, moving until the request
      has been handed on, delivered while the unit holds it, then answered. */
  function LinkView(s: Crossbar.Net, d: nat, p: nat, word: Trans -> Payload): Dataflow.Link
    requires Crossbar.Shaped(s) && d < SOURCES && p < Crossbar.PORTS
  {
    if s.current[d].None? then Dataflow.Idle
    else if s.dists[d].requests != [] then Dataflow.Moving(word(s.current[d].value))
    else if s.held[p].Some? && s.selects[p] == d then Dataflow.Delivered
    else Dataflow.Answered
  }

  /** What a step of the crossbar does to the link: a request puts its word on it, a
      delivery and an answer move it on, and the settling look at the answer frees it;
      everything else leaves it alone. */
  ghost predicate LinkMoves(before: Dataflow.Link, after: Dataflow.Link, s: Crossbar.Net, step: Crossbar.Step,
                            d: nat, p: nat, word: Trans -> Payload)
    requires Crossbar.Shaped(s) && d < SOURCES && p < Crossbar.PORTS
  {
    match step
    case Request(c, t) => if c == d then before.Idle? && after == Dataflow.Moving(word(t)) else after == before
    case Deliver(c) => if c == d then before.Moving? && after.Delivered? else after == before
    case Answer(q) =>
      if q == p && s.held[p].Some? && s.selects[p] == d then before.Delivered? && after.Answered? else after == before
    case Pop(c) => if c == d && before.Answered? then after.Idle? else after == before
    case Configure(_) => after == before
    case AllConfig => after == before
  }

  /** With one branch open, every step of the whole crossbar is a step of the link or
      leaves it as it is; the unit holds exactly the request in flight. */
  lemma CrossbarRefinesLink(s: Crossbar.Net, step: Crossbar.Step, d: nat, p: nat, word: Trans -> Payload)
    requires Crossbar.Inv(s) && Crossbar.Enabled(s, step) && d < SOURCES && p < Crossbar.PORTS
    requires s.current[d].Some? || (step.Request? && step.source == d) ==> OnlyBranch(s.dists[d].branches, p)
    ensures Crossbar.Inv(Crossbar.Next(s, step))
    ensures var t := Crossbar.Next(s, step);
      && LinkMoves(LinkView(s, d, p, word), LinkView(t, d, p, word), s, step, d, p, word)
      && (t.current[d].Some? ==> OnlyBranch(t.dists[d].branches, p))
      && (LinkView(t, d, p, word).Delivered? ==> t.held[p] == t.current[d])
  {
    hide Crossbar.DistOk, Crossbar.Agrees, Crossbar.Awaits, Crossbar.HeldOk, Crossbar.PortFree;
    Crossbar.StepKeeps(s, step);
    var t := Crossbar.Next(s, step);
    HeldByLink(t, d, p, word);
    match step
    case Configure(r) => ConfiguredLink(s, r, d, p, word);
    case AllConfig =>
    case Request(c, x) =>
    case Deliver(c) => DeliveredLink(s, c, d, p, word);
    case Answer(q) => AnsweredLink(s, q, d, p, word);
    case Pop(c) => PoppedLink(s, c, d, p, word);
  }

  lemma HeldByLink(t: Crossbar.Net, d: nat, p: nat, word: Trans -> Payload)
    requires Crossbar.Inv(t) && d < SOURCES && p < Crossbar.PORTS
    ensures LinkView(t, d, p, word).Delivered? ==> t.held[p] == t.current[d]
  {
    hide Crossbar.DistOk, Crossbar.Agrees;
    assert Crossbar.HeldOk(t, p);
  }

  lemma ConfiguredLink(s: Crossbar.Net, r: Route, d: nat, p: nat, word: Trans -> Payload)
    requires Crossbar.Inv(s) && Crossbar.Enabled(s, Crossbar.Configure(r)) && d < SOURCES && p < Crossbar.PORTS
    requires s.current[d].Some? ==> OnlyBranch(s.dists[d].branches, p)
    ensures var t := Crossbar.Configured(s, r);
      && Crossbar.Shaped(t) && LinkView(t, d, p, word) == LinkView(s, d, p, word)
      && (t.current[d].Some? ==> OnlyBranch(t.dists[d].branches, p))
  {
    hide Crossbar.DistOk, Crossbar.Agrees, Crossbar.HeldOk;
    Crossbar.EndsAgree(s.selects, r, d);
    if s.current[d].Some? {
      assert PortFor(r, d) == BRANCHES;
    }
  }

  lemma DeliveredLink(s: Crossbar.Net, c: nat, d: nat, p: nat, word: Trans -> Payload)
    requires Crossbar.Inv(s) && Crossbar.Enabled(s, Crossbar.Deliver(c)) && d < SOURCES && p < Crossbar.PORTS
    requires s.current[d].Some? ==> OnlyBranch(s.dists[d].branches, p)
    ensures var t := Crossbar.Spread(s, c);
      && Crossbar.Shaped(t)
      && LinkMoves(LinkView(s, d, p, word), LinkView(t, d, p, word), s, Crossbar.Deliver(c), d, p, word)
      && (t.current[d].Some? ==> OnlyBranch(t.dists[d].branches, p))
  {
    hide Crossbar.DistOk, Crossbar.HeldOk, Crossbar.Awaits, Crossbar.Passed;
    Crossbar.QueuedRequest(s, c);
    Crossbar.PassedIff(s, c, p);
    assert Crossbar.Agrees(s, c) && Crossbar.Agrees(s, d);
    if c == d { DeliveredClearsOne(s.dists[d], p); }
  }

  lemma DeliveredClearsOne(s: State, p: nat)
    requires |s.requests| == 1 && OnlyBranch(s.branches, p)
    ensures Delivered(s).requests == [] && OnlyBranch(Delivered(s).branches, p)
  {
  }

  lemma AnsweredLink(s: Crossbar.Net, q: nat, d: nat, p: nat, word: Trans -> Payload)
    requires Crossbar.Inv(s) && Crossbar.Enabled(s, Crossbar.Answer(q)) && d < SOURCES && p < Crossbar.PORTS
    requires s.current[d].Some? ==> OnlyBranch(s.dists[d].branches, p)
    ensures var t := Crossbar.Answered(s, q);
      && Crossbar.Shaped(t)
      && LinkMoves(LinkView(s, d, p, word), LinkView(t, d, p, word), s, Crossbar.Answer(q), d, p, word)
      && (t.current[d].Some? ==> OnlyBranch(t.dists[d].branches, p))
  {
    hide Crossbar.DistOk, Crossbar.Agrees, Crossbar.Awaits;
    assert Crossbar.HeldOk(s, q);
    Crossbar.ReceivedKeepsSelection(s.dists[s.selects[q]], q, s.held[q].value);
  }

  lemma PoppedLink(s: Crossbar.Net, c: nat, d: nat, p: nat, word: Trans -> Payload)
    requires Crossbar.Inv(s) && Crossbar.Enabled(s, Crossbar.Pop(c)) && d < SOURCES && p < Crossbar.PORTS
    requires s.current[d].Some? ==> OnlyBranch(s.dists[d].branches, p)
    ensures var t := Crossbar.Looked(s, c);
      && Crossbar.Shaped(t)
      && LinkMoves(LinkView(s, d, p, word), LinkView(t, d, p, word), s, Crossbar.Pop(c), d, p, word)
      && (t.current[d].Some? ==> OnlyBranch(t.dists[d].branches, p))
  {
    hide Crossbar.DistOk, Crossbar.HeldOk, Crossbar.Awaits, Complete;
    Crossbar.AnswersExactlyWhenDue(s, c);
    Crossbar.PoppedKeepsSelection(s.dists[c]);
    if c == d && s.current[d].Some? {
      SettledExactlyWhenAnswered(s, d, p, word);
      if !Crossbar.Due(s, d) { LookedKeepsFlags(s, d); }
    }
  }

  /** For a source with one branch, a queued answer settles its request exactly when the
      link is answered. */
  lemma SettledExactlyWhenAnswered(s: Crossbar.Net, d: nat, p: nat, word: Trans -> Payload)
    requires Crossbar.Inv(s) && d < SOURCES && p < Crossbar.PORTS
    requires s.current[d].Some? && OnlyBranch(s.dists[d].branches, p)
    ensures Crossbar.Due(s, d) <==> LinkView(s, d, p, word).Answered?
  {
    hide Crossbar.HeldOk;
    assert s.dists[d].branches[p].selected;
    assert Crossbar.DistOk(s, d) && Crossbar.Agrees(s, d);
    forall q: nat | q < Crossbar.PORTS && s.selects[q] == d && s.held[q].Some? && s.dists[d].requests == []
      ensures q == p
    {
      assert Crossbar.Awaits(s, d)[q];
    }
  }

  lemma LookedKeepsFlags(s: Crossbar.Net, d: nat)
    requires Crossbar.Inv(s) && Crossbar.Enabled(s, Crossbar.Pop(d)) && s.current[d].Some? && !Crossbar.Due(s, d)
    ensures Crossbar.Looked(s, d).dists[d].branches == s.dists[d].branches
  {
    hide Ok, AnySelected, Crossbar.Agrees, Crossbar.HeldOk, Complete;
    assert Crossbar.DistOk(s, d);
    Crossbar.DueAwaits(s, d);
    PoppedOk(s.dists[d], s.current[d], Crossbar.Awaits(s, d), s.taken[d], s.clean[d]);
  }
}
