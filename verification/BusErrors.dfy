/** Which requests the bus completes, which it refuses, and who is told. */
module BusErrors {
  import opened Common
  import opened SimpleBus

  /** Some memory holds the word at this address. */
  predicate Mapped(slaves: seq<Slave>, address: nat) {
    exists k :: 0 <= k < |slaves| && slaves[k].start <= address <= slaves[k].end
  }

  predicate Good(slaves: seq<Slave>, address: nat) {
    address % 4 == 0 && Mapped(slaves, address)
  }

  /** One access is refused exactly when its word is misaligned or unmapped, and then
      without waking anybody and without touching a memory or the masters' data. */
  lemma RefusedIff(s: Bus, i: nat)
    requires (forall k :: 0 <= k < |s.slaves| ==> SlaveOk(s.slaves[k])) && i < |s.forms|
    ensures Handled(s, i).forms[i].status.Failed? <==> !Good(s.slaves, s.forms[i].address)
    ensures !Good(s.slaves, s.forms[i].address) ==>
      && Handled(s, i) == s.(forms := s.forms[i := s.forms[i].(status := Failed)], current := None)
      && Handled(s, i).forms[i].notified == s.forms[i].notified
  {
    hide Advanced;
    var a := s.forms[i].address;
    var k := FindSlave(s.slaves, a, 0);
    if k < |s.slaves| {
      MappedMeansInMemory(s.slaves[k], a);
    }
    AdvancedDoesNotFail(s.forms[i].(status := Waiting));
  }

  lemma AdvancedDoesNotFail(f: Form)
    ensures !Advanced(f).status.Failed?
  {
  }

  // ---------------------------------------------------------------------
  // The words of a request
  // ---------------------------------------------------------------------

  /** Word number j of a request that starts here, in 32-bit arithmetic. */
  function Word(start: nat, j: nat): nat {
    if j == 0 then start else (Word(start, j - 1) + 4) % SPACE
  }

  /** The bus goes on to a word while it has not passed the end address. */
  predicate Asked(f: Form, j: nat) {
    forall i :: 1 <= i <= j ==> Word(f.start, i) <= f.endAddress
  }

  /** How far a form has come, and what its status says about that. */
  ghost predicate Tracked(f: Form, slaves: seq<Slave>) {
    && f.address == Word(f.start, |f.moves|) && f.data == f.base + |f.moves|
    && (forall j :: 0 <= j < |f.moves| ==> Good(slaves, Word(f.start, j)))
    && (f.moves != [] ==> Asked(f, |f.moves| - 1))
    && (!f.status.Okay? ==> Asked(f, |f.moves|))
    && (f.status.Failed? ==> !Good(slaves, f.address))
    && (f.notified <==> f.status.Okay?)
    && (f.status.Okay? ==> f.moves != [] && f.address > f.endAddress)
  }

  ghost predicate AllTracked(forms: seq<Form>, slaves: seq<Slave>) {
    forall i :: 0 <= i < |forms| ==> Tracked(forms[i], slaves)
  }

  /** The words the bus goes on to are those that were asked for. */
  lemma AskedIffRequested(f: Form, r: Request, j: nat)
    requires Regular(r)
    ensures Asked(Filled(f, r), j) <==> j < r.length
  {
    RequestedWords(f, r);
    var g := Filled(f, r);
    if j < r.length {
      forall i | 1 <= i <= j
        ensures Word(g.start, i) <= g.endAddress
      {
        WordBelow(r.address, i);
      }
    } else {
      WordBelow(r.address, r.length);
      assert Word(g.start, r.length) > g.endAddress;
    }
  }

  lemma {:induction false} WordBelow(start: nat, j: nat)
    requires start + 4 * j < SPACE
    ensures Word(start, j) == start + 4 * j
  {
    if j > 0 { WordBelow(start, j - 1); }
  }

  lemma FilledTracked(f: Form, r: Request, slaves: seq<Slave>)
    ensures Tracked(Filled(f, r), slaves)
  {
  }

  lemma RelockedTracked(f: Form, g: Form, slaves: seq<Slave>)
    requires Tracked(f, slaves) && f.(lock := NoLock) == g.(lock := NoLock)
    ensures Tracked(g, slaves)
  {
    assert forall j :: Asked(f, j) == Asked(g, j);
  }

  lemma WaitingTracked(f: Form, slaves: seq<Slave>)
    requires Tracked(f, slaves) && Pending(f)
    ensures Tracked(f.(status := Waiting), slaves)
    ensures !Good(slaves, f.address) ==> Tracked(f.(status := Failed), slaves)
  {
    assert forall j :: Asked(f, j) == Asked(f.(status := Waiting), j) == Asked(f.(status := Failed), j);
  }

  lemma AskedSteps(f: Form, j: nat)
    ensures Asked(f, j + 1) <==> Asked(f, j) && Word(f.start, j + 1) <= f.endAddress
  {
  }

  lemma AskedBefore(f: Form, i: nat, j: nat)
    ensures Asked(f, j) && i <= j ==> Asked(f, i)
  {
  }

  lemma AdvancedTracked(f: Form, slaves: seq<Slave>)
    requires Tracked(f, slaves) && Pending(f) && Good(slaves, f.address)
    ensures Tracked(Advanced(f), slaves)
  {
    hide Good;
    var g := Advanced(f);
    assert forall j :: Asked(f, j) == Asked(g, j);
    AskedSteps(f, |f.moves|);
  }

  // ---------------------------------------------------------------------
  // Runs
  // ---------------------------------------------------------------------

  /** The same address ranges, whatever the contents and counters. */
  predicate SameRanges(a: seq<Slave>, b: seq<Slave>) {
    |a| == |b| && forall k :: 0 <= k < |a| ==> a[k].start == b[k].start && a[k].end == b[k].end
  }

  lemma SameRangesSameWords(a: seq<Slave>, b: seq<Slave>, address: nat)
    requires SameRanges(a, b)
    ensures Good(a, address) == Good(b, address)
  {
    if Mapped(a, address) {
      var k :| 0 <= k < |a| && a[k].start <= address <= a[k].end;
      assert Contains(b[k], address);
    }
    if Mapped(b, address) {
      var k :| 0 <= k < |b| && b[k].start <= address <= b[k].end;
      assert Contains(a[k], address);
    }
  }

  lemma TrackedBy(f: Form, a: seq<Slave>, b: seq<Slave>)
    requires SameRanges(a, b) && Tracked(f, a)
    ensures Tracked(f, b)
  {
    hide Good, SameRanges;
    SameRangesSameWords(a, b, f.address);
    forall j | 0 <= j < |f.moves|
      ensures Good(b, Word(f.start, j))
    {
      SameRangesSameWords(a, b, Word(f.start, j));
    }
  }

  lemma IssueTracked(s: Bus, r: Request)
    requires AllTracked(s.forms, s.slaves)
    ensures AllTracked(Issue(s, r).forms, s.slaves)
  {
    hide Tracked;
    var forms := WithForm(s.forms, r.priority);
    FilledTracked(forms[FindForm(s.forms, r.priority, 0)], r, s.slaves);
  }

  lemma ArbitratedTracked(s: Bus)
    requires AllTracked(s.forms, s.slaves)
    ensures AllTracked(Arbitrated(s).forms, s.slaves)
    ensures Arbitrated(s).current.Some? ==> Pending(Arbitrated(s).forms[Arbitrated(s).current.value])
    ensures Arbitrated(s).slaves == s.slaves
  {
    hide Tracked, Winner, Promoted;
    var indices := PendingIndices(s.forms, |s.forms|);
    var q := Gather(s.forms, indices);
    if q != [] {
      var i := indices[Winner(q)];
      PromotedKeepsBurst(q);
      assert Pending(s.forms[i]);
      PromotedIsPending(q);
      RelockedTracked(s.forms[i], Promoted(q), s.slaves);
    }
  }

  lemma PromotedIsPending(q: seq<Form>)
    requires q != []
    ensures Promoted(q).status == q[Winner(q)].status
  {
    hide Winner;
  }

  lemma HandledTracked(s: Bus, c: nat)
    requires AllTracked(s.forms, s.slaves) && c < |s.forms| && Pending(s.forms[c])
    requires forall k :: 0 <= k < |s.slaves| ==> SlaveOk(s.slaves[k])
    ensures AllTracked(Handled(s, c).forms, s.slaves) && SameRanges(s.slaves, Handled(s, c).slaves)
  {
    hide Tracked, Advanced, FindSlave;
    var f := s.forms[c];
    RefusedIff(s, c);
    WaitingTracked(f, s.slaves);
    if Good(s.slaves, f.address) {
      AdvancedTracked(f.(status := Waiting), s.slaves);
    }
  }

  lemma ClearedTracked(forms: seq<Form>, slaves: seq<Slave>)
    requires AllTracked(forms, slaves)
    ensures AllTracked(ClearLocks(forms), slaves)
  {
    hide Tracked;
    forall i | 0 <= i < |forms|
      ensures Tracked(ClearLocks(forms)[i], slaves)
    {
      RelockedTracked(forms[i], Cleared(forms[i]), slaves);
    }
  }

  lemma FallingEdgeTracked(s: Bus)
    requires FormsOk(s.forms, s.current) && SlavesOk(s.slaves)
    requires AllTracked(s.forms, s.slaves)
    ensures AllTracked(FallingEdge(s).forms, s.slaves) && SameRanges(s.slaves, FallingEdge(s).slaves)
  {
    hide Tracked, Handled, Arbitrated, BurstOk, LocksOk, CountsOk;
    ArbitratedTracked(s);
    var a := if s.current.None? then Arbitrated(s) else s;
    if a.current.Some? {
      HandledTracked(a, a.current.value);
    }
    var h := if a.current.Some? then Handled(a, a.current.value) else a;
    ClearedTracked(h.forms, s.slaves);
  }

  lemma NextTracked(s: Bus, e: Event)
    requires Inv(s) && Possible(s, e) && AllTracked(s.forms, s.slaves)
    ensures AllTracked(Next(s, e).forms, Next(s, e).slaves) && SameRanges(s.slaves, Next(s, e).slaves)
  {
    hide Tracked, FallingEdge, Issue, FormsOk, CountsOk, SlavesOk;
    var t := Next(s, e);
    match e
    case Issued(r) =>
      IssueTracked(s, r);
      IssueTouchesForms(s, r);
    case Edge =>
      RisingEdgeKeeps(s);
      var u := RisingEdge(s);
      forall i | 0 <= i < |u.forms|
        ensures Tracked(u.forms[i], u.slaves)
      {
        TrackedBy(s.forms[i], s.slaves, u.slaves);
      }
      FallingEdgeTracked(u);
      forall i | 0 <= i < |t.forms|
        ensures Tracked(t.forms[i], t.slaves)
      {
        TrackedBy(t.forms[i], u.slaves, t.slaves);
      }
  }

  lemma {:induction false} RunTracked(s: Bus, events: seq<Event>)
    requires Inv(s) && AllTracked(s.forms, s.slaves) && Run(s, events).Some?
    ensures var t := Run(s, events).value;
      AllTracked(t.forms, t.slaves) && SameRanges(s.slaves, t.slaves)
  {
    hide Tracked, Next, FormsOk, CountsOk, SlavesOk;
    if events != [] {
      var n := |events| - 1;
      RunTracked(s, events[..n]);
      RunKeeps(s, events[..n]);
      NextTracked(Run(s, events[..n]).value, events[n]);
    }
  }

  /** In every reachable state a request that is no longer pending has been announced
      if and only if each of its words is aligned and lies in some memory; otherwise it
      has failed at the first word that does not. */
  lemma AnnouncedIffAllWordsGood(s: Bus, events: seq<Event>, i: nat)
    requires Initial(s) && Run(s, events).Some?
    requires i < |Run(s, events).value.forms| && !Pending(Run(s, events).value.forms[i])
    ensures var f := Run(s, events).value.forms[i];
      && (f.notified <==> forall j: nat :: Asked(f, j) ==> Good(s.slaves, Word(f.start, j)))
      && (f.status.Failed? <==> !f.notified)
      && (f.status.Failed? ==> f.address == Word(f.start, |f.moves|) && !Good(s.slaves, f.address))
  {
    hide Run, Good;
    InitialInv(s);
    RunTracked(s, events);
    var t := Run(s, events).value;
    var f := t.forms[i];
    assert Tracked(f, t.slaves);
    forall a: nat
      ensures Good(s.slaves, a) == Good(t.slaves, a)
    {
      SameRangesSameWords(s.slaves, t.slaves, a);
    }
    if f.notified {
      assert !Asked(f, |f.moves|);
      forall j: nat | Asked(f, j)
        ensures Good(s.slaves, Word(f.start, j))
      {
        AskedBefore(f, |f.moves|, j);
      }
    } else {
      assert Asked(f, |f.moves|);
    }
  }

  /** A form that holds the range of a request. */
  ghost predicate Holds(f: Form, r: Request) {
    f.priority == r.priority && f.start == r.address && f.endAddress == Filled(f, r).endAddress
  }

  lemma OnlyForm(forms: seq<Form>, priority: nat, c: nat)
    requires DistinctPriorities(forms) && c < |forms| && forms[c].priority == priority
    ensures FindForm(forms, priority, 0) == c
  {
    var i := FindForm(forms, priority, 0);
    assert i <= c;
  }

  lemma NextHolds(s: Bus, e: Event, c: nat, r: Request)
    requires Inv(s) && Possible(s, e) && c < |s.forms| && Holds(s.forms[c], r)
    requires e.Issued? ==> e.request.priority != r.priority
    ensures c < |Next(s, e).forms| && Holds(Next(s, e).forms[c], r)
  {
    hide FormsOk, SlavesOk, CountsOk, FallingEdge;
    if e.Edge? { RequestStays(s, c); }
  }

  /** Until the same priority is used again, the request stays in its form. */
  lemma {:induction false} RequestInForm(s: Bus, history: seq<Event>, r: Request, events: seq<Event>)
    requires Inv(s) && Run(s, history + [Issued(r)] + events).Some?
    requires forall e <- events :: e.Issued? ==> e.request.priority != r.priority
    ensures var t := Run(s, history + [Issued(r)] + events).value;
      Inv(t) && exists c :: 0 <= c < |t.forms| && Holds(t.forms[c], r)
    decreases |events|
  {
    hide Inv, Next, Holds;
    var all := history + [Issued(r)] + events;
    RunKeeps(s, all);
    if events == [] {
      assert all[..|all| - 1] == history;
      RunKeeps(s, history);
      var u := Run(s, history).value;
      FreshlyHeld(u, r);
      assert Holds(Run(s, all).value.forms[FindForm(u.forms, r.priority, 0)], r);
    } else {
      var n := |events| - 1;
      assert all[..|all| - 1] == history + [Issued(r)] + events[..n];
      assert all[|all| - 1] == events[n];
      assert forall e <- events[..n] :: e in events;
      RequestInForm(s, history, r, events[..n]);
      var u := Run(s, all[..|all| - 1]).value;
      var c :| 0 <= c < |u.forms| && Holds(u.forms[c], r);
      assert events[n] in events;
      NextHolds(u, events[n], c, r);
      assert Holds(Run(s, all).value.forms[c], r);
    }
  }

  lemma FreshlyHeld(u: Bus, r: Request)
    ensures var c := FindForm(u.forms, r.priority, 0);
      c < |Next(u, Issued(r)).forms| && Holds(Next(u, Issued(r)).forms[c], r)
  {
  }

  /** In every run, a regular request that is no longer pending has been announced if and
      only if all the words asked for are aligned and lie in some memory. */
  lemma RequestAnnouncedIff(s: Bus, history: seq<Event>, r: Request, events: seq<Event>)
    requires Initial(s) && Regular(r) && Run(s, history + [Issued(r)] + events).Some?
    requires forall e <- events :: e.Issued? ==> e.request.priority != r.priority
    ensures var t := Run(s, history + [Issued(r)] + events).value;
      var c := FindForm(t.forms, r.priority, 0);
      && c < |t.forms|
      && (!Pending(t.forms[c]) ==>
            (t.forms[c].notified <==> forall j: nat :: j < r.length ==> Good(s.slaves, Word(r.address, j))))
  {
    hide Run, Good, Holds, Asked, BurstOk;
    var all := history + [Issued(r)] + events;
    InitialInv(s);
    RequestInForm(s, history, r, events);
    var t := Run(s, all).value;
    var c :| 0 <= c < |t.forms| && Holds(t.forms[c], r);
    var f := t.forms[c];
    HeldRange(f, r);
    OnlyForm(t.forms, r.priority, c);
    if !Pending(f) {
      AnnouncedIffAllWordsGood(s, all, c);
      forall j: nat
        ensures Asked(f, j) <==> j < r.length
      {
        AskedIffRequested(f, r, j);
        AskedByRange(f, Filled(f, r), j);
      }
    }
  }

  lemma HeldRange(f: Form, r: Request)
    requires Holds(f, r)
    ensures f.priority == r.priority && f.start == Filled(f, r).start == r.address
    ensures f.endAddress == Filled(f, r).endAddress
  {
  }

  lemma AskedByRange(f: Form, g: Form, j: nat)
    requires f.start == g.start && f.endAddress == g.endAddress
    ensures Asked(f, j) <==> Asked(g, j)
  {
  }

  /** A request whose end address lies in the top word of the address space is never
      announced: the address wraps to zero before it can pass the end. */
  lemma TopWordIsNeverAnnounced(s: Bus, events: seq<Event>, i: nat)
    requires Initial(s) && Run(s, events).Some? && i < |Run(s, events).value.forms|
    requires Run(s, events).value.forms[i].endAddress >= SPACE - 4
    ensures !Run(s, events).value.forms[i].notified
  {
    hide Run, Mapped;
    InitialInv(s);
    RunTracked(s, events);
    var t := Run(s, events).value;
    var f := t.forms[i];
    assert Tracked(f, t.slaves);
    if f.moves != [] {
      assert Good(t.slaves, Word(f.start, |f.moves| - 1));
      AlignedNext(Word(f.start, |f.moves| - 1));
    }
  }

  lemma AlignedNext(a: nat)
    requires a % 4 == 0
    ensures (a + 4) % SPACE <= SPACE - 4
  {
    var b := (a + 4) / 4;
    assert a + 4 == 4 * b;
    assert (a + 4) % SPACE == 4 * (b % 0x4000_0000);
  }

  /** A caller that waits for its announcement and therefore issues nothing else is
      never woken from a failed request, whatever everybody else does. */
  lemma {:induction false} FailedCallerSleeps(s: Bus, events: seq<Event>, i: nat)
    requires Inv(s) && Run(s, events).Some? && i < |s.forms| && s.forms[i].status.Failed? && !s.forms[i].notified
    requires forall e <- events :: e.Issued? ==> e.request.priority != s.forms[i].priority
    ensures var t := Run(s, events).value;
      && i < |t.forms| && t.forms[i].status.Failed? && !t.forms[i].notified
      && t.forms[i].priority == s.forms[i].priority
  {
    hide Next, FormsOk, CountsOk, SlavesOk;
    if events != [] {
      var n := |events| - 1;
      assert forall e <- events[..n] :: e in events;
      FailedCallerSleeps(s, events[..n], i);
      RunKeeps(s, events[..n]);
      assert events[n] in events;
      FailedStays(Run(s, events[..n]).value, events[n], i);
    }
  }

  lemma FailedStays(s: Bus, e: Event, i: nat)
    requires Inv(s) && i < |s.forms| && s.forms[i].status.Failed? && !s.forms[i].notified
    requires e.Issued? ==> e.request.priority != s.forms[i].priority
    ensures var t := Next(s, e);
      && i < |t.forms| && t.forms[i].status.Failed? && !t.forms[i].notified
      && t.forms[i].priority == s.forms[i].priority
  {
    hide BurstOk, LocksOk, CountsOk, SlavesOk, FallingEdge, Arbitrated;
    if e.Edge? {
      if s.current.None? {
        RestCycle(s);
      } else {
        ServedTarget(s, s.current.value);
        ServedCycle(s, s.current.value);
        OthersAreCleared(s, s.current.value);
      }
    }
  }
}
