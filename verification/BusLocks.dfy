/** How far a lock protects a burst. */
module BusLocks {
  import opened Common
  import opened SimpleBus

  /** Between words of a burst the lock is one step weaker than it was: a granted lock
      is still set, and any other is gone. */
  lemma LockAfterWord(s: Bus, c: nat)
    requires Inv(s) && s.current == Some(c)
    requires Next(s, Edge).current.None? && Next(s, Edge).forms[c].status.Waiting?
    ensures Next(s, Edge).forms[c].lock == if s.forms[c].lock.LockGranted? then LockSet else NoLock
    ensures Next(s, Edge).forms[c].moves == s.forms[c].moves + [Move(s.forms[c].address, s.forms[c].data)]
  {
    hide BurstOk, LocksOk, FormsOk, CountsOk, SlavesOk;
    ServedTarget(s, c);
    ServedCycle(s, c);
  }

  /** Form c comes before every other pending form. */
  ghost predicate Foremost(s: Bus, c: nat)
    requires c < |s.forms|
  {
    forall i :: 0 <= i < |s.forms| && i != c && Pending(s.forms[i]) ==>
      && !InLockedBurst(s.forms[i])
      && !s.forms[i].lock.LockGranted?
      && s.forms[c].priority < s.forms[i].priority
  }

  /** A burst that waits for its next word gets the bus exactly when its lock is still
      set, or it comes before every other pending form in its own right. */
  lemma BurstGoesOnIff(s: Bus, c: nat)
    requires FormsOk(s.forms, None) && s.current.None? && c < |s.forms| && s.forms[c].status.Waiting?
    ensures Arbitrated(s).current == Some(c) <==> s.forms[c].lock.LockSet? || Foremost(s, c)
  {
    hide BurstOk;
    if s.forms[c].lock.LockSet? {
      LockedBurstWins(s, c);
    } else {
      assert s.forms[c].lock.NoLock?;
      UnlockedGoesOnIff(s, c);
    }
  }

  lemma UnlockedGoesOnIff(s: Bus, c: nat)
    requires DistinctPriorities(s.forms) && s.current.None? && c < |s.forms|
    requires Pending(s.forms[c]) && s.forms[c].lock.NoLock?
    ensures Arbitrated(s).current == Some(c) <==> Foremost(s, c)
  {
    hide Promoted, Winner;
    var indices := PendingIndices(s.forms, |s.forms|);
    var q := Gather(s.forms, indices);
    var k := PendingIsListed(s.forms, |s.forms|, c);
    ListedInOrder(s.forms, |s.forms|);
    assert q[k] == s.forms[c];
    var w := Winner(q);
    if Foremost(s, c) {
      assert forall j :: 0 <= j < |q| && j != k ==> indices[j] != c;
      assert forall j :: 0 <= j < |q| && j != k ==> Pending(s.forms[indices[j]]);
      ForemostWins(q, k);
    } else {
      var i :| 0 <= i < |s.forms| && i != c && Pending(s.forms[i])
        && (InLockedBurst(s.forms[i]) || s.forms[i].lock.LockGranted? || s.forms[c].priority >= s.forms[i].priority);
      var j := PendingIsListed(s.forms, |s.forms|, i);
      assert s.forms[i].priority != s.forms[c].priority;
      OtherWins(q, k, j);
      assert indices[w] != c;
    }
  }

  lemma ForemostWins(q: seq<Form>, k: nat)
    requires k < |q| && !InLockedBurst(q[k]) && !q[k].lock.LockGranted?
    requires forall j :: 0 <= j < |q| && j != k ==>
      !InLockedBurst(q[j]) && !q[j].lock.LockGranted? && q[k].priority < q[j].priority
    ensures Winner(q) == k
  {
    assert FirstInLockedBurst(q, 0) == |q| && FirstGranted(q, 0) == |q|;
    assert q[Lowest(q, |q|)].priority <= q[k].priority;
  }

  lemma OtherWins(q: seq<Form>, k: nat, j: nat)
    requires k < |q| && j < |q| && !InLockedBurst(q[k]) && !q[k].lock.LockGranted?
    requires InLockedBurst(q[j]) || q[j].lock.LockGranted? || q[j].priority < q[k].priority
    ensures Winner(q) != k
  {
    if Winner(q) == k {
      assert FirstInLockedBurst(q, 0) == |q| && FirstGranted(q, 0) == |q|;
    }
  }

  /** A burst served under a lock that was only set loses the bus, in the middle of the
      burst, to the first request with a lower number that arrives after the word. */
  lemma LockedBurstIsBrokenInto(s: Bus, c: nat, r: Request)
    requires Inv(s) && s.current == Some(c) && s.forms[c].lock.LockSet?
    requires Next(s, Edge).current.None? && Next(s, Edge).forms[c].status.Waiting?
    requires r.priority < s.forms[c].priority && MayIssue(Next(s, Edge), r)
    ensures var t := Next(Next(s, Edge), Issued(r));
      c < |t.forms| && Pending(t.forms[c]) && Arbitrated(RisingEdge(t)).current != Some(c)
  {
    hide BurstOk, LocksOk, CountsOk, SlavesOk, Foremost, FallingEdge;
    LockAfterWord(s, c);
    NextKeeps(s, Edge);
    var u := Next(s, Edge);
    RequestStays(s, c);
    var t := Next(u, Issued(r));
    IssueLeaves(u, r, c);
    NextKeeps(u, Issued(r));
    var i := FindForm(u.forms, r.priority, 0);
    assert Pending(t.forms[i]) && t.forms[i].priority == r.priority;
    assert !Foremost(RisingEdge(t), c) by {
      assert i != c;
      NotForemost(RisingEdge(t), c, i);
    }
    UnlockedGoesOnIff(RisingEdge(t), c);
  }

  lemma NotForemost(s: Bus, c: nat, i: nat)
    requires c < |s.forms| && i < |s.forms| && i != c && Pending(s.forms[i])
    requires s.forms[i].priority <= s.forms[c].priority
    ensures !Foremost(s, c)
  {
  }

  // ---------------------------------------------------------------------
  // A lock handed on to the next request
  // ---------------------------------------------------------------------

  /** Only pending requests hold a granted lock. */
  ghost predicate GrantsArePending(forms: seq<Form>) {
    forall i :: 0 <= i < |forms| && forms[i].lock.LockGranted? ==> Pending(forms[i])
  }

  lemma NextKeepsGrants(s: Bus, e: Event)
    requires Inv(s) && Possible(s, e) && GrantsArePending(s.forms)
    ensures GrantsArePending(Next(s, e).forms)
  {
    hide BurstOk, LocksOk, SlavesOk, CountsOk, FallingEdge, Arbitrated;
    if e.Edge? {
      if s.current.None? {
        RestCycle(s);
      } else {
        ServedTarget(s, s.current.value);
        ServedCycle(s, s.current.value);
        OthersAreCleared(s, s.current.value);
      }
    }
  }

  lemma {:induction false} RunKeepsGrants(s: Bus, events: seq<Event>)
    requires Initial(s) && Run(s, events).Some?
    ensures Inv(Run(s, events).value) && GrantsArePending(Run(s, events).value.forms)
  {
    hide Inv, GrantsArePending, Next;
    InitialInv(s);
    RunKeeps(s, events);
    if events == [] {
      assert GrantsArePending(s.forms) by { NoGrantsAtRest(s); }
    } else {
      var n := |events| - 1;
      RunKeepsGrants(s, events[..n]);
      NextKeepsGrants(Run(s, events[..n]).value, events[n]);
    }
  }

  lemma NoGrantsAtRest(s: Bus)
    requires Initial(s)
    ensures GrantsArePending(s.forms)
  {
  }

  /** No form but c may be chosen for its lock, now or after further requests. */
  ghost predicate OthersHaveNoSay(s: Bus, c: nat)
    requires c < |s.forms|
  {
    forall i :: 0 <= i < |s.forms| && i != c ==>
      && !InLockedBurst(s.forms[i]) && !s.forms[i].lock.LockGranted?
      && (s.forms[i].lock.LockSet? ==> Pending(s.forms[i]))
  }

  lemma EndOfLockedRequest(s: Bus, c: nat)
    requires Inv(s) && GrantsArePending(s.forms) && s.current == Some(c) && s.forms[c].lock.LockGranted?
    requires Next(s, Edge).current.None? && !Pending(Next(s, Edge).forms[c])
    ensures var t := Next(s, Edge);
      c < |t.forms| && t.forms[c].lock.LockSet? && t.forms[c].priority == s.forms[c].priority && OthersHaveNoSay(t, c)
  {
    hide BurstOk, SlavesOk, CountsOk, FallingEdge;
    ServedTarget(s, c);
    ServedCycle(s, c);
    OthersAreCleared(s, c);
  }

  lemma {:induction false} IssuesLeaveNoSay(s: Bus, events: seq<Event>, c: nat)
    requires DistinctPriorities(s.forms) && c < |s.forms| && Pending(s.forms[c]) && OthersHaveNoSay(s, c)
    requires Run(s, events).Some? && forall e :: e in events ==> e.Issued?
    ensures var t := Run(s, events).value;
      && c < |t.forms| && t.forms[c] == s.forms[c] && t.current == s.current
      && DistinctPriorities(t.forms) && OthersHaveNoSay(t, c)
  {
    IssuesLeavePendingForms(s, events, c);
    if events != [] {
      var n := |events| - 1;
      IssuesLeavePendingForms(s, events[..n], c);
      IssuesLeaveNoSay(s, events[..n], c);
      assert events[n].Issued?;
    }
  }

  lemma GrantedRequestWins(s: Bus, c: nat)
    requires s.current.None? && c < |s.forms| && Pending(s.forms[c]) && OthersHaveNoSay(s, c)
    requires s.forms[c].lock.LockGranted?
    ensures Arbitrated(s).current == Some(c) && Arbitrated(s).forms[c].lock.LockGranted?
  {
    var indices := PendingIndices(s.forms, |s.forms|);
    var q := Gather(s.forms, indices);
    var k := PendingIsListed(s.forms, |s.forms|, c);
    assert q[k] == s.forms[c];
    var w := Winner(q);
    assert q[w].lock.LockGranted?;
    assert s.forms[indices[w]].lock.LockGranted?;
  }

  lemma OrdinaryRequestWinsIff(s: Bus, c: nat)
    requires DistinctPriorities(s.forms) && s.current.None? && c < |s.forms| && OthersHaveNoSay(s, c)
    requires s.forms[c].status.Requested? && s.forms[c].lock.LockSet?
    ensures Arbitrated(s).current == Some(c) <==> Foremost(s, c)
  {
    hide Promoted, Winner;
    var indices := PendingIndices(s.forms, |s.forms|);
    var q := Gather(s.forms, indices);
    var k := PendingIsListed(s.forms, |s.forms|, c);
    ListedInOrder(s.forms, |s.forms|);
    assert q[k] == s.forms[c];
    if Foremost(s, c) {
      assert forall j :: 0 <= j < |q| && j != k ==> indices[j] != c;
      assert forall j :: 0 <= j < |q| && j != k ==> Pending(s.forms[indices[j]]);
      ForemostWins(q, k);
    } else {
      var i :| 0 <= i < |s.forms| && i != c && Pending(s.forms[i]) && s.forms[c].priority >= s.forms[i].priority;
      var j := PendingIsListed(s.forms, |s.forms|, i);
      assert s.forms[i].priority != s.forms[c].priority;
      OtherWins(q, k, j);
      assert indices[Winner(q)] != c;
    }
  }

  /** A master that ends a locked request and makes its next one before the bus decides
      again gets the bus ahead of everybody, if that request is locked too; if it is not,
      it gets the bus exactly when it has the lowest number of all that are waiting, but
      then is served under a granted lock as well. */
  lemma NextRequestWinsIff(s0: Bus, history: seq<Event>, c: nat, r: Request, others: seq<Event>)
    requires Initial(s0) && Run(s0, history).Some?
    requires var s := Run(s0, history).value;
      && s.current == Some(c) && c < |s.forms| && s.forms[c].lock.LockGranted? && r.priority == s.forms[c].priority
      && Next(s, Edge).current.None? && c < |Next(s, Edge).forms| && !Pending(Next(s, Edge).forms[c])
      && Run(Next(Next(s, Edge), Issued(r)), others).Some?
    requires forall e :: e in others ==> e.Issued?
    ensures var u := Run(Next(Next(Run(s0, history).value, Edge), Issued(r)), others).value;
      && c < |u.forms|
      && (Arbitrated(RisingEdge(u)).current == Some(c) <==> r.lock || Foremost(u, c))
      && (Arbitrated(RisingEdge(u)).current == Some(c) ==> Arbitrated(RisingEdge(u)).forms[c].lock.LockGranted?)
  {
    hide BurstOk, LocksOk, SlavesOk, CountsOk, FallingEdge, Arbitrated, OthersHaveNoSay, GrantsArePending, Foremost;
    RunKeepsGrants(s0, history);
    var s := Run(s0, history).value;
    EndOfLockedRequest(s, c);
    NextKeeps(s, Edge);
    var t := Next(s, Edge);
    var v := Next(t, Issued(r));
    OwnRequestGoesIn(t, r, c);
    IssuesLeaveNoSay(v, others, c);
    var u := Run(v, others).value;
    TicksDoNotArbitrate(u, c);
    if r.lock {
      GrantedRequestWins(RisingEdge(u), c);
    } else {
      OrdinaryRequestWinsIff(RisingEdge(u), c);
      if Foremost(u, c) { ChosenIsGranted(RisingEdge(u), c); }
    }
  }

  lemma OwnRequestGoesIn(t: Bus, r: Request, c: nat)
    requires DistinctPriorities(t.forms) && t.current.None? && c < |t.forms| && OthersHaveNoSay(t, c)
    requires t.forms[c].lock.LockSet? && t.forms[c].priority == r.priority
    ensures var v := Next(t, Issued(r));
      && v.current.None? && c < |v.forms| && v.forms[c].status.Requested? && v.forms[c].priority == r.priority
      && v.forms[c].lock == (if r.lock then LockGranted else LockSet)
      && DistinctPriorities(v.forms) && OthersHaveNoSay(v, c)
  {
  }

  lemma TicksDoNotArbitrate(u: Bus, c: nat)
    requires c < |u.forms|
    ensures RisingEdge(u).forms == u.forms && RisingEdge(u).current == u.current
    ensures OthersHaveNoSay(u, c) <==> OthersHaveNoSay(RisingEdge(u), c)
    ensures Foremost(u, c) <==> Foremost(RisingEdge(u), c)
  {
  }

  // ---------------------------------------------------------------------
  // How far the lock of a burst reaches
  // ---------------------------------------------------------------------

  /** The locked request c, at any later moment: won tells whether it was chosen when it
      first came before the arbiter. */
  ghost predicate Reach(t: Bus, c: nat, won: bool) {
    && c < |t.forms|
    && var f := t.forms[c];
       Pending(f) ==>
         if won then
           && f.status.Waiting?
           && (f.moves == [] ==> f.lock.LockGranted? && t.current == Some(c))
           && (|f.moves| == 1 ==> f.lock.LockSet? && (t.current.None? || t.current == Some(c)))
           && (|f.moves| >= 2 ==> f.lock.NoLock?)
         else
           f.lock.NoLock? || (f.lock.LockSet? && f.status.Requested? && t.current.Some? && t.current != Some(c))
  }

  /** Nothing more comes from the master of form c. */
  ghost predicate FromOthers(e: Event, priority: nat) {
    e.Issued? ==> e.request.priority != priority
  }

  /** A lock that is only set is granted when its form is chosen, by priority. */
  lemma ChosenIsGranted(s: Bus, c: nat)
    requires s.current.None? && c < |s.forms| && s.forms[c].status.Requested? && s.forms[c].lock.LockSet?
    requires Arbitrated(s).current == Some(c)
    ensures Arbitrated(s).forms[c] == s.forms[c].(lock := LockGranted)
  {
    var indices := PendingIndices(s.forms, |s.forms|);
    var q := Gather(s.forms, indices);
    assert q[Winner(q)] == s.forms[c];
  }

  /** A form inside a locked burst keeps its lock as it is when chosen, and one without a
      lock gets none. */
  lemma ChosenAgain(s: Bus, c: nat)
    requires s.current.None? && c < |s.forms| && (InLockedBurst(s.forms[c]) || s.forms[c].lock.NoLock?)
    requires Arbitrated(s).current == Some(c)
    ensures Arbitrated(s).forms[c] == s.forms[c]
  {
    var indices := PendingIndices(s.forms, |s.forms|);
    var q := Gather(s.forms, indices);
    assert q[Winner(q)] == s.forms[c];
  }

  lemma FirstArbitration(s: Bus, c: nat)
    requires Inv(s) && s.current.None? && c < |s.forms|
    requires s.forms[c].status.Requested? && s.forms[c].lock.LockSet? && s.forms[c].moves == []
    ensures Reach(Next(s, Edge), c, Arbitrated(RisingEdge(s)).current == Some(c))
  {
    hide BurstOk, LocksOk, SlavesOk, CountsOk, Arbitrated, FallingEdge;
    RestCycle(s);
    ArbitrationChoosesSome(s, c);
    if Arbitrated(RisingEdge(s)).current == Some(c) {
      ChosenIsGranted(RisingEdge(s), c);
    }
  }

  lemma ArbitrationChoosesSome(s: Bus, c: nat)
    requires Inv(s) && s.current.None? && c < |s.forms| && Pending(s.forms[c])
    ensures Arbitrated(RisingEdge(s)).current.Some?
  {
    hide BurstOk, Arbitrated;
    RisingEdgeKeeps(s);
    ArbitrationKeeps(RisingEdge(s));
    assert Pending(RisingEdge(s).forms[c]);
  }

  lemma RestReaches(s: Bus, c: nat, won: bool)
    requires Inv(s) && s.current.None? && Reach(s, c, won)
    ensures Reach(Next(s, Edge), c, won)
  {
    hide BurstOk, SlavesOk, CountsOk, Arbitrated, FallingEdge;
    RestCycle(s);
    RisingEdgeKeeps(s);
    if Pending(s.forms[c]) {
      ArbitrationChoosesSome(s, c);
      if InLockedBurst(s.forms[c]) { LockedBurstWins(RisingEdge(s), c); }
      if Arbitrated(RisingEdge(s)).current == Some(c) { ChosenAgain(RisingEdge(s), c); }
    }
  }

  lemma ServiceReaches(s: Bus, c: nat, won: bool)
    requires Inv(s) && s.current.Some? && Reach(s, c, won)
    ensures Reach(Next(s, Edge), c, won)
  {
    hide BurstOk, LocksOk, SlavesOk, CountsOk, FallingEdge;
    var i := s.current.value;
    ServedTarget(s, i);
    ServedCycle(s, i);
    OthersAreCleared(s, i);
  }

  lemma IssueReaches(s: Bus, r: Request, c: nat, won: bool)
    requires Inv(s) && MayIssue(s, r) && Reach(s, c, won) && r.priority != s.forms[c].priority
    ensures Reach(Next(s, Issued(r)), c, won)
    ensures Next(s, Issued(r)).forms[c] == s.forms[c]
  {
  }

  lemma {:induction false} RunReaches(s: Bus, events: seq<Event>, c: nat, won: bool)
    requires Inv(s) && Reach(s, c, won) && Run(s, events).Some?
    requires forall e <- events :: FromOthers(e, s.forms[c].priority)
    ensures var t := Run(s, events).value;
      Inv(t) && Reach(t, c, won) && t.forms[c].priority == s.forms[c].priority
  {
    hide FormsOk, SlavesOk, CountsOk, Next, Pending;
    RunKeeps(s, events);
    if events != [] {
      var n := |events| - 1;
      RunReaches(s, events[..n], c, won);
      var u := Run(s, events[..n]).value;
      assert events[n] in events;
      match events[n]
      case Issued(r) => IssueReaches(u, r, c, won);
      case Edge =>
        RequestStays(u, c);
        if u.current.None? { RestReaches(u, c, won); } else { ServiceReaches(u, c, won); }
    }
  }

  /** A locked request that is chosen when it first comes before the arbiter has the bus to
      itself for its first two words, whatever is issued meanwhile; from the third on, and
      from the first if it was not chosen, it goes on exactly when it comes before every
      other pending form in its own right. */
  lemma LockReachesTwoWords(s: Bus, c: nat, events: seq<Event>)
    requires Inv(s) && s.current.None? && c < |s.forms|
    requires s.forms[c].status.Requested? && s.forms[c].lock.LockSet? && s.forms[c].moves == []
    requires Run(Next(s, Edge), events).Some? && forall e <- events :: FromOthers(e, s.forms[c].priority)
    ensures var won := Arbitrated(RisingEdge(s)).current == Some(c);
      var t := Run(Next(s, Edge), events).value;
      && c < |t.forms|
      && (Pending(t.forms[c]) ==>
            && (won && |t.forms[c].moves| < 2 ==> t.current.None? || t.current == Some(c))
            && (t.current.None? ==>
                  (Arbitrated(RisingEdge(t)).current == Some(c)
                   <==> (won && |t.forms[c].moves| < 2) || Foremost(RisingEdge(t), c))))
  {
    hide BurstOk, SlavesOk, CountsOk, Next, Run, Foremost, Arbitrated;
    NextKeeps(s, Edge);
    FirstArbitration(s, c);
    RequestStays(s, c);
    var won := Arbitrated(RisingEdge(s)).current == Some(c);
    RunReaches(Next(s, Edge), events, c, won);
    var t := Run(Next(s, Edge), events).value;
    if Pending(t.forms[c]) && t.current.None? {
      if t.forms[c].lock.LockSet? {
        LockedBurstWins(RisingEdge(t), c);
      } else {
        UnlockedGoesOnIff(RisingEdge(t), c);
      }
    }
  }

  // ---------------------------------------------------------------------
  // A run in which it happens
  // ---------------------------------------------------------------------

  function RamAt(count: int): Slave { Slave(0, 11, 1, count, [7, 8, 9]) }

  const AT_REST := Bus([], None, [RamAt(-1)], [0, 0, 0])
  const LOCKED_BURST := Request(5, false, 0, 0, 3, true)
  const RIVAL := Request(1, false, 0, 0, 1, false)

  function BurstForm(words: nat, lock: Lock, status: Status, moves: seq<Move>): Form {
    Form(5, false, 4 * words, 8, words, lock, status, false, 0, 0, moves)
  }

  lemma LoneFormIsChosen(s: Bus, f: Form)
    requires s.forms == [f] && Pending(f) && s.current.None?
    ensures Arbitrated(s) == s.(forms := [Promoted([f])], current := Some(0))
  {
    hide Promoted;
    assert PendingIndices(s.forms, 1) == PendingIndices(s.forms, 0) + [0] == [0];
    var q := Gather(s.forms, [0]);
    assert q == [f];
    assert s.forms[0 := Promoted(q)] == [Promoted(q)];
  }

  lemma FirstAccess()
    ensures Next(Next(AT_REST, Issued(LOCKED_BURST)), Edge)
         == Bus([BurstForm(0, LockGranted, Waiting, [])], Some(0), [RamAt(1)], [0, 0, 0])
  {
    var f := BurstForm(0, LockSet, Requested, []);
    var s := Bus([f], None, [RamAt(-1)], [0, 0, 0]);
    assert Next(AT_REST, Issued(LOCKED_BURST)) == s;
    assert RisingEdge(s).slaves == [RamAt(-1)];
    LoneFormIsChosen(RisingEdge(s), f);
    assert Promoted([f]) == BurstForm(0, LockGranted, Requested, []);
    var a := Arbitrated(RisingEdge(s));
    assert Handled(a, 0) == Bus([BurstForm(0, LockGranted, Waiting, [])], Some(0), [RamAt(1)], [0, 0, 0]);
  }

  lemma FirstWord()
    ensures Next(Bus([BurstForm(0, LockGranted, Waiting, [])], Some(0), [RamAt(1)], [0, 0, 0]), Edge)
         == Bus([BurstForm(1, LockSet, Waiting, [Move(0, 0)])], None, [RamAt(0)], [7, 0, 0])
  {
    var s := Bus([BurstForm(0, LockGranted, Waiting, [])], Some(0), [RamAt(1)], [0, 0, 0]);
    var r := RisingEdge(s);
    assert r.slaves == [RamAt(0)];
    var h := Handled(r, 0);
    assert [] + [Move(0, 0)] == [Move(0, 0)];
    assert h.forms == [BurstForm(1, LockGranted, Waiting, [Move(0, 0)])];
    assert h.host == [7, 0, 0];
    assert ClearLocks(h.forms) == [BurstForm(1, LockSet, Waiting, [Move(0, 0)])];
  }

  lemma SecondAccess()
    ensures Next(Bus([BurstForm(1, LockSet, Waiting, [Move(0, 0)])], None, [RamAt(0)], [7, 0, 0]), Edge)
         == Bus([BurstForm(1, LockSet, Waiting, [Move(0, 0)])], Some(0), [RamAt(1)], [7, 0, 0])
  {
    var f := BurstForm(1, LockSet, Waiting, [Move(0, 0)]);
    var s := Bus([f], None, [RamAt(0)], [7, 0, 0]);
    var r := RisingEdge(s);
    assert r.slaves == [RamAt(-1)];
    LoneFormIsChosen(r, f);
    assert Promoted([f]) == f;
    assert Handled(Arbitrated(r), 0).slaves == [RamAt(1)];
  }

  lemma SecondWord()
    ensures var t := Next(Bus([BurstForm(1, LockSet, Waiting, [Move(0, 0)])], Some(0), [RamAt(1)], [7, 0, 0]), Edge);
      t.current.None? && |t.forms| == 1 && t.forms[0].status.Waiting? && t.forms[0].priority == 5
  {
    var s := Bus([BurstForm(1, LockSet, Waiting, [Move(0, 0)])], Some(0), [RamAt(1)], [7, 0, 0]);
    var r := RisingEdge(s);
    assert r.slaves == [RamAt(0)];
  }

  lemma RunThen(s: Bus, before: seq<Event>, e: Event)
    requires Run(s, before).Some? && Possible(Run(s, before).value, e)
    ensures Run(s, before + [e]) == Some(Next(Run(s, before).value, e))
  {
    hide Next, Possible;
    assert (before + [e])[..|before|] == before;
  }

  /** From a bus at rest: a locked burst of three words has moved two of them when a
      request with a lower number arrives, and the bus goes to that one. */
  lemma LockedBurstCanBeBrokenInto() returns (events: seq<Event>)
    ensures Initial(AT_REST) && events == [Issued(LOCKED_BURST), Edge, Edge, Edge, Edge, Issued(RIVAL)]
    ensures var u := Run(AT_REST, events);
      && u.Some? && |u.value.forms| >= 1 && Pending(u.value.forms[0])
      && Arbitrated(RisingEdge(u.value)).current != Some(0)
  {
    hide Next, FallingEdge, RisingEdge, Arbitrated, Handled, Issue, Run;
    assert Run(AT_REST, []) == Some(AT_REST) by { RunNothing(AT_REST); }
    events := [];
    RunThen(AT_REST, events, Issued(LOCKED_BURST));
    events := events + [Issued(LOCKED_BURST)];
    RunThen(AT_REST, events, Edge);
    FirstAccess();
    events := events + [Edge];
    RunThen(AT_REST, events, Edge);
    FirstWord();
    events := events + [Edge];
    RunThen(AT_REST, events, Edge);
    SecondAccess();
    events := events + [Edge];
    InitialInv(AT_REST);
    RunKeeps(AT_REST, events);
    var s := Run(AT_REST, events).value;
    SecondWord();
    RunThen(AT_REST, events, Edge);
    events := events + [Edge];
    RunThen(AT_REST, events, Issued(RIVAL));
    LockedBurstIsBrokenInto(s, 0, RIVAL);
    events := events + [Issued(RIVAL)];
  }

  lemma RunNothing(s: Bus)
    ensures Run(s, []) == Some(s)
  {
  }
}
