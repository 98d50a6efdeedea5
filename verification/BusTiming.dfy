/** How long a burst takes when nobody disturbs it. */
module BusTiming {
  import opened Common
  import opened SimpleBus
  import opened BusErrors
  import opened BusLocks

  /** The bus after n edges and nothing else. */
  function After(s: Bus, n: nat): Bus {
    if n == 0 then s else Next(After(s, n - 1), Edge)
  }

  lemma {:induction false} RunIsAfter(s: Bus, n: nat)
    ensures Run(s, EdgesOnly(n)) == Some(After(s, n))
  {
    hide Next;
    if n > 0 {
      RunIsAfter(s, n - 1);
      assert EdgesOnly(n)[..|EdgesOnly(n - 1)|] == EdgesOnly(n - 1);
    }
  }

  lemma {:induction false} AfterAdds(s: Bus, m: nat, n: nat)
    ensures After(s, m + n) == After(After(s, m), n)
  {
    hide Next;
    if n > 0 { AfterAdds(s, m, n - 1); }
  }

  lemma {:induction false} AfterKeeps(s: Bus, n: nat)
    requires Inv(s)
    ensures Inv(After(s, n))
  {
    hide Inv, Next;
    if n > 0 {
      AfterKeeps(s, n - 1);
      NextKeeps(After(s, n - 1), Edge);
    }
  }

  /** The same ranges and wait states. */
  ghost predicate SameTiming(a: seq<Slave>, b: seq<Slave>) {
    SameRanges(a, b) && forall k :: 0 <= k < |a| ==> a[k].waits == b[k].waits
  }

  lemma ServiceKeepsTiming(s: Bus, i: nat)
    requires i < |s.forms|
    ensures SameTiming(Handled(s, i).slaves, s.slaves)
  {
    hide Advanced;
  }

  lemma ArbitrationKeepsSlaves(s: Bus)
    ensures Arbitrated(s).slaves == s.slaves
  {
    hide Winner, Promoted;
  }

  lemma EdgeKeepsTiming(s: Bus)
    ensures SameTiming(Next(s, Edge).slaves, s.slaves)
  {
    hide Handled, Arbitrated;
    var r := RisingEdge(s);
    ArbitrationKeepsSlaves(r);
    var a := if r.current.None? then Arbitrated(r) else r;
    if a.current.Some? && a.current.value < |a.forms| { ServiceKeepsTiming(a, a.current.value); }
  }

  lemma {:induction false} AfterKeepsTiming(s: Bus, n: nat)
    ensures SameTiming(After(s, n).slaves, s.slaves)
  {
    hide Next;
    if n > 0 {
      AfterKeepsTiming(s, n - 1);
      EdgeKeepsTiming(After(s, n - 1));
    }
  }

  lemma {:induction false} SameTimingSameTarget(a: seq<Slave>, b: seq<Slave>, address: nat, i: nat)
    requires SameTiming(a, b) && i <= |a|
    ensures FindSlave(a, address, i) == FindSlave(b, address, i)
    decreases |a| - i
  {
    if i < |a| { SameTimingSameTarget(a, b, address, i + 1); }
  }

  // ---------------------------------------------------------------------
  // One request alone on the bus
  // ---------------------------------------------------------------------

  /** At most form c is pending. */
  ghost predicate Alone(s: Bus, c: nat) {
    c < |s.forms| && forall i :: 0 <= i < |s.forms| && i != c ==> !Pending(s.forms[i])
  }

  lemma EdgeLeavesAlone(s: Bus, c: nat)
    requires Inv(s) && Alone(s, c)
    ensures Alone(Next(s, Edge), c)
    ensures !Pending(s.forms[c]) ==>
      !Pending(Next(s, Edge).forms[c]) && Next(s, Edge).forms[c].moves == s.forms[c].moves
  {
    hide BurstOk, LocksOk, SlavesOk, CountsOk, FallingEdge, Arbitrated;
    if s.current.None? {
      RestCycle(s);
    } else {
      ServedTarget(s, s.current.value);
      ServedCycle(s, s.current.value);
      OthersAreCleared(s, s.current.value);
    }
  }

  lemma {:induction false} AfterLeavesAlone(s: Bus, c: nat, n: nat)
    requires Inv(s) && Alone(s, c)
    ensures Alone(After(s, n), c)
    ensures !Pending(s.forms[c]) ==>
      !Pending(After(s, n).forms[c]) && After(s, n).forms[c].moves == s.forms[c].moves
  {
    hide Inv, Next, Alone, Pending;
    if n > 0 {
      AfterLeavesAlone(s, c, n - 1);
      AfterKeeps(s, n - 1);
      EdgeLeavesAlone(After(s, n - 1), c);
    }
  }

  /** From rest the next word of a lone request goes under way at once. */
  lemma WordBegins(s: Bus, c: nat)
    requires Inv(s) && s.current.None? && Alone(s, c) && Pending(s.forms[c]) && s.forms[c].address % 4 == 0
    requires Target(s, c) < |s.slaves|
    ensures var t, k := Next(s, Edge), Target(s, c);
      && Inv(t) && t.current == Some(c) && c < |t.forms| && k < |t.slaves| && Target(t, c) == k
      && t.slaves[k].count == s.slaves[k].waits && SameForm(t.forms[c], s.forms[c])
  {
    hide BurstOk, LocksOk, SlavesOk, CountsOk, FallingEdge, Arbitrated, FindSlave;
    ArbitrationChoosesSome(s, c);
    RestCycle(s);
    ArbitrationKeepsSlaves(RisingEdge(s));
    FindSlaveTicks(s.slaves, s.forms[c].address, 0);
    SlowAccessBegins(s, c);
  }

  /** The same form, but for the lock and for being in service. */
  predicate SameForm(f: Form, g: Form) {
    f == g.(lock := f.lock, status := Waiting)
  }

  /** The memory of the word has it under way for as many edges as it has wait states, and
      hands it over on the edge after. */
  lemma OneWord(s: Bus, c: nat, n: nat)
    requires Inv(s) && s.current.None? && Alone(s, c) && Pending(s.forms[c]) && s.forms[c].address % 4 == 0
    requires Target(s, c) < |s.slaves| && 1 <= s.slaves[Target(s, c)].waits && n <= s.slaves[Target(s, c)].waits + 1
    ensures var t, waits := After(s, n), s.slaves[Target(s, c)].waits;
      && c < |t.forms|
      && (n <= waits ==> t.forms[c].moves == s.forms[c].moves)
      && (n == waits + 1 ==> t.current.None? && t.forms[c].(lock := NoLock) == Advanced(s.forms[c]).(lock := NoLock))
  {
    hide BurstOk, LocksOk, SlavesOk, CountsOk, FormsOk, Arbitrated, Next, FindSlave, Run;
    if n > 0 {
      var b := Next(s, Edge);
      WordBegins(s, c);
      assert After(s, 1) == b;
      AfterAdds(s, 1, n - 1);
      RunIsAfter(b, n - 1);
      var waits := s.slaves[Target(s, c)].waits;
      if n <= waits {
        SlowAccessWaits(b, EdgesOnly(n - 1), c);
      } else {
        RunIsAfter(b, n - 2);
        SlowAccessWaits(b, EdgesOnly(n - 2), c);
        ServedCycle(After(b, n - 2), c);
      }
    }
  }

  // ---------------------------------------------------------------------
  // A whole burst
  // ---------------------------------------------------------------------

  /** Some memory with wait states holds each of n words from an address on. */
  predicate AllSlow(slaves: seq<Slave>, address: nat, n: nat)
    decreases n
  {
    n == 0 || (
      var k := FindSlave(slaves, address, 0);
      k < |slaves| && slaves[k].waits >= 1 && AllSlow(slaves, address + 4, n - 1))
  }

  /** The edges it takes to carry them: one more than the wait states for each. */
  function Span(slaves: seq<Slave>, address: nat, n: nat): (edges: nat)
    requires AllSlow(slaves, address, n)
    ensures edges >= n
    decreases n
  {
    if n == 0 then 0
    else slaves[FindSlave(slaves, address, 0)].waits + 1 + Span(slaves, address + 4, n - 1)
  }

  lemma {:induction false} SameTimingSameSpan(a: seq<Slave>, b: seq<Slave>, address: nat, n: nat)
    requires SameTiming(a, b) && AllSlow(b, address, n)
    ensures AllSlow(a, address, n) && Span(a, address, n) == Span(b, address, n)
    decreases n
  {
    hide FindSlave;
    if n > 0 {
      SameTimingSameTarget(a, b, address, 0);
      SameTimingSameSpan(a, b, address + 4, n - 1);
    }
  }

  /** The word at an address lies in a memory with so many wait states. */
  predicate WaitsAt(slaves: seq<Slave>, address: nat, waits: nat) {
    var k := FindSlave(slaves, address, 0);
    k < |slaves| && slaves[k].waits == waits
  }

  lemma {:induction false} UniformSpan(slaves: seq<Slave>, address: nat, n: nat, waits: nat)
    requires waits >= 1 && forall j: nat :: j < n ==> WaitsAt(slaves, address + 4 * j, waits)
    ensures AllSlow(slaves, address, n) && Span(slaves, address, n) == n * (waits + 1)
    decreases n
  {
    hide FindSlave;
    if n > 0 {
      assert WaitsAt(slaves, address + 4 * 0, waits);
      forall j: nat | j < n - 1
        ensures WaitsAt(slaves, address + 4 + 4 * j, waits)
      {
        assert WaitsAt(slaves, address + 4 * (j + 1), waits);
      }
      UniformSpan(slaves, address + 4, n - 1, waits);
    }
  }

  /** What is left to carry of a burst between two of its words. */
  function Left(f: Form): int { Length(f) - |f.moves| }

  lemma ProperPlace(s: Bus, c: nat)
    requires Inv(s) && c < |s.forms| && Proper(s.forms[c])
    ensures var f := s.forms[c];
      && f.address == f.start + 4 * |f.moves| && f.address % 4 == 0 && Left(f) >= 0
      && (f.notified <==> Left(f) == 0) && (Left(f) > 0 ==> f.address + 4 < SPACE)
  {
    hide LocksOk, SlavesOk, CountsOk;
    assert BurstOk(s.forms[c]);
  }

  lemma AdvancedProgress(f: Form, g: Form)
    requires Proper(f) && f.address % 4 == 0 && f.address + 4 < SPACE
    requires g.(lock := NoLock) == Advanced(f).(lock := NoLock)
    ensures Proper(g) && Left(g) == Left(f) - 1 && Length(g) == Length(f) && g.address == f.address + 4
    ensures f.address == f.start + 4 * |f.moves| ==> (Pending(g) <==> Left(g) > 0)
  {
  }

  /** A burst alone on the bus, between two of its words. */
  ghost predicate Underway(s: Bus, c: nat) {
    && Inv(s) && s.current.None? && Alone(s, c) && Proper(s.forms[c])
    && Left(s.forms[c]) >= 0 && (Pending(s.forms[c]) <==> Left(s.forms[c]) > 0)
    && AllSlow(s.slaves, s.forms[c].address, Left(s.forms[c]))
  }

  lemma WordOfBurst(s: Bus, c: nat, n: nat)
    requires Underway(s, c) && Left(s.forms[c]) > 0
    requires n <= s.slaves[Target(s, c)].waits + 1
    ensures var f, u := s.forms[c], After(s, n);
      && c < |u.forms|
      && (n <= s.slaves[Target(s, c)].waits ==> u.forms[c].moves == f.moves)
      && (n == s.slaves[Target(s, c)].waits + 1 ==>
            && Underway(u, c) && Left(u.forms[c]) == Left(f) - 1 && Length(u.forms[c]) == Length(f)
            && Span(u.slaves, u.forms[c].address, Left(f) - 1) == Span(s.slaves, f.address + 4, Left(f) - 1))
  {
    hide Inv, Next, Pending, Proper, FindSlave, SameTiming, After;
    var f := s.forms[c];
    ProperPlace(s, c);
    OneWord(s, c, n);
    if n == s.slaves[Target(s, c)].waits + 1 {
      var u := After(s, n);
      AfterKeeps(s, n);
      AfterLeavesAlone(s, c, n);
      AdvancedProgress(f, u.forms[c]);
      AfterKeepsTiming(s, n);
      SameTimingSameSpan(u.slaves, s.slaves, f.address + 4, Left(f) - 1);
    }
  }

  /** It has all its words after as many edges as those that are left span. */
  lemma {:induction false} RestOfBurst(s: Bus, c: nat, n: nat)
    requires Underway(s, c)
    ensures var t := After(s, n);
      c < |t.forms| && (|t.forms[c].moves| == Length(s.forms[c])
                        <==> n >= Span(s.slaves, s.forms[c].address, Left(s.forms[c])))
    decreases Left(s.forms[c])
  {
    hide Inv, Next, Pending, Proper, FindSlave, After;
    if Left(s.forms[c]) == 0 {
      AfterLeavesAlone(s, c, n);
    } else {
      var word := s.slaves[Target(s, c)].waits + 1;
      if n < word {
        WordOfBurst(s, c, n);
      } else {
        WordOfBurst(s, c, word);
        RestOfBurst(After(s, word), c, n - word);
        AfterAdds(s, word, n - word);
      }
    }
  }

  /** A regular burst whose words all lie in memories with wait states, issued to a bus on
      which nothing is pending, is announced after exactly as many edges as its words span,
      and not before. */
  lemma BurstTakes(s: Bus, r: Request, n: nat)
    requires Inv(s) && s.current.None? && (forall i :: 0 <= i < |s.forms| ==> !Pending(s.forms[i]))
    requires Regular(r) && AllSlow(s.slaves, r.address, r.length)
    ensures MayIssue(s, r) && Run(Issue(s, r), EdgesOnly(n)).Some?
    ensures var t, c := Run(Issue(s, r), EdgesOnly(n)).value, FindForm(s.forms, r.priority, 0);
      c < |t.forms| && (t.forms[c].notified <==> n >= Span(s.slaves, r.address, r.length))
  {
    hide BurstOk, LocksOk, SlavesOk, CountsOk, Next, Span, AllSlow;
    var b := Issue(s, r);
    var c := FindForm(s.forms, r.priority, 0);
    RequestedWords(WithForm(s.forms, r.priority)[c], r);
    IssueKeeps(s, r);
    RunIsAfter(b, n);
    AfterKeeps(b, n);
    RestOfBurst(b, c, n);
    SameRequestLater(b, c, n);
    ProperPlace(After(b, n), c);
  }

  lemma {:induction false} SameRequestLater(s: Bus, c: nat, n: nat)
    requires Inv(s) && c < |s.forms|
    ensures var t := After(s, n);
      c < |t.forms| && t.forms[c].start == s.forms[c].start && t.forms[c].endAddress == s.forms[c].endAddress
  {
    hide Inv, Next;
    if n > 0 {
      SameRequestLater(s, c, n - 1);
      AfterKeeps(s, n - 1);
      RequestStays(After(s, n - 1), c);
    }
  }

  /** With N wait states throughout, that is N+1 edges for every word asked for. */
  lemma UniformBurstTakes(s: Bus, r: Request, waits: nat, n: nat)
    requires Inv(s) && s.current.None? && (forall i :: 0 <= i < |s.forms| ==> !Pending(s.forms[i]))
    requires Regular(r) && waits >= 1
    requires forall j: nat :: j < r.length ==> WaitsAt(s.slaves, r.address + 4 * j, waits)
    ensures Run(Issue(s, r), EdgesOnly(n)).Some?
    ensures var t, c := Run(Issue(s, r), EdgesOnly(n)).value, FindForm(s.forms, r.priority, 0);
      c < |t.forms| && (t.forms[c].notified <==> n >= r.length * (waits + 1))
  {
    hide BurstOk, LocksOk, SlavesOk, CountsOk, Next, Span, AllSlow, Run, WaitsAt;
    UniformSpan(s.slaves, r.address, r.length, waits);
    BurstTakes(s, r, n);
  }
}
