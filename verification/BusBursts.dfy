/** What bursts carry between the masters' data and the memories, whoever else uses
    the bus at the same time. */
module BusBursts {
  import opened Common
  import opened SimpleBus
  import opened BusErrors

  /** The word at an address behind the bus. */
  function MemoryAt(s: Bus, address: nat): Option<int> {
    var k := FindSlave(s.slaves, address, 0);
    if k < |s.slaves| && InMemory(s.slaves[k], address) then Some(s.slaves[k].mem[Cell(s.slaves[k], address)]) else None
  }

  /** Word k of a memory stands 4 k bytes above its start, unless an earlier memory answers
      for that address. */
  lemma WordsInOrder(s: Bus, j: nat, k: nat)
    requires j < |s.slaves| && SlaveOk(s.slaves[j]) && k < |s.slaves[j].mem|
    requires forall i :: 0 <= i < j ==> !(s.slaves[i].start <= s.slaves[j].start + 4 * k <= s.slaves[i].end)
    ensures MemoryAt(s, s.slaves[j].start + 4 * k) == Some(s.slaves[j].mem[k])
  {
    var a := s.slaves[j].start + 4 * k;
    assert Contains(s.slaves[j], a);
    assert FindSlave(s.slaves, a, 0) == j;
    assert Cell(s.slaves[j], a) == k;
  }

  /** The same words at all aligned addresses. */
  ghost predicate SameMemory(s: Bus, t: Bus) {
    forall a: nat :: a % 4 == 0 ==> MemoryAt(t, a) == MemoryAt(s, a)
  }

  /** The request a form stands for. */
  predicate SameRequest(f: Form, g: Form) {
    f.start == g.start && f.base == g.base && f.endAddress == g.endAddress && f.doWrite == g.doWrite
    && f.priority == g.priority
  }

  predicate SameProgress(f: Form, g: Form) {
    SameRequest(f, g) && f.moves == g.moves && f.address == g.address && f.data == g.data
  }

  // ---------------------------------------------------------------------
  // The effect of one access
  // ---------------------------------------------------------------------

  /** A word has been stored at an address, and nowhere else. */
  ghost predicate StoredAt(s: Bus, t: Bus, address: nat, x: int) {
    && t.host == s.host
    && forall a: nat :: a % 4 == 0 ==> MemoryAt(t, a) == if a == address then Some(x) else MemoryAt(s, a)
  }

  /** A word has been loaded into the masters' data. */
  ghost predicate LoadedFrom(s: Bus, t: Bus, address: nat, p: nat) {
    && SameMemory(s, t)
    && MemoryAt(s, address).Some? && t.host == Poke(s.host, p, MemoryAt(s, address).value)
  }

  /** The word of form f has been carried. */
  ghost predicate Carried(s: Bus, t: Bus, f: Form, g: Form) {
    && f.address % 4 == 0 && SameRequest(g, f)
    && g.moves == f.moves + [Move(f.address, f.data)]
    && if f.doWrite then StoredAt(s, t, f.address, Peek(s.host, f.data)) else LoadedFrom(s, t, f.address, f.data)
  }

  ghost predicate NothingCarried(s: Bus, t: Bus, f: Form, g: Form) {
    SameProgress(g, f) && SameMemory(s, t) && t.host == s.host
  }

  lemma TouchedMemory(s: Bus, k: nat, v: Slave)
    requires k < |s.slaves| && v.start == s.slaves[k].start && v.end == s.slaves[k].end && v.mem == s.slaves[k].mem
    ensures SameMemory(s, s.(slaves := s.slaves[k := v]))
  {
    forall a: nat
      ensures MemoryAt(s.(slaves := s.slaves[k := v]), a) == MemoryAt(s, a)
    {
      UntouchedTargets(s.slaves, k, v, a, 0);
    }
  }

  /** Distinct aligned words of a memory lie in distinct cells. */
  lemma WrittenMemory(s: Bus, address: nat, x: int)
    requires address % 4 == 0
    requires var k := FindSlave(s.slaves, address, 0); k < |s.slaves| && InMemory(s.slaves[k], address)
    ensures var k := FindSlave(s.slaves, address, 0);
      var v := s.slaves[k];
      StoredAt(s, s.(slaves := s.slaves[k := v.(mem := v.mem[Cell(v, address) := x])]), address, x)
  {
    var k := FindSlave(s.slaves, address, 0);
    var v := s.slaves[k].(mem := s.slaves[k].mem[Cell(s.slaves[k], address) := x]);
    var t := s.(slaves := s.slaves[k := v]);
    forall a: nat | a % 4 == 0
      ensures MemoryAt(t, a) == if a == address then Some(x) else MemoryAt(s, a)
    {
      UntouchedTargets(s.slaves, k, v, a, 0);
      if FindSlave(s.slaves, a, 0) == k && a != address {
        assert Cell(v, a) != Cell(v, address);
      }
    }
  }

  lemma MemoryIgnoresForms(s: Bus, t: Bus)
    requires s.slaves == t.slaves
    ensures forall a: nat :: MemoryAt(s, a) == MemoryAt(t, a)
  {
  }

  /** Serving form i carries its word or nothing, and leaves every other form alone. */
  lemma ServiceCarries(s: Bus, i: nat)
    requires i < |s.forms| && forall k :: 0 <= k < |s.slaves| ==> SlaveOk(s.slaves[k])
    ensures var h := Handled(s, i);
      && |h.forms| == |s.forms| && (forall j :: 0 <= j < |s.forms| && j != i ==> h.forms[j] == s.forms[j])
      && (Carried(s, h, s.forms[i], h.forms[i]) || NothingCarried(s, h, s.forms[i], h.forms[i]))
  {
    hide FindSlave, InMemory, SlaveOk, Contains, MemoryAt, Cell;
    var f := s.forms[i];
    var k := FindSlave(s.slaves, f.address, 0);
    var h := Handled(s, i);
    MemoryIgnoresForms(s, s.(forms := h.forms, current := None));
    if k < |s.slaves| {
      MappedMeansInMemory(s.slaves[k], f.address);
      TouchedMemory(s, k, Touched(s.slaves[k]));
      MemoryIgnoresForms(s.(slaves := s.slaves[k := Touched(s.slaves[k])]), s.(forms := h.forms,
        slaves := s.slaves[k := Touched(s.slaves[k])]));
      if f.address % 4 == 0 && Completes(s.slaves[k]) {
        CarriedWhenComplete(s, i);
      }
    }
  }

  lemma CarriedWhenComplete(s: Bus, i: nat)
    requires i < |s.forms| && s.forms[i].address % 4 == 0
    requires var k := FindSlave(s.slaves, s.forms[i].address, 0);
      k < |s.slaves| && InMemory(s.slaves[k], s.forms[i].address) && Completes(s.slaves[k])
    ensures |Handled(s, i).forms| == |s.forms| && Carried(s, Handled(s, i), s.forms[i], Handled(s, i).forms[i])
  {
    hide FindSlave, SlaveOk, Contains, Cell;
    var f := s.forms[i];
    var k := FindSlave(s.slaves, f.address, 0);
    var v := s.slaves[k];
    var h := Handled(s, i);
    if f.doWrite {
      var x := Peek(s.host, f.data);
      WrittenMemory(s, f.address, x);
      MemoryIgnoresForms(s.(slaves := s.slaves[k := v.(mem := v.mem[Cell(v, f.address) := x])]), h);
    } else {
      MemoryIgnoresForms(s, h);
    }
  }

  // ---------------------------------------------------------------------
  // The effect of one cycle
  // ---------------------------------------------------------------------

  lemma SameProgressIsTransitive(f: Form, g: Form, h: Form)
    requires SameProgress(f, g) && SameProgress(g, h)
    ensures SameProgress(f, h)
  {
  }

  lemma TickedMemory(s: Bus)
    ensures SameMemory(s, RisingEdge(s))
  {
    forall a: nat
      ensures MemoryAt(RisingEdge(s), a) == MemoryAt(s, a)
    {
      FindSlaveTicks(s.slaves, a, 0);
    }
  }

  lemma ArbitrationTouchesLocks(s: Bus)
    ensures |Arbitrated(s).forms| == |s.forms|
    ensures forall c :: 0 <= c < |s.forms| ==> SameProgress(Arbitrated(s).forms[c], s.forms[c])
    ensures forall c :: 0 <= c < |s.forms| ==> Arbitrated(s).forms[c].status == s.forms[c].status
    ensures Arbitrated(s).slaves == s.slaves && Arbitrated(s).host == s.host
  {
    hide Winner;
  }

  /** The same effect, seen from states that differ in locks and counters only. */
  lemma CarriedBetween(s: Bus, a: Bus, h: Bus, t: Bus, f: Form, fa: Form, gh: Form, g: Form)
    requires SameMemory(s, a) && a.host == s.host && SameProgress(fa, f)
    requires SameMemory(h, t) && t.host == h.host && SameProgress(g, gh)
    ensures Carried(a, h, fa, gh) ==> Carried(s, t, f, g)
    ensures NothingCarried(a, h, fa, gh) ==> NothingCarried(s, t, f, g)
  {
    hide MemoryAt;
  }

  /** A cycle carries a word of one pending form, or nothing. */
  lemma EdgeCarries(s: Bus) returns (i: nat)
    requires Inv(s)
    ensures var t := Next(s, Edge);
      && |t.forms| == |s.forms|
      && (forall j :: 0 <= j < |s.forms| && Pending(t.forms[j]) ==> Pending(s.forms[j]))
      && (forall j :: 0 <= j < |s.forms| && j != i ==> SameProgress(t.forms[j], s.forms[j]))
      && ((i < |s.forms| && Pending(s.forms[i]) && Carried(s, t, s.forms[i], t.forms[i]))
          || ((i < |s.forms| ==> SameProgress(t.forms[i], s.forms[i])) && SameMemory(s, t) && t.host == s.host))
  {
    hide Handled, Arbitrated, MemoryAt, BurstOk, LocksOk, CountsOk, SameProgress, Carried, SameMemory, TickAll;
    RisingEdgeKeeps(s);
    TickedMemory(s);
    var r := RisingEdge(s);
    ArbitrationTouchesLocks(r);
    var a := if r.current.None? then Arbitrated(r) else r;
    var t := Next(s, Edge);
    assert SameMemory(s, a) && a.host == s.host by { MemoryOfSlaves(s, r, a); }
    assert forall j :: 0 <= j < |s.forms| ==> SameProgress(a.forms[j], s.forms[j]) by { SameProgressIsReflexive(); }
    if a.current.Some? {
      i := a.current.value;
      if r.current.None? { ArbitrationKeeps(r); ArbitrationChooses(r); }
      var h := Handled(a, i);
      ServiceCarries(a, i);
      assert forall j :: 0 <= j < |s.forms| && Pending(t.forms[j]) ==> Pending(s.forms[j]);
      assert t.slaves == h.slaves && t.host == h.host;
      assert SameMemory(h, t) by { MemoryOfSlaves(h, h, t); }
      assert forall j :: 0 <= j < |s.forms| ==>
        SameProgress(t.forms[j], h.forms[j]) by { SameProgressIsReflexive(); ClearedProgress(); }
      forall j | 0 <= j < |s.forms| && j != i
        ensures SameProgress(t.forms[j], s.forms[j])
      {
        SameProgressIsTransitive(t.forms[j], h.forms[j], s.forms[j]);
      }
      CarriedBetween(s, a, h, t, s.forms[i], a.forms[i], h.forms[i], t.forms[i]);
    } else {
      i := |s.forms|;
      assert SameMemory(s, t) by { MemoryOfSlaves(s, a, t); }
      assert forall j :: 0 <= j < |s.forms| ==> SameProgress(t.forms[j], s.forms[j]) by {
        ClearedProgress();
        forall j | 0 <= j < |s.forms|
          ensures SameProgress(t.forms[j], s.forms[j])
        {
          SameProgressIsTransitive(t.forms[j], a.forms[j], s.forms[j]);
        }
      }
    }
  }

  lemma SameProgressIsReflexive()
    ensures forall f: Form :: SameProgress(f, f)
  {
  }

  lemma ClearedProgress()
    ensures forall f: Form :: SameProgress(Cleared(f), f)
  {
  }

  lemma MemoryOfSlaves(s: Bus, r: Bus, a: Bus)
    requires a.slaves == r.slaves && (s.slaves == r.slaves || SameMemory(s, r))
    ensures SameMemory(s, a)
  {
    MemoryIgnoresForms(r, a);
    if s.slaves == r.slaves { MemoryIgnoresForms(s, r); }
  }

  lemma ArbitrationChooses(s: Bus)
    ensures Arbitrated(s).current.Some? ==>
      Arbitrated(s).current.value < |s.forms| && Pending(s.forms[Arbitrated(s).current.value])
  {
    hide Winner, Promoted;
  }

  // ---------------------------------------------------------------------
  // A burst among other requests
  // ---------------------------------------------------------------------

  predicate InRegion(f: Form, address: nat) { f.start <= address <= f.endAddress }

  predicate InBuffer(f: Form, p: nat) { f.base <= p < f.base + Length(f) }

  /** Request g stores no word in burst f's region and loads none into its buffer. */
  ghost predicate Harmless(g: Form, f: Form) {
    forall j: nat :: Asked(g, j) ==> if g.doWrite then !InRegion(f, Word(g.start, j)) else !InBuffer(f, g.base + j)
  }

  ghost predicate HarmlessEvent(e: Event, f: Form) {
    e.Issued? ==> e.request.priority != f.priority && Harmless(Filled(NewForm(e.request.priority), e.request), f)
  }

  /** From the side it reads, a burst sees the same contents all along; on the side it
      writes, the words moved so far stand in place. */
  ghost predicate BurstState(s: Bus, c: nat, f: Form, contents: seq<int>) {
    && c < |s.forms| && SameRequest(s.forms[c], f) && |contents| == Length(f)
    && f.base + |contents| <= |s.host| && |s.forms[c].moves| <= |contents|
    && (forall i :: 0 <= i < |s.forms| && i != c && Pending(s.forms[i]) ==> Harmless(s.forms[i], f))
    && MemoryHolds(s, f, contents, if f.doWrite then |s.forms[c].moves| else |contents|)
    && BufferHolds(s, f, contents, if f.doWrite then |contents| else |s.forms[c].moves|)
  }

  ghost predicate MemoryHolds(s: Bus, f: Form, contents: seq<int>, n: nat)
    requires n <= |contents|
  {
    forall k :: 0 <= k < n ==> MemoryAt(s, f.start + 4 * k) == Some(contents[k])
  }

  ghost predicate BufferHolds(s: Bus, f: Form, contents: seq<int>, n: nat)
    requires n <= |contents| && f.base + |contents| <= |s.host|
  {
    forall k :: 0 <= k < n ==> s.host[f.base + k] == contents[k]
  }

  /** Harm depends on the request alone. */
  lemma HarmFollowsRequest(g: Form, h: Form, f: Form)
    requires SameRequest(g, h) && Harmless(g, f)
    ensures Harmless(h, f)
  {
    assert forall j :: Asked(g, j) == Asked(h, j);
  }

  lemma OwnWord(s: Bus, t: Bus, c: nat, f: Form, contents: seq<int>)
    requires BurstState(s, c, f, contents) && Proper(f) && BurstOk(s.forms[c]) && Pending(s.forms[c])
    requires |t.forms| == |s.forms| && Carried(s, t, s.forms[c], t.forms[c])
    requires forall j :: 0 <= j < |s.forms| && Pending(t.forms[j]) ==> Pending(s.forms[j])
    requires forall j :: 0 <= j < |s.forms| && j != c ==> SameProgress(t.forms[j], s.forms[j])
    ensures BurstState(t, c, f, contents)
  {
    hide MemoryAt, Harmless;
    var g := s.forms[c];
    var n := |g.moves|;
    assert g.address == f.start + 4 * n && g.data == f.base + n && n < |contents|;
    forall i | 0 <= i < |t.forms| && i != c && Pending(t.forms[i])
      ensures Harmless(t.forms[i], f)
    {
      HarmFollowsRequest(s.forms[i], t.forms[i], f);
    }
    assert f.start % 4 == 0;
    assert forall k :: 0 <= k < |contents| ==> (f.start + 4 * k) % 4 == 0;
  }

  lemma OtherWord(s: Bus, t: Bus, c: nat, i: nat, f: Form, contents: seq<int>)
    requires BurstState(s, c, f, contents) && Proper(f) && i < |s.forms| && i != c
    requires Tracked(s.forms[i], s.slaves) && Pending(s.forms[i])
    requires |t.forms| == |s.forms| && Carried(s, t, s.forms[i], t.forms[i])
    requires forall j :: 0 <= j < |s.forms| && Pending(t.forms[j]) ==> Pending(s.forms[j])
    requires forall j :: 0 <= j < |s.forms| && j != i ==> SameProgress(t.forms[j], s.forms[j])
    ensures BurstState(t, c, f, contents)
  {
    hide MemoryAt, Word, Asked;
    var g := s.forms[i];
    assert Asked(g, |g.moves|);
    assert if g.doWrite then !InRegion(f, g.address) else !InBuffer(f, g.data);
    forall j | 0 <= j < |t.forms| && j != c && Pending(t.forms[j])
      ensures Harmless(t.forms[j], f)
    {
      HarmFollowsRequest(s.forms[j], t.forms[j], f);
    }
    assert forall k :: 0 <= k < |contents| ==> (f.start + 4 * k) % 4 == 0 && InRegion(f, f.start + 4 * k);
  }

  lemma NoWord(s: Bus, t: Bus, c: nat, f: Form, contents: seq<int>)
    requires BurstState(s, c, f, contents) && Proper(f)
    requires |t.forms| == |s.forms| && SameMemory(s, t) && t.host == s.host
    requires forall j :: 0 <= j < |s.forms| && Pending(t.forms[j]) ==> Pending(s.forms[j])
    requires forall j :: 0 <= j < |s.forms| ==> SameProgress(t.forms[j], s.forms[j])
    ensures BurstState(t, c, f, contents)
  {
    hide MemoryAt, Harmless;
    forall j | 0 <= j < |t.forms| && j != c && Pending(t.forms[j])
      ensures Harmless(t.forms[j], f)
    {
      HarmFollowsRequest(s.forms[j], t.forms[j], f);
    }
    assert forall k :: 0 <= k < |contents| ==> (f.start + 4 * k) % 4 == 0;
  }

  lemma EdgeKeepsBurst(s: Bus, c: nat, f: Form, contents: seq<int>)
    requires Inv(s) && AllTracked(s.forms, s.slaves) && BurstState(s, c, f, contents) && Proper(f)
    ensures BurstState(Next(s, Edge), c, f, contents)
  {
    hide Carried, SameMemory, SameProgress, LocksOk, CountsOk, SlavesOk, Harmless, MemoryHolds, BufferHolds;
    hide BurstOk, Tracked, Next;
    var i := EdgeCarries(s);
    var t := Next(s, Edge);
    assert BurstOk(s.forms[c]);
    if i < |s.forms| && Pending(s.forms[i]) && Carried(s, t, s.forms[i], t.forms[i]) {
      if i == c {
        OwnWord(s, t, c, f, contents);
      } else {
        assert Tracked(s.forms[i], s.slaves);
        OtherWord(s, t, c, i, f, contents);
      }
    } else {
      NoWord(s, t, c, f, contents);
    }
  }

  lemma IssueKeepsBurst(s: Bus, r: Request, c: nat, f: Form, contents: seq<int>)
    requires BurstState(s, c, f, contents) && HarmlessEvent(Issued(r), f)
    ensures BurstState(Issue(s, r), c, f, contents)
  {
    hide Harmless, MemoryAt;
    var t := Issue(s, r);
    var k := FindForm(s.forms, r.priority, 0);
    MemoryIgnoresForms(s, t);
    forall i | 0 <= i < |t.forms| && i != c && Pending(t.forms[i])
      ensures Harmless(t.forms[i], f)
    {
      if i == k {
        HarmFollowsRequest(Filled(NewForm(r.priority), r), t.forms[i], f);
      }
    }
  }

  /** A burst ends with its words in place: the region's contents in the buffer after a
      read, the buffer's in the region after a write. It does not matter how often other
      requests came in between, as long as none of them stores into the region or loads
      into the buffer. */
  lemma {:induction false} BurstDelivers(s: Bus, events: seq<Event>, c: nat, f: Form, contents: seq<int>)
    requires Inv(s) && AllTracked(s.forms, s.slaves) && BurstState(s, c, f, contents) && Proper(f)
    requires Run(s, events).Some? && forall e <- events :: HarmlessEvent(e, f)
    ensures BurstState(Run(s, events).value, c, f, contents)
    ensures var t := Run(s, events).value;
      t.forms[c].notified ==>
        && MemoryHolds(t, f, contents, |contents|)
        && t.host[f.base..f.base + |contents|] == contents
  {
    hide BurstState, Next, FormsOk, SlavesOk, CountsOk, HarmlessEvent, MemoryHolds;
    if events != [] {
      var n := |events| - 1;
      assert forall e <- events[..n] :: e in events;
      BurstDelivers(s, events[..n], c, f, contents);
      RunKeeps(s, events[..n]);
      RunTracked(s, events[..n]);
      assert events[n] in events;
      BurstStep(Run(s, events[..n]).value, events[n], c, f, contents);
    }
    RunKeeps(s, events);
    AnnouncedBurst(Run(s, events).value, c, f, contents);
  }

  lemma BurstStep(s: Bus, e: Event, c: nat, f: Form, contents: seq<int>)
    requires Inv(s) && AllTracked(s.forms, s.slaves) && BurstState(s, c, f, contents) && Proper(f)
    requires Possible(s, e) && HarmlessEvent(e, f)
    ensures BurstState(Next(s, e), c, f, contents)
  {
    hide BurstState, HarmlessEvent, FormsOk, SlavesOk, CountsOk, FallingEdge, Issue;
    match e
    case Issued(r) => IssueKeepsBurst(s, r, c, f, contents);
    case Edge => EdgeKeepsBurst(s, c, f, contents);
  }

  lemma AnnouncedBurst(s: Bus, c: nat, f: Form, contents: seq<int>)
    requires Inv(s) && BurstState(s, c, f, contents) && Proper(f)
    ensures c < |s.forms| && f.base + |contents| <= |s.host|
    ensures s.forms[c].notified ==>
      && MemoryHolds(s, f, contents, |contents|)
      && s.host[f.base..f.base + |contents|] == contents
  {
    hide LocksOk, CountsOk, SlavesOk, MemoryAt, Harmless;
    if s.forms[c].notified {
      CompleteMeansAllWords(s, c);
      assert BufferHolds(s, f, contents, |contents|);
    }
  }

  // ---------------------------------------------------------------------
  // From the call to the announcement
  // ---------------------------------------------------------------------

  /** Form g stores no word into the region that r asks for, and loads none into its buffer. */
  ghost predicate Apart(g: Form, r: Request) {
    forall j: nat :: Asked(g, j) ==>
      if g.doWrite then !(r.address <= Word(g.start, j) < r.address + 4 * r.length)
      else !(r.data <= g.base + j < r.data + r.length)
  }

  /** The request as its form holds it. */
  function FormOf(r: Request): Form { Filled(NewForm(r.priority), r) }

  lemma ApartIsHarmless(g: Form, r: Request)
    requires Regular(r) && Apart(g, r)
    ensures Harmless(g, FormOf(r))
  {
    hide Word, Asked;
    RequestedWords(NewForm(r.priority), r);
  }

  /** The burst is aligned and ends below the top of the address space, its buffer lies
      in the masters' data, and no request that is pending or comes later stores into its
      region or loads into its buffer. */
  ghost predicate Undisturbed(s: Bus, r: Request, events: seq<Event>) {
    && MayIssue(s, r) && Regular(r) && r.data + r.length <= |s.host|
    && (forall i :: 0 <= i < |s.forms| && Pending(s.forms[i]) ==> Apart(s.forms[i], r))
    && (forall e <- events :: e.Issued? ==> e.request.priority != r.priority && Apart(FormOf(e.request), r))
  }

  lemma UndisturbedForms(s: Bus, r: Request, events: seq<Event>)
    requires Undisturbed(s, r, events)
    ensures forall i :: 0 <= i < |s.forms| && Pending(s.forms[i]) ==> Harmless(s.forms[i], FormOf(r))
    ensures forall e <- events :: HarmlessEvent(e, FormOf(r))
    ensures Proper(FormOf(r)) && Length(FormOf(r)) == r.length && FormOf(r).start == r.address
      && FormOf(r).base == r.data && FormOf(r).doWrite == r.doWrite && FormOf(r).priority == r.priority
  {
    hide Apart, Harmless;
    RequestedWords(NewForm(r.priority), r);
    forall i | 0 <= i < |s.forms| && Pending(s.forms[i])
      ensures Harmless(s.forms[i], FormOf(r))
    {
      ApartIsHarmless(s.forms[i], r);
    }
    forall e <- events
      ensures HarmlessEvent(e, FormOf(r))
    {
      if e.Issued? { ApartIsHarmless(FormOf(e.request), r); }
    }
  }

  lemma IssuedBurst(s: Bus, r: Request, contents: seq<int>)
    requires Undisturbed(s, r, []) && |contents| == r.length
    requires if r.doWrite then BufferHolds(s, FormOf(r), contents, |contents|)
      else MemoryHolds(s, FormOf(r), contents, |contents|)
    ensures BurstState(Issue(s, r), FindForm(s.forms, r.priority, 0), FormOf(r), contents)
  {
    hide Harmless, MemoryAt, Apart;
    UndisturbedForms(s, r, []);
    MemoryIgnoresForms(s, Issue(s, r));
  }

  /** A read burst, once announced, has brought length words from the address to the buffer. */
  lemma ReadBurstDelivers(s: Bus, r: Request, events: seq<Event>, contents: seq<int>)
    requires Inv(s) && AllTracked(s.forms, s.slaves) && !r.doWrite && Undisturbed(s, r, events)
    requires |contents| == r.length
    requires forall k :: 0 <= k < r.length ==> MemoryAt(s, r.address + 4 * k) == Some(contents[k])
    requires Run(Issue(s, r), events).Some?
    ensures var t, c := Run(Issue(s, r), events).value, FindForm(s.forms, r.priority, 0);
      && c < |t.forms| && t.forms[c].priority == r.priority
      && (t.forms[c].notified ==>
            r.data + r.length <= |t.host| && t.host[r.data..r.data + r.length] == contents)
  {
    hide FormsOk, SlavesOk, CountsOk, Issue, Harmless, HarmlessEvent, BufferHolds, Tracked, Apart, FormOf, MemoryAt;
    UndisturbedForms(s, r, events);
    IssuedBurst(s, r, contents);
    IssueKeeps(s, r);
    IssueTracked(s, r);
    IssueTouchesForms(s, r);
    BurstDelivers(Issue(s, r), events, FindForm(s.forms, r.priority, 0), FormOf(r), contents);
  }

  /** A write burst, once announced, has put length words from the buffer to the address. */
  lemma WriteBurstDelivers(s: Bus, r: Request, events: seq<Event>)
    requires Inv(s) && AllTracked(s.forms, s.slaves) && r.doWrite && Undisturbed(s, r, events)
    requires Run(Issue(s, r), events).Some?
    ensures var t, c := Run(Issue(s, r), events).value, FindForm(s.forms, r.priority, 0);
      && c < |t.forms| && t.forms[c].priority == r.priority
      && (t.forms[c].notified ==>
            forall k :: 0 <= k < r.length ==> MemoryAt(t, r.address + 4 * k) == Some(s.host[r.data + k]))
  {
    hide FormsOk, SlavesOk, CountsOk, Issue, Harmless, HarmlessEvent, Tracked, MemoryAt, Apart, FormOf;
    UndisturbedForms(s, r, events);
    var contents := s.host[r.data..r.data + r.length];
    IssuedBurst(s, r, contents);
    IssueKeeps(s, r);
    IssueTracked(s, r);
    IssueTouchesForms(s, r);
    BurstDelivers(Issue(s, r), events, FindForm(s.forms, r.priority, 0), FormOf(r), contents);
    var t := Run(Issue(s, r), events).value;
    forall k | 0 <= k < |contents| && MemoryHolds(t, FormOf(r), contents, |contents|)
      ensures MemoryAt(t, r.address + 4 * k) == Some(s.host[r.data + k])
    {
      assert contents[k] == s.host[r.data + k];
    }
  }
}
