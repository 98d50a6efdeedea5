/** The cycle-based bus: request forms with lock states, the arbiter, the slow
    memories behind it, and one bus cycle after another. */
module SimpleBus {
  import opened Common

  const SPACE: nat := 0x1_0000_0000

  datatype Lock = NoLock | LockSet | LockGranted

  datatype Status = Okay | Requested | Waiting | Failed

  /** One word carried by the bus. */
  datatype Move = Move(address: nat, pointer: nat)

  /** A request form. priority to status are the fields of the source; notified
      tells whether transfer_done has been notified since the request was made;
      start, base and moves record where the request began and the words moved
      for it so far. */
  datatype Form = Form(
    priority: nat, doWrite: bool, address: nat, endAddress: nat, data: nat,
    lock: Lock, status: Status, notified: bool,
    start: nat, base: nat, moves: seq<Move>)

  predicate Pending(f: Form) { f.status.Requested? || f.status.Waiting? }

  /** A slow memory: count is its wait counter, negative when it is idle. */
  datatype Slave = Slave(start: nat, end: nat, waits: nat, count: int, mem: seq<int>)

  /** host is the masters' memory, into which the data pointers of the requests
      point. */
  datatype Bus = Bus(forms: seq<Form>, current: Option<nat>, slaves: seq<Slave>, host: seq<int>)

  // ---------------------------------------------------------------------
  // The arbiter
  // ---------------------------------------------------------------------

  predicate InLockedBurst(f: Form) { f.status.Waiting? && f.lock.LockSet? }

  /** The first form inside a locked burst, or |q|. */
  function FirstInLockedBurst(q: seq<Form>, i: nat): (r: nat)
    requires i <= |q|
    ensures i <= r <= |q|
    ensures r < |q| ==> InLockedBurst(q[r])
    ensures forall j :: i <= j < r ==> !InLockedBurst(q[j])
    decreases |q| - i
  {
    if i == |q| || InLockedBurst(q[i]) then i else FirstInLockedBurst(q, i + 1)
  }

  /** The first form whose lock is granted, or |q|. */
  function FirstGranted(q: seq<Form>, i: nat): (r: nat)
    requires i <= |q|
    ensures i <= r <= |q|
    ensures r < |q| ==> q[r].lock.LockGranted?
    ensures forall j :: i <= j < r ==> !q[j].lock.LockGranted?
    decreases |q| - i
  {
    if i == |q| || q[i].lock.LockGranted? then i else FirstGranted(q, i + 1)
  }

  /** The form with the lowest number among the first n, the earliest of equals. */
  function Lowest(q: seq<Form>, n: nat): (r: nat)
    requires 1 <= n <= |q|
    ensures r < n && forall j :: 0 <= j < n ==> q[r].priority <= q[j].priority
  {
    if n == 1 then 0
    else
      var b := Lowest(q, n - 1);
      if q[n - 1].priority < q[b].priority then n - 1 else b
  }

  /** The winner among pending forms. */
  function Winner(q: seq<Form>): (r: nat)
    requires q != []
    ensures r < |q|
  {
    var burst := FirstInLockedBurst(q, 0);
    if burst < |q| then burst
    else
      var granted := FirstGranted(q, 0);
      if granted < |q| then granted else Lowest(q, |q|)
  }

  /** The winner's form after arbitration: a lock set so far becomes granted
      when the decision fell on priority. */
  function Promoted(q: seq<Form>): Form
    requires q != []
  {
    var f := q[Winner(q)];
    if FirstInLockedBurst(q, 0) == |q| && FirstGranted(q, 0) == |q| && !f.lock.NoLock?
    then f.(lock := LockGranted)
    else f
  }

  ghost predicate DistinctPriorities(forms: seq<Form>) {
    forall i, j :: 0 <= i < j < |forms| ==> forms[i].priority != forms[j].priority
  }

  /** With distinct priorities and no lock in play, the winner is the unique
      minimum. */
  lemma PriorityDecides(q: seq<Form>, k: nat)
    requires q != [] && DistinctPriorities(q) && k < |q| && k != Winner(q)
    requires forall j :: 0 <= j < |q| ==> !InLockedBurst(q[j]) && !q[j].lock.LockGranted?
    ensures q[Winner(q)].priority < q[k].priority
  {
    var w := Winner(q);
    assert q[w].priority <= q[k].priority;
    if w < k { assert q[w].priority != q[k].priority; } else { assert q[k].priority != q[w].priority; }
  }

  // ---------------------------------------------------------------------
  // Requests
  // ---------------------------------------------------------------------

  /** get_request: the form of the given priority, new ones at the end. */
  function FindForm(forms: seq<Form>, priority: nat, i: nat): (r: nat)
    requires i <= |forms|
    ensures i <= r <= |forms|
    ensures r < |forms| ==> forms[r].priority == priority
    ensures forall j :: i <= j < r ==> forms[j].priority != priority
    decreases |forms| - i
  {
    if i == |forms| || forms[i].priority == priority then i else FindForm(forms, priority, i + 1)
  }

  function NewForm(priority: nat): Form {
    Form(priority, false, 0, 0, 0, NoLock, Okay, false, 0, 0, [])
  }

  function WithForm(forms: seq<Form>, priority: nat): (r: seq<Form>)
    ensures |r| >= |forms| && FindForm(forms, priority, 0) < |r|
  {
    if FindForm(forms, priority, 0) == |forms| then forms + [NewForm(priority)] else forms
  }

  datatype Request = Request(priority: nat, doWrite: bool, data: nat, address: nat, length: nat, lock: bool)

  /** The filled-in form. A single transfer is a burst of one word. */
  function Filled(f: Form, r: Request): Form {
    f.(doWrite := r.doWrite,
       address := r.address,
       endAddress := (r.address + (r.length - 1) * 4) % SPACE,
       data := r.data,
       lock := if !r.lock then f.lock else if f.lock.LockSet? then LockGranted else LockSet,
       status := Requested,
       notified := false,
       start := r.address, base := r.data, moves := [])
  }

  /** A master may use a priority while no request of that priority is pending:
      the non-blocking calls assert it, the blocking ones hold their caller. */
  predicate MayIssue(s: Bus, r: Request) {
    var i := FindForm(s.forms, r.priority, 0);
    i < |s.forms| ==> !Pending(s.forms[i])
  }

  function Issue(s: Bus, r: Request): Bus {
    var i := FindForm(s.forms, r.priority, 0);
    var forms := WithForm(s.forms, r.priority);
    s.(forms := forms[i := Filled(forms[i], r)])
  }

  // ---------------------------------------------------------------------
  // The slow memory
  // ---------------------------------------------------------------------

  /** The rising clock edge. */
  function Tick(v: Slave): Slave { if v.count >= 0 then v.(count := v.count - 1) else v }

  /** An access: a fresh one loads the counter, a counter of zero completes. */
  predicate Completes(v: Slave) { v.count == 0 }

  function Touched(v: Slave): Slave { if v.count < 0 then v.(count := v.waits) else v }

  function Cell(v: Slave, address: nat): int { (address - v.start) / 4 }

  predicate Contains(v: Slave, address: nat) { v.start <= address <= v.end }

  function FindSlave(slaves: seq<Slave>, address: nat, i: nat): (r: nat)
    requires i <= |slaves|
    ensures i <= r <= |slaves|
    ensures r < |slaves| ==> Contains(slaves[r], address)
    ensures forall j :: i <= j < r ==> !Contains(slaves[j], address)
    decreases |slaves| - i
  {
    if i == |slaves| || Contains(slaves[i], address) then i else FindSlave(slaves, address, i + 1)
  }

  // ---------------------------------------------------------------------
  // One falling edge
  // ---------------------------------------------------------------------

  /** The indices of the pending forms, in order. */
  function PendingIndices(forms: seq<Form>, n: nat): (r: seq<nat>)
    requires n <= |forms|
    ensures forall k :: 0 <= k < |r| ==> r[k] < n && Pending(forms[r[k]])
  {
    if n == 0 then []
    else if Pending(forms[n - 1]) then PendingIndices(forms, n - 1) + [n - 1]
    else PendingIndices(forms, n - 1)
  }

  /** Every pending form is listed. */
  lemma {:induction false} PendingIsListed(forms: seq<Form>, n: nat, i: nat) returns (k: nat)
    requires i < n <= |forms| && Pending(forms[i])
    ensures k < |PendingIndices(forms, n)| && PendingIndices(forms, n)[k] == i
  {
    if i == n - 1 {
      k := |PendingIndices(forms, n)| - 1;
    } else {
      k := PendingIsListed(forms, n - 1, i);
    }
  }

  lemma {:induction false} ListedInOrder(forms: seq<Form>, n: nat)
    requires n <= |forms|
    ensures forall j, k :: 0 <= j < k < |PendingIndices(forms, n)| ==>
      PendingIndices(forms, n)[j] < PendingIndices(forms, n)[k]
  {
    if n > 0 { ListedInOrder(forms, n - 1); }
  }

  function Gather(forms: seq<Form>, indices: seq<nat>): (q: seq<Form>)
    requires forall k :: 0 <= k < |indices| ==> indices[k] < |forms|
    ensures |q| == |indices| && forall k :: 0 <= k < |q| ==> q[k] == forms[indices[k]]
  {
    seq(|indices|, k requires 0 <= k < |indices| => forms[indices[k]])
  }

  function PendingForms(forms: seq<Form>): seq<Form> { Gather(forms, PendingIndices(forms, |forms|)) }

  /** get_next_request with the arbiter's effect on the winner. */
  function Arbitrated(s: Bus): (t: Bus)
    ensures t.current.Some? ==> t.current.value < |t.forms|
  {
    var indices := PendingIndices(s.forms, |s.forms|);
    var q := Gather(s.forms, indices);
    if q == [] then s.(current := None)
    else
      var i := indices[Winner(q)];
      s.(forms := s.forms[i := Promoted(q)], current := Some(i))
  }

  function Peek(host: seq<int>, p: nat): int { if p < |host| then host[p] else 0 }

  function Poke(host: seq<int>, p: nat, x: int): seq<int> { if p < |host| then host[p := x] else host }

  /** The form after one word: address and pointer advance together. */
  function Advanced(f: Form): Form {
    var next := (f.address + 4) % SPACE;
    var finished := next > f.endAddress;
    f.(address := next, data := f.data + 1,
       moves := f.moves + [Move(f.address, f.data)],
       status := if finished then Okay else Waiting,
       notified := f.notified || finished)
  }

  ghost predicate SlaveOk(v: Slave) {
    v.start <= v.end && (v.end - v.start + 1) % 4 == 0 && |v.mem| == (v.end - v.start + 1) / 4
  }

  predicate InMemory(v: Slave, address: nat) { 0 <= Cell(v, address) < |v.mem| }

  /** handle_request for form i. */
  function Handled(s: Bus, i: nat): Bus
    requires i < |s.forms|
  {
    var f := s.forms[i].(status := Waiting);
    var k := FindSlave(s.slaves, f.address, 0);
    if f.address % 4 != 0 || k == |s.slaves| then
      s.(forms := s.forms[i := f.(status := Failed)], current := None)
    else
      var v := s.slaves[k];
      if !Completes(v) then
        s.(forms := s.forms[i := f], slaves := s.slaves[k := Touched(v)])
      else if !InMemory(v, f.address) then s
      else if f.doWrite then
        s.(forms := s.forms[i := Advanced(f)], current := None,
           slaves := s.slaves[k := v.(mem := v.mem[Cell(v, f.address) := Peek(s.host, f.data)])])
      else
        s.(forms := s.forms[i := Advanced(f)], current := None,
           host := Poke(s.host, f.data, v.mem[Cell(v, f.address)]))
  }

  function Cleared(f: Form): Form {
    f.(lock := if f.lock.LockGranted? then LockSet else NoLock)
  }

  function ClearLocks(forms: seq<Form>): (r: seq<Form>)
    ensures |r| == |forms| && forall i :: 0 <= i < |r| ==> r[i] == Cleared(forms[i])
  {
    seq(|forms|, i requires 0 <= i < |forms| => Cleared(forms[i]))
  }

  /** main_action. */
  function FallingEdge(s: Bus): Bus {
    var a := if s.current.None? then Arbitrated(s) else s;
    var h := if a.current.Some? && a.current.value < |a.forms| then Handled(a, a.current.value) else a;
    if h.current.None? then h.(forms := ClearLocks(h.forms)) else h
  }

  function TickAll(slaves: seq<Slave>): (r: seq<Slave>)
    ensures |r| == |slaves| && forall k :: 0 <= k < |r| ==> r[k] == Tick(slaves[k])
  {
    seq(|slaves|, k requires 0 <= k < |slaves| => Tick(slaves[k]))
  }

  /** The rising edge: every slow memory counts. */
  function RisingEdge(s: Bus): Bus { s.(slaves := TickAll(s.slaves)) }

  /** What can happen next. Edge is a rising edge followed by a falling one;
      masters issue requests between edges. */
  datatype Event = Issued(request: Request) | Edge

  predicate Possible(s: Bus, e: Event) { e.Issued? ==> MayIssue(s, e.request) }

  function Next(s: Bus, e: Event): Bus {
    match e
    case Issued(r) => Issue(s, r)
    case Edge => FallingEdge(RisingEdge(s))
  }

  // ---------------------------------------------------------------------
  // Invariants
  // ---------------------------------------------------------------------

  /** An aligned burst of at least one word that ends below the top word of the
      address space. */
  predicate Proper(f: Form) {
    && f.start % 4 == 0 && f.start <= f.endAddress && (f.endAddress - f.start) % 4 == 0
    && f.endAddress + 4 < SPACE
  }

  function Length(f: Form): int { (f.endAddress - f.start) / 4 + 1 }

  /** A request for length words from an aligned address on, all below the top word of the
      address space. */
  predicate Regular(r: Request) {
    r.address % 4 == 0 && r.length >= 1 && r.address + 4 * r.length < SPACE
  }

  /** Such requests, and no others, fill a form with a proper burst of the length asked for:
      the words from the given address to the given pointer, in the given direction. */
  lemma RequestedWords(f: Form, r: Request)
    requires r.address < SPACE
    ensures var g := Filled(f, r);
      && (Regular(r) <==> Proper(g) && Length(g) == r.length)
      && g.priority == f.priority && g.doWrite == r.doWrite && g.start == g.address == r.address
      && g.base == g.data == r.data && g.moves == [] && g.status.Requested? && !g.notified
  {
    var end := r.address + (r.length - 1) * 4;
    if r.length == 0 {
      assert r.address < 4 ==> end % SPACE == end + SPACE;
    } else if end < SPACE {
      assert end % SPACE == end;
    } else {
      assert end % SPACE < SPACE;
    }
  }

  /** The words of a burst are moved once each and in order, address and pointer
      in lockstep; it is pending while words are missing, and completion is
      announced when none is. */
  ghost predicate BurstOk(f: Form) {
    Proper(f) ==>
      && |f.moves| <= Length(f)
      && f.address == f.start + 4 * |f.moves|
      && f.data == f.base + |f.moves|
      && (forall j :: 0 <= j < |f.moves| ==> f.moves[j] == Move(f.start + 4 * j, f.base + j))
      && (f.notified <==> |f.moves| == Length(f))
      && (Pending(f) ==> |f.moves| < Length(f))
      && (f.status.Okay? && f.moves != [] ==> f.notified)
  }

  ghost predicate AllBurstsOk(forms: seq<Form>) {
    forall i :: 0 <= i < |forms| ==> BurstOk(forms[i])
  }

  /** While a request is being served no other waiting form has a lock. When
      none is, no waiting form has its lock granted and at most one has it set. */
  ghost predicate LocksOk(forms: seq<Form>, current: Option<nat>) {
    && (current.Some? ==> forall i :: 0 <= i < |forms| && i != current.value && forms[i].status.Waiting? ==>
         forms[i].lock.NoLock?)
    && (current.None? ==> forall i :: 0 <= i < |forms| && forms[i].status.Waiting? ==> !forms[i].lock.LockGranted?)
    && (current.None? ==> forall i, j :: 0 <= i < j < |forms| ==> !(InLockedBurst(forms[i]) && InLockedBurst(forms[j])))
  }

  ghost predicate CurrentOk(forms: seq<Form>, current: Option<nat>) {
    current.Some? ==> current.value < |forms| && forms[current.value].status.Waiting?
  }

  ghost predicate FormsOk(forms: seq<Form>, current: Option<nat>) {
    DistinctPriorities(forms) && AllBurstsOk(forms) && LocksOk(forms, current) && CurrentOk(forms, current)
  }

  ghost predicate SlavesOk(slaves: seq<Slave>) {
    forall k :: 0 <= k < |slaves| ==> SlaveOk(slaves[k])
  }

  /** The memory a request addresses. */
  function Target(s: Bus, i: nat): nat
    requires i < |s.forms|
  {
    FindSlave(s.slaves, s.forms[i].address, 0)
  }

  /** Between edges, only the memory of the request being served is counting.
      When no request is served, no memory has more than zero left to count. */
  ghost predicate CountsOk(s: Bus) {
    && (s.current.None? ==> forall k :: 0 <= k < |s.slaves| ==> s.slaves[k].count <= 0)
    && (s.current.Some? && s.current.value < |s.forms| ==>
          var t := Target(s, s.current.value);
          && s.forms[s.current.value].address % 4 == 0
          && t < |s.slaves| && 0 <= s.slaves[t].count <= s.slaves[t].waits
          && (s.slaves[t].waits >= 1 ==> s.slaves[t].count >= 1)
          && forall k :: 0 <= k < |s.slaves| && k != t ==> s.slaves[k].count < 0)
  }

  ghost predicate Inv(s: Bus) {
    FormsOk(s.forms, s.current) && SlavesOk(s.slaves) && CountsOk(s)
  }

  /** A system at rest: no forms yet and all memories idle. */
  ghost predicate Initial(s: Bus) {
    s.forms == [] && s.current.None? && SlavesOk(s.slaves)
    && forall k :: 0 <= k < |s.slaves| ==> s.slaves[k].count == -1
  }

  // ---------------------------------------------------------------------
  // Issuing a request keeps the invariant
  // ---------------------------------------------------------------------

  lemma FilledBurstOk(f: Form, r: Request)
    ensures BurstOk(Filled(f, r))
  {
    var g := Filled(f, r);
    if Proper(g) { assert Length(g) >= 1; }
  }

  lemma IssueKeepsForms(s: Bus, r: Request)
    requires FormsOk(s.forms, s.current) && MayIssue(s, r)
    ensures FormsOk(Issue(s, r).forms, Issue(s, r).current)
    ensures s.current.Some?
      ==> s.current.value < |s.forms| && Issue(s, r).forms[s.current.value] == s.forms[s.current.value]
  {
    var i := FindForm(s.forms, r.priority, 0);
    var forms := WithForm(s.forms, r.priority);
    FilledBurstOk(forms[i], r);
  }

  lemma IssueKeeps(s: Bus, r: Request)
    requires Inv(s) && MayIssue(s, r)
    ensures Inv(Issue(s, r))
  {
    IssueKeepsForms(s, r);
  }

  // ---------------------------------------------------------------------
  // Edges keep the invariant
  // ---------------------------------------------------------------------

  /** After the rising edge all memories are idle but the one being served. */
  ghost predicate Ticked(s: Bus) {
    && (s.current.None? ==> forall k :: 0 <= k < |s.slaves| ==> s.slaves[k].count < 0)
    && (s.current.Some? && s.current.value < |s.forms| ==>
          var t := Target(s, s.current.value);
          && s.forms[s.current.value].address % 4 == 0
          && t < |s.slaves| && s.slaves[t].count <= s.slaves[t].waits - 1
          && (s.slaves[t].waits >= 1 ==> s.slaves[t].count >= 0)
          && forall k :: 0 <= k < |s.slaves| && k != t ==> s.slaves[k].count < 0)
  }

  lemma FindSlaveTicks(slaves: seq<Slave>, address: nat, i: nat)
    requires i <= |slaves|
    ensures FindSlave(TickAll(slaves), address, i) == FindSlave(slaves, address, i)
    decreases |slaves| - i
  {
    if i < |slaves| { FindSlaveTicks(slaves, address, i + 1); }
  }

  lemma RisingEdgeKeeps(s: Bus)
    requires Inv(s)
    ensures FormsOk(RisingEdge(s).forms, s.current) && SlavesOk(RisingEdge(s).slaves) && Ticked(RisingEdge(s))
  {
    if s.current.Some? {
      FindSlaveTicks(s.slaves, s.forms[s.current.value].address, 0);
    }
  }

  /** FormsOk between arbitration and service: the winner is still pending. */
  ghost predicate ChosenOk(forms: seq<Form>, c: nat) {
    && DistinctPriorities(forms) && AllBurstsOk(forms) && LocksOk(forms, Some(c))
    && c < |forms| && Pending(forms[c])
  }

  /** No form but the winner keeps a lock while it waits. */
  lemma WinnerIsOnlyLocked(q: seq<Form>, k: nat)
    requires q != [] && LocksOk(q, None) && k < |q| && k != Winner(q) && q[k].status.Waiting?
    ensures q[k].lock.NoLock?
  {
    var w := Winner(q);
    assert InLockedBurst(q[w]) || !InLockedBurst(q[k]);
  }

  lemma GatheredLocksOk(forms: seq<Form>)
    requires LocksOk(forms, None)
    ensures LocksOk(PendingForms(forms), None)
  {
    ListedInOrder(forms, |forms|);
  }

  /** Exchanging one form for another of the same priority. */
  lemma ExchangeKeeps(forms: seq<Form>, c: nat, g: Form)
    requires c < |forms| && DistinctPriorities(forms) && AllBurstsOk(forms)
    requires g.priority == forms[c].priority && BurstOk(g)
    ensures DistinctPriorities(forms[c := g]) && AllBurstsOk(forms[c := g])
  {
  }

  /** Arbitration: the winner is a pending form, only its lock can change, and
      no other waiting form is left with a lock. */
  lemma ArbitrationKeeps(s: Bus)
    requires FormsOk(s.forms, None) && s.current.None?
    ensures Arbitrated(s).current.None? ==> Arbitrated(s) == s
    ensures Arbitrated(s).current.Some? <==> exists i :: 0 <= i < |s.forms| && Pending(s.forms[i])
    ensures Arbitrated(s).current.Some? ==> ChosenOk(Arbitrated(s).forms, Arbitrated(s).current.value)
  {
    hide BurstOk, Winner;
    var indices := PendingIndices(s.forms, |s.forms|);
    var q := Gather(s.forms, indices);
    if q != [] {
      var c := indices[Winner(q)];
      GatheredLocksOk(s.forms);
      forall i | 0 <= i < |s.forms| && i != c && s.forms[i].status.Waiting?
        ensures s.forms[i].lock.NoLock?
      {
        var k := PendingIsListed(s.forms, |s.forms|, i);
        WinnerIsOnlyLocked(q, k);
      }
      assert Pending(s.forms[c]);
      PromotedKeepsBurst(q);
      ExchangeKeeps(s.forms, c, Promoted(q));
    } else {
      forall i | 0 <= i < |s.forms| ensures !Pending(s.forms[i]) {
        if Pending(s.forms[i]) { var k := PendingIsListed(s.forms, |s.forms|, i); }
      }
    }
  }

  lemma PromotedKeepsBurst(q: seq<Form>)
    requires q != []
    ensures BurstOk(q[Winner(q)]) ==> BurstOk(Promoted(q))
    ensures Promoted(q).(lock := NoLock) == q[Winner(q)].(lock := NoLock)
  {
  }

  lemma AdvancedBurstOk(f: Form)
    requires BurstOk(f) && Pending(f)
    ensures BurstOk(Advanced(f))
  {
  }

  lemma ClearedBurstOk(f: Form)
    requires BurstOk(f)
    ensures BurstOk(Cleared(f))
  {
  }

  lemma MappedMeansInMemory(v: Slave, address: nat)
    requires SlaveOk(v) && Contains(v, address)
    ensures InMemory(v, address)
  {
  }

  lemma ClearLocksKeeps(forms: seq<Form>)
    requires DistinctPriorities(forms) && AllBurstsOk(forms)
    ensures DistinctPriorities(ClearLocks(forms)) && AllBurstsOk(ClearLocks(forms))
  {
    hide BurstOk;
    forall i | 0 <= i < |forms| ensures BurstOk(ClearLocks(forms)[i]) { ClearedBurstOk(forms[i]); }
  }

  /** Serving the chosen form: how the forms change. */
  lemma ServiceKeepsForms(s: Bus, c: nat)
    requires ChosenOk(s.forms, c) && SlavesOk(s.slaves) && s.current == Some(c)
    ensures Handled(s, c).current == Some(c) || Handled(s, c).current.None?
    ensures Handled(s, c).current.Some? ==> FormsOk(Handled(s, c).forms, Some(c))
    ensures Handled(s, c).current.None? ==> FormsOk(ClearLocks(Handled(s, c).forms), None)
  {
    hide BurstOk, InMemory, SlaveOk, Contains;
    var f := s.forms[c].(status := Waiting);
    var h := Handled(s, c);
    WaitingBurstOk(s.forms[c]);
    AdvancedBurstOk(f);
    if Target(s, c) < |s.slaves| { MappedMeansInMemory(s.slaves[Target(s, c)], f.address); }
    var g := h.forms[c];
    assert h.forms == s.forms[c := g];
    ExchangeKeeps(s.forms, c, g);
    ClearLocksKeeps(h.forms);
  }

  lemma WaitingBurstOk(f: Form)
    requires BurstOk(f) && Pending(f)
    ensures BurstOk(f.(status := Waiting)) && BurstOk(f.(status := Failed))
  {
  }

  /** Which memories are counting when service of form c begins. */
  ghost predicate CountsBefore(s: Bus, c: nat)
    requires c < |s.forms|
  {
    var t := Target(s, c);
    && (forall k :: 0 <= k < |s.slaves| && k != t ==> s.slaves[k].count < 0)
    && (t < |s.slaves| ==> s.slaves[t].count <= s.slaves[t].waits)
    && (t < |s.slaves| && s.slaves[t].count >= 0 ==> s.forms[c].address % 4 == 0)
  }

  lemma UntouchedTargets(slaves: seq<Slave>, k: nat, v: Slave, address: nat, i: nat)
    requires k < |slaves| && i <= |slaves| && v.start == slaves[k].start && v.end == slaves[k].end
    ensures FindSlave(slaves[k := v], address, i) == FindSlave(slaves, address, i)
    decreases |slaves| - i
  {
    if i < |slaves| { UntouchedTargets(slaves, k, v, address, i + 1); }
  }

  lemma ServiceKeepsSlaves(s: Bus, c: nat)
    requires ChosenOk(s.forms, c) && SlavesOk(s.slaves) && s.current == Some(c) && CountsBefore(s, c)
    ensures SlavesOk(Handled(s, c).slaves) && CountsOk(Handled(s, c))
  {
    var t := Target(s, c);
    if t < |s.slaves| {
      MappedMeansInMemory(s.slaves[t], s.forms[c].address);
      UntouchedTargets(s.slaves, t, Touched(s.slaves[t]), s.forms[c].address, 0);
    }
  }

  lemma FallingEdgeKeeps(s: Bus)
    requires FormsOk(s.forms, s.current) && SlavesOk(s.slaves) && Ticked(s)
    ensures Inv(FallingEdge(s))
  {
    hide SlavesOk, Handled, PendingIndices, Gather, Winner, Promoted;
    var a := if s.current.None? then Arbitrated(s) else s;
    if s.current.None? { ArbitrationKeeps(s); }
    if a.current.Some? {
      var c := a.current.value;
      ServiceKeepsForms(a, c);
      ServiceKeepsSlaves(a, c);
    }
  }

  lemma NextKeeps(s: Bus, e: Event)
    requires Inv(s) && Possible(s, e)
    ensures Inv(Next(s, e))
  {
    hide FormsOk, SlavesOk, CountsOk, Ticked;
    match e
    case Issued(r) => IssueKeeps(s, r);
    case Edge =>
      assert FormsOk(s.forms, s.current) && SlavesOk(s.slaves) && CountsOk(s);
      RisingEdgeKeeps(s);
      FallingEdgeKeeps(RisingEdge(s));
  }

  // ---------------------------------------------------------------------
  // Whole runs
  // ---------------------------------------------------------------------

  /** The bus after a sequence of events, if each was possible in its turn. */
  function Run(s: Bus, events: seq<Event>): Option<Bus>
  {
    if events == [] then Some(s)
    else
      var n := |events| - 1;
      var before := Run(s, events[..n]);
      if before.Some? && Possible(before.value, events[n]) then Some(Next(before.value, events[n])) else None
  }

  /** In every reachable state: priorities are pairwise distinct, bursts have
      moved their words once each and in order, no waiting form holds a granted
      lock at arbitration and at most one a set one, and only the memory of the
      request being served is counting. */
  lemma {:induction false} RunKeeps(s: Bus, events: seq<Event>)
    requires Inv(s) && Run(s, events).Some?
    ensures Inv(Run(s, events).value)
  {
    hide Inv;
    if events != [] {
      var n := |events| - 1;
      RunKeeps(s, events[..n]);
      NextKeeps(Run(s, events[..n]).value, events[n]);
    }
  }

  lemma InitialInv(s: Bus)
    requires Initial(s)
    ensures Inv(s)
  {
  }

  // ---------------------------------------------------------------------
  // Locks
  // ---------------------------------------------------------------------

  /** A waiting form cannot be disturbed by new requests. */
  lemma {:induction false} IssuesLeavePendingForms(s: Bus, events: seq<Event>, c: nat)
    requires DistinctPriorities(s.forms) && c < |s.forms| && Pending(s.forms[c])
    requires Run(s, events).Some? && forall e :: e in events ==> e.Issued?
    ensures var t := Run(s, events).value;
      && c < |t.forms| && t.forms[c] == s.forms[c]
      && DistinctPriorities(t.forms) && t.current == s.current
  {
    if events != [] {
      var n := |events| - 1;
      IssuesLeavePendingForms(s, events[..n], c);
      var t := Run(s, events[..n]).value;
      assert events[n].Issued?;
      IssueLeaves(t, events[n].request, c);
    }
  }

  lemma IssueLeaves(t: Bus, r: Request, c: nat)
    requires DistinctPriorities(t.forms) && c < |t.forms| && Pending(t.forms[c]) && MayIssue(t, r)
    ensures Issue(t, r).forms[c] == t.forms[c] && DistinctPriorities(Issue(t, r).forms)
  {
  }

  /** The sole waiting form with a set lock wins, whatever else is pending and
      whatever the priorities. */
  lemma LockedBurstWins(s: Bus, c: nat)
    requires LocksOk(s.forms, None) && s.current.None? && c < |s.forms| && InLockedBurst(s.forms[c])
    ensures Arbitrated(s).current == Some(c)
  {
    hide Promoted;
    var indices := PendingIndices(s.forms, |s.forms|);
    var q := Gather(s.forms, indices);
    var k := PendingIsListed(s.forms, |s.forms|, c);
    assert q[k] == s.forms[c];
    var w := Winner(q);
    assert InLockedBurst(q[w]);
    assert InLockedBurst(s.forms[indices[w]]);
  }

  /** A request that is served with a granted lock and has words left is chosen
      again for its very next word, ahead of every priority, no matter which
      requests arrive in between. */
  lemma GrantedLockKeepsNextWord(s: Bus, c: nat, events: seq<Event>)
    requires Inv(s) && s.current == Some(c) && s.forms[c].lock.LockGranted?
    requires Next(s, Edge).current.None? && Next(s, Edge).forms[c].status.Waiting?
    requires Run(Next(s, Edge), events).Some? && forall e :: e in events ==> e.Issued?
    ensures Arbitrated(RisingEdge(Run(Next(s, Edge), events).value)).current == Some(c)
  {
    hide CountsOk, SlavesOk, BurstOk, Touched, TickAll, FindSlave;
    var t := Next(s, Edge);
    NextKeeps(s, Edge);
    assert InLockedBurst(t.forms[c]);
    RunKeeps(t, events);
    IssuesLeavePendingForms(t, events, c);
    LockedBurstWins(RisingEdge(Run(t, events).value), c);
  }

  // ---------------------------------------------------------------------
  // Slow accesses
  // ---------------------------------------------------------------------

  /** While the current request waits, a cycle reaches no memory but its own and
      no form but its own. */
  lemma OnlyCurrentIsServed(s: Bus, c: nat)
    requires Inv(s) && s.current == Some(c)
    ensures var t := Next(s, Edge);
      && |t.slaves| == |s.slaves| && |t.forms| == |s.forms|
      && (forall k :: 0 <= k < |s.slaves| && k != Target(s, c) ==> t.slaves[k] == Tick(s.slaves[k]))
      && (forall i :: 0 <= i < |s.forms| && i != c ==> t.forms[i] == s.forms[i] || t.forms[i] == Cleared(s.forms[i]))
  {
    hide BurstOk;
    FindSlaveTicks(s.slaves, s.forms[c].address, 0);
  }

  /** What one cycle does to a request being served: it counts, or delivers, or, when
      the memory has no wait states, starts the access again. */
  lemma ServedCycle(s: Bus, c: nat)
    requires Inv(s) && s.current == Some(c)
    ensures |Next(s, Edge).slaves| == |s.slaves| && |Next(s, Edge).forms| == |s.forms|
    ensures var t, k := Next(s, Edge), Target(s, c);
      && (s.slaves[k].count > 1 ==>
            t.current == Some(c) && t.forms == s.forms && t.slaves[k] == Tick(s.slaves[k]) && t.host == s.host
            && Target(t, c) == k)
      && (s.slaves[k].count == 1 ==>
            t.current.None? && t.forms[c] == Cleared(Advanced(s.forms[c])) && t.slaves[k].count == 0)
      && (s.slaves[k].count == 0 ==>
            t.current == Some(c) && t.forms == s.forms && t.slaves[k] == s.slaves[k] && t.host == s.host
            && Target(t, c) == k)
  {
    hide BurstOk, LocksOk;
    var f := s.forms[c];
    var r := RisingEdge(s);
    var k := Target(s, c);
    FindSlaveTicks(s.slaves, f.address, 0);
    MappedMeansInMemory(r.slaves[k], f.address);
    UntouchedTargets(r.slaves, k, Touched(r.slaves[k]), f.address, 0);
    assert f.(status := Waiting) == f;
    assert r.forms[c := f] == r.forms;
    assert s.slaves[k].count > 1 ==> r.slaves[k := Touched(r.slaves[k])] == r.slaves;
  }

  /** What one cycle does from rest: the arbiter's choice goes into service, or fails at
      once, in which case the locks of the others are weakened. */
  lemma RestCycle(s: Bus)
    requires Inv(s) && s.current.None?
    ensures var a, t := Arbitrated(RisingEdge(s)), Next(s, Edge);
      && |t.forms| == |a.forms| == |s.forms|
      && (a.current.None? ==> t.current.None? && t.forms == ClearLocks(s.forms))
      && (a.current.Some? ==>
            var i := a.current.value;
            && Pending(s.forms[i]) && a.forms[i].(lock := s.forms[i].lock) == s.forms[i]
            && (t.current == Some(i) ==> t.forms == a.forms[i := a.forms[i].(status := Waiting)])
            && (t.current != Some(i) ==> t.current.None? && t.forms[i] == Cleared(a.forms[i].(status := Failed)))
            && forall j :: 0 <= j < |s.forms| && j != i ==>
                 t.forms[j] == if t.current.Some? then s.forms[j] else Cleared(s.forms[j]))
  {
    hide BurstOk, LocksOk, Promoted, Winner;
    RisingEdgeKeeps(s);
    var r := RisingEdge(s);
    var q := PendingForms(r.forms);
    if q != [] { PromotedKeepsBurst(q); }
  }

  /** The word of a request in service weakens the locks of all the others. */
  lemma OthersAreCleared(s: Bus, c: nat)
    requires Inv(s) && s.current == Some(c)
    ensures var t := Next(s, Edge);
      && |t.forms| == |s.forms| && (t.current == s.current || t.current.None?)
      && forall i :: 0 <= i < |s.forms| && i != c ==>
           t.forms[i] == if t.current.Some? then s.forms[i] else Cleared(s.forms[i])
  {
    hide BurstOk, LocksOk;
    ServedTarget(s, c);
    ServedCycle(s, c);
    FindSlaveTicks(s.slaves, s.forms[c].address, 0);
  }

  /** A cycle leaves every form with its request. */
  lemma RequestStays(s: Bus, c: nat)
    requires Inv(s) && c < |s.forms|
    ensures var t := Next(s, Edge);
      && c < |t.forms| && t.forms[c].priority == s.forms[c].priority
      && t.forms[c].start == s.forms[c].start && t.forms[c].endAddress == s.forms[c].endAddress
  {
    hide BurstOk, LocksOk, SlavesOk, CountsOk, FallingEdge, Arbitrated;
    if s.current.None? {
      RestCycle(s);
    } else {
      ServedTarget(s, s.current.value);
      ServedCycle(s, s.current.value);
      OthersAreCleared(s, s.current.value);
    }
  }

  function Edges(events: seq<Event>): nat {
    if events == [] then 0 else Edges(events[..|events| - 1]) + (if events[|events| - 1].Edge? then 1 else 0)
  }

  /** Until its counter has run down, the request stays in service untouched,
      whatever is issued meanwhile. */
  lemma {:induction false} SlowAccessWaits(s: Bus, events: seq<Event>, c: nat)
    requires Inv(s) && s.current == Some(c) && Run(s, events).Some?
    requires Edges(events) < s.slaves[Target(s, c)].count
    ensures var t := Run(s, events).value;
      && Inv(t) && t.current == Some(c) && c < |t.forms| && t.forms[c] == s.forms[c] && Target(t, c) == Target(s, c)
      && |t.slaves| == |s.slaves|
      && t.slaves[Target(s, c)].count == s.slaves[Target(s, c)].count - Edges(events)
  {
    hide BurstOk, LocksOk, Next, SlavesOk, CountsOk;
    if events != [] {
      var n := |events| - 1;
      SlowAccessWaits(s, events[..n], c);
      var u := Run(s, events[..n]).value;
      NextKeeps(u, events[n]);
      match events[n]
      case Edge => ServedCycle(u, c);
      case Issued(r) => IssueWhileServed(u, r, c);
    }
  }

  lemma IssueWhileServed(s: Bus, r: Request, c: nat)
    requires Inv(s) && s.current == Some(c) && MayIssue(s, r)
    ensures c < |Next(s, Issued(r)).forms| && Next(s, Issued(r)).forms[c] == s.forms[c]
    ensures Next(s, Issued(r)).current == Some(c)
    ensures Next(s, Issued(r)).slaves == s.slaves && Target(Next(s, Issued(r)), c) == Target(s, c)
  {
    IssueLeaves(s, r, c);
  }

  /** An access that begins when nothing was served: all counters are negative
      before it, and afterwards its memory has all its wait states to count. */
  lemma SlowAccessBegins(s: Bus, c: nat)
    requires Inv(s) && s.current.None? && Arbitrated(RisingEdge(s)).current == Some(c)
    requires Arbitrated(RisingEdge(s)).forms[c].address % 4 == 0
    requires Target(Arbitrated(RisingEdge(s)), c) < |s.slaves|
    ensures forall k :: 0 <= k < |s.slaves| ==> RisingEdge(s).slaves[k].count < 0
    ensures var t, k := Next(s, Edge), Target(Arbitrated(RisingEdge(s)), c);
      && Inv(t) && t.current == Some(c) && c < |t.forms| && |t.slaves| == |s.slaves|
      && Target(t, c) == k && t.slaves[k].count == s.slaves[k].waits
      && t.forms[c] == Arbitrated(RisingEdge(s)).forms[c].(status := Waiting)
  {
    hide BurstOk, LocksOk, Promoted, Winner;
    NextKeeps(s, Edge);
    RisingEdgeKeeps(s);
    var a := Arbitrated(RisingEdge(s));
    var k := Target(a, c);
    UntouchedTargets(a.slaves, k, Touched(a.slaves[k]), a.forms[c].address, 0);
  }

  /** With N wait states a word is delivered on exactly the N-th falling edge
      after the one that began the access, and the counter is then zero. */
  lemma SlowAccessTakesItsWaitStates(s: Bus, c: nat, events: seq<Event>)
    requires Inv(s) && s.current.None? && Arbitrated(RisingEdge(s)).current == Some(c)
    requires Arbitrated(RisingEdge(s)).forms[c].address % 4 == 0
    requires Target(Arbitrated(RisingEdge(s)), c) < |s.slaves|
    requires Run(Next(s, Edge), events).Some?
    ensures var a, t, k := Arbitrated(RisingEdge(s)), Run(Next(s, Edge), events).value,
      Target(Arbitrated(RisingEdge(s)), c);
      && (Edges(events) < s.slaves[k].waits ==> c < |t.forms| && t.forms[c].moves == a.forms[c].moves)
      && (Edges(events) == s.slaves[k].waits && events != [] && events[|events| - 1].Edge? ==>
            && c < |t.forms| && t.current.None? && k < |t.slaves| && t.slaves[k].count == 0
            && t.forms[c].moves == a.forms[c].moves + [Move(a.forms[c].address, a.forms[c].data)])
  {
    hide BurstOk, LocksOk, FormsOk, SlavesOk, CountsOk, Next, Arbitrated, FindSlave;
    SlowAccessBegins(s, c);
    var b := Next(s, Edge);
    var k := Target(b, c);
    if Edges(events) < b.slaves[k].count {
      SlowAccessWaits(b, events, c);
    } else if Edges(events) == b.slaves[k].count && events != [] && events[|events| - 1].Edge? {
      var n := |events| - 1;
      SlowAccessWaits(b, events[..n], c);
      ServedCycle(Run(b, events[..n]).value, c);
    }
  }

  // ---------------------------------------------------------------------
  // The limits of burst completion
  // ---------------------------------------------------------------------

  /** The word that completes a burst does so exactly when it is not the top
      word of the address space: there the address wraps and the burst runs on. */
  lemma LastWordCompletesBelowTop(f: Form)
    requires f.address == f.endAddress && f.address % 4 == 0 && f.address < SPACE
    ensures Advanced(f).status.Okay? <==> f.endAddress != SPACE - 4
  {
  }

  // ---------------------------------------------------------------------
  // Memories without wait states
  // ---------------------------------------------------------------------

  /** Once an access to a memory without wait states has begun, it is begun again at
      every edge: the request stays in service for ever and no word moves on the bus. */
  lemma {:induction false} NoWaitStatesHangTheBus(s: Bus, events: seq<Event>, c: nat)
    requires Inv(s) && s.current == Some(c) && Run(s, events).Some?
    requires s.slaves[Target(s, c)].waits == 0
    ensures var t := Run(s, events).value;
      && Inv(t) && t.current == Some(c) && c < |t.forms| && t.forms[c] == s.forms[c]
      && t.slaves == s.slaves && t.host == s.host
  {
    hide BurstOk, LocksOk, Next, SlavesOk;
    if events != [] {
      var n := |events| - 1;
      NoWaitStatesHangTheBus(s, events[..n], c);
      var u := Run(s, events[..n]).value;
      NextKeeps(u, events[n]);
      match events[n]
      case Edge => HungCycle(u, c);
      case Issued(r) =>
        IssueWhileServed(u, r, c);
        IssueTouchesForms(u, r);
    }
  }

  lemma IssueTouchesForms(s: Bus, r: Request)
    ensures Next(s, Issued(r)).host == s.host && Next(s, Issued(r)).slaves == s.slaves
  {
  }

  lemma HungCycle(s: Bus, c: nat)
    requires Inv(s) && s.current == Some(c) && s.slaves[Target(s, c)].waits == 0
    ensures var t := Next(s, Edge);
      t.current == Some(c) && t.forms == s.forms && t.slaves == s.slaves && t.host == s.host
  {
    hide BurstOk, LocksOk, Next;
    ServedCycle(s, c);
    OnlyCurrentIsServed(s, c);
    var t := Next(s, Edge);
    assert forall k :: 0 <= k < |s.slaves| ==> t.slaves[k] == s.slaves[k];
  }

  /** Nothing is ever written to such a memory, nor read from it. */
  lemma {:induction false} NoWaitStatesNoWords(s: Bus, events: seq<Event>, k: nat)
    requires Inv(s) && Run(s, events).Some? && k < |s.slaves| && s.slaves[k].waits == 0
    ensures var t := Run(s, events).value;
      && |t.slaves| == |s.slaves| && t.slaves[k].waits == 0 && t.slaves[k].mem == s.slaves[k].mem
      && forall c :: c < |t.forms| && t.current == Some(c) && Target(t, c) == k ==>
           Next(t, Edge).forms == t.forms && Next(t, Edge).host == t.host
  {
    hide BurstOk, LocksOk, Next, FormsOk, SlavesOk, CountsOk, FindSlave;
    RunKeeps(s, events);
    if events != [] {
      var n := |events| - 1;
      NoWaitStatesNoWords(s, events[..n], k);
      RunKeeps(s, events[..n]);
      InertStep(Run(s, events[..n]).value, events[n], k);
    }
    var t := Run(s, events).value;
    forall c | c < |t.forms| && t.current == Some(c) && Target(t, c) == k
      ensures Next(t, Edge).forms == t.forms && Next(t, Edge).host == t.host
    {
      HungCycle(t, c);
    }
  }

  lemma InertStep(s: Bus, e: Event, k: nat)
    requires Inv(s) && Possible(s, e) && k < |s.slaves| && s.slaves[k].waits == 0
    ensures var t := Next(s, e);
      |t.slaves| == |s.slaves| && t.slaves[k].waits == 0 && t.slaves[k].mem == s.slaves[k].mem
  {
    hide BurstOk, LocksOk, Winner, Promoted;
    if e.Edge? {
      RisingEdgeKeeps(s);
      var r := RisingEdge(s);
      assert r.slaves[k].count < 0;
    }
  }

  /** For as many edges as the counter shows. */
  function EdgesOnly(n: nat): (events: seq<Event>)
    ensures Edges(events) == n && (n > 0 ==> events[|events| - 1].Edge?)
  {
    if n == 0 then [] else
      assert (EdgesOnly(n - 1) + [Edge])[..|EdgesOnly(n - 1)|] == EdgesOnly(n - 1);
      EdgesOnly(n - 1) + [Edge]
  }

  lemma {:induction false} EdgesAreAlwaysPossible(s: Bus, n: nat)
    ensures Run(s, EdgesOnly(n)).Some?
  {
    hide Next;
    if n > 0 {
      EdgesAreAlwaysPossible(s, n - 1);
      assert EdgesOnly(n)[..|EdgesOnly(n - 1)|] == EdgesOnly(n - 1);
    }
  }

  /** A request in service gets its word in some continuation if and only if its
      memory has wait states. */
  lemma AccessCompletesIffWaitStates(s: Bus, c: nat)
    requires Inv(s) && s.current == Some(c)
    ensures (exists events :: Run(s, events).Some? && CarriedWord(s, Run(s, events).value, c))
       <==> s.slaves[Target(s, c)].waits >= 1
  {
    hide BurstOk, LocksOk, FormsOk, SlavesOk, CountsOk, Next, FindSlave;
    ServedTarget(s, c);
    var k := Target(s, c);
    if s.slaves[k].waits >= 1 {
      var n := s.slaves[k].count;
      var events := EdgesOnly(n);
      EdgesAreAlwaysPossible(s, n);
      EdgesAreAlwaysPossible(s, n - 1);
      assert events[..|events| - 1] == EdgesOnly(n - 1);
      SlowAccessWaits(s, EdgesOnly(n - 1), c);
      ServedCycle(Run(s, EdgesOnly(n - 1)).value, c);
      assert CarriedWord(s, Run(s, events).value, c);
    } else {
      forall events | Run(s, events).Some?
        ensures !CarriedWord(s, Run(s, events).value, c)
      {
        NoWaitStatesHangTheBus(s, events, c);
      }
    }
  }

  predicate CarriedWord(s: Bus, t: Bus, c: nat) {
    c < |s.forms| && c < |t.forms| && t.forms[c].moves != s.forms[c].moves
  }

  lemma ServedTarget(s: Bus, c: nat)
    requires Inv(s) && s.current == Some(c)
    ensures c < |s.forms| && Target(s, c) < |s.slaves|
    ensures var v := s.slaves[Target(s, c)];
      (v.waits >= 1 ==> v.count >= 1) && (v.waits == 0 ==> v.count == 0)
  {
  }

  /** An announced burst has moved all its words. */
  lemma CompleteMeansAllWords(s: Bus, c: nat)
    requires Inv(s) && c < |s.forms| && Proper(s.forms[c]) && s.forms[c].notified
    ensures |s.forms[c].moves| == Length(s.forms[c])
  {
    assert BurstOk(s.forms[c]);
  }
}
