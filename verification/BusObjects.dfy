/** The bus as objects: request forms, arbiter, slow memories and the bus
    itself, each method proved against its specification in SimpleBus. */
module BusObjects {
  import opened Common
  import opened SimpleBus

  class RequestForm {
    const priority: nat
    var doWrite: bool
    var address: nat
    var endAddress: nat
    var data: nat
    var lock: Lock
    var status: Status
    var notified: bool
    ghost var start: nat
    ghost var base: nat
    ghost var moves: seq<Move>

    ghost function View(): Form
      reads this
    {
      Form(priority, doWrite, address, endAddress, data, lock, status, notified, start, base, moves)
    }

    constructor (priority: nat)
      ensures View() == NewForm(priority)
    {
      this.priority := priority;
      doWrite, address, endAddress, data := false, 0, 0, 0;
      lock, status, notified := NoLock, Okay, false;
      start, base, moves := 0, 0, [];
    }

    /** Filling in the form, common to the four request methods of the bus. */
    method Fill(r: Request)
      modifies this
      ensures View() == Filled(old(View()), r)
    {
      doWrite := r.doWrite;
      address := r.address;
      endAddress := (r.address + (r.length - 1) * 4) % SPACE;
      data := r.data;
      if r.lock {
        lock := if lock.LockSet? then LockGranted else LockSet;
      }
      status := Requested;
      notified := false;
      start, base, moves := r.address, r.data, [];
    }

    /** One word has been transferred. */
    method Advance()
      modifies this
      ensures View() == Advanced(old(View()))
    {
      moves := moves + [Move(address, data)];
      address := (address + 4) % SPACE;
      data := data + 1;
      if address > endAddress {
        status := Okay;
        notified := true;
      } else {
        status := Waiting;
      }
    }
  }

  ghost function Views(rs: seq<RequestForm>): (q: seq<Form>)
    reads rs
    ensures |q| == |rs| && forall i :: 0 <= i < |rs| ==> q[i] == rs[i].View()
  {
    seq(|rs|, i requires 0 <= i < |rs| reads rs => rs[i].View())
  }

  ghost predicate Distinct(rs: seq<RequestForm>) {
    forall i, j :: 0 <= i < j < |rs| ==> rs[i] != rs[j]
  }

  class Arbiter {
    /** Rule 1: the first form inside a locked burst, or the number of forms. */
    method FindLockedBurst(requests: seq<RequestForm>) returns (i: nat)
      ensures i == FirstInLockedBurst(Views(requests), 0)
    {
      ghost var q := Views(requests);
      i := 0;
      while i < |requests|
        invariant i <= |requests|
        invariant FirstInLockedBurst(q, 0) == FirstInLockedBurst(q, i)
      {
        if requests[i].status.Waiting? && requests[i].lock.LockSet? {
          assert InLockedBurst(q[i]);
          return;
        }
        assert !InLockedBurst(q[i]);
        i := i + 1;
      }
    }

    /** Rule 2: the first form whose lock is granted, or the number of forms. */
    method FindGranted(requests: seq<RequestForm>) returns (i: nat)
      ensures i == FirstGranted(Views(requests), 0)
    {
      ghost var q := Views(requests);
      i := 0;
      while i < |requests|
        invariant i <= |requests|
        invariant FirstGranted(q, 0) == FirstGranted(q, i)
      {
        if requests[i].lock.LockGranted? {
          assert q[i].lock.LockGranted?;
          return;
        }
        assert !q[i].lock.LockGranted?;
        i := i + 1;
      }
    }

    /** Rule 3: the lowest priority number. sound is false where the source's
        assertion on equal priorities would fail. */
    method FindLowest(requests: seq<RequestForm>) returns (best: nat, sound: bool)
      requires requests != []
      ensures best == Lowest(Views(requests), |requests|)
      ensures DistinctPriorities(Views(requests)) ==> sound
    {
      ghost var q := Views(requests);
      best, sound := 0, true;
      var i := 1;
      while i < |requests|
        invariant 1 <= i <= |requests|
        invariant best == Lowest(q, i)
        invariant DistinctPriorities(q) ==> sound
      {
        assert requests[i].priority == q[i].priority && requests[best].priority == q[best].priority;
        if requests[i].priority == requests[best].priority {
          sound := false;
        }
        if requests[i].priority < requests[best].priority {
          best := i;
        }
        i := i + 1;
      }
    }

    /** The winner, and its lock promoted when the decision fell on priority. */
    method Arbitrate(requests: seq<RequestForm>) returns (index: nat, sound: bool)
      requires requests != [] && Distinct(requests)
      modifies requests`lock
      ensures index == old(Winner(Views(requests)))
      ensures requests[index].View() == old(Promoted(Views(requests)))
      ensures forall k :: 0 <= k < |requests| && k != index ==> requests[k].View() == old(requests[k].View())
      ensures old(DistinctPriorities(Views(requests))) ==> sound
    {
      ghost var q := Views(requests);
      index := FindLockedBurst(requests);
      if index < |requests| {
        return index, true;
      }
      index := FindGranted(requests);
      if index < |requests| {
        return index, true;
      }
      index, sound := FindLowest(requests);
      var best := requests[index];
      assert best.View() == q[index];
      if !best.lock.NoLock? {
        best.lock := LockGranted;
      }
    }
  }

  class SlowMemory {
    const start: nat
    const end: nat
    const waits: nat
    var count: int
    const mem: array<int>

    function View(): Slave
      reads this, mem
    {
      Slave(start, end, waits, count, mem[..])
    }

    constructor (start: nat, end: nat, waits: nat)
      requires start <= end && (end - start + 1) % 4 == 0
      ensures this.start == start && this.end == end && this.waits == waits && count == -1
      ensures SlaveOk(View()) && fresh(mem)
    {
      this.start, this.end, this.waits := start, end, waits;
      count := -1;
      mem := new int[(end - start + 1) / 4](_ => 0);
    }

    method WaitLoop()
      modifies this`count
      ensures View() == Tick(old(View()))
    {
      if count >= 0 {
        count := count - 1;
      }
    }

    /** read: done is false for the answer WAIT. */
    method Read(address: nat) returns (done: bool, word: int)
      requires Contains(View(), address) && InMemory(View(), address)
      modifies this`count
      ensures done == old(Completes(View()))
      ensures View() == if done then old(View()) else Touched(old(View()))
      ensures done ==> word == mem[Cell(View(), address)]
    {
      if count < 0 {
        count := waits;
        return false, 0;
      }
      if count == 0 {
        return true, mem[(address - start) / 4];
      }
      return false, 0;
    }

    /** write */
    method Write(address: nat, word: int) returns (done: bool)
      requires Contains(View(), address) && InMemory(View(), address)
      modifies this`count, mem
      ensures done == old(Completes(View()))
      ensures View() == if done then old(View()).(mem := old(mem[..])[Cell(old(View()), address) := word])
                        else Touched(old(View()))
    {
      if count < 0 {
        count := waits;
        return false;
      }
      if count == 0 {
        mem[(address - start) / 4] := word;
        return true;
      }
      return false;
    }
  }

  ghost function SlaveViews(slaves: seq<SlowMemory>): (q: seq<Slave>)
    reads slaves, set m | m in slaves :: m.mem
    ensures |q| == |slaves| && forall k :: 0 <= k < |slaves| ==> q[k] == slaves[k].View()
  {
    seq(|slaves|, k requires 0 <= k < |slaves| reads slaves, set m | m in slaves :: m.mem => slaves[k].View())
  }

  class BusModule {
    const slaves: seq<SlowMemory>
    const host: array<int>
    const arbiter: Arbiter
    var requests: seq<RequestForm>
    var current: RequestForm?
    ghost var index: nat  // the position of current among the requests

    ghost predicate Valid()
      reads this
    {
      && Distinct(requests)
      && (current != null ==> index < |requests| && requests[index] == current)
      && (forall i, j :: 0 <= i < j < |slaves| ==> slaves[i] != slaves[j] && slaves[i].mem != slaves[j].mem)
      && (forall k :: 0 <= k < |slaves| ==> slaves[k].mem != host)
    }

    ghost function CurrentIndex(): Option<nat>
      reads this
    {
      if current == null then None else Some(index)
    }

    ghost function View(): Bus
      reads this, requests, slaves, (set m | m in slaves :: m.mem), host
    {
      Bus(Views(requests), CurrentIndex(), SlaveViews(slaves), host[..])
    }

    constructor (slaves: seq<SlowMemory>, host: array<int>)
      requires forall i, j :: 0 <= i < j < |slaves| ==> slaves[i] != slaves[j] && slaves[i].mem != slaves[j].mem
      requires forall k :: 0 <= k < |slaves| ==> slaves[k].mem != host
      ensures Valid() && this.slaves == slaves && this.host == host && requests == [] && current == null
    {
      this.slaves, this.host := slaves, host;
      arbiter := new Arbiter;
      requests, current, index := [], null, 0;
    }

    /** The form of a priority, created when there is none yet. */
    method GetRequest(priority: nat) returns (f: RequestForm, ghost i: nat)
      requires Valid()
      modifies this`requests
      ensures Valid() && i < |requests| && requests[i] == f
      ensures i == FindForm(old(Views(requests)), priority, 0)
      ensures Views(requests) == WithForm(old(Views(requests)), priority)
      ensures old(requests) <= requests && (forall r :: r in requests ==> r in old(requests) || fresh(r))
    {
      ghost var forms := Views(requests);
      var n := 0;
      while n < |requests|
        invariant n <= |requests|
        invariant FindForm(forms, priority, 0) == FindForm(forms, priority, n)
      {
        if requests[n].priority == priority {
          assert forms[n].priority == priority;
          return requests[n], n;
        }
        assert forms[n].priority != priority;
        n := n + 1;
      }
      f := new RequestForm(priority);
      i := |requests|;
      requests := requests + [f];
      assert Views(requests) == forms + [NewForm(priority)];
    }

    /** read, write, burst_read and burst_write up to the wait for completion: they fill in
        the form of their priority, pending or not. */
    method IssueRequest(r: Request)
      requires Valid()
      modifies this`requests, requests
      ensures Valid() && View() == Issue(old(View()), r)
    {
      var f, i := GetRequest(r.priority);
      ghost var forms := Views(requests);
      assert f in requests;
      f.Fill(r);
      assert Views(requests) == forms[i := Filled(forms[i], r)];
    }

    method ClearAllLocks()
      requires Valid()
      modifies requests`lock
      ensures Valid() && Views(requests) == old(ClearLocks(Views(requests)))
    {
      ghost var forms := Views(requests);
      var n := 0;
      while n < |requests|
        invariant n <= |requests|
        invariant forall j :: 0 <= j < n ==> requests[j].View() == Cleared(forms[j])
        invariant forall j :: n <= j < |requests| ==> requests[j].View() == forms[j]
      {
        requests[n].lock := if requests[n].lock.LockGranted? then LockSet else NoLock;
        n := n + 1;
      }
    }

    /** The pending forms, with their positions. */
    method CollectPending() returns (pending: seq<RequestForm>, ghost indices: seq<nat>)
      requires Valid()
      ensures indices == PendingIndices(Views(requests), |requests|)
      ensures |pending| == |indices| && forall k :: 0 <= k < |pending| ==>
        indices[k] < |requests| && pending[k] == requests[indices[k]]
    {
      ghost var forms := Views(requests);
      pending, indices := [], [];
      var n := 0;
      while n < |requests|
        invariant n <= |requests|
        invariant indices == PendingIndices(forms, n)
        invariant |pending| == |indices|
        invariant forall k :: 0 <= k < |pending| ==> indices[k] < |requests| && pending[k] == requests[indices[k]]
      {
        assert Pending(forms[n]) <==> requests[n].status.Requested? || requests[n].status.Waiting?;
        if requests[n].status.Requested? || requests[n].status.Waiting? {
          pending, indices := pending + [requests[n]], indices + [n];
        }
        n := n + 1;
      }
    }

    /** The arbiter's decision and its effect on all forms. */
    method Select(pending: seq<RequestForm>, ghost indices: seq<nat>) returns (w: nat, sound: bool)
      requires Valid() && pending != []
      requires |pending| == |indices|
      requires forall k :: 0 <= k < |pending| ==> indices[k] < |requests| && pending[k] == requests[indices[k]]
      requires forall j, k :: 0 <= j < k < |indices| ==> indices[j] < indices[k]
      modifies requests`lock
      ensures w == Winner(Gather(old(Views(requests)), indices)) && w < |pending|
      ensures Views(requests) == old(Views(requests))[indices[w] := Promoted(Gather(old(Views(requests)), indices))]
      ensures old(DistinctPriorities(Views(requests))) ==> sound
      ensures Valid() && SlaveViews(slaves) == old(SlaveViews(slaves)) && host[..] == old(host[..])
    {
      hide Winner, Promoted, DistinctPriorities;
      ghost var forms := Views(requests);
      assert Views(pending) == Gather(forms, indices);
      GatheredPrioritiesDistinct(forms, indices);
      w, sound := arbiter.Arbitrate(pending);
      assert pending[w] == requests[indices[w]];
      forall j | 0 <= j < |requests| && j != indices[w]
        ensures requests[j].View() == forms[j]
      {
        if requests[j] in pending {
          var k :| 0 <= k < |pending| && pending[k] == requests[j];
        }
      }
      assert Views(requests) == forms[indices[w] := Promoted(Gather(forms, indices))];
    }

    /** Let the arbiter choose among the pending forms. */
    method GetNextRequest() returns (sound: bool)
      requires Valid() && current == null
      modifies this`current, this`index, requests`lock
      ensures Valid() && View() == Arbitrated(old(View()))
      ensures old(DistinctPriorities(Views(requests))) ==> sound
    {
      hide Winner, Promoted, PendingIndices, Gather, Views, SlaveViews, DistinctPriorities, Valid;
      ghost var before := View();
      var pending, indices := CollectPending();
      if pending == [] {
        return true;
      }
      ListedInOrder(before.forms, |before.forms|);
      var w, ok := Select(pending, indices);
      sound := ok;
      Grant(pending[w], indices[w]);
    }

    method Grant(f: RequestForm, ghost i: nat)
      requires Valid() && i < |requests| && requests[i] == f
      modifies this`current, this`index
      ensures Valid() && View() == old(View()).(current := Some(i))
    {
      current := f;
      index := i;
    }

    method GetSlave(address: nat) returns (k: nat)
      requires Valid()
      ensures k == FindSlave(SlaveViews(slaves), address, 0)
    {
      ghost var q := SlaveViews(slaves);
      k := 0;
      while k < |slaves|
        invariant k <= |slaves|
        invariant FindSlave(q, address, 0) == FindSlave(q, address, k)
      {
        assert q[k].start == slaves[k].start && q[k].end == slaves[k].end;
        if slaves[k].start <= address <= slaves[k].end {
          return;
        }
        k := k + 1;
      }
    }

    /** One access of the current request to memory k. */
    method Transfer(k: nat) returns (done: bool)
      requires Valid() && current != null && k < |slaves| && current.data < host.Length
      requires Contains(slaves[k].View(), current.address) && InMemory(slaves[k].View(), current.address)
      modifies slaves[k], slaves[k].mem, host
      ensures done == old(Completes(slaves[k].View()))
      ensures SlaveViews(slaves) == old(SlaveViews(slaves))[k :=
        if !done then old(Touched(slaves[k].View()))
        else if current.doWrite then old(slaves[k].View().(mem :=
          slaves[k].mem[..][Cell(slaves[k].View(), current.address) := host[current.data]]))
        else old(slaves[k].View())]
      ensures host[..] == if done && !current.doWrite
        then old(host[..][current.data := slaves[k].mem[Cell(slaves[k].View(), current.address)]]) else old(host[..])
    {
      ghost var before := SlaveViews(slaves);
      if current.doWrite {
        done := slaves[k].Write(current.address, host[current.data]);
      } else {
        var word: int;
        done, word := slaves[k].Read(current.address);
        if done {
          host[current.data] := word;
        }
      }
      forall j | 0 <= j < |slaves| && j != k ensures slaves[j].View() == before[j] { }
    }

    /** handle_request for a misaligned or unmapped word. */
    method Refuse()
      requires Valid() && current != null
      modifies this`current, current
      ensures Valid() && View() == old(View().(
        forms := Views(requests)[index := Views(requests)[index].(status := Failed)], current := None))
    {
      ghost var forms := Views(requests);
      current.status := Failed;
      assert Views(requests) == forms[index := forms[index].(status := Failed)];
      current := null;
    }

    /** The access itself: the form waits until the memory has answered. */
    method Attempt(k: nat) returns (done: bool)
      requires Valid() && current != null && current.data < host.Length && k < |slaves|
      requires Contains(slaves[k].View(), current.address) && InMemory(slaves[k].View(), current.address)
      modifies current`status, slaves[k], slaves[k].mem, host
      ensures Valid() && done == old(Completes(slaves[k].View()))
      ensures View() == old(Accessed(View(), index, k))
    {
      hide Touched, Contains, Views, SlaveViews;
      ghost var s := View();
      ghost var v := slaves[k].View();
      assert v == s.slaves[k];
      assert v.mem[Cell(v, current.address)] == slaves[k].mem[Cell(v, current.address)];
      current.status := Waiting;
      done := Transfer(k);
      assert Views(requests) == s.forms[index := s.forms[index].(status := Waiting)];
      assert s.slaves[k := v] == s.slaves;
      assert host[..] == Accessed(s, index, k).host;
      assert SlaveViews(slaves) == Accessed(s, index, k).slaves;
    }

    /** The word has been transferred: the form advances and the bus is free. */
    method FinishWord()
      requires Valid() && current != null
      modifies this`current, current
      ensures Valid() && View() == old(View().(
        forms := Views(requests)[index := Advanced(Views(requests)[index])], current := None))
    {
      hide Advanced;
      ghost var forms := Views(requests);
      current.Advance();
      assert Views(requests) == forms[index := Advanced(forms[index])];
      current := null;
    }

    /** handle_request for a word of memory k. */
    method Serve(k: nat)
      requires Valid() && current != null && current.data < host.Length && k < |slaves|
      requires Contains(slaves[k].View(), current.address) && InMemory(slaves[k].View(), current.address)
      requires current.address % 4 == 0 && k == FindSlave(SlaveViews(slaves), current.address, 0)
      modifies this`current, current, slaves[k], slaves[k].mem, host
      ensures Valid() && View() == Handled(old(View()), old(index))
    {
      hide Handled, FindSlave, Advanced, Accessed, InMemory, Contains, Views, SlaveViews;
      HandledServes(View(), index, k);
      var done := Attempt(k);
      if done {
        FinishWord();
      }
    }

    /** handle_request */
    method HandleRequest()
      requires Valid() && current != null && current.data < host.Length
      requires forall k :: 0 <= k < |slaves| ==> SlaveOk(slaves[k].View())
      modifies this`current, current, slaves, (set m | m in slaves :: m.mem), host
      ensures Valid() && View() == Handled(old(View()), old(index))
    {
      hide FindSlave, Views, SlaveViews;
      var k := GetSlave(current.address);
      if current.address % 4 != 0 || k == |slaves| {
        Refuse();
      } else {
        MappedMeansInMemory(slaves[k].View(), current.address);
        Serve(k);
      }
    }

    /** Service of the current request and, once it is done, the locks. */
    method ServeAndClear()
      requires Valid() && current != null && current.data < host.Length
      requires forall k :: 0 <= k < |slaves| ==> SlaveOk(slaves[k].View())
      modifies this`current, requests, slaves, (set m | m in slaves :: m.mem), host
      ensures Valid()
      ensures var h := old(Handled(View(), index));
        View() == if h.current.None? then h.(forms := ClearLocks(h.forms)) else h
    {
      hide Handled, ClearLocks, Views, SlaveViews;
      ghost var h := Handled(View(), index);
      HandleRequest();
      assert View() == h;
      if current == null {
        ClearAllLocks();
        assert SlaveViews(slaves) == h.slaves && host[..] == h.host;
      }
    }

    /** main_action */
    method MainAction() returns (sound: bool)
      requires Valid()
      requires current != null ==> current.data < host.Length
      requires current == null ==> forall r <- requests :: Pending(r.View()) ==> r.data < host.Length
      requires forall k :: 0 <= k < |slaves| ==> SlaveOk(slaves[k].View())
      modifies this`current, this`index, requests, slaves, (set m | m in slaves :: m.mem), host
      ensures Valid() && View() == FallingEdge(old(View()))
      ensures old(DistinctPriorities(Views(requests))) ==> sound
    {
      hide Handled, Arbitrated, ClearLocks, Views, SlaveViews, DistinctPriorities;
      ghost var s := View();
      sound := true;
      if current == null {
        ChosenFromPending(s);
        assert forall i :: 0 <= i < |s.forms| && Pending(s.forms[i]) ==> s.forms[i].data < host.Length by {
          assert forall i :: 0 <= i < |s.forms| ==> s.forms[i] == requests[i].View();
        }
        sound := GetNextRequest();
      }
      ghost var a := View();
      assert a == if s.current.None? then Arbitrated(s) else s;
      if current != null {
        ServeAndClear();
      } else {
        ClearAllLocks();
        assert SlaveViews(slaves) == a.slaves && host[..] == a.host;
      }
    }
  }

  /** What arbitration chooses was pending, and keeps its data pointer. */
  lemma ChosenFromPending(s: Bus)
    ensures Arbitrated(s).current.Some? ==>
      var i := Arbitrated(s).current.value;
      i < |s.forms| && Pending(s.forms[i]) && Arbitrated(s).forms[i].data == s.forms[i].data
  {
    hide Winner, Promoted;
    var q := Gather(s.forms, PendingIndices(s.forms, |s.forms|));
    if q != [] { PromotedKeepsBurst(q); }
  }

  lemma GatheredPrioritiesDistinct(forms: seq<Form>, indices: seq<nat>)
    requires forall k :: 0 <= k < |indices| ==> indices[k] < |forms|
    requires forall j, k :: 0 <= j < k < |indices| ==> indices[j] < indices[k]
    ensures DistinctPriorities(forms) ==> DistinctPriorities(Gather(forms, indices))
  {
  }

  /** The bus after an attempt of form c at memory k, before the form advances. */
  ghost function Accessed(s: Bus, c: nat, k: nat): Bus
    requires c < |s.forms| && k < |s.slaves| && InMemory(s.slaves[k], s.forms[c].address) && s.forms[c].data < |s.host|
  {
    var f, v := s.forms[c].(status := Waiting), s.slaves[k];
    s.(forms := s.forms[c := f],
       slaves := s.slaves[k :=
         if !Completes(v) then Touched(v)
         else if f.doWrite then v.(mem := v.mem[Cell(v, f.address) := s.host[f.data]]) else v],
       host := if Completes(v) && !f.doWrite then s.host[f.data := v.mem[Cell(v, f.address)]] else s.host)
  }

  /** Handled, spelled out for an aligned word of memory k. */
  lemma HandledServes(s: Bus, c: nat, k: nat)
    requires c < |s.forms| && k < |s.slaves| && k == FindSlave(s.slaves, s.forms[c].address, 0)
    requires s.forms[c].address % 4 == 0 && InMemory(s.slaves[k], s.forms[c].address) && s.forms[c].data < |s.host|
    ensures var t := Accessed(s, c, k);
      && |t.forms| == |s.forms|
      && Handled(s, c) == if Completes(s.slaves[k])
        then t.(forms := t.forms[c := Advanced(t.forms[c])], current := None) else t
  {
    hide FindSlave, Advanced;
    assert s.slaves[k := s.slaves[k]] == s.slaves;
  }
}
