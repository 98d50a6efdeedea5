/** The storer: takes results from the crossbar and writes them to the data
    memory along its address stream. */
module Storer {
  import opened ArrayTypes

  const POOL_SIZE: nat := 2

  /** result is the input queue, buffer the words that wait to be written. */
  datatype State = State(
    ready: bool, addrInc: nat, addr: nat, iniDone: bool, addrCounter: nat, advance: int,
    pool: nat, result: seq<Payload>, buffer: seq<Store>, sending: bool,
    releases: nat, sound: bool)

  function Reset(): State {
    State(false, 0, 0, false, 0, 0, POOL_SIZE + 1, [], [], false, 0, true)
  }

  function Written(s: State, id: nat, phid: nat, addrInc: nat, addr: nat): State {
    if phid == id then s.(ready := true, addrInc := addrInc, addr := addr) else s
  }

  function Started(s: State): State {
    if s.ready then s.(ready := false, iniDone := true) else s
  }

  function Arrived(s: State, p: Payload): State { s.(result := s.result + [p]) }

  predicate CanAccept(s: State) { s.result != [] && s.advance < POOL_SIZE }

  /** A result is taken and queued for the next address of the stream. */
  function Accepted(s: State): State
    requires s.result != []
  {
    s.(advance := s.advance + 1,
       iniDone := s.iniDone && !s.result[0].last,
       sound := s.sound && |s.result| == 1 && s.pool > 0,
       pool := if s.pool > 0 then s.pool - 1 else 0,
       result := s.result[1..],
       buffer := s.buffer + [Store(StreamAddr(s.addr, s.addrInc, s.addrCounter), s.result[0].data)],
       addrCounter := s.addrCounter + 1)
  }

  predicate CanSend(s: State) { !s.sending && s.buffer != [] }

  function Sent(s: State): State
    requires s.buffer != []
  {
    s.(advance := s.advance - 1, buffer := s.buffer[1..], sending := true)
  }

  function Completed(s: State): State {
    var idle := !s.iniDone && s.advance == 0;
    s.(sending := false, pool := s.pool + 1,
       addrCounter := if idle then 0 else s.addrCounter,
       releases := if idle then s.releases + 1 else s.releases)
  }

  class StorerUnit {
    const id: nat
    var ready: bool
    var addrInc: nat
    var addr: nat
    var iniDone: bool
    var addrCounter: nat
    var advance: int
    var pool: nat
    var result: seq<Payload>
    var buffer: seq<Store>
    var sending: bool
    var releases: nat
    var sound: bool

    function View(): State
      reads this
    {
      State(ready, addrInc, addr, iniDone, addrCounter, advance, pool, result, buffer, sending,
            releases, sound)
    }

    constructor (id: nat)
      ensures this.id == id && View() == Reset()
    {
      this.id := id;
      ready, addrInc, addr, iniDone, addrCounter, advance := false, 0, 0, false, 0, 0;
      pool, result, buffer, sending := POOL_SIZE + 1, [], [], false;
      releases, sound := 0, true;
    }

    method WriteContext(phid: nat, addrInc: nat, addr: nat)
      modifies this
      ensures View() == Written(old(View()), id, phid, addrInc, addr)
    {
      if phid == id {
        ready := true;
        this.addrInc := addrInc;
        this.addr := addr;
      }
    }

    method AllConfig()
      modifies this
      ensures View() == Started(old(View()))
    {
      if ready {
        ready := false;
        iniDone := true;
      }
    }

    method Transport(p: Payload)
      modifies this
      ensures View() == Arrived(old(View()), p)
    {
      result := result + [p];
    }

    /** One result is taken from the queue, which it must leave empty. */
    method TakeResult() returns (p: Payload)
      requires result != []
      modifies this`result, this`sound
      ensures p == old(result)[0] && result == old(result)[1..]
      ensures sound == (old(sound) && |old(result)| == 1)
    {
      p := result[0];
      result := result[1..];
      if result != [] {
        sound := false;
      }
    }

    /** wait_data_thread followed by the fill_buffer_thread it triggers. */
    method Accept()
      requires CanAccept(View())
      modifies this
      ensures View() == Accepted(old(View()))
    {
      hide StreamAddr;
      advance := advance + 1;
      var p := TakeResult();
      if p.last {
        iniDone := false;
      }
      pool, sound := TakeTransaction(pool, sound);
      buffer := buffer + [Store(StreamAddr(addr, addrInc, addrCounter), p.data)];
      addrCounter := addrCounter + 1;
    }

    method StartSend() returns (w: Store)
      requires CanSend(View())
      modifies this
      ensures w == old(buffer)[0] && View() == Sent(old(View()))
    {
      w := buffer[0];
      buffer := buffer[1..];
      advance := advance - 1;
      sending := true;
    }

    method EndSend()
      requires sending
      modifies this
      ensures View() == Completed(old(View()))
    {
      pool := pool + 1;
      if !iniDone && advance == 0 {
        addrCounter := 0;
        releases := releases + 1;
      }
      sending := false;
    }
  }
}
