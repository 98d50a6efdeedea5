/** The loader: reads a stream of words from the data memory, at most
    POOL_SIZE ahead of what it has sent, and sends them into the crossbar one
    at a time. */
module Loader {
  import opened Common
  import opened ArrayTypes

  const POOL_SIZE: nat := 2

  /** Everything a loader holds between two of its atomic steps. fetches is what
      the memory still owes, issue the words that wait to be sent, pool the
      number of free transactions; sound turns false when an assertion of the
      source would fail, and releases counts the calls of release_busy. */
  datatype State = State(
    ready: bool, batchLen: nat, addrInc: nat, addr: nat,
    dataCnt: nat, iniDone: bool, addrCounter: nat, advance: int,
    pool: nat, fetches: seq<nat>, issue: seq<Word>, sending: bool,
    releases: nat, sound: bool)

  /** The part of a configuration word that a loader reads. */
  datatype Context = Context(phid: nat, opAux: bool, batchLen: nat, addrInc: nat, addr: nat)

  function Reset(): State {
    State(false, 0, 0, 0, 0, false, 0, 0, POOL_SIZE + 1, [], [], false, 0, true)
  }

  /** write_context_reg: a context for another unit is ignored. */
  function Written(s: State, id: nat, c: Context): State {
    if c.phid == id then
      s.(ready := true,
         batchLen := if c.opAux then Pow2(c.batchLen) else c.batchLen,
         addrInc := c.addrInc, addr := c.addr)
    else s
  }

  /** all_config: a loader that has been written to starts its batch. */
  function Started(s: State): State {
    if s.ready then s.(ready := false, iniDone := true, dataCnt := 0) else s
  }

  /** The reading thread proceeds while the batch is unfinished and there is
      credit. */
  predicate CanRead(s: State) { s.dataCnt < s.batchLen && s.advance < POOL_SIZE }

  /** One word is requested from memory and all bookkeeping for it is done. */
  function Read(s: State): State {
    var final := s.dataCnt + 1 == s.batchLen;
    s.(advance := s.advance + 1,
       sound := s.sound && s.pool > 0,
       pool := if s.pool > 0 then s.pool - 1 else 0,
       fetches := s.fetches + [StreamAddr(s.addr, s.addrInc, s.addrCounter)],
       dataCnt := s.dataCnt + 1,
       iniDone := s.iniDone && !final,
       addrCounter := if final then 0 else s.addrCounter + 1)
  }

  /** The oldest outstanding read comes back. */
  function Returned(s: State, w: Word): State
    requires s.fetches != []
  {
    s.(fetches := s.fetches[1..], issue := s.issue + [w])
  }

  predicate CanSend(s: State) { !s.sending && s.issue != [] }

  /** The transaction the sending thread puts on the crossbar next. */
  function Outgoing(s: State): Payload
    requires s.issue != []
  {
    Payload(s.issue[0], !s.iniDone && s.advance - 1 == 0)
  }

  function Sent(s: State): State
    requires s.issue != []
  {
    s.(advance := s.advance - 1, issue := s.issue[1..], sending := true)
  }

  /** The crossbar has answered: the transaction is freed, and the unit
      declares itself idle after the final word. */
  function Completed(s: State): State {
    s.(sending := false, pool := s.pool + 1,
       releases := if !s.iniDone && s.advance == 0 then s.releases + 1 else s.releases)
  }

  /** The module itself, one method an atomic step of its threads. */
  class LoaderUnit {
    const id: nat
    var ready: bool
    var batchLen: nat
    var addrInc: nat
    var addr: nat
    var dataCnt: nat
    var iniDone: bool
    var addrCounter: nat
    var advance: int
    var pool: nat
    var fetches: seq<nat>
    var issue: seq<Word>
    var sending: bool
    var releases: nat
    var sound: bool

    function View(): State
      reads this
    {
      State(ready, batchLen, addrInc, addr, dataCnt, iniDone, addrCounter, advance,
            pool, fetches, issue, sending, releases, sound)
    }

    constructor (id: nat)
      ensures this.id == id && View() == Reset()
    {
      this.id := id;
      ready, batchLen, addrInc, addr := false, 0, 0, 0;
      dataCnt, iniDone, addrCounter, advance := 0, false, 0, 0;
      pool, fetches, issue, sending := POOL_SIZE + 1, [], [], false;
      releases, sound := 0, true;
    }

    method WriteContext(c: Context)
      modifies this
      ensures View() == Written(old(View()), id, c)
    {
      if c.phid == id {
        ready := true;
        if c.opAux {
          batchLen := Pow2(c.batchLen);
        } else {
          batchLen := c.batchLen;
        }
        addrInc := c.addrInc;
        addr := c.addr;
      }
    }

    method AllConfig()
      modifies this
      ensures View() == Started(old(View()))
    {
      if ready {
        ready := false;
        iniDone := true;
        dataCnt := 0;
      }
    }

    method CountWord()
      modifies this`dataCnt, this`iniDone, this`addrCounter
      ensures dataCnt == old(dataCnt) + 1
      ensures iniDone == (old(iniDone) && dataCnt != batchLen)
      ensures addrCounter == if dataCnt == batchLen then 0 else old(addrCounter) + 1
    {
      addrCounter := addrCounter + 1;
      dataCnt := dataCnt + 1;
      if dataCnt == batchLen {
        iniDone := false;
        addrCounter := 0;
      }
    }

    method ReadStep()
      requires CanRead(View())
      modifies this
      ensures View() == Read(old(View()))
    {
      hide StreamAddr;
      advance := advance + 1;
      pool, sound := TakeTransaction(pool, sound);
      fetches := fetches + [StreamAddr(addr, addrInc, addrCounter)];
      CountWord();
    }

    method EndRead(w: Word)
      requires fetches != []
      modifies this
      ensures View() == Returned(old(View()), w)
    {
      fetches := fetches[1..];
      issue := issue + [w];
    }

    method StartSend() returns (p: Payload)
      requires CanSend(View())
      modifies this
      ensures p == Outgoing(old(View())) && View() == Sent(old(View()))
    {
      advance := advance - 1;
      p := Payload(issue[0], false);
      if !iniDone && advance == 0 {
        p := p.(last := true);
      }
      issue := issue[1..];
      sending := true;
    }

    method EndSend()
      requires sending
      modifies this
      ensures View() == Completed(old(View()))
    {
      pool := pool + 1;
      if !iniDone && advance == 0 {
        releases := releases + 1;
      }
      sending := false;
    }
  }
}
