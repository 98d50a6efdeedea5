/** The two-operand arithmetic unit: pairs the words of its two inputs, keeps
    at most POOL_SIZE results in its pipeline and sends them in order. */
module ArithPe {
  import opened ArrayTypes

  const POOL_SIZE: nat := 6

  /** srcA and srcB are the input queues, out the pipeline of results. */
  datatype State = State(
    ready: bool, iniDone: bool, advance: int, pool: nat,
    srcA: seq<Payload>, srcB: seq<Payload>, out: seq<Payload>, sending: bool,
    releases: nat, sound: bool)

  function Reset(): State {
    State(false, false, 0, POOL_SIZE + 1, [], [], [], false, 0, true)
  }

  function Written(s: State, id: nat, phid: nat): State {
    if phid == id then s.(ready := true) else s
  }

  function Started(s: State): State {
    if s.ready then s.(ready := false, iniDone := true) else s
  }

  function ArrivedA(s: State, p: Payload): State { s.(srcA := s.srcA + [p]) }

  function ArrivedB(s: State, p: Payload): State { s.(srcB := s.srcB + [p]) }

  predicate CanAccept(s: State) {
    s.srcA != [] && s.srcB != [] && s.advance < POOL_SIZE
  }

  /** Both operands are taken and the result enters the pipeline. The result
      is marked last once any operand has been. */
  function Accepted(s: State, op: (Word, Word) -> Word): State
    requires s.srcA != [] && s.srcB != []
  {
    var more := s.iniDone && !s.srcA[0].last && !s.srcB[0].last;
    s.(advance := s.advance + 1,
       iniDone := more,
       sound := s.sound && |s.srcA| == 1 && |s.srcB| == 1 && s.pool > 0,
       pool := if s.pool > 0 then s.pool - 1 else 0,
       srcA := s.srcA[1..], srcB := s.srcB[1..],
       out := s.out + [Payload(op(s.srcA[0].data, s.srcB[0].data), !more)])
  }

  predicate CanSend(s: State) { !s.sending && s.out != [] }

  function Sent(s: State): State
    requires s.out != []
  {
    s.(advance := s.advance - 1, out := s.out[1..], sending := true)
  }

  function Completed(s: State): State {
    s.(sending := false, pool := s.pool + 1,
       releases := if !s.iniDone && s.advance == 0 then s.releases + 1 else s.releases)
  }

  class ArithUnit {
    const id: nat
    const op: (Word, Word) -> Word
    var ready: bool
    var iniDone: bool
    var advance: int
    var pool: nat
    var srcA: seq<Payload>
    var srcB: seq<Payload>
    var out: seq<Payload>
    var sending: bool
    var releases: nat
    var sound: bool

    function View(): State
      reads this
    {
      State(ready, iniDone, advance, pool, srcA, srcB, out, sending, releases, sound)
    }

    constructor (id: nat, op: (Word, Word) -> Word)
      ensures this.id == id && this.op == op && View() == Reset()
    {
      this.id := id;
      this.op := op;
      ready, iniDone, advance, pool := false, false, 0, POOL_SIZE + 1;
      srcA, srcB, out, sending := [], [], [], false;
      releases, sound := 0, true;
    }

    method WriteContext(phid: nat)
      modifies this
      ensures View() == Written(old(View()), id, phid)
    {
      if phid == id {
        ready := true;
      }
    }

    method AllConfig()
      modifies this
      ensures View() == Started(old(View()))
    {
      if ready {
        ready := false;
        iniDone := true;
      }
    }

    method Transport(port: nat, p: Payload)
      modifies this
      ensures View() == if port == 0 then ArrivedA(old(View()), p) else ArrivedB(old(View()), p)
    {
      if port == 0 {
        srcA := srcA + [p];
      } else {
        srcB := srcB + [p];
      }
    }

    /** One transaction is taken from either queue, which it must leave empty. */
    method TakeOperands() returns (a: Payload, b: Payload)
      requires srcA != [] && srcB != []
      modifies this`srcA, this`srcB, this`sound
      ensures a == old(srcA)[0] && b == old(srcB)[0]
      ensures srcA == old(srcA)[1..] && srcB == old(srcB)[1..]
      ensures sound == (old(sound) && |old(srcA)| == 1 && |old(srcB)| == 1)
    {
      a, b := srcA[0], srcB[0];
      srcA, srcB := srcA[1..], srcB[1..];
      if srcA != [] || srcB != [] {
        sound := false;
      }
    }

    method Execute(a: Payload, b: Payload)
      modifies this`iniDone, this`pool, this`sound, this`out
      ensures iniDone == (old(iniDone) && !a.last && !b.last)
      ensures sound == (old(sound) && old(pool) > 0)
      ensures pool == if old(pool) > 0 then old(pool) - 1 else 0
      ensures out == old(out) + [Payload(op(a.data, b.data), !iniDone)]
    {
      if a.last || b.last {
        iniDone := false;
      }
      pool, sound := TakeTransaction(pool, sound);
      out := out + [Payload(op(a.data, b.data), !iniDone)];
    }

    /** wait_data_thread followed by the execute_thread it triggers. */
    method Accept()
      requires CanAccept(View())
      modifies this
      ensures View() == Accepted(old(View()), op)
    {
      advance := advance + 1;
      var a, b := TakeOperands();
      Execute(a, b);
    }

    method StartSend() returns (p: Payload)
      requires CanSend(View())
      modifies this
      ensures p == old(out)[0] && View() == Sent(old(View()))
    {
      p := out[0];
      out := out[1..];
      advance := advance - 1;
      sending := true;
    }

    method EndSend()
      requires sending
      modifies this
      ensures View() == Completed(old(View()))
    {
      pool := pool + 1;
      if !iniDone && advance == 0 {
        releases := releases + 1;
      }
      sending := false;
    }
  }
}
