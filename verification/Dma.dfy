/** A copy engine that moves memory through a 64-byte buffer. */
module Dma {
  import opened Common

  const CHUNK: nat := 64

  /** Both ranges of a copy lie in memory. */
  predicate InRange(size: nat, src: nat, dst: nat, n: nat) {
    src + n <= size && dst + n <= size
  }

  /** One read of n bytes followed by one write of them. */
  function Block(m: seq<Byte>, src: nat, dst: nat, n: nat): (r: seq<Byte>)
    requires InRange(|m|, src, dst, n)
    ensures |r| == |m|
  {
    m[..dst] + m[src..src + n] + m[dst + n..]
  }

  /** The rest of a copy of which off bytes are done and n are left. */
  function Chunked(m: seq<Byte>, src: nat, dst: nat, off: nat, n: nat): (r: seq<Byte>)
    requires InRange(|m|, src, dst, off + n)
    ensures |r| == |m|
    decreases n
  {
    if n > CHUNK
    then Chunked(Block(m, src + off, dst + off, CHUNK), src, dst, off + CHUNK, n - CHUNK)
    else Block(m, src + off, dst + off, n)
  }

  /** What memmove promises: the destination holds the source's original bytes and
      nothing else has changed. */
  ghost predicate Moved(m: seq<Byte>, r: seq<Byte>, src: nat, dst: nat, len: nat)
    requires InRange(|m|, src, dst, len)
  {
    |r| == |m| && forall a {:trigger r[a]} :: 0 <= a < |m| ==>
      r[a] == if dst <= a < dst + len then m[src + (a - dst)] else m[a]
  }

  predicate Safe(src: nat, dst: nat, len: nat) {
    dst <= src || src + len <= dst || len <= CHUNK
  }

  lemma BlockMoves(m: seq<Byte>, src: nat, dst: nat, n: nat)
    requires InRange(|m|, src, dst, n)
    ensures Moved(m, Block(m, src, dst, n), src, dst, n)
  {
  }

  /** While the engine works forward from off, the bytes below and above stay put. */
  lemma {:induction false} OnlyTheRest(m: seq<Byte>, src: nat, dst: nat, off: nat, n: nat, a: nat)
    requires InRange(|m|, src, dst, off + n) && a < |m| && !(dst + off <= a < dst + off + n)
    ensures Chunked(m, src, dst, off, n)[a] == m[a]
    decreases n
  {
    hide Block;
    var k := if n > CHUNK then CHUNK else n;
    var m1 := Block(m, src + off, dst + off, k);
    BlockMoves(m, src + off, dst + off, k);
    assert m1[a] == m[a];
    if n > CHUNK {
      OnlyTheRest(m1, src, dst, off + CHUNK, n - CHUNK, a);
    }
  }

  /** A byte whose source no remaining write reaches first arrives as it is now:
      its source lies below all writes still to come, or it is not overtaken. */
  lemma {:induction false} Arrives(m: seq<Byte>, src: nat, dst: nat, off: nat, n: nat, i: nat)
    requires InRange(|m|, src, dst, off + n) && off <= i < off + n
    requires src + i < dst + off || dst <= src || src + off + n <= dst + off || n <= CHUNK
    ensures Chunked(m, src, dst, off, n)[dst + i] == m[src + i]
    decreases n
  {
    hide Block;
    var k := if n > CHUNK then CHUNK else n;
    var m1 := Block(m, src + off, dst + off, k);
    BlockMoves(m, src + off, dst + off, k);
    if i < off + k {
      assert m1[dst + i] == m[src + i];
      if n > CHUNK { OnlyTheRest(m1, src, dst, off + CHUNK, n - CHUNK, dst + i); }
    } else {
      assert m1[src + i] == m[src + i];
      Arrives(m1, src, dst, off + CHUNK, n - CHUNK, i);
    }
  }

  lemma SafeCopies(m: seq<Byte>, src: nat, dst: nat, len: nat)
    requires InRange(|m|, src, dst, len) && Safe(src, dst, len)
    ensures Moved(m, Chunked(m, src, dst, 0, len), src, dst, len)
  {
    hide Chunked;
    var r := Chunked(m, src, dst, 0, len);
    forall a | 0 <= a < |m|
      ensures r[a] == if dst <= a < dst + len then m[src + (a - dst)] else m[a]
    {
      if dst <= a < dst + len {
        Arrives(m, src, dst, 0, len, a - dst);
      } else {
        OnlyTheRest(m, src, dst, 0, len, a);
      }
    }
  }

  /** The first byte to be copied from an address already overwritten, when the
      destination lies inside the source and one chunk does not suffice. */
  function FirstOvertaken(src: nat, dst: nat): nat
    requires src < dst
  {
    if dst - src < CHUNK then CHUNK else dst - src
  }

  lemma Overtaken(m: seq<Byte>, src: nat, dst: nat, len: nat)
    requires InRange(|m|, src, dst, len) && !Safe(src, dst, len)
    ensures var i := FirstOvertaken(src, dst);
      i < len && Chunked(m, src, dst, 0, len)[dst + i] == m[src + i - (dst - src)]
  {
    var i := FirstOvertaken(src, dst);
    var d := dst - src;
    var m1 := Block(m, src, dst, CHUNK);
    BlockMoves(m, src, dst, CHUNK);
    Arrives(m1, src, dst, CHUNK, len - CHUNK, i);
    assert m1[dst + (i - d)] == m[src + (i - d)];
  }

  function OneHot(size: nat, at: nat): (m: seq<Byte>)
    ensures |m| == size
  {
    seq(size, a => if a == at then 1 else 0)
  }

  /** The copy is a memmove for every content of memory exactly when the destination
      does not start inside the source, or one chunk suffices. */
  lemma CopiesIffSafe(size: nat, src: nat, dst: nat, len: nat)
    requires InRange(size, src, dst, len)
    ensures (forall m: seq<Byte> :: |m| == size ==> Moved(m, Chunked(m, src, dst, 0, len), src, dst, len))
      <==> dst <= src || src + len <= dst || len <= 64
  {
    if Safe(src, dst, len) {
      forall m: seq<Byte> | |m| == size
        ensures Moved(m, Chunked(m, src, dst, 0, len), src, dst, len)
      {
        SafeCopies(m, src, dst, len);
      }
    } else {
      var i := FirstOvertaken(src, dst);
      var m := OneHot(size, src + i);
      Overtaken(m, src, dst, len);
      assert Chunked(m, src, dst, 0, len)[dst + i] != m[src + i];
      assert !Moved(m, Chunked(m, src, dst, 0, len), src, dst, len);
    }
  }

  // ---------------------------------------------------------------------
  // The engine
  // ---------------------------------------------------------------------

  datatype Operation = Nop | Memcpy | Memset | Memcmp | Memchr | Memmove | Unknown

  datatype Outcome = Interrupt | Abort

  class SimpleDma {
    const memory: array<Byte>
    const buffer: array<Byte>
    var src: nat
    var dst: nat
    var len: nat
    var op: Operation

    ghost predicate Valid()
      reads this
    {
      buffer.Length == CHUNK && memory != buffer && InRange(memory.Length, src, dst, len)
    }

    constructor (memory: array<Byte>)
      ensures Valid() && this.memory == memory && fresh(buffer) && op == Nop
    {
      this.memory := memory;
      buffer := new Byte[CHUNK](i => 0);
      src, dst, len, op := 0, 0, 0, Nop;
    }

    method ReadBlock(from: nat, n: nat)
      requires Valid() && n <= CHUNK && from + n <= memory.Length
      modifies buffer
      ensures buffer[..n] == memory[from..from + n]
    {
      for i := 0 to n
        invariant forall k :: 0 <= k < i ==> buffer[k] == memory[from + k]
      {
        buffer[i] := memory[from + i];
      }
    }

    method WriteBlock(to: nat, n: nat)
      requires Valid() && n <= CHUNK && to + n <= memory.Length
      modifies memory
      ensures memory[..] == old(memory[..])[..to] + buffer[..n] + old(memory[..])[to + n..]
    {
      for i := 0 to n
        invariant forall a :: 0 <= a < memory.Length ==>
          memory[a] == if to <= a < to + i then buffer[a - to] else old(memory[a])
      {
        memory[to + i] := buffer[i];
      }
    }

    method CopyBlock(off: nat, n: nat)
      requires Valid() && off + n <= len && n <= CHUNK
      modifies memory, buffer
      ensures memory[..] == Block(old(memory[..]), src + off, dst + off, n)
    {
      ReadBlock(src + off, n);
      WriteBlock(dst + off, n);
    }

    method PerformMemcpy()
      requires Valid()
      modifies memory, buffer
      ensures memory[..] == Chunked(old(memory[..]), src, dst, 0, len)
      ensures Safe(src, dst, len) ==> Moved(old(memory[..]), memory[..], src, dst, len)
    {
      hide Block;
      var n: nat, off: nat := len, 0;
      while n > CHUNK
        invariant off + n == len
        invariant Chunked(memory[..], src, dst, off, n) == Chunked(old(memory[..]), src, dst, 0, len)
      {
        CopyBlock(off, CHUNK);
        n := n - CHUNK;
        off := off + CHUNK;
      }
      CopyBlock(off, n);
      if Safe(src, dst, len) { SafeCopies(old(memory[..]), src, dst, len); }
    }

    /** One start of the engine: an interrupt follows only when there was nothing to do
        or a copy has been made; the operations not implemented stop the simulation. */
    method Run() returns (outcome: Outcome)
      requires Valid()
      modifies memory, buffer
      ensures outcome == if op == Nop || op == Memcpy then Interrupt else Abort
      ensures memory[..] == if op == Memcpy then Chunked(old(memory[..]), src, dst, 0, len) else old(memory[..])
    {
      match op
      case Nop => outcome := Interrupt;
      case Memcpy => PerformMemcpy(); outcome := Interrupt;
      case _ => outcome := Abort;
    }
  }
}
