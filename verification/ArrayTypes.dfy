/** Vocabulary shared by the units of the reconfigurable array. */
module ArrayTypes {

  /** A 32-bit floating-point word; arithmetic on it is left uninterpreted. */
  type Word = bv32

  /** A transaction on the crossbar: its word, and whether its command is
      LAST_COMPUTE rather than NORMAL_COMPUTE. */
  datatype Payload = Payload(data: Word, last: bool)

  /** A word on its way to the data memory. */
  datatype Store = Store(addr: nat, data: Word)

  const ADDRESS_SPACE: nat := 0x1_0000_0000

  /** Address number k of a unit's address stream, in 32-bit arithmetic. */
  function StreamAddr(addr: nat, inc: nat, k: nat): (a: nat)
  {
    (addr + k * inc * 4) % ADDRESS_SPACE
  }

  /** Streams whose base, stride and index fit the 17, 12 and 15 bits of a
      configuration word never wrap around. */
  lemma StreamAddrDoesNotWrap(addr: nat, inc: nat, k: nat)
    requires addr < 0x2_0000 && inc < 0x1000 && k < 0x8000
    ensures StreamAddr(addr, inc, k) == addr + k * inc * 4
  {
    ProductBelow(k, inc, 0x1000);
  }

  /** Beyond that an address is taken modulo 2^32. */
  lemma StreamAddrWraps(addr: nat, inc: nat, k: nat)
    ensures StreamAddr(addr, inc, k) < 0x1_0000_0000
    ensures (addr + 4 * (inc * k) - StreamAddr(addr, inc, k)) % 0x1_0000_0000 == 0
  {
    var x := addr + k * inc * 4;
    assert k * inc * 4 == 4 * (inc * k);
    assert x == ADDRESS_SPACE * (x / ADDRESS_SPACE) + x % ADDRESS_SPACE;
  }

  lemma ProductBelow(k: nat, x: nat, bound: nat)
    requires x < bound
    ensures 0 <= k * x <= k * bound
  {
    assert k * (bound - x) >= 0;
  }

  /** The payload pool of a unit is asked for a transaction, and must have one. */
  method TakeTransaction(pool: nat, sound: bool) returns (left: nat, ok: bool)
    ensures ok == (sound && pool > 0) && left == if pool > 0 then pool - 1 else 0
  {
    left, ok := pool, sound;
    if pool > 0 {
      left := pool - 1;
    } else {
      ok := false;
    }
  }
}
