/** Bit layouts of the array's configuration words: the two 32-bit words that
    software writes for a command and the 64-bit context a unit receives. */
module ContextWords {

  const CONFIG_ADD: bv32 := 0
  const CONFIG_MUL: bv32 := 1
  const CONFIG_SQRT: bv32 := 2
  const CONFIG_SIN: bv32 := 3
  const CONFIG_LOAD: bv32 := 4
  const CONFIG_STORE: bv32 := 5

  /** A command in software's terms: a full 17-bit address, 12-bit stride and
      15-bit length, and logical names for unit and inputs. */
  datatype Command =
    | Load(lgid: bv32, opAux: bv32, batchLen: bv32, addrInc: bv32, addr: bv32)
    | Store(lgid: bv32, opAux: bv32, muxA: bv32, addrInc: bv32, addr: bv32)
    | Arith(lgid: bv32, op: bv32, opAux: bv32, muxA: bv32, muxB: bv32)

  ghost predicate InRange(c: Command) {
    && c.lgid < 16 && c.opAux < 2
    && match c {
         case Load(_, _, len, inc, addr) => len < 0x8000 && inc < 0x1000 && addr < 0x2_0000
         case Store(_, _, a, inc, addr) => a < 32 && inc < 0x1000 && addr < 0x2_0000
         case Arith(_, op, _, a, b) => op < 4 && a < 32 && b < 32
       }
  }

  // ---------------------------------------------------------------------
  // The macros of the software
  // ---------------------------------------------------------------------

  function LoaderFlc(lgid: bv32, op: bv32, batchLen: bv32, opAux: bv32, extAux: bv32, addrInc: bv32, addr: bv32): bv32 {
    (lgid << 28) + (op << 25) + ((batchLen & 0x3ff) << 15) + (opAux << 14) + (extAux << 13)
    + ((addrInc & 0x7f) << 5) + ((addr & 0x1_f000) >> 12)
  }

  function ArithFlc(lgid: bv32, op: bv32, muxA: bv32, muxB: bv32, opAux: bv32): bv32 {
    (lgid << 28) + (op << 25) + (muxA << 20) + (muxB << 15) + (opAux << 14)
  }

  function StorerFlc(lgid: bv32, op: bv32, muxA: bv32, opAux: bv32, extAux: bv32, addrInc: bv32, addr: bv32): bv32 {
    (lgid << 28) + (op << 25) + (muxA << 20) + (opAux << 14) + (extAux << 13)
    + ((addrInc & 0x7f) << 5) + ((addr & 0x1_f000) >> 12)
  }

  function FlcExt(batchLen: bv32, addrInc: bv32, addr: bv32): bv32 {
    (((batchLen & 0x7c00) >> 10) << 20) + (((addrInc & 0xf80) >> 7) << 15) + (addr & 0xfff)
  }

  // ---------------------------------------------------------------------
  // The fields the controller reads
  // ---------------------------------------------------------------------

  function ExtAux(w: bv32): bv32 { (w >> 13) & 1 }
  function OpAux(w: bv32): bv32 { (w >> 14) & 1 }
  function MuxB(w: bv32): bv32 { (w >> 15) & 31 }
  function MuxA(w: bv32): bv32 { (w >> 20) & 31 }
  function AddrHead(w: bv32): bv32 { w & 31 }
  function AddrIncTail(w: bv32): bv32 { (w >> 5) & 0x7f }
  function BatchLenTail(w: bv32): bv32 { (w >> 15) & 0x3ff }
  function Op(w: bv32): bv32 { (w >> 25) & 7 }
  function Lgid(w: bv32): bv32 { w >> 28 }

  function AddrTail(e: bv32): bv32 { e & 0xfff }
  function AddrIncHead(e: bv32): bv32 { (e >> 15) & 31 }
  function BatchLenHead(e: bv32): bv32 { (e >> 20) & 31 }

  function FullAddr(w: bv32, e: bv32): bv32 { (AddrHead(w) << 12) + AddrTail(e) }
  function FullAddrInc(w: bv32, e: bv32): bv32 { (AddrIncHead(e) << 7) + AddrIncTail(w) }
  function FullBatchLen(w: bv32, e: bv32): bv32 { (BatchLenHead(e) << 10) + BatchLenTail(w) }

  /** The command that the controller sees in a pair of words. */
  function Decoded(w: bv32, e: bv32): Command {
    if Op(w) == CONFIG_LOAD then Load(Lgid(w), OpAux(w), FullBatchLen(w, e), FullAddrInc(w, e), FullAddr(w, e))
    else if Op(w) == CONFIG_STORE then Store(Lgid(w), OpAux(w), MuxA(w), FullAddrInc(w, e), FullAddr(w, e))
    else Arith(Lgid(w), Op(w), OpAux(w), MuxA(w), MuxB(w))
  }

  lemma LoadFields(c: Command, e: bv32)
    requires c.Load? && InRange(c) && e == FlcExt(c.batchLen, c.addrInc, c.addr)
    ensures var w := LoaderFlc(c.lgid, CONFIG_LOAD, c.batchLen, c.opAux, 1, c.addrInc, c.addr);
      Op(w) == CONFIG_LOAD && ExtAux(w) == 1 && Lgid(w) == c.lgid && OpAux(w) == c.opAux
      && FullBatchLen(w, e) == c.batchLen && FullAddrInc(w, e) == c.addrInc && FullAddr(w, e) == c.addr
  {
  }

  /** An extension word made without the length and the stride serves exactly those
      loads whose length and stride fit into the first word. */
  lemma BareExtensionServesIff(c: Command)
    requires c.Load? && InRange(c)
    ensures c.batchLen < 1024 && c.addrInc < 128 <==>
      Decoded(LoaderFlc(c.lgid, CONFIG_LOAD, c.batchLen, c.opAux, 1, c.addrInc, c.addr), FlcExt(0, 0, c.addr)) == c
  {
    var w, e := LoaderFlc(c.lgid, CONFIG_LOAD, c.batchLen, c.opAux, 1, c.addrInc, c.addr), FlcExt(0, 0, c.addr);
    BareExtensionFields(c, e);
    FirstWordParts(c.batchLen, c.addrInc);
  }

  lemma BareExtensionFields(c: Command, e: bv32)
    requires c.Load? && InRange(c) && e == FlcExt(0, 0, c.addr)
    ensures var w := LoaderFlc(c.lgid, CONFIG_LOAD, c.batchLen, c.opAux, 1, c.addrInc, c.addr);
      Op(w) == CONFIG_LOAD && Lgid(w) == c.lgid && OpAux(w) == c.opAux && FullAddr(w, e) == c.addr
      && FullBatchLen(w, e) == c.batchLen & 0x3ff && FullAddrInc(w, e) == c.addrInc & 0x7f
  {
  }

  lemma FirstWordParts(batchLen: bv32, addrInc: bv32)
    ensures batchLen & 0x3ff == batchLen <==> batchLen < 1024
    ensures addrInc & 0x7f == addrInc <==> addrInc < 128
  {
  }

  const MATRIX_SCALE: bv32 := 128

  /** The matrix product makes its extension words so. The load of a column, whose stride is
      the size of the matrix, is right below 128 only; at the size that is shipped its
      stride comes out as 0, and the same word is loaded over and over. */
  lemma MatrixColumnDecodesIff(scale: bv32, addr: bv32)
    requires scale < 0x1000 && addr < 0x2_0000
    ensures scale < 128 <==>
      Decoded(LoaderFlc(1, CONFIG_LOAD, scale, 0, 1, scale, addr), FlcExt(0, 0, addr)) == Load(1, 0, scale, scale, addr)
    ensures Decoded(LoaderFlc(1, CONFIG_LOAD, MATRIX_SCALE, 0, 1, MATRIX_SCALE, addr), FlcExt(0, 0, addr))
         == Load(1, 0, MATRIX_SCALE, 0, addr)
  {
    hide LoaderFlc, FlcExt, Op, Lgid, OpAux, FullAddr, FullBatchLen, FullAddrInc;
    BareExtensionServesIff(Load(1, 0, scale, scale, addr));
    BareExtensionFields(Load(1, 0, MATRIX_SCALE, MATRIX_SCALE, addr), FlcExt(0, 0, addr));
  }

  lemma StoreFields(c: Command, e: bv32)
    requires c.Store? && InRange(c) && e == FlcExt(0, c.addrInc, c.addr)
    ensures var w := StorerFlc(c.lgid, CONFIG_STORE, c.muxA, c.opAux, 1, c.addrInc, c.addr);
      Op(w) == CONFIG_STORE && ExtAux(w) == 1 && Lgid(w) == c.lgid && OpAux(w) == c.opAux
      && MuxA(w) == c.muxA && FullAddrInc(w, e) == c.addrInc && FullAddr(w, e) == c.addr
  {
  }

  lemma ArithFields(c: Command)
    requires c.Arith? && InRange(c)
    ensures var w := ArithFlc(c.lgid, c.op, c.muxA, c.muxB, c.opAux);
      Op(w) == c.op && ExtAux(w) == 0 && Lgid(w) == c.lgid && OpAux(w) == c.opAux
      && MuxA(w) == c.muxA && MuxB(w) == c.muxB
  {
  }

  // ---------------------------------------------------------------------
  // The 64-bit context of a unit
  // ---------------------------------------------------------------------

  function UnitContext(phid: bv64, op: bv64): bv64 { (phid << 59) + (op << 56) }

  function Phid(s: bv64): bv64 { s >> 59 }
  function UnitOp(s: bv64): bv64 { (s >> 56) & 7 }
  predicate Busy(s: bv64) { s & 0x0040_0000_0000_0000 != 0 }
  function UnitOpAux(s: bv64): bv64 { (s >> 55) & 1 }
  function UnitMuxA(s: bv64): bv64 { (s >> 49) & 31 }
  function UnitMuxB(s: bv64): bv64 { (s >> 44) & 31 }
  function UnitAddr(s: bv64): bv64 { s & 0x1_ffff }
  function UnitAddrInc(s: bv64): bv64 { (s >> 17) & 0xfff }
  function UnitBatchLen(s: bv64): bv64 { (s >> 39) & 0x7fff }

  function WithBusy(s: bv64, b: bool): bv64 {
    if b then s | 0x0040_0000_0000_0000 else s & 0xffbf_ffff_ffff_ffff
  }
  function WithOpAux(s: bv64, x: bv64): bv64 { (s & 0xff7f_ffff_ffff_ffff) | ((x & 1) << 55) }
  function WithMuxA(s: bv64, x: bv64): bv64 { (s & 0xffc1_ffff_ffff_ffff) | ((x & 31) << 49) }
  function WithMuxB(s: bv64, x: bv64): bv64 { (s & 0xfffe_0fff_ffff_ffff) | ((x & 31) << 44) }
  function WithAddr(s: bv64, x: bv64): bv64 { (s & 0xffff_ffff_fffe_0000) | (x & 0x1_ffff) }
  function WithAddrInc(s: bv64, x: bv64): bv64 { (s & 0xffff_ffff_e001_ffff) | ((x & 0xfff) << 17) }
  function WithBatchLen(s: bv64, x: bv64): bv64 { (s & 0xffc0_007f_ffff_ffff) | ((x & 0x7fff) << 39) }

  function Wide(x: bv32): bv64 { x as bv64 }

  /** The context of a unit that has been allocated for a command, its inputs
      translated to the physical units a and b. */
  function Allocated(s: bv64, c: Command, a: bv64, b: bv64): bv64 {
    match c
    case Load(_, aux, len, inc, addr) =>
      WithBatchLen(WithOpAux(WithAddrInc(WithAddr(WithBusy(s, true), Wide(addr)), Wide(inc)), Wide(aux)), Wide(len))
    case Store(_, _, _, inc, addr) =>
      WithMuxA(WithAddrInc(WithAddr(WithBusy(s, true), Wide(addr)), Wide(inc)), a)
    case Arith(_, _, aux, _, _) =>
      WithMuxA(WithMuxB(WithOpAux(WithBusy(s, true), Wide(aux)), b), a)
  }

  // A field that has been written is read back, and the fields beside it keep
  // their values; batch length and input numbers share their bits.

  predicate SameUnit(s: bv64, t: bv64) {
    Phid(t) == Phid(s) && UnitOp(t) == UnitOp(s)
  }

  lemma BusyField(s: bv64, b: bool)
    ensures Busy(WithBusy(s, b)) == b && SameUnit(s, WithBusy(s, b))
  {
  }

  lemma OpAuxField(s: bv64, x: bv64)
    requires x < 2
    ensures UnitOpAux(WithOpAux(s, x)) == x && SameUnit(s, WithOpAux(s, x)) && Busy(WithOpAux(s, x)) == Busy(s)
    ensures UnitMuxA(WithOpAux(s, x)) == UnitMuxA(s) && UnitMuxB(WithOpAux(s, x)) == UnitMuxB(s)
    ensures UnitAddr(WithOpAux(s, x)) == UnitAddr(s) && UnitAddrInc(WithOpAux(s, x)) == UnitAddrInc(s)
    ensures UnitBatchLen(WithOpAux(s, x)) == UnitBatchLen(s)
  {
  }

  lemma MuxAField(s: bv64, x: bv64)
    requires x < 32
    ensures UnitMuxA(WithMuxA(s, x)) == x && SameUnit(s, WithMuxA(s, x)) && Busy(WithMuxA(s, x)) == Busy(s)
    ensures UnitOpAux(WithMuxA(s, x)) == UnitOpAux(s) && UnitMuxB(WithMuxA(s, x)) == UnitMuxB(s)
    ensures UnitAddr(WithMuxA(s, x)) == UnitAddr(s) && UnitAddrInc(WithMuxA(s, x)) == UnitAddrInc(s)
  {
  }

  lemma MuxBField(s: bv64, x: bv64)
    requires x < 32
    ensures UnitMuxB(WithMuxB(s, x)) == x && SameUnit(s, WithMuxB(s, x)) && Busy(WithMuxB(s, x)) == Busy(s)
    ensures UnitOpAux(WithMuxB(s, x)) == UnitOpAux(s) && UnitMuxA(WithMuxB(s, x)) == UnitMuxA(s)
    ensures UnitAddr(WithMuxB(s, x)) == UnitAddr(s) && UnitAddrInc(WithMuxB(s, x)) == UnitAddrInc(s)
  {
  }

  lemma AddrField(s: bv64, x: bv64)
    requires x < 0x2_0000
    ensures UnitAddr(WithAddr(s, x)) == x && SameUnit(s, WithAddr(s, x)) && Busy(WithAddr(s, x)) == Busy(s)
    ensures UnitOpAux(WithAddr(s, x)) == UnitOpAux(s) && UnitMuxA(WithAddr(s, x)) == UnitMuxA(s)
    ensures UnitMuxB(WithAddr(s, x)) == UnitMuxB(s) && UnitAddrInc(WithAddr(s, x)) == UnitAddrInc(s)
    ensures UnitBatchLen(WithAddr(s, x)) == UnitBatchLen(s)
  {
  }

  lemma AddrIncField(s: bv64, x: bv64)
    requires x < 0x1000
    ensures UnitAddrInc(WithAddrInc(s, x)) == x && SameUnit(s, WithAddrInc(s, x)) && Busy(WithAddrInc(s, x)) == Busy(s)
    ensures UnitOpAux(WithAddrInc(s, x)) == UnitOpAux(s) && UnitMuxA(WithAddrInc(s, x)) == UnitMuxA(s)
    ensures UnitMuxB(WithAddrInc(s, x)) == UnitMuxB(s) && UnitAddr(WithAddrInc(s, x)) == UnitAddr(s)
    ensures UnitBatchLen(WithAddrInc(s, x)) == UnitBatchLen(s)
  {
  }

  lemma BatchLenField(s: bv64, x: bv64)
    requires x < 0x8000
    ensures UnitBatchLen(WithBatchLen(s, x)) == x && SameUnit(s, WithBatchLen(s, x))
      && Busy(WithBatchLen(s, x)) == Busy(s)
    ensures UnitOpAux(WithBatchLen(s, x)) == UnitOpAux(s) && UnitAddr(WithBatchLen(s, x)) == UnitAddr(s)
    ensures UnitAddrInc(WithBatchLen(s, x)) == UnitAddrInc(s)
  {
  }

  lemma SameUnitChain(s: bv64, t: bv64, u: bv64)
    requires SameUnit(s, t) && SameUnit(t, u)
    ensures SameUnit(s, u)
  {
    hide Phid, UnitOp;
  }

  lemma LoadCarried(s: bv64, c: Command, a: bv64, b: bv64)
    requires c.Load? && InRange(c)
    ensures var t := Allocated(s, c, a, b);
      Busy(t) && SameUnit(s, t) && UnitOpAux(t) == Wide(c.opAux) && UnitBatchLen(t) == Wide(c.batchLen)
      && UnitAddrInc(t) == Wide(c.addrInc) && UnitAddr(t) == Wide(c.addr)
  {
    hide InRange, Wide, Busy, SameUnit, Phid, UnitOp, UnitOpAux, UnitMuxA, UnitMuxB, UnitAddr, UnitAddrInc;
    hide UnitBatchLen;
    hide WithBusy, WithOpAux, WithMuxA, WithMuxB, WithAddr, WithAddrInc, WithBatchLen;
    var addr, inc, aux, len := Wide(c.addr), Wide(c.addrInc), Wide(c.opAux), Wide(c.batchLen);
    WidenedInRange(c);
    var s1 := WithBusy(s, true);
    var s2 := WithAddr(s1, addr);
    var s3 := WithAddrInc(s2, inc);
    var s4 := WithOpAux(s3, aux);
    BusyField(s, true);
    AddrField(s1, addr);
    AddrIncField(s2, inc);
    OpAuxField(s3, aux);
    BatchLenField(s4, len);
    SameUnitChain(s, s1, s2);
    SameUnitChain(s, s2, s3);
    SameUnitChain(s, s3, s4);
    SameUnitChain(s, s4, WithBatchLen(s4, len));
  }

  lemma StoreCarried(s: bv64, c: Command, a: bv64, b: bv64)
    requires c.Store? && InRange(c) && a < 32
    ensures var t := Allocated(s, c, a, b);
      Busy(t) && SameUnit(s, t) && UnitMuxA(t) == a && UnitAddrInc(t) == Wide(c.addrInc) && UnitAddr(t) == Wide(c.addr)
  {
    hide InRange, Wide, Busy, SameUnit, Phid, UnitOp, UnitOpAux, UnitMuxA, UnitMuxB, UnitAddr, UnitAddrInc;
    hide UnitBatchLen;
    hide WithBusy, WithOpAux, WithMuxA, WithMuxB, WithAddr, WithAddrInc, WithBatchLen;
    var addr, inc := Wide(c.addr), Wide(c.addrInc);
    WidenedInRange(c);
    var s1 := WithBusy(s, true);
    var s2 := WithAddr(s1, addr);
    var s3 := WithAddrInc(s2, inc);
    BusyField(s, true);
    AddrField(s1, addr);
    AddrIncField(s2, inc);
    MuxAField(s3, a);
    SameUnitChain(s, s1, s2);
    SameUnitChain(s, s2, s3);
    SameUnitChain(s, s3, WithMuxA(s3, a));
  }

  lemma ArithCarried(s: bv64, c: Command, a: bv64, b: bv64)
    requires c.Arith? && InRange(c) && a < 32 && b < 32
    ensures var t := Allocated(s, c, a, b);
      Busy(t) && SameUnit(s, t) && UnitOpAux(t) == Wide(c.opAux) && UnitMuxA(t) == a && UnitMuxB(t) == b
  {
    hide InRange, Wide, Busy, SameUnit, Phid, UnitOp, UnitOpAux, UnitMuxA, UnitMuxB, UnitAddr, UnitAddrInc;
    hide UnitBatchLen;
    hide WithBusy, WithOpAux, WithMuxA, WithMuxB, WithAddr, WithAddrInc, WithBatchLen;
    var aux := Wide(c.opAux);
    WidenedInRange(c);
    var s1 := WithBusy(s, true);
    var s2 := WithOpAux(s1, aux);
    var s3 := WithMuxB(s2, b);
    BusyField(s, true);
    OpAuxField(s1, aux);
    MuxBField(s2, b);
    MuxAField(s3, a);
    SameUnitChain(s, s1, s2);
    SameUnitChain(s, s2, s3);
    SameUnitChain(s, s3, WithMuxA(s3, a));
  }

  lemma WidenedInRange(c: Command)
    requires InRange(c)
    ensures Wide(c.opAux) < 2
    ensures !c.Arith? ==> Wide(c.addrInc) < 0x1000 && Wide(c.addr) < 0x2_0000
    ensures c.Load? ==> Wide(c.batchLen) < 0x8000
  {
  }

  /** Allocation marks the unit busy, leaves its number and operation alone,
      and puts every bit of the command's fields into the context. */
  lemma AllocationCarriesCommand(s: bv64, c: Command, a: bv64, b: bv64)
    requires InRange(c) && a < 32 && b < 32
    ensures var t := Allocated(s, c, a, b);
      Busy(t) && SameUnit(s, t)
      && match c
         case Load(_, aux, len, inc, addr) =>
           UnitOpAux(t) == Wide(aux) && UnitBatchLen(t) == Wide(len) && UnitAddrInc(t) == Wide(inc)
             && UnitAddr(t) == Wide(addr)
         case Store(_, _, _, inc, addr) =>
           UnitMuxA(t) == a && UnitAddrInc(t) == Wide(inc) && UnitAddr(t) == Wide(addr)
         case Arith(_, _, aux, _, _) =>
           UnitOpAux(t) == Wide(aux) && UnitMuxA(t) == a && UnitMuxB(t) == b
  {
    match c
    case Load(_, _, _, _, _) => LoadCarried(s, c, a, b);
    case Store(_, _, _, _, _) => StoreCarried(s, c, a, b);
    case Arith(_, _, _, _, _) => ArithCarried(s, c, a, b);
  }

  lemma FreshContext(phid: bv64, op: bv64)
    requires phid < 32 && op < 8
    ensures Phid(UnitContext(phid, op)) == phid && UnitOp(UnitContext(phid, op)) == op && !Busy(UnitContext(phid, op))
  {
  }
}
