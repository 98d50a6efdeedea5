/** A block device behind one write-back block buffer and a register window. */
module Flash {
  import opened Common
  import opened NumberTheory

  const BLOCKSIZE: nat := 512
  const FLASH_SIZE_REG: nat := 8
  const DATA_ADDR: nat := 16

  // ---------------------------------------------------------------------
  // The block buffer
  // ---------------------------------------------------------------------

  /** The device's blocks and the buffer over one of them. */
  datatype Buffer = Buffer(store: seq<seq<Byte>>, buf: seq<Byte>, offs: nat, dirty: bool, active: bool)

  predicate Blocks(store: seq<seq<Byte>>) {
    forall b :: 0 <= b < |store| ==> |store[b]| == BLOCKSIZE
  }

  predicate Shaped(s: Buffer) {
    Blocks(s.store) && |s.buf| == BLOCKSIZE && (s.active ==> s.offs < |s.store|)
  }

  /** Writing or reading a block may fail, in which case nothing changes. */
  function Written(s: Buffer, ok: bool): (t: Buffer)
    requires Shaped(s) && s.active
    ensures Shaped(t)
  {
    if ok then s.(store := s.store[s.offs := s.buf], dirty := false) else s
  }

  function Loaded(s: Buffer, block: nat, ok: bool): (t: Buffer)
    requires Shaped(s) && block < |s.store|
    ensures Shaped(t)
  {
    var t := s.(offs := block, active := true);
    if ok then t.(buf := s.store[block], dirty := false) else t
  }

  /** Whether moving to a block first has to save the one in the buffer. */
  predicate MustSave(s: Buffer, block: nat) {
    s.active && s.dirty && block != s.offs
  }

  predicate MustLoad(s: Buffer, block: nat) {
    block != s.offs || !s.active
  }

  function Positioned(s: Buffer, block: nat, writeOk: bool, readOk: bool): (t: Buffer)
    requires Shaped(s) && block < |s.store|
    ensures Shaped(t) && t.active && t.offs == block && |t.store| == |s.store|
  {
    if !MustLoad(s, block) then s
    else Loaded(if MustSave(s, block) then Written(s, writeOk) else s, block, readOk)
  }

  function Splice(bytes: seq<Byte>, pos: nat, data: seq<Byte>): (r: seq<Byte>)
    requires pos + |data| <= |bytes|
    ensures |r| == |bytes|
  {
    bytes[..pos] + data + bytes[pos + |data|..]
  }

  function Stored(s: Buffer, pos: nat, data: seq<Byte>): (t: Buffer)
    requires Shaped(s) && pos + |data| <= BLOCKSIZE
    ensures Shaped(t)
  {
    s.(buf := Splice(s.buf, pos, data), dirty := true)
  }

  function Flushed(s: Buffer, writeOk: bool): Buffer
    requires Shaped(s)
  {
    (if s.active && s.dirty then Written(s, writeOk) else s).(active := false)
  }

  // ---------------------------------------------------------------------
  // The device that the client sees
  // ---------------------------------------------------------------------

  /** The disk is what the client has written: the buffer is ahead of the store in at
      most the buffered block, and in that block only while it is dirty. */
  ghost predicate Agrees(s: Buffer, disk: seq<seq<Byte>>) {
    && Shaped(s) && |disk| == |s.store|
    && (forall b :: 0 <= b < |disk| && !(s.active && b == s.offs) ==> s.store[b] == disk[b])
    && (s.active ==> s.buf == disk[s.offs] && (!s.dirty ==> s.store[s.offs] == s.buf))
  }

  /** Moving the buffer keeps the client's view exactly when a block that had to be
      saved was saved, or had not really changed, and a block that had to be loaded was
      loaded, or was what the buffer held already. */
  lemma PositionedAgreesIff(s: Buffer, disk: seq<seq<Byte>>, block: nat, writeOk: bool, readOk: bool)
    requires Agrees(s, disk) && block < |disk|
    ensures Agrees(Positioned(s, block, writeOk, readOk), disk) <==>
      && (MustSave(s, block) && !writeOk ==> s.store[s.offs] == s.buf)
      && (MustLoad(s, block) && !readOk ==> s.buf == disk[block])
  {
    var t := Positioned(s, block, writeOk, readOk);
    if MustSave(s, block) {
      assert t.store[s.offs] == if writeOk then s.buf else s.store[s.offs];
      assert disk[s.offs] == s.buf;
    }
  }

  lemma StoredAgrees(s: Buffer, disk: seq<seq<Byte>>, pos: nat, data: seq<Byte>)
    requires Agrees(s, disk) && s.active && pos + |data| <= BLOCKSIZE
    ensures |disk[s.offs]| == BLOCKSIZE
    ensures Agrees(Stored(s, pos, data), disk[s.offs := Splice(disk[s.offs], pos, data)])
  {
  }

  /** After a flush the store itself is the disk, if and only if the dirty block was
      saved or had not really changed. */
  lemma FlushedAgreesIff(s: Buffer, disk: seq<seq<Byte>>, writeOk: bool)
    requires Agrees(s, disk)
    ensures Flushed(s, writeOk).store == disk <==> (s.active && s.dirty && !writeOk ==> s.store[s.offs] == s.buf)
    ensures Agrees(Flushed(s, true), disk) && Flushed(s, true).store == disk
  {
    var t := Flushed(s, writeOk);
    if s.active && s.dirty {
      assert t.store[s.offs] == if writeOk then s.buf else s.store[s.offs];
      assert disk[s.offs] == s.buf;
    }
    assert Flushed(s, true).store == disk;
    if s.active && s.dirty && !writeOk ==> s.store[s.offs] == s.buf {
      assert t.store == disk;
    }
  }

  // ---------------------------------------------------------------------
  // The register window
  // ---------------------------------------------------------------------

  function LittleEndian(bytes: seq<Byte>): nat {
    if bytes == [] then 0 else bytes[0] + 256 * LittleEndian(bytes[1..])
  }

  /** Byte i is the digit of weight 256^i, and there is nothing above the last byte. */
  lemma {:induction false} BytesAreDigits(bytes: seq<Byte>, i: nat)
    ensures LittleEndian(bytes) < Pow2(8 * |bytes|)
    ensures i < |bytes| ==> LittleEndian(bytes) / Pow2(8 * i) % 256 == bytes[i]
  {
    if bytes == [] {
      Doubles(0);
    } else {
      var rest := LittleEndian(bytes[1..]);
      BytesAreDigits(bytes[1..], if i == 0 then 0 else i - 1);
      EightBitsUp(8 * (|bytes| - 1));
      Doubles(0);
      hide Pow2;
      assert 8 * (|bytes| - 1) == 8 * |bytes[1..]|;
      if 0 < i {
        EightBitsUp(8 * (i - 1));
        DropsADigit(bytes[0], rest, Pow2(8 * (i - 1)));
      }
    }
  }

  lemma DropsADigit(b: Byte, rest: nat, w: nat)
    requires w > 0
    ensures (b + 256 * rest) / (256 * w) == rest / w
  {
    var q, r := rest / w, rest % w;
    assert rest == w * q + r;
    assert b + 256 * rest == q * (256 * w) + (b + 256 * r);
    DivModUnique(b + 256 * rest, 256 * w, q, b + 256 * r);
  }

  datatype Request = ReadAt(addr: nat, len: nat) | WriteAt(addr: nat, data: seq<Byte>)

  datatype Reply = Data(bytes: seq<Byte>) | Done | Abort

  /** Each request stays inside the register or the window it starts in. */
  predicate Fits(q: Request) {
    var n := if q.ReadAt? then q.len else |q.data|;
    if q.addr < FLASH_SIZE_REG then q.addr + n <= FLASH_SIZE_REG
    else if q.addr < DATA_ADDR then q.addr + n <= DATA_ADDR
    else q.addr < DATA_ADDR + BLOCKSIZE && q.addr + n <= DATA_ADDR + BLOCKSIZE
  }

  /** The controller: buffer and the two registers, eight bytes each. */
  datatype Ctl = Ctl(buffer: Buffer, target: seq<Byte>, size: seq<Byte>)

  predicate CtlShaped(c: Ctl) {
    Shaped(c.buffer) && |c.target| == 8 && |c.size| == 8 && LittleEndian(c.size) == |c.buffer.store|
  }

  /** One access; the outcomes tell whether the device would write and read a block. */
  function Served(c: Ctl, q: Request, writeOk: bool, readOk: bool): (r: (Ctl, Reply))
    requires CtlShaped(c) && Fits(q)
    ensures CtlShaped(r.0)
  {
    if q.addr < FLASH_SIZE_REG then
      match q
      case ReadAt(a, n) => (c, Data(c.target[a..a + n]))
      case WriteAt(a, data) => (c.(target := Splice(c.target, a, data)), Done)
    else if q.addr < DATA_ADDR then
      match q
      case ReadAt(a, n) => (c, Data(c.size[a - FLASH_SIZE_REG..a - FLASH_SIZE_REG + n]))
      case WriteAt(_, _) => (c, Abort)
    else if LittleEndian(c.target) >= LittleEndian(c.size) then (c, Abort)
    else
      var b := Positioned(c.buffer, LittleEndian(c.target), writeOk, readOk);
      match q
      case ReadAt(a, n) => (c.(buffer := b), Data(b.buf[a - DATA_ADDR..a - DATA_ADDR + n]))
      case WriteAt(a, data) => (c.(buffer := Stored(b, a - DATA_ADDR, data)), Done)
  }

  /** The same window over a disk without any buffer. */
  datatype Flat = Flat(disk: seq<seq<Byte>>, target: seq<Byte>, size: seq<Byte>)

  predicate FlatShaped(f: Flat) {
    Blocks(f.disk) && |f.target| == 8 && |f.size| == 8 && LittleEndian(f.size) == |f.disk|
  }

  function FlatServed(f: Flat, q: Request): (r: (Flat, Reply))
    requires FlatShaped(f) && Fits(q)
    ensures FlatShaped(r.0)
  {
    if q.addr < FLASH_SIZE_REG then
      match q
      case ReadAt(a, n) => (f, Data(f.target[a..a + n]))
      case WriteAt(a, data) => (f.(target := Splice(f.target, a, data)), Done)
    else if q.addr < DATA_ADDR then
      match q
      case ReadAt(a, n) => (f, Data(f.size[a - FLASH_SIZE_REG..a - FLASH_SIZE_REG + n]))
      case WriteAt(_, _) => (f, Abort)
    else
      var block := LittleEndian(f.target);
      if block >= |f.disk| then (f, Abort)
      else
        match q
        case ReadAt(a, n) => (f, Data(f.disk[block][a - DATA_ADDR..a - DATA_ADDR + n]))
        case WriteAt(a, data) => (f.(disk := f.disk[block := Splice(f.disk[block], a - DATA_ADDR, data)]), Done)
  }

  ghost predicate Same(c: Ctl, f: Flat) {
    CtlShaped(c) && FlatShaped(f) && Agrees(c.buffer, f.disk) && c.target == f.target && c.size == f.size
  }

  lemma ServedAlike(c: Ctl, f: Flat, q: Request)
    requires Same(c, f) && Fits(q)
    ensures Served(c, q, true, true).1 == FlatServed(f, q).1
    ensures Same(Served(c, q, true, true).0, FlatServed(f, q).0)
  {
    hide Positioned, Stored, Splice, LittleEndian;
    if q.addr >= DATA_ADDR && LittleEndian(c.target) < |f.disk| {
      var block := LittleEndian(c.target);
      var b := Positioned(c.buffer, block, true, true);
      PositionedAgreesIff(c.buffer, f.disk, block, true, true);
      if q.WriteAt? {
        StoredAgrees(b, f.disk, q.addr - DATA_ADDR, q.data);
        StoredLength(b, q.addr - DATA_ADDR, q.data);
      }
    }
  }

  lemma StoredLength(s: Buffer, pos: nat, data: seq<Byte>)
    requires Shaped(s) && pos + |data| <= BLOCKSIZE
    ensures |Stored(s, pos, data).store| == |s.store|
  {
  }

  function Replies(c: Ctl, qs: seq<Request>): seq<Reply>
    requires CtlShaped(c) && forall q <- qs :: Fits(q)
    decreases |qs|
  {
    if qs == [] then [] else [Served(c, qs[0], true, true).1] + Replies(Served(c, qs[0], true, true).0, qs[1..])
  }

  function After(c: Ctl, qs: seq<Request>): (r: Ctl)
    requires CtlShaped(c) && forall q <- qs :: Fits(q)
    ensures CtlShaped(r)
    decreases |qs|
  {
    if qs == [] then c else After(Served(c, qs[0], true, true).0, qs[1..])
  }

  function FlatReplies(f: Flat, qs: seq<Request>): seq<Reply>
    requires FlatShaped(f) && forall q <- qs :: Fits(q)
    decreases |qs|
  {
    if qs == [] then [] else [FlatServed(f, qs[0]).1] + FlatReplies(FlatServed(f, qs[0]).0, qs[1..])
  }

  function FlatAfter(f: Flat, qs: seq<Request>): (r: Flat)
    requires FlatShaped(f) && forall q <- qs :: Fits(q)
    ensures FlatShaped(r)
    decreases |qs|
  {
    if qs == [] then f else FlatAfter(FlatServed(f, qs[0]).0, qs[1..])
  }

  lemma {:induction false} RunsAlike(c: Ctl, f: Flat, qs: seq<Request>)
    requires Same(c, f) && forall q <- qs :: Fits(q)
    ensures Replies(c, qs) == FlatReplies(f, qs) && Same(After(c, qs), FlatAfter(f, qs))
    decreases |qs|
  {
    hide Served, FlatServed, Agrees;
    if qs != [] {
      ServedAlike(c, f, qs[0]);
      RunsAlike(Served(c, qs[0], true, true).0, FlatServed(f, qs[0]).0, qs[1..]);
    }
  }

  /** Whatever the buffer held to begin with, every sequence of requests is answered as
      by the bare disk, and once the controller has gone the store is that disk. */
  lemma BufferIsTransparent(c: Ctl, qs: seq<Request>)
    requires CtlShaped(c) && !c.buffer.active && forall q <- qs :: Fits(q)
    ensures var f := Flat(c.buffer.store, c.target, c.size);
      Replies(c, qs) == FlatReplies(f, qs) && Flushed(After(c, qs).buffer, true).store == FlatAfter(f, qs).disk
  {
    hide Replies, FlatReplies, After, FlatAfter, Flushed, LittleEndian;
    var f := Flat(c.buffer.store, c.target, c.size);
    RunsAlike(c, f, qs);
    FlushedAgreesIff(After(c, qs).buffer, FlatAfter(f, qs).disk, true);
  }

  /** The window by its addresses: the block number goes to bytes 0 to 7, the number of
      blocks stands in bytes 8 to 15, and bytes 16 to 527 are the block chosen. */
  lemma WindowAddresses(c: Ctl, f: Flat, t: seq<Byte>, p: nat, n: nat)
    requires Same(c, f) && |t| == 8 && LittleEndian(t) < |f.disk| && p < 512 && p + n <= 512
    ensures |f.disk[LittleEndian(t)]| == 512 && LittleEndian(f.size) == |f.disk|
    ensures Replies(c, [WriteAt(0, t), ReadAt(0, 8), ReadAt(8, 8), ReadAt(16 + p, n)])
      == [Done, Data(t), Data(f.size), Data(f.disk[LittleEndian(t)][p..p + n])]
  {
    hide LittleEndian, Agrees, Served;
    var qs := [WriteAt(0, t), ReadAt(0, 8), ReadAt(8, 8), ReadAt(16 + p, n)];
    RunsAlike(c, f, qs);
    hide Same, Replies;
    var g := f.(target := t);
    assert Splice(f.target, 0, t) == t;
    assert FlatServed(f, qs[0]) == (g, Done);
    assert FlatServed(g, qs[1]) == (g, Data(t));
    assert f.size[0..8] == f.size;
    assert FlatServed(g, qs[2]) == (g, Data(f.size));
    assert FlatServed(g, qs[3]) == (g, Data(f.disk[LittleEndian(t)][p..p + n]));
    assert qs[1..] == [qs[1], qs[2], qs[3]] && qs[1..][1..] == [qs[2], qs[3]] && qs[1..][1..][1..] == [qs[3]];
    hide FlatServed;
    assert FlatReplies(g, [qs[3]]) == [FlatServed(g, qs[3]).1];
    assert FlatReplies(g, [qs[2], qs[3]]) == [FlatServed(g, qs[2]).1] + FlatReplies(g, [qs[3]]);
    assert FlatReplies(g, [qs[1], qs[2], qs[3]]) == [FlatServed(g, qs[1]).1] + FlatReplies(g, [qs[2], qs[3]]);
  }

  // ---------------------------------------------------------------------
  // Which blocks are written back
  // ---------------------------------------------------------------------

  /** The access makes the buffer save its block first. */
  predicate SavesFor(c: Ctl, q: Request) {
    q.addr >= 16 && LittleEndian(c.target) < LittleEndian(c.size) && MustSave(c.buffer, LittleEndian(c.target))
  }

  /** How many of the accesses do, when every transfer works. */
  function Saves(c: Ctl, qs: seq<Request>): nat
    requires CtlShaped(c) && forall q <- qs :: Fits(q)
    decreases |qs|
  {
    if qs == [] then 0
    else (if SavesFor(c, qs[0]) then 1 else 0) + Saves(Served(c, qs[0], true, true).0, qs[1..])
  }

  function DataWrites(qs: seq<Request>): nat {
    if qs == [] then 0 else (if qs[0].WriteAt? && qs[0].addr >= 16 then 1 else 0) + DataWrites(qs[1..])
  }

  /** A block is written back only for data that has come in since it was loaded, so that
      the device is written to at most once for each write of data. */
  lemma {:induction false} SavesNeedWrites(c: Ctl, qs: seq<Request>)
    requires CtlShaped(c) && forall q <- qs :: Fits(q)
    ensures Saves(c, qs) <= DataWrites(qs) + if c.buffer.dirty then 1 else 0
    decreases |qs|
  {
    hide LittleEndian, Splice;
    if qs != [] { SavesNeedWrites(Served(c, qs[0], true, true).0, qs[1..]); }
  }

  /** What becomes of a block whose load fails: what is in the buffer instead goes over it
      at the next flush if and only if the buffer was dirty and had not been saved before
      the load, and differs from the block. */
  lemma FailedLoadSpillsIff(s: Buffer, block: nat, writeOk: bool)
    requires Shaped(s) && block < |s.store| && MustLoad(s, block)
    ensures var t := Flushed(Positioned(s, block, writeOk, false), true);
      t.store[block] != s.store[block] <==> s.dirty && !(s.active && writeOk) && s.buf != s.store[block]
  {
  }

  // ---------------------------------------------------------------------
  // The objects
  // ---------------------------------------------------------------------

  class BlockDevice {
    var blocks: seq<seq<Byte>>

    constructor (blocks: seq<seq<Byte>>)
      ensures this.blocks == blocks
    {
      this.blocks := blocks;
    }
  }

  class BlockBuffer {
    const buf: array<Byte>
    const device: BlockDevice
    var offs: nat
    var dirty: bool
    var active: bool

    ghost function View(): Buffer
      reads this, buf, device
    {
      Buffer(device.blocks, buf[..], offs, dirty, active)
    }

    constructor (device: BlockDevice)
      requires Blocks(device.blocks)
      ensures this.device == device && fresh(buf) && Shaped(View()) && !active && !dirty && offs == 0
    {
      this.device := device;
      buf := new Byte[BLOCKSIZE](i => 0);
      offs, dirty, active := 0, false, false;
    }

    method WriteBlock(ok: bool)
      requires Shaped(View()) && active
      modifies this`dirty, device
      ensures View() == Written(old(View()), ok)
    {
      if !ok {
        return;
      }
      device.blocks := device.blocks[offs := buf[..]];
      dirty := false;
    }

    method ReadBlock(block: nat, ok: bool)
      requires Shaped(View()) && block < |device.blocks|
      modifies this`dirty, buf
      ensures buf[..] == (if ok then device.blocks[block] else old(buf[..])) && dirty == (old(dirty) && !ok)
    {
      if !ok {
        return;
      }
      CopyIn(device.blocks[block], 0);
      dirty := false;
    }

    method CopyIn(source: seq<Byte>, pos: nat)
      requires pos + |source| <= buf.Length
      modifies buf
      ensures buf[..] == Splice(old(buf[..]), pos, source)
    {
      for i := 0 to |source|
        invariant forall k :: 0 <= k < buf.Length ==>
          buf[k] == if pos <= k < pos + i then source[k - pos] else old(buf[k])
      {
        buf[pos + i] := source[i];
      }
    }

    method SetPos(block: nat, writeOk: bool, readOk: bool)
      requires Shaped(View()) && block < |device.blocks|
      modifies this, buf, device
      ensures View() == Positioned(old(View()), block, writeOk, readOk)
    {
      if block != offs || !active {
        if dirty && active {
          WriteBlock(writeOk);
        }
        offs := block;
        active := true;
        ReadBlock(block, readOk);
      }
    }

    method SetData(source: seq<Byte>, pos: nat)
      requires Shaped(View()) && active && pos + |source| <= BLOCKSIZE
      modifies this`dirty, buf
      ensures View() == Stored(old(View()), pos, source)
    {
      CopyIn(source, pos);
      dirty := true;
    }

    method GetData(pos: nat, length: nat) returns (target: seq<Byte>)
      requires Shaped(View()) && active && pos + length <= BLOCKSIZE
      ensures target == View().buf[pos..pos + length]
    {
      target := buf[pos..pos + length];
    }

    method Clear(writeOk: bool)
      requires Shaped(View())
      modifies this, device
      ensures View() == Flushed(old(View()), writeOk)
    {
      if active && dirty {
        WriteBlock(writeOk);
      }
      active := false;
    }
  }

  class FlashController {
    const blockBuf: BlockBuffer
    var targetBlock: seq<Byte>
    const deviceNumBlocks: seq<Byte>

    ghost function View(): Ctl
      reads this, blockBuf, blockBuf.buf, blockBuf.device
    {
      Ctl(blockBuf.View(), targetBlock, deviceNumBlocks)
    }

    constructor (device: BlockDevice, numBlocks: seq<Byte>)
      requires Blocks(device.blocks) && |numBlocks| == 8 && LittleEndian(numBlocks) == |device.blocks|
      ensures CtlShaped(View()) && !View().buffer.active && View().buffer.store == device.blocks
      ensures blockBuf.device == device && fresh(blockBuf) && fresh(blockBuf.buf)
    {
      blockBuf := new BlockBuffer(device);
      targetBlock := seq(8, i => 0);
      deviceNumBlocks := numBlocks;
    }

    /** One access through the bus, with the outcome of the block transfers it needs. */
    method Transport(q: Request, writeOk: bool, readOk: bool) returns (reply: Reply)
      requires CtlShaped(View()) && Fits(q)
      modifies this, blockBuf, blockBuf.buf, blockBuf.device
      ensures (View(), reply) == Served(old(View()), q, writeOk, readOk)
    {
      hide LittleEndian, Splice, Positioned, Stored;
      if q.addr < FLASH_SIZE_REG {
        match q
        case ReadAt(a, n) => reply := Data(targetBlock[a..a + n]);
        case WriteAt(a, data) =>
          targetBlock := Splice(targetBlock, a, data);
          reply := Done;
      } else if q.addr < DATA_ADDR {
        match q
        case ReadAt(a, n) => reply := Data(deviceNumBlocks[a - FLASH_SIZE_REG..a - FLASH_SIZE_REG + n]);
        case WriteAt(_, _) => reply := Abort;
      } else if LittleEndian(targetBlock) >= LittleEndian(deviceNumBlocks) {
        reply := Abort;
      } else {
        blockBuf.SetPos(LittleEndian(targetBlock), writeOk, readOk);
        match q
        case ReadAt(a, n) =>
          var bytes := blockBuf.GetData(a - DATA_ADDR, n);
          reply := Data(bytes);
        case WriteAt(a, data) =>
          blockBuf.SetData(data, a - DATA_ADDR);
          reply := Done;
      }
    }

    method Close()
      requires CtlShaped(View())
      modifies blockBuf, blockBuf.device
      ensures View().buffer == Flushed(old(View()).buffer, true)
    {
      blockBuf.Clear(true);
    }
  }
}
