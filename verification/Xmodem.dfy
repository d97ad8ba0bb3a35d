/** The XMODEM sender and receiver as machines that are stopped in _inbyte: one transition consumes
    what _inbyte returns and runs to the next call of it. */
module Xmodem {
  import Crc

  const SOH: bv8 := 0x01
  const STX: bv8 := 0x02
  const EOT: bv8 := 0x04
  const ACK: bv8 := 0x06
  const NAK: bv8 := 0x15
  const CAN: bv8 := 0x18
  const CTRLZ: bv8 := 0x1A
  const CHAR_C: bv8 := 0x43
  const CHAR_G: bv8 := 0x47
  const MAXRETRANS := 25
  const CANS: seq<bv8> := [CAN, CAN, CAN]

  // The result of _inbyte: a byte, or a negative value.
  datatype In = Byte(b: bv8) | Timeout

  // ++packetno on an unsigned char.
  function NextNo(packetno: bv8): bv8 { packetno + 1 }

  // ----- Packets

  function Checksum(data: seq<bv8>): bv8 {
    if data == [] then 0 else Checksum(data[..|data| - 1]) + data[|data| - 1]
  }

  function Trailer(crc: int, data: seq<bv8>): (t: seq<bv8>)
    ensures |t| == if crc != 0 then 2 else 1
  {
    if crc != 0 then var w := Crc.CrcFrom(Crc.XMODEM_CRC_INIT, data); [Crc.Hi(w), Crc.Lo(w)]
    else [Checksum(data)]
  }

  function Packet(packetno: bv8, data: seq<bv8>, crc: int): (p: seq<bv8>)
    ensures |p| == 3 + |data| + if crc != 0 then 2 else 1
  {
    [if |data| == 1024 then STX else SOH, packetno, !packetno] + data + Trailer(crc, data)
  }

  function BufSize(first: bv8): nat { if first == STX then 1024 else 128 }

  function PacketSize(first: bv8, crc: int): nat { BufSize(first) + 4 + if crc != 0 then 1 else 0 }

  // check(): buf holds sz data bytes, then the trailer.
  predicate Check(crc: int, buf: seq<bv8>, sz: nat)
    requires sz + (if crc != 0 then 2 else 1) <= |buf|
  {
    if crc != 0 then Crc.CrcFrom(Crc.XMODEM_CRC_INIT, buf[..sz]) == Crc.OfBytes(buf[sz], buf[sz + 1])
    else Checksum(buf[..sz]) == buf[sz]
  }

  // ----- The receiver

  datatype After = Cancelled | NoSync | TooMany | Rejected

  datatype RxPc = RxWait | RxCan | RxBody(buf: seq<bv8>) | RxFlush(after: After) | RxDone(code: int)

  datatype Rx = Rx(
    destsz: int, mode: bool,
    pc: RxPc, stored: seq<bv8>, packetno: bv8, trychar: bv8, crc: int, retry: nat, retrans: int,
    out: seq<bv8>)

  // The receiver at the head of its loop for the first time.
  function RxInit(destsz: int, crc: int, mode: bool): Rx {
    var trychar := if crc == 2 then CHAR_G else if crc != 0 then CHAR_C else NAK;
    Listen(Rx(destsz, mode, RxWait, [], if mode then 0 else 1, trychar, crc, 0, MAXRETRANS, []), 0)
  }

  // The head of the retry loop.
  function Listen(r: Rx, retry: nat): Rx {
    if retry < 16 then Prompt(r, retry)
    else if r.trychar == CHAR_G then Prompt(r.(trychar := CHAR_C, crc := 1), 0)
    else if r.trychar == CHAR_C then Prompt(r.(trychar := NAK, crc := 0), 0)
    else r.(pc := RxFlush(NoSync), retry := 0)
  }

  function Prompt(r: Rx, retry: nat): Rx {
    r.(pc := RxWait, retry := retry, out := r.out + if r.trychar != 0 then [r.trychar] else [])
  }

  function RxNext(r: Rx, c: In): Rx {
    match r.pc
    case RxWait =>
      if c == Byte(SOH) || c == Byte(STX) then r.(pc := RxBody([c.b]), trychar := 0)
      else if c == Byte(EOT) then r.(pc := RxDone(|r.stored|), out := r.out + [ACK])
      else if c == Byte(CAN) then r.(pc := RxCan)
      else Listen(r, r.retry + 1)
    case RxCan =>
      if c == Byte(CAN) then r.(pc := RxFlush(Cancelled)) else Listen(r, r.retry + 1)
    case RxBody(buf) =>
      if c == Timeout || buf == [] then r.(pc := RxFlush(Rejected))
      else if |buf| + 1 < PacketSize(buf[0], r.crc) then r.(pc := RxBody(buf + [c.b]))
      else Judge(r, buf + [c.b])
    case RxFlush(after) => if c == Timeout then Flushed(r, after) else r
    case RxDone(_) => r
  }

  function Flushed(r: Rx, after: After): Rx {
    match after
    case Cancelled => r.(pc := RxDone(-1), out := r.out + [ACK])
    case NoSync => r.(pc := RxDone(-2), out := r.out + CANS)
    case TooMany => r.(pc := RxDone(-3), out := r.out + CANS)
    case Rejected => Listen(r.(out := r.out + [NAK]), 0)
  }

  // The test on a complete packet. The source compares with packetno - 1 as an int: no packet is the
  // repetition of the one before number 0.
  predicate Acceptable(packetno: bv8, crc: int, buf: seq<bv8>) {
    && 3 < |buf| && |buf| >= PacketSize(buf[0], crc)
    && buf[1] == !buf[2]
    && (buf[1] == packetno || (packetno != 0 && buf[1] == packetno - 1))
    && Check(crc, buf[3..], BufSize(buf[0]))
  }

  // What fits of one more block.
  function Store(stored: seq<bv8>, destsz: int, data: seq<bv8>): seq<bv8> {
    var count := if destsz - |stored| > |data| then |data| else destsz - |stored|;
    if count > 0 then stored + data[..count] else stored
  }

  // The bytes stored after an acceptable packet.
  function StoredAfter(stored: seq<bv8>, destsz: int, packetno: bv8, buf: seq<bv8>): seq<bv8>
    requires 3 < |buf| && 3 + BufSize(buf[0]) <= |buf|
  {
    if buf[1] == packetno then Store(stored, destsz, buf[3..3 + BufSize(buf[0])]) else stored
  }

  // The fields then: retrans counts down on a repetition and starts again on a new block.
  function Taken(r: Rx, stored: seq<bv8>, isNew: bool): Rx {
    r.(stored := stored,
       packetno := if isNew then NextNo(r.packetno) else r.packetno,
       retrans := if isNew then MAXRETRANS else r.retrans - 1)
  }

  function Judge(r: Rx, buf: seq<bv8>): Rx {
    if Acceptable(r.packetno, r.crc, buf) then
      Accepted(Taken(r, StoredAfter(r.stored, r.destsz, r.packetno, buf), buf[1] == r.packetno))
    else r.(pc := RxFlush(Rejected))
  }

  function Reply(crc: int): seq<bv8> { if crc != 2 then [ACK] else [] }

  function Accepted(r: Rx): Rx {
    if r.retrans <= 0 then r.(pc := RxFlush(TooMany))
    else if r.mode then r.(pc := RxDone(|r.stored|), out := r.out + Reply(r.crc))
    else Listen(r.(out := r.out + Reply(r.crc)), 0)
  }

  function RxRun(r: Rx, ins: seq<In>): Rx {
    if ins == [] then r else RxNext(RxRun(r, ins[..|ins| - 1]), ins[|ins| - 1])
  }

  function Bytes(bs: seq<bv8>): (ins: seq<In>)
    ensures |ins| == |bs| && forall i :: 0 <= i < |bs| ==> ins[i] == Byte(bs[i])
  {
    seq(|bs|, i requires 0 <= i < |bs| => Byte(bs[i]))
  }

  // ----- The sender

  datatype TxPc = TxSync | TxSyncCan | TxReply | TxReplyCan | TxEot | TxFlush(code: int) | TxDone(code: int)

  // What the sender does between two calls of _inbyte.
  datatype Act = Fetch(data: seq<bv8>) | Send(bytes: seq<bv8>) | SendEot | SendCtl(bytes: seq<bv8>)

  datatype Tx = Tx(
    src: seq<bv8>, srcsz: int, onek: bool, mode: bool,
    pc: TxPc, len: nat, packetno: bv8, crc: int, retry: nat, block: seq<bv8>, acts: seq<Act>)

  predicate TxOk(t: Tx) { t.srcsz <= |t.src| }

  function TxInit(src: seq<bv8>, srcsz: int, onek: bool, mode: bool): Tx {
    Tx(src, srcsz, onek, mode, TxSync, 0, if mode then 0 else 1, -1, 0, [], [])
  }

  function Did(t: Tx, act: Act): Tx { t.(acts := t.acts + [act]) }

  function BlockSize(left: int, onek: bool): nat { if onek && left > 128 then 1024 else 128 }

  function Fill(mode: bool): bv8 { if mode then 0 else CTRLZ }

  function Repeat(b: bv8, n: nat): (s: seq<bv8>)
    ensures |s| == n && forall i :: 0 <= i < n ==> s[i] == b
  {
    seq(n, _ => b)
  }

  // The bytes fetched for the block at len, and the block they are padded to.
  function Chunk(src: seq<bv8>, srcsz: int, onek: bool, len: nat): seq<bv8>
    requires len < srcsz <= |src|
  {
    var size := BlockSize(srcsz - len, onek);
    src[len..if srcsz - len > size then len + size else srcsz]
  }

  function Block(src: seq<bv8>, srcsz: int, onek: bool, mode: bool, len: nat): (block: seq<bv8>)
    requires len < srcsz <= |src|
    ensures |block| == BlockSize(srcsz - len, onek)
  {
    var chunk := Chunk(src, srcsz, onek, len);
    chunk + Repeat(Fill(mode), BlockSize(srcsz - len, onek) - |chunk|)
  }

  // start_trans; without acknowledgements (crc 2) it runs to the end of the source.
  function StartTrans(t: Tx): Tx
    requires TxOk(t)
    decreases t.srcsz - t.len
  {
    if t.len < t.srcsz then
      var block := Block(t.src, t.srcsz, t.onek, t.mode, t.len);
      var t' := SendBlock(Did(t.(block := block), Fetch(Chunk(t.src, t.srcsz, t.onek, t.len))), 0);
      if t.crc == 2 then StartTrans(Advance(t')) else t'
    else if t.mode then t.(pc := TxDone(t.len))
    else Did(t, SendEot).(pc := TxEot, retry := 0)
  }

  function SendBlock(t: Tx, retry: nat): Tx {
    Did(t, Send(Packet(t.packetno, t.block, t.crc))).(pc := TxReply, retry := retry)
  }

  function Advance(t: Tx): Tx { t.(packetno := NextNo(t.packetno), len := t.len + |t.block|) }

  function Resend(t: Tx): Tx {
    if t.retry + 1 < MAXRETRANS then SendBlock(t, t.retry + 1)
    else Did(t, SendCtl(CANS)).(pc := TxFlush(-4))
  }

  function SyncRetry(t: Tx): Tx {
    if t.retry + 1 < 16 then t.(pc := TxSync, retry := t.retry + 1)
    else Did(t, SendCtl(CANS)).(pc := TxFlush(-2))
  }

  function TxNext(t: Tx, c: In): Tx
    requires TxOk(t)
  {
    match t.pc
    case TxSync =>
      if c == Byte(CHAR_G) then StartTrans(t.(crc := 2))
      else if c == Byte(CHAR_C) then StartTrans(t.(crc := 1))
      else if c == Byte(NAK) then StartTrans(t.(crc := 0))
      else if c == Byte(CAN) then t.(pc := TxSyncCan)
      else SyncRetry(t)
    case TxSyncCan =>
      if c == Byte(CAN) then Did(t, SendCtl([ACK])).(pc := TxFlush(-1)) else SyncRetry(t)
    case TxReply =>
      if c == Byte(ACK) then StartTrans(Advance(t))
      else if c == Byte(CAN) then t.(pc := TxReplyCan)
      else Resend(t)
    case TxReplyCan =>
      if c == Byte(CAN) then Did(t, SendCtl([ACK])).(pc := TxFlush(-1)) else Resend(t)
    case TxEot =>
      if c == Byte(ACK) then t.(pc := TxDone(t.len))
      else if t.retry + 1 < 10 then Did(t, SendEot).(retry := t.retry + 1)
      else t.(pc := TxFlush(-5))
    case TxFlush(code) => if c == Timeout then t.(pc := TxDone(code)) else t
    case TxDone(_) => t
  }

  predicate SameCall(t: Tx, t': Tx) {
    t'.src == t.src && t'.srcsz == t.srcsz && t'.onek == t.onek && t'.mode == t.mode
  }

  lemma {:induction false} StartTransKeeps(t: Tx)
    requires TxOk(t)
    ensures SameCall(t, StartTrans(t)) && StartTrans(t).crc == t.crc
    decreases t.srcsz - t.len
  {
    hide Packet, Block, Chunk;
    if t.len < t.srcsz && t.crc == 2 {
      var block := Block(t.src, t.srcsz, t.onek, t.mode, t.len);
      StartTransKeeps(Advance(SendBlock(Did(t.(block := block), Fetch(Chunk(t.src, t.srcsz, t.onek, t.len))), 0)));
    }
  }

  // The arguments of the call never change, nor does the mode once it is agreed on.
  lemma TxNextKeeps(t: Tx, c: In)
    requires TxOk(t)
    ensures SameCall(t, TxNext(t, c)) && (t.pc != TxSync ==> TxNext(t, c).crc == t.crc)
  {
    hide StartTrans, Packet;
    match t.pc
    case TxSync =>
      if c == Byte(CHAR_G) { StartTransKeeps(t.(crc := 2)); }
      else if c == Byte(CHAR_C) { StartTransKeeps(t.(crc := 1)); }
      else if c == Byte(NAK) { StartTransKeeps(t.(crc := 0)); }
    case TxReply =>
      if c == Byte(ACK) { StartTransKeeps(Advance(t)); }
    case _ =>
  }

  function TxRun(t: Tx, ins: seq<In>): (t': Tx)
    requires TxOk(t)
    ensures TxOk(t')
  {
    if ins == [] then t else
      var s := TxRun(t, ins[..|ins| - 1]);
      TxNextKeeps(s, ins[|ins| - 1]);
      TxNext(s, ins[|ins| - 1])
  }

  // The bytes an act puts on the line.
  function LineOf(acts: seq<Act>): seq<bv8> {
    if acts == [] then [] else LineOf(acts[..|acts| - 1]) + ActBytes(acts[|acts| - 1])
  }

  function ActBytes(act: Act): seq<bv8> {
    match act
    case Fetch(_) => []
    case Send(bytes) => bytes
    case SendEot => [EOT]
    case SendCtl(bytes) => bytes
  }
}
