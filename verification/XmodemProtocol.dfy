/** Sender and receiver over a line that drops packets, puts anything in their place or between them that
    does not deceive the receiver, and loses or garbles replies. A reply is read in the wait it answers or
    never; it carries no number. */
module XmodemProtocol {
  import opened Xmodem
  import opened XmodemIo
  import opened XmodemSend
  import opened XmodemPacing
  import Crc

  // ----- The source as blocks

  datatype Source = Source(src: seq<bv8>, srcsz: int, onek: bool, mode: bool)

  predicate SourceOk(j: Source) { j.srcsz <= |j.src| }

  function SourceOf(t: Tx): Source { Source(t.src, t.srcsz, t.onek, t.mode) }

  function BlockAt(j: Source, at: nat): (b: seq<bv8>)
    requires SourceOk(j) && at < j.srcsz
    ensures |b| == BlockSize(j.srcsz - at, j.onek) && BlockSized(b)
  {
    Block(j.src, j.srcsz, j.onek, j.mode, at)
  }

  predicate BlockSized(data: seq<bv8>) { |data| == 128 || |data| == 1024 }

  // The first k blocks: where they end, and their bytes.
  function Off(j: Source, k: nat): nat {
    if k == 0 then 0 else
      var at := Off(j, k - 1);
      if at < j.srcsz then at + BlockSize(j.srcsz - at, j.onek) else at
  }

  function Content(j: Source, k: nat): seq<bv8>
    requires SourceOk(j)
  {
    if k == 0 then [] else
      var at := Off(j, k - 1);
      if at < j.srcsz then Content(j, k - 1) + BlockAt(j, at) else Content(j, k - 1)
  }

  // All blocks from a position on.
  function FullFrom(j: Source, at: nat): seq<bv8>
    requires SourceOk(j)
    decreases j.srcsz - at
  {
    if at < j.srcsz then BlockAt(j, at) + FullFrom(j, at + BlockSize(j.srcsz - at, j.onek)) else []
  }

  function Full(j: Source): seq<bv8>
    requires SourceOk(j)
  {
    FullFrom(j, 0)
  }

  // The padded source is the source followed by fewer than 1024 fill bytes.
  lemma {:induction false} FullIsPadded(j: Source, at: nat) returns (n: nat)
    requires SourceOk(j) && (at <= j.srcsz || at == 0)
    ensures n < 1024 && FullFrom(j, at) == (if at < j.srcsz then j.src[at..j.srcsz] else []) + Repeat(Fill(j.mode), n)
    decreases j.srcsz - at
  {
    hide BlockAt, Repeat, Fill;
    if at < j.srcsz {
      var size := BlockSize(j.srcsz - at, j.onek);
      BlockAtIs(j, at);
      if at + size <= j.srcsz {
        n := FullIsPadded(j, at + size);
        var tail := if at + size < j.srcsz then j.src[at + size..j.srcsz] else [];
        assert j.src[at..at + size] + tail == j.src[at..j.srcsz];
      } else {
        n := at + size - j.srcsz;
        assert FullFrom(j, at + size) == [];
      }
    } else {
      n := 0;
    }
  }

  lemma BlockAtIs(j: Source, at: nat)
    requires SourceOk(j) && at < j.srcsz
    ensures var size := BlockSize(j.srcsz - at, j.onek);
            BlockAt(j, at) == if at + size <= j.srcsz then j.src[at..at + size]
                              else j.src[at..j.srcsz] + Repeat(Fill(j.mode), at + size - j.srcsz)
  {
    BlockIs(j.src, j.srcsz, j.onek, j.mode, at);
  }

  lemma {:induction false} ContentThenRest(j: Source, k: nat)
    requires SourceOk(j)
    ensures Content(j, k) + FullFrom(j, Off(j, k)) == Full(j)
    ensures Off(j, k) >= j.srcsz ==> Content(j, k) == Full(j)
  {
    hide BlockAt;
    if k > 0 {
      ContentThenRest(j, k - 1);
    }
  }

  // What a destination of destsz bytes keeps.
  function Capped(destsz: int, s: seq<bv8>): seq<bv8> {
    if |s| <= destsz then s else if destsz <= 0 then [] else s[..destsz]
  }

  lemma StoreCaps(destsz: int, s: seq<bv8>, data: seq<bv8>)
    ensures Store(Capped(destsz, s), destsz, data) == Capped(destsz, s + data)
  {}

  // ----- One packet, byte by byte

  // A packet that arrives whole is judged.
  lemma PacketArrives(r: Rx, p: seq<bv8>)
    requires r.pc == RxWait && p != [] && (p[0] == SOH || p[0] == STX) && |p| == PacketSize(p[0], r.crc)
    ensures RxRun(r, Bytes(p)) == Judge(r.(trychar := 0), p)
  {
    hide *;
    var first := Byte(p[0]);
    Sizes(p[0], r.crc);
    FirstByte(r, p[0]);
    RxReadsBody(r, [first], p[0], p[1..]);
    assert [p[0]] + p[1..] == p;
    BytesCons(p);
    JudgeIgnoresPc(r.(trychar := 0), RxBody([p[0]]), p);
  }

  lemma BytesCons(p: seq<bv8>)
    requires p != []
    ensures Bytes(p) == [Byte(p[0])] + Bytes(p[1..])
  {}

  lemma FirstByte(r: Rx, b: bv8)
    requires r.pc == RxWait && (b == SOH || b == STX)
    ensures RxRun(r, [Byte(b)]) == r.(pc := RxBody([b]), trychar := 0)
  {
    hide Listen;
    RxStep(r, [], Byte(b));
    assert [] + [Byte(b)] == [Byte(b)];
    RxNextInWait(r, Byte(b));
  }

  // A packet that breaks off is rejected.
  lemma PacketBreaksOff(r: Rx, p: seq<bv8>)
    requires r.pc == RxWait && p != [] && (p[0] == SOH || p[0] == STX) && |p| < PacketSize(p[0], r.crc)
    ensures RxRun(r, Bytes(p) + [Timeout]) == r.(trychar := 0, pc := RxFlush(Rejected))
  {
    hide *;
    FirstByte(r, p[0]);
    RxReadsBody(r, [Byte(p[0])], p[0], p[1..]);
    assert [p[0]] + p[1..] == p;
    BytesCons(p);
    RxStep(r, Bytes(p), Timeout);
    RxNextInBody(r.(trychar := 0, pc := RxBody(p)), Timeout);
  }

  // An intact packet is acceptable exactly when it has the expected number or the one before, the
  // number before 0 excepted.
  lemma IntactPacket(packetno: bv8, no: bv8, data: seq<bv8>, crc: int)
    requires BlockSized(data)
    ensures var p := Packet(no, data, crc);
            |p| == PacketSize(p[0], crc) && p[0] == (if |data| == 1024 then STX else SOH) && p[1] == no &&
            p[3..3 + BufSize(p[0])] == data &&
            (Acceptable(packetno, crc, p) <==> no == packetno || (packetno != 0 && no == packetno - 1))
  {
    hide Crc.CrcFrom, Crc.Hi, Crc.Lo, Crc.OfBytes, Checksum;
    var p := Packet(no, data, crc);
    var sz := |data|;
    assert BufSize(p[0]) == sz;
    assert p[3..] == data + Trailer(crc, data);
    assert p[3..][..sz] == data;
    AcceptableIs(packetno, crc, p);
    Crc.HiLo(Crc.CrcFrom(Crc.XMODEM_CRC_INIT, data));
    NotNot(no);
  }

  lemma NotNot(b: bv8)
    ensures !!b == b
  {}

  // The repetition of a block is accepted unless number 0 is expected next: then it is refused.
  lemma RepetitionAccepted(packetno: bv8, no: bv8, data: seq<bv8>, crc: int)
    requires BlockSized(data) && NextNo(no) == packetno
    ensures Acceptable(packetno, crc, Packet(no, data, crc)) <==> packetno != 0
  {
    hide Packet, Acceptable, PacketSize, BufSize;
    IntactPacket(packetno, no, data, crc);
  }

  lemma Distinct(no: bv8)
    ensures NextNo(no) != no && (NextNo(no) != 0 ==> NextNo(no) - 1 == no)
  {}

  // ----- Both ends and the line

  datatype Sending = Sending(id: nat, bytes: seq<bv8>)

  // queue: transmissions under way, oldest first. cur: number of the last one. heard: number of the last
  // one the receiver was given. reply: what the receiver last answered, and to which transmission.
  datatype Sys = Sys(tx: Tx, rx: Rx, queue: seq<Sending>, cur: nat, heard: nat, reply: Sending)

  datatype Step =
    | Deliver                       // the oldest transmission arrives intact at a receiver at rest
    | Damage(ins: seq<In>)          // something else arrives in its place
    | Drop                          // it is lost
    | ReadReply                     // the sender reads the answer to its last transmission
    | Garble(b: bv8)                // the sender reads some byte other than ACK
    | TxTimeout                     // the sender reads nothing
    | Noise(ins: seq<In>)           // the receiver reads bytes that nobody sent, or nothing

  function Emitted(t: Tx, t': Tx): seq<bv8> {
    if |t.acts| <= |t'.acts| then LineOf(t'.acts[|t.acts|..]) else []
  }

  // The sender goes on to t; what it sends on the way is one more transmission.
  function TxMoves(s: Sys, t: Tx): Sys {
    var bytes := Emitted(s.tx, t);
    if bytes == [] then s.(tx := t) else s.(tx := t, queue := s.queue + [Sending(s.cur + 1, bytes)], cur := s.cur + 1)
  }

  function TxReads(s: Sys, c: In): Sys
    requires TxOk(s.tx)
  {
    TxMoves(s, TxNext(s.tx, c))
  }

  function Answered(r: Rx, r': Rx): seq<bv8> { if |r.out| <= |r'.out| then r'.out[|r.out|..] else [] }

  // The receiver goes on to r, unless that is to fall back to another mode: the ends have agreed on one.
  function RxMoves(s: Sys, r: Rx): Sys {
    if r.crc != s.rx.crc then s
    else
      var out := Answered(s.rx, r);
      s.(rx := r, reply := if out == [] then s.reply else Sending(s.heard, out))
  }

  // At the head of its loop, in a flush, or returned.
  predicate AtRest(r: Rx) { r.pc == RxWait || r.pc.RxFlush? || r.pc.RxDone? }

  // One input that does not deceive the receiver: no EOT where it waits for a packet, no second CAN behind
  // a first, and not the last byte of a packet that passes its test.
  predicate HarmlessNext(r: Rx, c: In) {
    && !(r.pc == RxWait && c == Byte(EOT))
    && !(r.pc == RxCan && c == Byte(CAN))
    && !(r.pc.RxBody? && c.Byte? && r.pc.buf != [] && |r.pc.buf| + 1 >= PacketSize(r.pc.buf[0], r.crc) &&
         Acceptable(r.packetno, r.crc, r.pc.buf + [c.b]))
  }

  // Bytes and silence, in any order and number, none of which deceives it.
  predicate Harmless(r: Rx, ins: seq<In>) {
    ins != [] ==> Harmless(r, ins[..|ins| - 1]) && HarmlessNext(RxRun(r, ins[..|ins| - 1]), ins[|ins| - 1])
  }

  function Next(s: Sys, step: Step): Sys
    requires TxOk(s.tx)
  {
    match step
    case Deliver =>
      if s.queue == [] || !AtRest(s.rx) then s
      else RxMoves(s.(queue := s.queue[1..], heard := s.queue[0].id), RxRun(s.rx, Bytes(s.queue[0].bytes)))
    case Damage(ins) =>
      if s.queue == [] || !Harmless(s.rx, ins) then s
      else RxMoves(s.(queue := s.queue[1..], heard := s.queue[0].id), RxRun(s.rx, ins))
    case Drop => if s.queue == [] then s else s.(queue := s.queue[1..])
    case ReadReply =>
      if s.reply.id != s.cur || s.reply.bytes == [] then s
      else TxReads(s.(reply := s.reply.(bytes := s.reply.bytes[1..])), Byte(s.reply.bytes[0]))
    case Garble(b) => if b == ACK then s else TxReads(s, Byte(b))
    case TxTimeout => TxReads(s, Timeout)
    case Noise(ins) => if Harmless(s.rx, ins) then RxMoves(s, RxRun(s.rx, ins)) else s
  }

  function Run(s: Sys, steps: seq<Step>): Sys
    requires TxOk(s.tx)
    decreases |steps|
  {
    if steps == [] then s else
      NextOk(s, steps[0]);
      Run(Next(s, steps[0]), steps[1..])
  }

  lemma NextOk(s: Sys, step: Step)
    requires TxOk(s.tx)
    ensures TxOk(Next(s, step).tx) && SameCall(s.tx, Next(s, step).tx)
  {
    hide TxNext, RxNext, RxRun, Acceptable, PacketSize, Harmless;
    match step
    case ReadReply => if s.reply.bytes != [] { TxNextKeeps(s.tx, Byte(s.reply.bytes[0])); }
    case Garble(b) => TxNextKeeps(s.tx, Byte(b));
    case TxTimeout => TxNextKeeps(s.tx, Timeout);
    case _ =>
  }

  // Both ends have agreed on CRC or checksum mode; the sender has just sent its first packet.
  function Agreed(src: seq<bv8>, srcsz: int, onek: bool, destsz: int, withCrc: bool): Sys
    requires srcsz <= |src|
  {
    var t := TxNext(TxInit(src, srcsz, onek, false), Byte(if withCrc then CHAR_C else NAK));
    Sys(t, RxInit(destsz, if withCrc then 1 else 0, false), [Sending(1, LineOf(t.acts))], 1, 0, Sending(0, []))
  }
}
