/** What the sender puts on the line, byte by byte and in numbers: which source bytes a packet carries, its
    size, header, number and trailer, how many packets a transfer takes, and what each return code says. */
module XmodemWire {
  import opened Xmodem
  import opened XmodemSend
  import opened XmodemPacing
  import ByteNumbers
  import Crc

  // ----- Reading a history of acts

  function Step(onek: bool): nat { if onek then 1024 else 128 }

  // The n-th fetch takes the n-th piece of 128 bytes, or 1024, and the last what is left.
  predicate Consecutive(acts: seq<Act>, src: seq<bv8>, srcsz: int, onek: bool) {
    acts == [] ||
    (Consecutive(acts[..|acts| - 1], src, srcsz, onek) &&
     (acts[|acts| - 1].Fetch? ==>
        var at := Step(onek) * Fetches(acts[..|acts| - 1]);
        at < srcsz <= |src| && acts[|acts| - 1].data == src[at..Min(at + Step(onek), srcsz)]))
  }

  function Total(data: seq<bv8>): nat {
    if data == [] then 0 else Total(data[..|data| - 1]) + data[|data| - 1] as int
  }

  // The packet for the source bytes from `at` on, n packets behind the first one.
  predicate PacketFor(p: seq<bv8>, src: seq<bv8>, srcsz: int, onek: bool, mode: bool, crc: int, at: nat, n: nat) {
    && at < srcsz <= |src|
    && (if onek && srcsz - at > 128 then p != [] && p[0] == 0x02 && CarriesData(p, src, srcsz, mode, crc, at, n, 1024)
        else p != [] && p[0] == 0x01 && CarriesData(p, src, srcsz, mode, crc, at, n, 128))
  }

  // The source, with fill bytes behind it.
  function SourceByte(src: seq<bv8>, srcsz: int, mode: bool, i: nat): bv8
    requires srcsz <= |src|
  {
    if i < srcsz then src[i] else if mode then 0x00 else 0x1A
  }

  // Number, complement, the source bytes, fill bytes, and the CRC or the sum.
  predicate CarriesData(p: seq<bv8>, src: seq<bv8>, srcsz: int, mode: bool, crc: int, at: nat, n: nat, size: nat)
    requires at < srcsz <= |src|
  {
    && |p| == 3 + size + (if crc != 0 then 2 else 1)
    && p[1] as int == ((if mode then 0 else 1) + n) % 256 && p[2] as int == 255 - p[1] as int
    && var data := p[3..3 + size];
       (forall i :: 0 <= i < size ==> data[i] == SourceByte(src, srcsz, mode, at + i)) &&
       (if crc != 0
        then Crc.OfBytes(p[3 + size], p[4 + size]) == Crc.LongDivision(Crc.Bits(data) + Crc.Zeros(16))
        else p[3 + size] as int == Total(data) % 256)
  }

  // Every transmission of a history is the packet for the bytes fetched last.
  predicate OnTheWire(acts: seq<Act>, src: seq<bv8>, srcsz: int, onek: bool, mode: bool, crc: int) {
    acts == [] ||
    (OnTheWire(acts[..|acts| - 1], src, srcsz, onek, mode, crc) &&
     (acts[|acts| - 1].Send? ==>
        var n := Fetches(acts) - 1;
        n >= 0 && PacketFor(acts[|acts| - 1].bytes, src, srcsz, onek, mode, crc, Step(onek) * n, n)))
  }

  // ----- One packet

  lemma {:induction false} NumberOf(first: bv8, n: nat)
    ensures Nth(first, n) as int == (first as int + n) % 256
  {
    hide NextNo;
    if n == 0 {
      InByte(first);
    } else {
      NumberOf(first, n - 1);
      Successor(Nth(first, n - 1));
      RemainderOfSum(first as int + n - 1, 1);
    }
  }

  lemma Successor(b: bv8)
    ensures NextNo(b) as int == (b as int + 1) % 256
  {
    ByteNumbers.Sum(b, 1);
  }

  lemma InByte(b: bv8)
    ensures b as int == b as int % 256
  {}

  lemma RemainderOfSum(a: int, b: int)
    ensures (a % 256 + b) % 256 == (a + b) % 256
  {}

  lemma {:induction false} ChecksumIsTotal(data: seq<bv8>)
    ensures Checksum(data) as int == Total(data) % 256
  {
    hide Checksum, Total;
    if data == [] {
      ChecksumStarts();
    } else {
      var n := |data| - 1;
      ChecksumIsTotal(data[..n]);
      ChecksumSnoc(data);
      TotalSnoc(data);
      RemainderOfSum(Total(data[..n]), data[n] as int);
    }
  }

  lemma TotalSnoc(data: seq<bv8>)
    requires data != []
    ensures Total(data) == Total(data[..|data| - 1]) + data[|data| - 1] as int
  {}

  lemma ChecksumStarts()
    ensures Checksum([]) as int == 0 == Total([]) % 256
  {}

  function Plus(a: bv8, b: bv8): bv8 { a + b }

  lemma ChecksumUnfolds(data: seq<bv8>)
    requires data != []
    ensures Checksum(data) == Plus(Checksum(data[..|data| - 1]), data[|data| - 1])
  {}

  lemma PlusIs(a: bv8, b: bv8)
    ensures Plus(a, b) as int == (a as int + b as int) % 256
  {
    ByteNumbers.Sum(a, b);
  }

  lemma ChecksumSnoc(data: seq<bv8>)
    requires data != []
    ensures Checksum(data) as int == (Checksum(data[..|data| - 1]) as int + data[|data| - 1] as int) % 256
  {
    hide Checksum, Plus;
    ChecksumUnfolds(data);
    PlusIs(Checksum(data[..|data| - 1]), data[|data| - 1]);
  }

  lemma TrailerIs(crc: int, data: seq<bv8>)
    ensures var t := Trailer(crc, data);
            if crc != 0
            then |t| == 2 && Crc.OfBytes(t[0], t[1]) == Crc.LongDivision(Crc.Bits(data) + Crc.Zeros(16))
            else |t| == 1 && t[0] as int == Total(data) % 256
  {
    hide Crc.CrcFrom, Crc.Hi, Crc.Lo, Crc.OfBytes, Crc.Bits, Crc.LongDivision, Checksum, Total;
    Crc.HiLo(Crc.CrcFrom(Crc.XMODEM_CRC_INIT, data));
    Crc.XmodemCrcIsRemainder(data);
    ChecksumIsTotal(data);
  }

  // The bytes fetched, padded to the size that fits them.
  lemma PaddedIs(src: seq<bv8>, srcsz: int, onek: bool, mode: bool, at: nat)
    requires at < srcsz <= |src|
    ensures var p := Padded(mode, src[at..Min(at + Step(onek), srcsz)]);
            |p| == (if onek && srcsz - at > 128 then 1024 else 128) &&
            forall i :: 0 <= i < |p| ==> p[i] == SourceByte(src, srcsz, mode, at + i)
  {}

  lemma PacketIs(src: seq<bv8>, srcsz: int, onek: bool, mode: bool, crc: int, n: nat)
    requires Step(onek) * n < srcsz <= |src|
    ensures var at := Step(onek) * n;
            PacketFor(Packet(Nth(if mode then 0 else 1, n), Padded(mode, src[at..Min(at + Step(onek), srcsz)]), crc),
                      src, srcsz, onek, mode, crc, at, n)
  {
    hide Trailer, Padded, Nth, Crc.OfBytes, Crc.Bits, Crc.LongDivision, Total, Packet;
    var at := Step(onek) * n;
    var data := Padded(mode, src[at..Min(at + Step(onek), srcsz)]);
    var no := Nth(if mode then 0 else 1, n);
    PaddedIs(src, srcsz, onek, mode, at);
    NumberOf(if mode then 0 else 1, n);
    TrailerIs(crc, data);
    PacketParts(no, data, crc);
  }

  lemma PacketParts(no: bv8, data: seq<bv8>, crc: int)
    requires |data| == 1024 || |data| == 128
    ensures var p, t := Packet(no, data, crc), Trailer(crc, data);
            |p| == 3 + |data| + |t| && p[0] == (if |data| == 1024 then 0x02 else 0x01) &&
            p[1] == no && p[2] as int == 255 - no as int && p[3..3 + |data|] == data &&
            p[3 + |data|] == t[0] && (crc != 0 ==> p[4 + |data|] == t[1])
  {
    hide Trailer;
    ByteNumbers.Complement(no);
    var p := Packet(no, data, crc);
    assert p[3 + |data|..] == Trailer(crc, data);
  }

  // ----- Every run

  // Packets that a source takes, and their length together.
  function Packets(srcsz: int, onek: bool): nat {
    if srcsz <= 0 then 0 else (srcsz + Step(onek) - 1) / Step(onek)
  }

  function Length(srcsz: int, onek: bool): nat {
    if srcsz <= 0 then 0
    else if onek && 0 < srcsz % 1024 <= 128 then srcsz / 1024 * 1024 + 128
    else Step(onek) * Packets(srcsz, onek)
  }

  predicate Complete(t: Tx) {
    Fetches(t.acts) == Packets(t.srcsz, t.onek) && t.len == Length(t.srcsz, t.onek)
  }

  predicate Pieces(t: Tx) { TxOk(t) && Consecutive(t.acts, t.src, t.srcsz, t.onek) }

  // At start_trans.
  predicate Before(t: Tx) {
    Pieces(t) && if t.len < t.srcsz then t.len == Step(t.onek) * Fetches(t.acts) else Complete(t)
  }

  predicate Sending(t: Tx) {
    Pieces(t) && t.len < t.srcsz && Fetches(t.acts) > 0 && t.len == Step(t.onek) * (Fetches(t.acts) - 1)
  }

  // Why a call returns what it does, by what it sent last.
  predicate Explained(t: Tx, code: int) {
    if code >= 0 then Complete(t) && code == t.len && (t.mode || EndsWith(t.acts, SendEot))
    else if code == -1 then EndsWith(t.acts, SendCtl([0x06]))
    else if code == -2 then t.acts == [SendCtl([0x18, 0x18, 0x18])]
    else if code == -4 then EndsWith(t.acts, SendCtl([0x18, 0x18, 0x18])) && Attempts(t.acts[..|t.acts| - 1]) == 25
    else code == -5 && EndsWith(t.acts, SendEot) && Eots(t.acts) == 10
  }

  predicate EndsWith(acts: seq<Act>, a: Act) { acts != [] && acts[|acts| - 1] == a }

  predicate Laid(t: Tx) {
    Pieces(t) &&
    match t.pc
    case TxSync => t.acts == [] && t.len == 0
    case TxSyncCan => t.acts == [] && t.len == 0
    case TxReply => Sending(t)
    case TxReplyCan => Sending(t)
    case TxEot => Complete(t) && EndsWith(t.acts, SendEot) && !t.mode
    case TxFlush(code) => Explained(t, code)
    case TxDone(code) => Explained(t, code)
  }

  lemma ActKeeps(t: Tx, a: Act)
    requires Pieces(t) && !a.Fetch?
    ensures Pieces(Did(t, a)) && Fetches(Did(t, a).acts) == Fetches(t.acts) && EndsWith(Did(t, a).acts, a)
    ensures Did(t, a).acts[..|t.acts|] == t.acts
  {
    Snoc(t.acts, a);
  }

  lemma PieceFetched(t: Tx)
    requires Before(t) && t.len < t.srcsz
    ensures var t' := Did(t.(block := Block(t.src, t.srcsz, t.onek, t.mode, t.len)),
                          Fetch(Chunk(t.src, t.srcsz, t.onek, t.len)));
            Sending(t') && t'.len == t.len && |t'.block| == if t.onek && t.srcsz - t.len > 128 then 1024 else 128
  {
    var a := Fetch(Chunk(t.src, t.srcsz, t.onek, t.len));
    Snoc(t.acts, a);
    assert a.data == t.src[t.len..Min(t.len + Step(t.onek), t.srcsz)];
  }

  // Behind a packet: the next piece, or the end.
  lemma PieceDone(t: Tx)
    requires Sending(t) && |t.block| == if t.onek && t.srcsz - t.len > 128 then 1024 else 128
    ensures Before(Advance(t))
  {}

  lemma {:induction false} StartLaid(t: Tx)
    requires Before(t)
    ensures Laid(StartTrans(t))
    decreases t.srcsz - t.len
  {
    hide Block, Chunk, Packet, Consecutive, Fetches, EndsWith, Packets, Length, Step;
    if t.len < t.srcsz {
      var b := Did(t.(block := Block(t.src, t.srcsz, t.onek, t.mode, t.len)),
                   Fetch(Chunk(t.src, t.srcsz, t.onek, t.len)));
      PieceFetched(t);
      ActKeeps(b, Send(Packet(b.packetno, b.block, b.crc)));
      if t.crc == 2 {
        PieceDone(SendBlock(b, 0));
        StartLaid(Advance(SendBlock(b, 0)));
      }
    } else {
      ActKeeps(t, SendEot);
    }
  }

  lemma SyncLaid(t: Tx, c: In)
    requires Laid(t) && (t.pc == TxSync || t.pc == TxSyncCan)
    ensures Laid(TxNext(t, c))
  {
    hide StartTrans, SyncRetry, Consecutive, Fetches, Attempts, Eots, Packets, Length;
    ActKeeps(t, SendCtl([ACK]));
    SyncRetryLaid(t);
    if t.pc == TxSync {
      NothingFetched(t);
      if c == Byte(CHAR_G) { StartLaid(t.(crc := 2)); }
      if c == Byte(CHAR_C) { StartLaid(t.(crc := 1)); }
      if c == Byte(NAK) { StartLaid(t.(crc := 0)); }
    }
  }

  lemma NothingFetched(t: Tx)
    requires Laid(t) && t.pc == TxSync
    ensures Before(t) && Before(t.(crc := 0)) && Before(t.(crc := 1)) && Before(t.(crc := 2))
  {}

  lemma SyncRetryLaid(t: Tx)
    requires Laid(t) && (t.pc == TxSync || t.pc == TxSyncCan)
    ensures Laid(SyncRetry(t))
  {
    hide Attempts, Eots, Packets, Length, Consecutive, Fetches;
    ActKeeps(t, SendCtl(CANS));
    if t.retry + 1 >= 16 { GaveUp(t, SyncRetry(t)); }
  }

  lemma GaveUp(t: Tx, t': Tx)
    requires t.acts == [] && t' == Did(t, SendCtl(CANS)).(pc := TxFlush(-2))
    ensures Explained(t', -2)
  {
    assert [] + [SendCtl(CANS)] == [SendCtl([0x18, 0x18, 0x18])];
  }

  lemma ReplyLaid(t: Tx, c: In)
    requires Inv(t) && Laid(t) && (t.pc == TxReply || t.pc == TxReplyCan)
    ensures Laid(TxNext(t, c))
  {
    hide StartTrans, Resend, Consecutive, Fetches, EndsWith, Packets, Length, Inv, Complete;
    ActKeeps(t, SendCtl([ACK]));
    ResendLaid(t);
    if t.pc == TxReply && c == Byte(ACK) {
      BlockSizeNow(t);
      PieceDone(t);
      StartLaid(Advance(t));
    }
  }

  lemma ResendLaid(t: Tx)
    requires Inv(t) && Laid(t) && (t.pc == TxReply || t.pc == TxReplyCan)
    ensures Laid(Resend(t))
  {
    hide Packet, Consecutive, Fetches, EndsWith, Packets, Length, Attempts, Eots, InBlock;
    ActKeeps(t, Send(Packet(t.packetno, t.block, t.crc)));
    ActKeeps(t, SendCtl(CANS));
  }

  lemma EotLaid(t: Tx, c: In)
    requires Inv(t) && Laid(t) && t.pc == TxEot
    ensures Laid(TxNext(t, c))
  {
    hide Consecutive, Fetches, EndsWith, Faithful, Paced, Packets, Length, Attempts, Eots;
    ActKeeps(t, SendEot);
  }

  lemma NextLaid(t: Tx, c: In)
    requires Inv(t) && Laid(t)
    ensures Laid(TxNext(t, c))
  {
    hide StartTrans, Inv, Consecutive, Fetches, EndsWith, Explained, Resend, SyncRetry;
    match t.pc
    case TxSync => SyncLaid(t, c);
    case TxSyncCan => SyncLaid(t, c);
    case TxReply => ReplyLaid(t, c);
    case TxReplyCan => ReplyLaid(t, c);
    case TxEot => EotLaid(t, c);
    case TxFlush(code) => SameExplanation(t, TxDone(code), code);
    case TxDone(_) =>
  }

  lemma SameExplanation(t: Tx, pc: TxPc, code: int)
    ensures Explained(t, code) == Explained(t.(pc := pc), code)
  {}

  lemma {:induction false} RunLaid(t: Tx, ins: seq<In>)
    requires Inv(t) && TxOk(t) && Laid(t)
    ensures Inv(TxRun(t, ins)) && Laid(TxRun(t, ins))
  {
    hide Inv, Laid, TxNext;
    if ins != [] {
      RunLaid(t, ins[..|ins| - 1]);
      NextInv(TxRun(t, ins[..|ins| - 1]), ins[|ins| - 1]);
      NextLaid(TxRun(t, ins[..|ins| - 1]), ins[|ins| - 1]);
    }
  }

  // What was fetched last, at its place.
  lemma {:induction false} LastPiece(acts: seq<Act>, src: seq<bv8>, srcsz: int, onek: bool)
    requires Consecutive(acts, src, srcsz, onek) && Fetches(acts) > 0
    ensures var at := Step(onek) * (Fetches(acts) - 1);
            at < srcsz <= |src| && LastFetch(acts) == src[at..Min(at + Step(onek), srcsz)]
  {
    hide Step;
    if !acts[|acts| - 1].Fetch? {
      LastPiece(acts[..|acts| - 1], src, srcsz, onek);
    }
  }

  lemma {:induction false} WireIs(acts: seq<Act>, src: seq<bv8>, srcsz: int, onek: bool, mode: bool, crc: int)
    requires Consecutive(acts, src, srcsz, onek) && Faithful(acts, mode, crc)
    ensures OnTheWire(acts, src, srcsz, onek, mode, crc)
  {
    hide Step, PacketFor, Packet, Padded, Nth, LastFetch;
    if acts != [] {
      WireIs(acts[..|acts| - 1], src, srcsz, onek, mode, crc);
      if acts[|acts| - 1].Send? {
        LastPiece(acts, src, srcsz, onek);
        PacketIs(src, srcsz, onek, mode, crc, Fetches(acts) - 1);
      }
    }
  }

  // In every run, whatever the sender is answered: each transmission is the packet for the piece of the
  // source fetched last, of 1024 bytes behind STX if the caller allows it and more than 128 bytes are left,
  // else of 128 behind SOH; a call that succeeds has fetched every piece once and returns their length;
  // and each return code is explained by what was sent last.
  lemma EveryPacket(src: seq<bv8>, srcsz: int, onek: bool, mode: bool, ins: seq<In>)
    requires srcsz <= |src|
    ensures var m := TxRun(TxInit(src, srcsz, onek, mode), ins);
            OnTheWire(m.acts, src, srcsz, onek, mode, m.crc) &&
            (m.pc.TxDone? ==> Explained(m, m.pc.code)) &&
            (m.pc.TxDone? && m.pc.code >= 0 ==>
               Fetches(m.acts) == Packets(srcsz, onek) && m.pc.code == Length(srcsz, onek))
  {
    hide Inv, TxNext, TxRun, OnTheWire, Consecutive, Faithful, Explained, Packets, Length;
    var init := TxInit(src, srcsz, onek, mode);
    assert Inv(init) && Laid(init) by { InitLaid(src, srcsz, onek, mode); }
    RunLaid(init, ins);
    RunSameCall(init, ins);
    EveryTransmission(src, srcsz, onek, mode, ins);
    var m := TxRun(init, ins);
    WireIs(m.acts, src, srcsz, onek, mode, m.crc);
    if m.pc.TxDone? && m.pc.code >= 0 { Succeeds(m); }
  }

  lemma InitLaid(src: seq<bv8>, srcsz: int, onek: bool, mode: bool)
    requires srcsz <= |src|
    ensures var init := TxInit(src, srcsz, onek, mode); Inv(init) && Laid(init)
  {}

  lemma Succeeds(m: Tx)
    requires Laid(m) && m.pc.TxDone? && m.pc.code >= 0
    ensures Complete(m) && m.pc.code == m.len
  {}

  // ----- A transfer without trouble

  function Trailing(crc: int): nat { if crc != 0 then 2 else 1 }

  function SizeAt(srcsz: int, onek: bool, crc: int, n: nat): nat {
    3 + (if onek && srcsz - Step(onek) * n > 128 then 1024 else 128) + Trailing(crc)
  }

  // A line that holds the first n packets, one behind the other.
  predicate LineFor(line: seq<bv8>, src: seq<bv8>, srcsz: int, onek: bool, mode: bool, crc: int, n: nat) {
    if n == 0 then line == []
    else
      var size := SizeAt(srcsz, onek, crc, n - 1);
      |line| >= size && LineFor(line[..|line| - size], src, srcsz, onek, mode, crc, n - 1) &&
      PacketFor(line[|line| - size..], src, srcsz, onek, mode, crc, Step(onek) * (n - 1), n - 1)
  }

  lemma OnePacketMore(line: seq<bv8>, p: seq<bv8>, src: seq<bv8>, srcsz: int, onek: bool, mode: bool, crc: int, n: nat)
    requires LineFor(line, src, srcsz, onek, mode, crc, n)
    requires PacketFor(p, src, srcsz, onek, mode, crc, Step(onek) * n, n)
    ensures LineFor(line + p, src, srcsz, onek, mode, crc, n + 1)
  {
    hide Step, Crc.Bits, Crc.LongDivision, Crc.OfBytes, Total;
    assert |p| == SizeAt(srcsz, onek, crc, n);
    assert (line + p)[..|line|] == line && (line + p)[|line|..] == p;
  }

  // start_trans with a piece left: one more packet on the line.
  lemma PieceSent(t: Tx)
    requires Before(t) && t.len < t.srcsz && t.crc != 2
    ensures var t' := StartTrans(t);
            t'.pc == TxReply && t'.acts != [] && t'.acts[|t'.acts| - 1].Send? &&
            Fetches(t'.acts) == Fetches(t.acts) + 1 &&
            LineOf(t'.acts) == LineOf(t.acts) + t'.acts[|t'.acts| - 1].bytes
  {
    hide Packet, Block, Chunk;
    Started(t);
    var f := Fetch(Chunk(t.src, t.srcsz, t.onek, t.len));
    var a := t.acts + [f];
    var s := StartTrans(t).acts[|t.acts| + 1];
    assert StartTrans(t).acts == a + [s];
    Snoc(t.acts, f);
    Snoc(a, s);
    assert LineOf(t.acts) + [] == LineOf(t.acts);
  }

  function Answers(crc: int, acks: nat): seq<In> {
    [Byte(if crc == 1 then 0x43 else 0x15)] + seq(acks, _ => Byte(0x06))
  }

  lemma OneAnswerMore(crc: int, acks: nat)
    ensures Answers(crc, acks + 1) == Answers(crc, acks) + [Byte(0x06)]
    ensures Answers(crc, 0) == [Byte(if crc == 1 then 0x43 else 0x15)]
  {}

  // The prompt and n ACKs: n + 1 packets are on the line.
  lemma {:induction false} CleanRun(src: seq<bv8>, srcsz: int, onek: bool, crc: int, n: nat)
    requires 0 < srcsz <= |src| && (crc == 0 || crc == 1) && n < Packets(srcsz, onek)
    ensures var m := TxRun(TxInit(src, srcsz, onek, false), Answers(crc, n));
            m.pc == TxReply && m.crc == crc && Fetches(m.acts) == n + 1 &&
            LineFor(LineOf(m.acts), src, srcsz, onek, false, crc, n + 1)
  {
    hide TxRun, TxNext, StartTrans, Inv, Laid, Before, OnTheWire, PacketFor, LineFor, Fetches, Answers, LineOf, Packets;
    var init := TxInit(src, srcsz, onek, false);
    OneAnswerMore(crc, 0);
    var t;
    if n == 0 {
      EmptyTxRun(init);
      TxStep(init, [], Answers(crc, 0)[0]);
      assert [] + Answers(crc, 0) == Answers(crc, 0);
      InSync(init, Answers(crc, 0)[0]);
      t := init.(crc := crc);
      Nothing(init, crc);
    } else {
      CleanRun(src, srcsz, onek, crc, n - 1);
      OneAnswerMore(crc, n - 1);
      var m := TxRun(init, Answers(crc, n - 1));
      TxStep(init, Answers(crc, n - 1), Byte(0x06));
      InReply(m, Byte(0x06));
      t := Advance(m);
      Acknowledged(src, srcsz, onek, Answers(crc, n - 1));
    }
    PieceSent(t);
    StartTransKeeps(t);
    var m := StartTrans(t);
    EveryPacket(src, srcsz, onek, false, Answers(crc, n));
    LastOnWire(m.acts, src, srcsz, onek, false, crc);
    OnePacketMore(LineOf(t.acts), m.acts[|m.acts| - 1].bytes, src, srcsz, onek, false, crc, n);
  }

  lemma LastOnWire(acts: seq<Act>, src: seq<bv8>, srcsz: int, onek: bool, mode: bool, crc: int)
    requires OnTheWire(acts, src, srcsz, onek, mode, crc) && acts != [] && acts[|acts| - 1].Send?
    ensures var n := Fetches(acts) - 1;
            n >= 0 && PacketFor(acts[|acts| - 1].bytes, src, srcsz, onek, mode, crc, Step(onek) * n, n)
  {}

  lemma Nothing(init: Tx, crc: int)
    requires TxOk(init) && init.acts == [] && init.len == 0 < init.srcsz
    ensures var t := init.(crc := crc);
            Before(t) && Fetches(t.acts) == 0 && LineFor(LineOf(t.acts), t.src, t.srcsz, t.onek, false, crc, 0)
  {}

  // What an ACK leaves to be done.
  lemma Acknowledged(src: seq<bv8>, srcsz: int, onek: bool, ins: seq<In>)
    requires srcsz <= |src| && TxRun(TxInit(src, srcsz, onek, false), ins).pc == TxReply
    ensures var t := Advance(TxRun(TxInit(src, srcsz, onek, false), ins));
            Before(t) && SameCall(TxInit(src, srcsz, onek, false), t) &&
            (t.len < srcsz <==> Fetches(t.acts) < Packets(srcsz, onek)) &&
            (t.len >= srcsz ==> t.len == Length(srcsz, onek))
  {
    hide TxRun, Inv, Fetches, Consecutive, Faithful, Paced, Packet;
    var init := TxInit(src, srcsz, onek, false);
    InitLaid(src, srcsz, onek, false);
    RunLaid(init, ins);
    RunSameCall(init, ins);
    var m := TxRun(init, ins);
    BlockSizeNow(m);
    PieceDone(m);
    RoundedUp(srcsz, onek);
  }

  lemma BlockSizeNow(m: Tx)
    requires Inv(m) && (m.pc == TxReply || m.pc == TxReplyCan)
    ensures |m.block| == if m.onek && m.srcsz - m.len > 128 then 1024 else 128
  {}

  lemma RoundedUp(srcsz: int, onek: bool)
    ensures srcsz > 0 ==> Step(onek) * (Packets(srcsz, onek) - 1) < srcsz <= Step(onek) * Packets(srcsz, onek)
  {}

  // Prompted and acknowledged without trouble, the sender puts the packets of the whole source on the line,
  // each once and in order, then EOT, and returns their length.
  lemma CleanTransmission(src: seq<bv8>, srcsz: int, onek: bool, crc: int)
    requires 0 < srcsz <= |src| && (crc == 0 || crc == 1)
    ensures var n := Packets(srcsz, onek);
            var m := TxRun(TxInit(src, srcsz, onek, false), Answers(crc, n + 1));
            m.pc == TxDone(Length(srcsz, onek)) && LineOf(m.acts) != [] &&
            var line := LineOf(m.acts);
            line[|line| - 1] == 0x04 && LineFor(line[..|line| - 1], src, srcsz, onek, false, crc, n)
  {
    hide TxRun, TxNext, Inv, Laid, Before, PacketFor, LineFor, LineOf, Fetches, Answers, Packets, Length;
    var init, n := TxInit(src, srcsz, onek, false), Packets(srcsz, onek);
    RoundedUp(srcsz, onek);
    CleanRun(src, srcsz, onek, crc, n - 1);
    OneAnswerMore(crc, n - 1);
    OneAnswerMore(crc, n);
    var m := TxRun(init, Answers(crc, n - 1));
    Acknowledged(src, srcsz, onek, Answers(crc, n - 1));
    var t := Advance(m);
    TxStep(init, Answers(crc, n - 1), Byte(0x06));
    InReply(m, Byte(0x06));
    var e := Did(t, SendEot).(pc := TxEot, retry := 0);
    assert StartTrans(t) == e;
    TxStep(init, Answers(crc, n), Byte(0x06));
    InEot(e, Byte(0x06));
    EotOnLine(t.acts);
  }

  lemma EotOnLine(acts: seq<Act>)
    ensures LineOf(acts + [SendEot]) == LineOf(acts) + [0x04]
  {
    assert (acts + [SendEot])[..|acts|] == acts;
  }
}
