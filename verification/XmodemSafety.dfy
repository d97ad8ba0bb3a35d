/** Safety of the transfer: in every run the receiver holds an initial piece of the padded source, the
    sender is on the receiver's expected block or the one before, and an end that reports success is right. */
module XmodemSafety {
  import opened Xmodem
  import opened XmodemIo
  import opened XmodemSend
  import opened XmodemPacing
  import opened XmodemProtocol

  // ----- The receiver's side of one step

  predicate TryOk(trychar: bv8) { trychar == 0 || trychar == CHAR_C || trychar == NAK }

  // Everything but the prompts, the counters and what follows from the program point.
  predicate Kept(r: Rx, r': Rx) {
    && r'.destsz == r.destsz && r'.mode == r.mode && r'.crc == r.crc
    && r'.stored == r.stored && r'.packetno == r.packetno
    && (TryOk(r.trychar) ==> TryOk(r'.trychar))
  }

  // One more block taken.
  predicate TookBlock(r: Rx, r': Rx, data: seq<bv8>) {
    && r'.destsz == r.destsz && r'.mode == r.mode && r'.crc == r.crc
    && r'.stored == Store(r.stored, r.destsz, data) && r'.packetno == NextNo(r.packetno)
    && TryOk(r'.trychar)
  }

  lemma AcceptedParts(t: Rx)
    requires !t.mode && t.crc != 2 && t.trychar == 0
    ensures var a := Accepted(t);
            Kept(t, a) && a.pc == (if t.retrans <= 0 then RxFlush(TooMany) else RxWait) &&
            a.out == (if t.retrans <= 0 then t.out else t.out + [ACK])
  {
    assert t.out + [ACK] + [] == t.out + [ACK];
  }

  lemma NewBlock(r: Rx, data: seq<bv8>)
    requires r.pc == RxWait && !r.mode && (r.crc == 0 || r.crc == 1) && BlockSized(data)
    ensures var r' := RxRun(r, Bytes(Packet(r.packetno, data, r.crc)));
            TookBlock(r, r', data) && r'.pc == RxWait && r'.out == r.out + [ACK]
  {
    hide *;
    var p := Packet(r.packetno, data, r.crc);
    IntactPacket(r.packetno, r.packetno, data, r.crc);
    PacketArrives(r, p);
    var r0 := r.(trychar := 0);
    var t := Judged(r0, p);
    StoredIs(r.stored, r.destsz, r.packetno, p, data);
    TakenIs(r0, StoredAfter(r.stored, r.destsz, r.packetno, p), true);
    RetransPositive();
    AcceptedParts(t);
    KeptTook(r, t, Accepted(t), data);
  }

  lemma StoredIs(stored: seq<bv8>, destsz: int, packetno: bv8, p: seq<bv8>, data: seq<bv8>)
    requires 3 < |p| && 3 + BufSize(p[0]) <= |p| && p[3..3 + BufSize(p[0])] == data
    ensures StoredAfter(stored, destsz, packetno, p) == if p[1] == packetno then Store(stored, destsz, data) else stored
  {}

  lemma RetransPositive()
    ensures MAXRETRANS > 0
  {}

  lemma KeptTook(r: Rx, t: Rx, r': Rx, data: seq<bv8>)
    requires Kept(t, r') &&
             t == r.(trychar := 0, stored := Store(r.stored, r.destsz, data), packetno := NextNo(r.packetno),
                 retrans := t.retrans)
    ensures TookBlock(r, r', data)
  {
    hide Store, NextNo;
  }

  // A repetition changes nothing that matters.
  lemma OldBlock(r: Rx, no: bv8, data: seq<bv8>)
    requires r.pc == RxWait && !r.mode && (r.crc == 0 || r.crc == 1) && BlockSized(data) && r.packetno == NextNo(no)
    ensures var r' := RxRun(r, Bytes(Packet(no, data, r.crc)));
            Kept(r, r') && (r'.pc == RxWait || r'.pc == RxFlush(TooMany) || r'.pc == RxFlush(Rejected)) &&
            (r'.out == r.out || r'.out == r.out + [ACK])
  {
    hide *;
    var p := Packet(no, data, r.crc);
    IntactPacket(r.packetno, no, data, r.crc);
    Distinct(no);
    PacketArrives(r, p);
    var r0 := r.(trychar := 0);
    JudgeRejects(r0, p);
    if Acceptable(r.packetno, r.crc, p) {
      var t := Judged(r0, p);
      StoredIs(r.stored, r.destsz, r.packetno, p, data);
      TakenIs(r0, r.stored, false);
      AcceptedParts(t);
      KeptTrans(r, t, Accepted(t));
    } else {
      KeptTrans(r, r0, Judge(r0, p));
    }
  }

  lemma KeptTrans(r: Rx, t: Rx, r': Rx)
    requires t == r.(trychar := 0, retrans := t.retrans)
    ensures Kept(t, r') ==> Kept(r, r')
    ensures r' == t.(pc := r'.pc) ==> Kept(r, r')
  {}

  // A packet that breaks off stores nothing and acknowledges nothing, nor does one that fails the test.
  lemma DamagedBlock(r: Rx, g: seq<bv8>)
    requires r.pc == RxWait && g != [] && (g[0] == SOH || g[0] == STX) && |g| <= PacketSize(g[0], r.crc)
    requires |g| == PacketSize(g[0], r.crc) ==> !Acceptable(r.packetno, r.crc, g)
    ensures var r' := RxRun(r, if |g| < PacketSize(g[0], r.crc) then Bytes(g) + [Timeout] else Bytes(g));
            Kept(r, r') && r'.pc == RxFlush(Rejected) && r'.out == r.out
  {
    hide *;
    if |g| < PacketSize(g[0], r.crc) {
      PacketBreaksOff(r, g);
    } else {
      PacketArrives(r, g);
      JudgeRejects(r.(trychar := 0), g);
    }
    var t := r.(trychar := 0);
    KeptTrans(r, t, t.(pc := RxFlush(Rejected)));
  }

  // What harmless input may do to a receiver: nothing to what it stored and expects, and no ACK but that
  // of a cancellation already read.
  predicate Quiet(r: Rx, r': Rx) {
    && Kept(r, r') && r.out <= r'.out && (ACK in r'.out[|r.out|..] ==> r.pc == RxFlush(Cancelled))
    && (r'.pc == RxFlush(Cancelled) ==> r.pc == RxFlush(Cancelled))
    && (r'.pc.RxDone? && r'.pc.code >= 0 ==> r.pc == r'.pc)
    && (r'.pc == RxDone(-1) ==> r.pc == RxFlush(Cancelled) || r.pc == r'.pc)
    && (r.pc.RxDone? ==> r'.pc == r.pc)
  }

  lemma QuietSame(r: Rx)
    ensures Quiet(r, r)
  {}

  lemma QuietTrans(a: Rx, b: Rx, c: Rx)
    requires Quiet(a, b) && Quiet(b, c)
    ensures Quiet(a, c)
  {
    assert c.out[|a.out|..] == b.out[|a.out|..] + c.out[|b.out|..];
  }

  lemma QuietFlush(r: Rx, after: After)
    requires r.pc == RxFlush(after) && TryOk(r.trychar)
    ensures Flushed(r, after).crc == r.crc ==> Quiet(r, Flushed(r, after))
  {
    hide Listen;
    if after == Rejected {
      var n := r.(out := r.out + [NAK]);
      ListenParts(n, 0);
      var r' := Listen(n, 0);
      if r'.crc == r.crc { assert r'.out[|r.out|..] == [NAK] + r'.out[|n.out|..]; }
    } else if after != Cancelled {
      assert (r.out + CANS)[|r.out|..] == CANS;
    }
  }

  lemma QuietListen(r: Rx, n: nat)
    requires (r.pc == RxWait || r.pc == RxCan) && TryOk(r.trychar)
    ensures Listen(r, n).crc == r.crc ==> Quiet(r, Listen(r, n))
  {
    hide Listen;
    ListenParts(r, n);
  }

  lemma QuietBody(r: Rx, c: In)
    requires r.pc.RxBody? && HarmlessNext(r, c)
    ensures Quiet(r, RxNext(r, c)) && RxNext(r, c).crc == r.crc
  {
    hide Judge, Acceptable, PacketSize, Listen;
    if r.pc.buf != [] && c.Byte? {
      RxNextInBody(r, c);
      JudgeRejects(r, r.pc.buf + [c.b]);
    }
  }

  lemma QuietStart(r: Rx, b: bv8)
    ensures Quiet(r.(pc := RxWait), r.(pc := RxBody([b]), trychar := 0))
    ensures Quiet(r.(pc := RxWait), r.(pc := RxCan))
  {}

  // One harmless input.
  lemma QuietNext(r: Rx, c: In)
    requires HarmlessNext(r, c) && TryOk(r.trychar)
    ensures RxNext(r, c).crc == r.crc ==> Quiet(r, RxNext(r, c))
  {
    hide Listen, Flushed, Quiet, Judge, HarmlessNext, PacketSize;
    QuietSame(r);
    match r.pc {
      case RxWait =>
        assert c != Byte(EOT) by { NotEot(r, c); }
        RxNextInWait(r, c);
        QuietListen(r, r.retry + 1);
        if c.Byte? { QuietStart(r, c.b); assert r == r.(pc := RxWait); }
      case RxCan =>
        assert c != Byte(CAN) by { NotCan(r, c); }
        RxNextInCan(r, c);
        QuietListen(r, r.retry + 1);
      case RxBody(_) => QuietBody(r, c);
      case RxFlush(after) => RxNextInFlush(r, c); QuietFlush(r, after);
      case RxDone(_) => OneByte(r, c);
    }
  }

  lemma NotEot(r: Rx, c: In)
    requires HarmlessNext(r, c) && r.pc == RxWait
    ensures c != Byte(EOT)
  {}

  lemma NotCan(r: Rx, c: In)
    requires HarmlessNext(r, c) && r.pc == RxCan
    ensures c != Byte(CAN)
  {}

  // The receiver falls back from CRC to checksums, never the other way round.
  lemma ModeFalls(r: Rx, c: In)
    requires TryOk(r.trychar)
    ensures var r' := RxNext(r, c); TryOk(r'.trychar) && (r'.crc == r.crc || r'.crc == 0)
  {
    hide Acceptable, StoredAfter, PacketSize;
  }

  // Any harmless input, however long.
  lemma {:induction false} QuietRun(r: Rx, ins: seq<In>)
    requires Harmless(r, ins) && TryOk(r.trychar)
    ensures var r' := RxRun(r, ins);
            TryOk(r'.trychar) && (r'.crc == r.crc || r'.crc == 0) && (r'.crc == r.crc ==> Quiet(r, r'))
  {
    hide RxNext, HarmlessNext, Quiet;
    if ins == [] {
      QuietSame(r);
    } else {
      var front, c := ins[..|ins| - 1], ins[|ins| - 1];
      QuietRun(r, front);
      var m := RxRun(r, front);
      ModeFalls(m, c);
      QuietNext(m, c);
      if m.crc == r.crc && RxNext(m, c).crc == r.crc { QuietTrans(r, m, RxNext(m, c)); }
    }
  }

  lemma ListenParts(r: Rx, n: nat)
    requires TryOk(r.trychar)
    ensures var r' := Listen(r, n);
            r'.crc == r.crc ==>
              Kept(r, r') && r.out <= r'.out && ACK !in r'.out[|r.out|..] &&
              (r'.pc == RxWait || r'.pc == RxFlush(NoSync))
  {
    assert (r.out + [r.trychar])[|r.out|..] == [r.trychar];
  }

  lemma EotArrives(r: Rx)
    ensures var r' := RxRun(r, Bytes([EOT]));
            r.pc == RxWait ==> r' == r.(pc := RxDone(|r.stored|), out := r.out + [ACK])
    ensures r.pc.RxFlush? || r.pc.RxDone? ==> RxRun(r, Bytes([EOT])) == r
  {
    hide Listen, Flushed;
    assert Bytes([EOT]) == [] + [Byte(EOT)];
    RxStep(r, [], Byte(EOT));
  }

  // What a sender that gives up puts on the line.
  lemma LastWordsArrive(r: Rx, bytes: seq<bv8>)
    requires (bytes == CANS || bytes == [ACK]) && AtRest(r) && TryOk(r.trychar)
    ensures var r' := RxRun(r, Bytes(bytes));
            r'.crc == r.crc ==>
            Kept(r, r') &&
            (r'.pc == r.pc || r'.pc == RxWait || r'.pc == RxFlush(Cancelled) || r'.pc == RxFlush(NoSync)) &&
            (r.pc != RxWait ==> r'.pc == r.pc)
  {
    hide RxRun, RxNext, Listen;
    if bytes == CANS {
      CansArrive(r);
    } else {
      assert Bytes(bytes) == [] + [Byte(ACK)];
      RxStep(r, [], Byte(ACK));
      EmptyRun(r);
      OneByte(r, Byte(ACK));
      ListenParts(r, r.retry + 1);
    }
  }

  // A byte that is none of the receiver's commands, or nothing.
  predicate NoCommand(c: In) {
    c != Byte(SOH) && c != Byte(STX) && c != Byte(EOT) && c != Byte(CAN)
  }

  lemma OneByte(r: Rx, c: In)
    ensures r.pc == RxWait && NoCommand(c) ==> RxNext(r, c) == Listen(r, r.retry + 1)
    ensures (r.pc.RxFlush? && c.Byte?) || r.pc.RxDone? ==> RxNext(r, c) == r
  {
    hide Listen;
  }

  lemma CansArrive(r: Rx)
    requires r.pc == RxWait || r.pc.RxFlush? || r.pc.RxDone?
    ensures RxRun(r, Bytes(CANS)) == if r.pc == RxWait then r.(pc := RxFlush(Cancelled)) else r
  {
    hide RxRun, RxNext, Listen;
    var one, two := [] + [Byte(CAN)], [] + [Byte(CAN)] + [Byte(CAN)];
    assert Bytes(CANS) == two + [Byte(CAN)];
    EmptyRun(r);
    RxStep(r, [], Byte(CAN));
    RxStep(r, one, Byte(CAN));
    RxStep(r, two, Byte(CAN));
    OneByte(r, Byte(CAN));
    if r.pc == RxWait {
      RxNextInWait(r, Byte(CAN));
      RxNextInCan(r.(pc := RxCan), Byte(CAN));
      OneByte(r.(pc := RxFlush(Cancelled)), Byte(CAN));
    }
  }

  // ----- The invariant

  // The receiver has taken k blocks.
  predicate RxAt(r: Rx, j: Source, k: nat)
    requires SourceOk(j)
  {
    r.packetno == Nth(1, k) && r.stored == Capped(r.destsz, Content(j, k))
  }

  // The sender is on block n.
  predicate TxAt(t: Tx, n: nat)
    requires TxOk(t)
  {
    && t.len == Off(SourceOf(t), n) && t.packetno == Nth(1, n)
    && (t.len < t.srcsz ==> t.block == BlockAt(SourceOf(t), t.len))
  }

  predicate GivenUp(t: Tx) { t.pc.TxFlush? || (t.pc.TxDone? && t.pc.code < 0) }

  // What may be under way.
  predicate Entry(t: Tx, bytes: seq<bv8>) {
    || (t.len < t.srcsz && bytes == Packet(t.packetno, t.block, t.crc))
    || (t.len >= t.srcsz && bytes == [EOT])
    || (GivenUp(t) && (bytes == CANS || bytes == [ACK]))
  }

  predicate TxPcOk(t: Tx, rxDone: bool) {
    match t.pc
    case TxReply => t.len < t.srcsz
    case TxReplyCan => t.len < t.srcsz
    case TxEot => t.len >= t.srcsz
    case TxFlush(code) => code < 0
    case TxDone(code) => code < 0 || (t.len >= t.srcsz && rxDone)
    case _ => false
  }

  predicate Succeeded(r: Rx) { r.pc.RxDone? && r.pc.code >= 0 }

  predicate RxPcOk(t: Tx, r: Rx) {
    match r.pc
    case RxWait => true
    case RxFlush(after) => after == Cancelled ==> GivenUp(t)
    case RxDone(code) => (code >= 0 ==> t.len >= t.srcsz) && (code == -1 ==> GivenUp(t))
    case _ => true
  }

  // The receiver has taken all of the sender's current transmission.
  predicate Current(t: Tx, r: Rx, n: nat)
    requires TxOk(t)
  {
    if t.len < t.srcsz then RxAt(r, SourceOf(t), n + 1) else Succeeded(r)
  }

  predicate Numbered(s: Sys) {
    && s.reply.id <= s.heard <= s.cur
    && (forall i :: 0 <= i < |s.queue| ==> s.heard < s.queue[i].id <= s.cur)
    && (forall i, k :: 0 <= i < k < |s.queue| ==> s.queue[i].id < s.queue[k].id)
  }

  predicate Modes(t: Tx, r: Rx) {
    && TxOk(t) && !t.mode && !r.mode && t.crc == r.crc && (t.crc == 0 || t.crc == 1) && TryOk(r.trychar)
  }

  predicate Place(t: Tx, r: Rx, n: nat)
    requires TxOk(t)
  {
    RxAt(r, SourceOf(t), n) || (t.len < t.srcsz && RxAt(r, SourceOf(t), n + 1))
  }

  predicate InvAt(s: Sys, n: nat) {
    && Modes(s.tx, s.rx) && Numbered(s)
    && TxAt(s.tx, n) && Place(s.tx, s.rx, n)
    && TxPcOk(s.tx, Succeeded(s.rx)) && RxPcOk(s.tx, s.rx)
    && (forall i :: 0 <= i < |s.queue| ==> Entry(s.tx, s.queue[i].bytes))
    && (s.reply.id == s.cur && ACK in s.reply.bytes && !GivenUp(s.tx) ==> Current(s.tx, s.rx, n))
  }

  // ----- Steps of the receiver

  // What a move of the receiver to r has to respect when the transmissions q are left.
  predicate MoveOk(s: Sys, n: nat, r: Rx)
    requires TxOk(s.tx)
  {
    && Modes(s.tx, r) && Place(s.tx, r, n) && RxPcOk(s.tx, r)
    && (Succeeded(s.rx) ==> Succeeded(r))
    && (Current(s.tx, s.rx, n) ==> Current(s.tx, r, n))
    && (ACK in Answered(s.rx, r) && !GivenUp(s.tx) ==> Current(s.tx, r, n))
  }

  lemma MoveKeeps(s: Sys, n: nat, popped: bool, r: Rx)
    requires InvAt(s, n) && (popped ==> s.queue != []) && (r.crc == s.rx.crc ==> MoveOk(s, n, r))
    ensures InvAt(RxMoves(if popped then s.(queue := s.queue[1..], heard := s.queue[0].id) else s, r), n)
  {
    hide Modes, TxAt, Place, RxPcOk, Entry, Current, GivenUp, Answered;
    var s0 := if popped then s.(queue := s.queue[1..], heard := s.queue[0].id) else s;
    assert Numbered(s0);
  }

  // Only the next block can be stored, and only once.
  lemma FrameKeeps(s: Sys, n: nat)
    requires InvAt(s, n) && AtRest(s.rx) && s.queue != [] && s.tx.len < s.tx.srcsz
    requires s.queue[0].bytes == Packet(s.tx.packetno, s.tx.block, s.tx.crc)
    ensures InvAt(Next(s, Deliver), n)
  {
    hide RxRun, Packet, BlockAt, Store, Nth, Capped, NextNo, Content, Off;
    var r, t, j := s.rx, s.tx, SourceOf(s.tx);
    var r' := RxRun(r, Bytes(s.queue[0].bytes));
    if r.pc == RxWait {
      TakenBlock(j, n, r.destsz);
      if RxAt(r, j, n) {
        NewBlock(r, t.block);
        AnsweredAck(r, r');
        assert RxAt(r', j, n + 1);
      } else {
        OldBlock(r, t.packetno, t.block);
        AnsweredAck(r, r');
      }
    } else {
      Deaf(r, s.queue[0].bytes);
    }
    MoveKeeps(s, n, true, r');
  }

  lemma TakenBlock(j: Source, n: nat, destsz: int)
    requires SourceOk(j) && Off(j, n) < j.srcsz
    ensures Store(Capped(destsz, Content(j, n)), destsz, BlockAt(j, Off(j, n))) == Capped(destsz, Content(j, n + 1))
    ensures Nth(1, n + 1) == NextNo(Nth(1, n))
  {
    StoreCaps(destsz, Content(j, n), BlockAt(j, Off(j, n)));
  }

  lemma AnsweredAck(r: Rx, r': Rx)
    ensures r'.out == r.out ==> Answered(r, r') == []
  {}

  // In a flush, or when it has returned, bytes do nothing to the receiver.
  lemma {:induction false} Deaf(r: Rx, bytes: seq<bv8>)
    requires r.pc.RxFlush? || r.pc.RxDone?
    ensures RxRun(r, Bytes(bytes)) == r
  {
    hide RxRun, RxNext, Bytes;
    if bytes == [] {
      EmptyRun(r);
      assert Bytes(bytes) == [];
    } else {
      var n := |bytes| - 1;
      Deaf(r, bytes[..n]);
      RxStep(r, Bytes(bytes[..n]), Byte(bytes[n]));
      OneByte(r, Byte(bytes[n]));
      BytesSnoc(bytes);
    }
  }

  lemma EotKeeps(s: Sys, n: nat)
    requires InvAt(s, n) && AtRest(s.rx) && s.queue != []
    requires s.tx.len >= s.tx.srcsz && s.queue[0].bytes == [EOT]
    ensures InvAt(Next(s, Deliver), n)
  {
    hide RxRun, Nth, Capped, Content, Off, BlockAt;
    EotArrives(s.rx);
    MoveKeeps(s, n, true, RxRun(s.rx, Bytes([EOT])));
  }

  lemma LastWordsKeep(s: Sys, n: nat)
    requires InvAt(s, n) && AtRest(s.rx) && s.queue != [] && GivenUp(s.tx) &&
             (s.queue[0].bytes == CANS || s.queue[0].bytes == [ACK])
    ensures InvAt(Next(s, Deliver), n)
  {
    hide RxRun, Nth, Capped, Content, Off, BlockAt;
    LastWordsArrive(s.rx, s.queue[0].bytes);
    MoveKeeps(s, n, true, RxRun(s.rx, Bytes(s.queue[0].bytes)));
  }

  lemma DeliverKeeps(s: Sys, n: nat)
    requires InvAt(s, n)
    ensures InvAt(Next(s, Deliver), n)
  {
    hide RxRun, RxMoves, TxAt, Place, TxPcOk, RxPcOk, Modes, Numbered;
    if s.queue != [] && AtRest(s.rx) {
      assert Entry(s.tx, s.queue[0].bytes);
      if s.tx.len < s.tx.srcsz && s.queue[0].bytes == Packet(s.tx.packetno, s.tx.block, s.tx.crc) {
        FrameKeeps(s, n);
      } else if s.tx.len >= s.tx.srcsz && s.queue[0].bytes == [EOT] {
        EotKeeps(s, n);
      } else {
        LastWordsKeep(s, n);
      }
    }
  }

  // Harmless input, with a transmission or without, keeps the invariant.
  lemma QuietKeeps(s: Sys, n: nat, popped: bool, ins: seq<In>)
    requires InvAt(s, n) && Harmless(s.rx, ins) && (popped ==> s.queue != [])
    ensures InvAt(RxMoves(if popped then s.(queue := s.queue[1..], heard := s.queue[0].id) else s, RxRun(s.rx, ins)), n)
  {
    hide RxRun, Nth, Capped, Content, Off, BlockAt, Packet, Entry, Harmless;
    QuietRun(s.rx, ins);
    MoveKeeps(s, n, popped, RxRun(s.rx, ins));
  }

  lemma DamageKeeps(s: Sys, n: nat, ins: seq<In>)
    requires InvAt(s, n)
    ensures InvAt(Next(s, Damage(ins)), n)
  {
    hide RxRun, RxMoves, InvAt, Harmless;
    if s.queue != [] && Harmless(s.rx, ins) { QuietKeeps(s, n, true, ins); }
  }

  lemma NoiseKeeps(s: Sys, n: nat, ins: seq<In>)
    requires InvAt(s, n)
    ensures InvAt(Next(s, Noise(ins)), n)
  {
    hide RxRun, RxMoves, InvAt, Harmless;
    if Harmless(s.rx, ins) { QuietKeeps(s, n, false, ins); }
  }

  // ----- Steps of the sender

  // What a move of the sender to t, on block m then, has to respect.
  predicate SendOk(s: Sys, n: nat, t: Tx, m: nat)
    requires TxOk(s.tx)
  {
    && Modes(t, s.rx) && TxAt(t, m) && Place(t, s.rx, m) && TxPcOk(t, Succeeded(s.rx)) && RxPcOk(t, s.rx)
    && (forall i :: 0 <= i < |s.queue| ==> Entry(t, s.queue[i].bytes))
    && (Emitted(s.tx, t) != [] ==> Entry(t, Emitted(s.tx, t)))
    && (Emitted(s.tx, t) == [] && !GivenUp(t) ==> !GivenUp(s.tx) && (Current(s.tx, s.rx, n) ==> Current(t, s.rx, m)))
  }

  lemma SendKeeps(s: Sys, n: nat, t: Tx, m: nat)
    requires InvAt(s, n) && SendOk(s, n, t, m)
    ensures InvAt(TxMoves(s, t), m)
  {
    hide Modes, TxAt, Place, RxPcOk, Entry, TxPcOk, Current, GivenUp, Emitted, Succeeded;
  }

  lemma EmittedIs(t: Tx, t': Tx, added: seq<Act>)
    requires t'.acts == t.acts + added
    ensures added == [] ==> Emitted(t, t') == []
    ensures |added| == 1 ==> Emitted(t, t') == ActBytes(added[0])
    ensures |added| == 2 && added[0].Fetch? ==> Emitted(t, t') == ActBytes(added[1])
  {
    assert t'.acts[|t.acts|..] == added;
    if |added| == 1 { LineOfOne(added[0]); assert added == [added[0]]; }
    if |added| == 2 {
      LineOfOne(added[0]);
      assert added[..1] == [added[0]];
      assert [] + ActBytes(added[1]) == ActBytes(added[1]);
    }
  }

  lemma LineOfOne(a: Act)
    ensures LineOf([a]) == ActBytes(a)
  {
    assert [a][..0] == [];
    assert [] + ActBytes(a) == ActBytes(a);
  }

  // A move within a block, or within the EOT phase: only counters, the program point and the acts change.
  predicate SameBlock(t: Tx, t': Tx) {
    t' == t.(pc := t'.pc, retry := t'.retry, acts := t'.acts)
  }

  lemma SameBlockFacts(t: Tx, t': Tx, r: Rx, n: nat, bytes: seq<bv8>)
    requires Modes(t, r) && SameBlock(t, t')
    ensures Modes(t', r)
    ensures TxAt(t, n) ==> TxAt(t', n)
    ensures Place(t, r, n) ==> Place(t', r, n)
    ensures Current(t, r, n) ==> Current(t', r, n)
    ensures Entry(t, bytes) && (GivenUp(t) ==> GivenUp(t')) ==> Entry(t', bytes)
    ensures RxPcOk(t, r) && (GivenUp(t) ==> GivenUp(t')) ==> RxPcOk(t', r)
  {
    hide Nth, Off, Content, BlockAt, Capped, Packet;
  }

  lemma SameBlockKeeps(s: Sys, n: nat, t: Tx, added: seq<Act>)
    requires InvAt(s, n) && SameBlock(s.tx, t) && t.acts == s.tx.acts + added && |added| <= 1
    requires (GivenUp(s.tx) ==> GivenUp(t)) && TxPcOk(t, Succeeded(s.rx))
    requires added != [] ==> Entry(t, ActBytes(added[0])) && ActBytes(added[0]) != []
    ensures InvAt(TxMoves(s, t), n)
  {
    hide Modes, TxAt, Place, RxPcOk, Entry, TxPcOk, Current, GivenUp, Emitted, Succeeded, SameBlock, ActBytes,
        TxMoves, Numbered;
    EmittedIs(s.tx, t, added);
    SameBlockFacts(s.tx, t, s.rx, n, []);
    forall i | 0 <= i < |s.queue| ensures Entry(t, s.queue[i].bytes) {
      SameBlockFacts(s.tx, t, s.rx, n, s.queue[i].bytes);
    }
    SendKeeps(s, n, t, n);
  }

  lemma NoActs(t: Tx, pc: TxPc)
    ensures SameBlock(t, t.(pc := pc)) && t.(pc := pc).acts == t.acts + []
  {}

  // Give up, with a last word or without.
  lemma GiveUpKeeps(s: Sys, n: nat, code: int, words: seq<bv8>)
    requires InvAt(s, n) && code < 0 && (words == CANS || words == [ACK])
    ensures InvAt(TxMoves(s, Did(s.tx, SendCtl(words)).(pc := TxFlush(code))), n)
    ensures InvAt(TxMoves(s, s.tx.(pc := TxFlush(code))), n)
  {
    hide Modes, TxAt, Place, RxPcOk, Current, Emitted, Succeeded, TxMoves, Numbered, Packet;
    NoActs(s.tx, TxFlush(code));
    SameBlockKeeps(s, n, s.tx.(pc := TxFlush(code)), []);
    SameBlockKeeps(s, n, Did(s.tx, SendCtl(words)).(pc := TxFlush(code)), [SendCtl(words)]);
  }

  lemma ResendKeeps(s: Sys, n: nat)
    requires InvAt(s, n) && (s.tx.pc == TxReply || s.tx.pc == TxReplyCan)
    ensures InvAt(TxMoves(s, Resend(s.tx)), n)
  {
    hide Modes, TxAt, Place, RxPcOk, Current, Emitted, Succeeded, TxMoves, Numbered, Packet;
    Resent(s.tx);
    if s.tx.retry + 1 < MAXRETRANS {
      var a := Send(Packet(s.tx.packetno, s.tx.block, s.tx.crc));
      SameBlockKeeps(s, n, SendBlock(s.tx, s.tx.retry + 1), [a]);
    } else {
      GiveUpKeeps(s, n, -4, CANS);
    }
  }

  // The acknowledged block is left behind: the line is empty and the receiver expects the next one.
  lemma AdvanceKeeps(s: Sys, n: nat)
    requires InvAt(s, n) && s.tx.pc == TxReply && s.queue == [] && Current(s.tx, s.rx, n)
    ensures InvAt(TxMoves(s, StartTrans(Advance(s.tx))), n + 1)
  {
    hide Packet, Nth, NextNo, Capped, Content, Numbered, StartTrans, TxMoves, Emitted;
    var a, j := Advance(s.tx), SourceOf(s.tx);
    Started(a);
    TakenBlock(j, n, 0);
    assert a.len == Off(j, n + 1);
    if a.len < a.srcsz {
      var f, b := Fetch(Chunk(a.src, a.srcsz, a.onek, a.len)), BlockAt(j, a.len);
      var t := Did(a.(block := b), f);
      var p := Send(Packet(a.packetno, b, a.crc));
      assert SendBlock(t, 0).acts == s.tx.acts + [f, p];
      EmittedIs(s.tx, SendBlock(t, 0), [f, p]);
      SendKeeps(s, n, SendBlock(t, 0), n + 1);
    } else {
      var t := Did(a, SendEot).(pc := TxEot, retry := 0);
      EmittedIs(s.tx, t, [SendEot]);
      SendKeeps(s, n, t, n + 1);
    }
  }

  // An ACK is read only in answer to the last transmission, and then the line is empty.
  lemma AckMeans(s: Sys, n: nat)
    requires InvAt(s, n) && s.reply.id == s.cur && ACK in s.reply.bytes && !GivenUp(s.tx)
    ensures s.queue == [] && Current(s.tx, s.rx, n)
  {
    hide Modes, TxAt, Place, RxPcOk, Entry, TxPcOk, GivenUp, Succeeded, Numbered;
    LineAhead(s);
  }

  lemma LineAhead(s: Sys)
    requires Numbered(s)
    ensures s.reply.id <= s.heard <= s.cur && (s.queue == [] || s.heard < s.queue[0].id <= s.cur)
  {}

  lemma TxReadsKeeps(s: Sys, n: nat, c: In) returns (m: nat)
    requires InvAt(s, n)
    requires c == Byte(ACK) && !GivenUp(s.tx) ==> s.queue == [] && Current(s.tx, s.rx, n)
    ensures InvAt(TxReads(s, c), m) && (m != n ==> c == Byte(ACK) && s.tx.pc == TxReply)
  {
    hide TxAt, Place, RxPcOk, Entry, Emitted, TxMoves, Numbered, Resend, StartTrans, TxNext, Advance;
    m := n;
    var t := s.tx;
    match t.pc {
      case TxReply =>
        InReply(t, c);
        if c == Byte(ACK) { AdvanceKeeps(s, n); m := n + 1; }
        else if c == Byte(CAN) { NoActs(t, TxReplyCan); SameBlockKeeps(s, n, t.(pc := TxReplyCan), []); }
        else { ResendKeeps(s, n); }
      case TxReplyCan =>
        InReplyCan(t, c);
        if c == Byte(CAN) { GiveUpKeeps(s, n, -1, [ACK]); } else { ResendKeeps(s, n); }
      case TxEot =>
        InEot(t, c);
        if c == Byte(ACK) { NoActs(t, TxDone(t.len)); SameBlockKeeps(s, n, t.(pc := TxDone(t.len)), []); }
        else if t.retry + 1 < 10 { EotAgain(s, n); }
        else { GiveUpKeeps(s, n, -5, CANS); }
      case TxFlush(code) =>
        InFlush(t, c);
        var pc := if c == Timeout then TxDone(code) else t.pc;
        NoActs(t, pc);
        SameBlockKeeps(s, n, t.(pc := pc), []);
      case TxDone(_) =>
        DoneStays(t, c);
        NoActs(t, t.pc);
        SameBlockKeeps(s, n, t.(pc := t.pc), []);
    }
  }

  lemma DoneStays(t: Tx, c: In)
    requires TxOk(t) && t.pc.TxDone?
    ensures TxNext(t, c) == t
  {}

  lemma EotAgain(s: Sys, n: nat)
    requires InvAt(s, n) && s.tx.pc == TxEot
    ensures InvAt(TxMoves(s, Did(s.tx, SendEot).(retry := s.tx.retry + 1)), n)
  {
    hide Modes, TxAt, Place, RxPcOk, Current, Emitted, Succeeded, TxMoves, Numbered, Packet;
    SameBlockKeeps(s, n, Did(s.tx, SendEot).(retry := s.tx.retry + 1), [SendEot]);
  }

  // ----- Every run

  lemma DropKeeps(s: Sys, n: nat)
    requires InvAt(s, n)
    ensures InvAt(Next(s, Drop), n)
  {
    hide Modes, TxAt, Place, RxPcOk, Entry, TxPcOk, Current, GivenUp, Succeeded;
  }

  lemma NextKeeps(s: Sys, n: nat, step: Step) returns (m: nat)
    requires InvAt(s, n)
    ensures InvAt(Next(s, step), m)
    ensures m != n ==> step == ReadReply && s.tx.pc == TxReply && s.reply.id == s.cur && ACK in s.reply.bytes
  {
    hide TxAt, Place, RxPcOk, Entry, TxPcOk, Current, GivenUp, Succeeded, TxReads, RxMoves, RxRun, RxNext, Harmless;
    m := n;
    match step {
      case Deliver => DeliverKeeps(s, n);
      case Damage(ins) => DamageKeeps(s, n, ins);
      case Drop => DropKeeps(s, n);
      case ReadReply =>
        if s.reply.id == s.cur && s.reply.bytes != [] {
          if s.reply.bytes[0] == ACK && !GivenUp(s.tx) { AckMeans(s, n); }
          m := TxReadsKeeps(s.(reply := s.reply.(bytes := s.reply.bytes[1..])), n, Byte(s.reply.bytes[0]));
        }
      case Garble(b) => if b != ACK { m := TxReadsKeeps(s, n, Byte(b)); }
      case TxTimeout => m := TxReadsKeeps(s, n, Timeout);
      case Noise(ins) => NoiseKeeps(s, n, ins);
    }
  }

  lemma {:induction false} RunKeeps(s: Sys, n: nat, steps: seq<Step>) returns (m: nat)
    requires InvAt(s, n)
    ensures InvAt(Run(s, steps), m)
    decreases |steps|
  {
    hide InvAt, Next;
    assert TxOk(s.tx) by { InvTxOk(s, n); }
    m := n;
    if steps != [] {
      NextOk(s, steps[0]);
      m := NextKeeps(s, n, steps[0]);
      m := RunKeeps(Next(s, steps[0]), m, steps[1..]);
    }
  }

  lemma InvTxOk(s: Sys, n: nat)
    requires InvAt(s, n)
    ensures TxOk(s.tx)
  {}

  lemma RxStarts(destsz: int, crc: int)
    requires crc == 0 || crc == 1
    ensures var r := RxInit(destsz, crc, false);
            r.pc == RxWait && r.stored == [] && r.packetno == 1 && r.crc == crc && !r.mode && TryOk(r.trychar) &&
                r.destsz == destsz
  {}

  // The sender's first transmission.
  lemma TxStarts(src: seq<bv8>, srcsz: int, onek: bool, crc: int)
    requires srcsz <= |src| && (crc == 0 || crc == 1)
    ensures var t := StartTrans(TxInit(src, srcsz, onek, false).(crc := crc));
            TxOk(t) && t.src == src && t.srcsz == srcsz && t.onek == onek && !t.mode && t.crc == crc &&
            TxAt(t, 0) && TxPcOk(t, false) && !GivenUp(t) && Entry(t, LineOf(t.acts))
  {
    hide Packet, Block, Chunk, StartTrans, LineOf;
    var t0 := TxInit(src, srcsz, onek, false).(crc := crc);
    Started(t0);
    if 0 < srcsz {
      var f := Fetch(Chunk(src, srcsz, onek, 0));
      var b := Block(src, srcsz, onek, false, 0);
      var t := SendBlock(Did(t0.(block := b), f), 0);
      var p := Send(Packet(1, b, crc));
      assert t.acts == [f, p];
      LineOfTwo(f, p);
      assert [] + p.bytes == p.bytes;
    } else {
      assert StartTrans(t0).acts == [SendEot];
      LineOfOne(SendEot);
    }
  }

  lemma LineOfTwo(a: Act, b: Act)
    ensures LineOf([a, b]) == ActBytes(a) + ActBytes(b)
  {
    LineOfOne(a);
    assert [a, b][..1] == [a];
  }

  lemma AgreedOk(src: seq<bv8>, srcsz: int, onek: bool, destsz: int, withCrc: bool)
    requires srcsz <= |src|
    ensures InvAt(Agreed(src, srcsz, onek, destsz, withCrc), 0)
  {
    hide StartTrans, RxInit, LineOf, TxPcOk, Entry, TxAt, GivenUp, TxNext;
    var crc := if withCrc then 1 else 0;
    RxStarts(destsz, crc);
    TxStarts(src, srcsz, onek, crc);
    InSync(TxInit(src, srcsz, onek, false), Byte(if withCrc then CHAR_C else NAK));
    PcAnyway(StartTrans(TxInit(src, srcsz, onek, false).(crc := crc)));
  }

  lemma PcAnyway(t: Tx)
    ensures TxPcOk(t, false) ==> TxPcOk(t, true)
  {}

  // The sender is on block n, the receiver expects block n or n + 1.
  ghost predicate InStep(s: Sys)
    requires TxOk(s.tx)
  {
    exists n :: TxAt(s.tx, n) && Place(s.tx, s.rx, n)
  }

  // In every run, over any number of wraps of the block number: what is stored is an initial piece of
  // the padded source as far as it fits; the ends never are more than one block apart; a receiver that
  // ends normally holds all of it, and a sender ends normally only after the receiver has.
  lemma EveryTransfer(src: seq<bv8>, srcsz: int, onek: bool, destsz: int, withCrc: bool, steps: seq<Step>)
    requires srcsz <= |src|
    ensures TxOk(Agreed(src, srcsz, onek, destsz, withCrc).tx)
    ensures var s := Run(Agreed(src, srcsz, onek, destsz, withCrc), steps);
            var all := Capped(destsz, Full(Source(src, srcsz, onek, false)));
            TxOk(s.tx) && InStep(s) && s.rx.stored <= all &&
            (Succeeded(s.rx) ==> s.rx.stored == all) &&
            (s.tx.pc.TxDone? && s.tx.pc.code >= 0 ==> Succeeded(s.rx))
  {
    hide Run, Agreed, InvAt, Off, Content, FullFrom, BlockAt;
    var s0 := Agreed(src, srcsz, onek, destsz, withCrc);
    AgreedOk(src, srcsz, onek, destsz, withCrc);
    InvTxOk(s0, 0);
    var n := RunKeeps(s0, 0, steps);
    var s := Run(s0, steps);
    RunSame(s0, steps);
    AgreedArguments(src, srcsz, onek, destsz, withCrc);
    Outcome(s, n);
  }

  // The arguments of the two calls never change.
  predicate SameArguments(s: Sys, s': Sys) { SourceOf(s.tx) == SourceOf(s'.tx) && s'.rx.destsz == s.rx.destsz }

  lemma ListenDest(r: Rx, n: nat)
    ensures Listen(r, n).destsz == r.destsz
  {}

  lemma JudgeDest(r: Rx, buf: seq<bv8>)
    ensures Judge(r, buf).destsz == r.destsz
  {
    hide Listen, Acceptable, StoredAfter;
    if Acceptable(r.packetno, r.crc, buf) {
      AcceptableSize(r, buf);
      var t := Taken(r, StoredAfter(r.stored, r.destsz, r.packetno, buf), buf[1] == r.packetno);
      ListenDest(t.(out := t.out + Reply(t.crc)), 0);
    }
  }

  lemma NextDest(r: Rx, c: In)
    ensures RxNext(r, c).destsz == r.destsz
  {
    hide Listen, Judge, PacketSize;
    ListenDest(r, r.retry + 1);
    ListenDest(r.(out := r.out + [NAK]), 0);
    if r.pc.RxBody? && c.Byte? { JudgeDest(r, r.pc.buf + [c.b]); }
  }

  lemma {:induction false} RunDest(r: Rx, ins: seq<In>)
    ensures RxRun(r, ins).destsz == r.destsz
  {
    hide RxNext;
    if ins != [] {
      RunDest(r, ins[..|ins| - 1]);
      NextDest(RxRun(r, ins[..|ins| - 1]), ins[|ins| - 1]);
    }
  }

  lemma NextSame(s: Sys, step: Step)
    requires TxOk(s.tx)
    ensures SameArguments(s, Next(s, step))
  {
    hide TxNext, RxNext, RxRun, Harmless, Emitted, Answered;
    NextOk(s, step);
    match step
    case Deliver => if s.queue != [] { RunDest(s.rx, Bytes(s.queue[0].bytes)); }
    case Damage(ins) => RunDest(s.rx, ins);
    case Noise(ins) => RunDest(s.rx, ins);
    case _ =>
  }

  lemma {:induction false} RunSame(s: Sys, steps: seq<Step>)
    requires TxOk(s.tx)
    ensures SameArguments(s, Run(s, steps))
    decreases |steps|
  {
    hide Next;
    if steps != [] {
      NextOk(s, steps[0]);
      NextSame(s, steps[0]);
      RunSame(Next(s, steps[0]), steps[1..]);
    }
  }

  lemma AgreedArguments(src: seq<bv8>, srcsz: int, onek: bool, destsz: int, withCrc: bool)
    requires srcsz <= |src|
    ensures var s := Agreed(src, srcsz, onek, destsz, withCrc);
            SourceOf(s.tx) == Source(src, srcsz, onek, false) && s.rx.destsz == destsz
  {
    hide StartTrans, Listen;
    var t := TxInit(src, srcsz, onek, false);
    TxNextKeeps(t, Byte(if withCrc then CHAR_C else NAK));
    var crc := if withCrc then 1 else 0;
    ListenDest(Rx(destsz, false, RxWait, [], 1, if withCrc then CHAR_C else NAK, crc, 0, MAXRETRANS, []), 0);
  }

  lemma Outcome(s: Sys, n: nat)
    requires InvAt(s, n)
    ensures TxOk(s.tx) && InStep(s)
    ensures s.rx.stored <= Capped(s.rx.destsz, Full(SourceOf(s.tx)))
    ensures Succeeded(s.rx) ==> s.rx.stored == Capped(s.rx.destsz, Full(SourceOf(s.tx)))
    ensures s.tx.pc.TxDone? && s.tx.pc.code >= 0 ==> Succeeded(s.rx)
  {
    hide Nth, Off, Content, BlockAt, FullFrom, Packet;
    ContentThenRest(SourceOf(s.tx), n);
    ContentThenRest(SourceOf(s.tx), n + 1);
    assert TxAt(s.tx, n) && Place(s.tx, s.rx, n);
  }
}
