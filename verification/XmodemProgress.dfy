/** Whether a transfer can go on when the ACK of a block was lost: exactly if the receiver does not expect
    number 0 next. At the wrap from block 255 to block 0 one lost ACK ends every chance of success. */
module XmodemProgress {
  import opened Xmodem
  import opened XmodemIo
  import opened XmodemSend
  import XmodemPacing
  import opened XmodemProtocol
  import opened XmodemSafety
  import opened XmodemLimits

  // ----- No progress

  // No ACK is on its way to the sender's current wait.
  predicate NoAckPending(s: Sys) { s.reply.id == s.cur ==> ACK !in s.reply.bytes }

  // The receiver has taken block n, which the sender is still sending.
  predicate Ahead(s: Sys, n: nat) {
    InvAt(s, n) && s.tx.len < s.tx.srcsz && RxAt(s.rx, SourceOf(s.tx), n + 1)
  }

  // It expects number 0, so that every repetition is refused.
  predicate Stuck(s: Sys, n: nat) {
    && InvAt(s, n) && s.tx.len < s.tx.srcsz
    && (GivenUp(s.tx) || (Ahead(s, n) && s.rx.packetno == 0 && NoAckPending(s)))
  }

  lemma RepetitionRefused(r: Rx, no: bv8, data: seq<bv8>)
    requires r.pc == RxWait && BlockSized(data) && NextNo(no) == r.packetno == 0
    ensures RxRun(r, Bytes(Packet(no, data, r.crc))) == r.(trychar := 0, pc := RxFlush(Rejected))
  {
    hide *;
    var p := Packet(no, data, r.crc);
    IntactPacket(r.packetno, no, data, r.crc);
    Distinct(no);
    PacketArrives(r, p);
    JudgeRejects(r.(trychar := 0), p);
  }

  lemma GivenUpStays(t: Tx, c: In)
    requires TxOk(t) && GivenUp(t) && t.pc.code < 0
    ensures GivenUp(TxNext(t, c))
  {
    if t.pc.TxFlush? { InFlush(t, c); } else { DoneStays(t, c); }
  }

  // A move of the receiver that keeps what it expects and sends no ACK.
  lemma MoveStuck(s: Sys, n: nat, popped: bool, r: Rx)
    requires Stuck(s, n) && !GivenUp(s.tx) && (popped ==> s.queue != [])
    requires r.crc == s.rx.crc ==>
             r.packetno == s.rx.packetno && r.stored == s.rx.stored && r.destsz == s.rx.destsz &&
             ACK !in Answered(s.rx, r)
    ensures var s0 := if popped then s.(queue := s.queue[1..], heard := s.queue[0].id) else s;
            var s' := RxMoves(s0, r);
            s'.tx == s.tx && RxAt(s'.rx, SourceOf(s.tx), n + 1) && s'.rx.packetno == 0 && NoAckPending(s')
  {
    hide Modes, TxAt, Place, RxPcOk, Entry, TxPcOk, Current, Content, Capped, XmodemPacing.Nth, Answered;
    if popped { assert s.reply.id <= s.heard < s.queue[0].id; }
  }

  lemma QuietStuck(s: Sys, n: nat, popped: bool, ins: seq<In>)
    requires Stuck(s, n) && !GivenUp(s.tx) && Harmless(s.rx, ins) && (popped ==> s.queue != [])
    ensures var s0 := if popped then s.(queue := s.queue[1..], heard := s.queue[0].id) else s;
            var s' := RxMoves(s0, RxRun(s.rx, ins));
            s'.tx == s.tx && RxAt(s'.rx, SourceOf(s.tx), n + 1) && s'.rx.packetno == 0 && NoAckPending(s')
  {
    hide RxRun, Harmless, Content, Capped, XmodemPacing.Nth, Entry, TxAt, Place, Numbered, RxAt;
    QuietRun(s.rx, ins);
    MoveStuck(s, n, popped, RxRun(s.rx, ins));
  }

  lemma DeliverStuck(s: Sys, n: nat)
    requires Stuck(s, n) && !GivenUp(s.tx)
    ensures var s' := Next(s, Deliver);
            s'.tx == s.tx && RxAt(s'.rx, SourceOf(s.tx), n + 1) && s'.rx.packetno == 0 && NoAckPending(s')
  {
    hide RxRun, RxMoves, Content, Capped, NextNo, Packet, XmodemPacing.Nth, Off;
    if s.queue != [] && AtRest(s.rx) {
      assert Entry(s.tx, s.queue[0].bytes);
      if s.rx.pc == RxWait {
        NumberBefore(s, n);
        RepetitionRefused(s.rx, s.tx.packetno, s.tx.block);
        AnsweredAck(s.rx, RxRun(s.rx, Bytes(s.queue[0].bytes)));
      } else {
        Deaf(s.rx, s.queue[0].bytes);
        AnsweredAck(s.rx, s.rx);
      }
      MoveStuck(s, n, true, RxRun(s.rx, Bytes(s.queue[0].bytes)));
    }
  }

  lemma NumberBefore(s: Sys, n: nat)
    requires Ahead(s, n)
    ensures s.rx.packetno == NextNo(s.tx.packetno) && BlockSized(s.tx.block)
  {
    hide NextNo, Content, Capped, Off;
  }

  lemma TxReadsStuck(s: Sys, n: nat, c: In)
    requires Stuck(s, n) && !GivenUp(s.tx) && c != Byte(ACK)
    ensures var s' := TxReads(s, c); GivenUp(s'.tx) || (s'.rx == s.rx && NoAckPending(s'))
  {
    hide TxAt, Place, RxPcOk, Entry, Current, RxAt, Packet, Emitted;
    var t := s.tx;
    if t.pc == TxReply {
      InReply(t, c);
    } else {
      InReplyCan(t, c);
    }
    Resent(t);
  }

  lemma StepStuck(s: Sys, n: nat, step: Step)
    requires Stuck(s, n)
    ensures Stuck(Next(s, step), n) && SourceOf(Next(s, step).tx) == SourceOf(s.tx)
  {
    hide RxMoves, RxRun, TxReads, TxMoves, Harmless, TxNext, AtRest, InvAt;
    InvTxOk(s, n);
    NextSame(s, step);
    var m := NextKeeps(s, n, step);
    assert m == n by { NoAckNoAdvance(s, n, m, step); }
    StillSending(Next(s, step), s, n);
    if GivenUp(s.tx) {
      assert s.tx.pc.code < 0 by { StuckNotDone(s, n); }
      GivenUpNext(s, step);
    } else {
      match step {
        case Deliver => DeliverStuck(s, n);
        case Damage(ins) => if s.queue != [] && Harmless(s.rx, ins) { QuietStuck(s, n, true, ins); }
        case Drop =>
        case ReadReply =>
          if s.reply.id == s.cur && s.reply.bytes != [] {
            var s0 := s.(reply := s.reply.(bytes := s.reply.bytes[1..]));
            PoppedStuck(s, s0, n);
            TxReadsStuck(s0, n, Byte(s.reply.bytes[0]));
          }
        case Garble(b) => if b != ACK { TxReadsStuck(s, n, Byte(b)); }
        case TxTimeout => TxReadsStuck(s, n, Timeout);
        case Noise(ins) => if Harmless(s.rx, ins) { QuietStuck(s, n, false, ins); }
      }
    }
  }

  lemma PoppedStuck(s: Sys, s0: Sys, n: nat)
    requires Stuck(s, n) && !GivenUp(s.tx) && s.reply.bytes != [] &&
             s0 == s.(reply := s.reply.(bytes := s.reply.bytes[1..]))
    ensures Stuck(s0, n)
  {
    hide Modes, TxAt, Place, RxPcOk, Entry, TxPcOk, Current, RxAt;
  }

  lemma NoAckNoAdvance(s: Sys, n: nat, m: nat, step: Step)
    requires Stuck(s, n)
    requires m != n ==> step == ReadReply && s.tx.pc == TxReply && s.reply.id == s.cur && ACK in s.reply.bytes
    ensures m == n
  {
    hide InvAt;
  }

  lemma StillSending(s': Sys, s: Sys, n: nat)
    requires InvAt(s, n) && InvAt(s', n) && SourceOf(s'.tx) == SourceOf(s.tx)
    ensures s'.tx.len == s.tx.len && s'.tx.packetno == s.tx.packetno && s'.tx.srcsz == s.tx.srcsz
  {
    hide Place, RxPcOk, Entry, Modes, Current, TxPcOk, Numbered;
  }

  lemma GivenUpNext(s: Sys, step: Step)
    requires TxOk(s.tx) && GivenUp(s.tx) && s.tx.pc.code < 0
    ensures GivenUp(Next(s, step).tx)
  {
    hide TxNext, RxRun, Harmless, GivenUp;
    match step
    case ReadReply => if s.reply.bytes != [] { GivenUpStays(s.tx, Byte(s.reply.bytes[0])); }
    case Garble(b) => GivenUpStays(s.tx, Byte(b));
    case TxTimeout => GivenUpStays(s.tx, Timeout);
    case _ =>
  }

  // From there on, whatever the line does, the sender stays on its block and never returns a length.
  lemma {:induction false} NoProgress(s: Sys, n: nat, steps: seq<Step>)
    requires Stuck(s, n) && TxOk(s.tx)
    ensures var s' := Run(s, steps);
            Stuck(s', n) && s'.tx.len == s.tx.len && (s'.tx.pc.TxDone? ==> s'.tx.pc.code < 0)
    decreases |steps|
  {
    hide Next, InvAt;
    if steps == [] {
      StuckNotDone(s, n);
    } else {
      NextOk(s, steps[0]);
      StepStuck(s, n, steps[0]);
      StillSending(Next(s, steps[0]), s, n);
      NoProgress(Next(s, steps[0]), n, steps[1..]);
    }
  }

  lemma StuckNotDone(s: Sys, n: nat)
    requires Stuck(s, n)
    ensures s.tx.pc.TxDone? || s.tx.pc.TxFlush? ==> s.tx.pc.code < 0
  {
    hide Place, RxPcOk, Entry, Modes, Current, TxAt, Numbered;
  }

  // ----- Progress

  function Drops(n: nat): (steps: seq<Step>)
    ensures |steps| == n
  {
    seq(n, _ => Drop)
  }

  lemma {:induction false} RunAppend(s: Sys, a: seq<Step>, b: seq<Step>)
    requires TxOk(s.tx)
    ensures TxOk(Run(s, a).tx) && Run(s, a + b) == Run(Run(s, a), b)
    decreases |a|
  {
    hide Next;
    if a == [] {
      assert a + b == b;
    } else {
      NextOk(s, a[0]);
      RunAppend(Next(s, a[0]), a[1..], b);
      assert (a + b)[1..] == a[1..] + b;
    }
  }

  // The line can be cleared.
  lemma {:induction false} Dropped(s: Sys, n: nat)
    requires InvAt(s, n)
    ensures TxOk(s.tx) && Run(s, Drops(|s.queue|)) == s.(queue := []) && InvAt(s.(queue := []), n)
    decreases |s.queue|
  {
    hide Modes, TxAt, Place, RxPcOk, Entry, TxPcOk, Current;
    InvTxOk(s, n);
    if s.queue == [] {
      assert s.(queue := []) == s;
    } else {
      DropKeeps(s, n);
      var s' := s.(queue := s.queue[1..]);
      assert Next(s, Drop) == s';
      Dropped(s', n);
      assert Drops(|s.queue|)[1..] == Drops(|s'.queue|) && Drops(|s.queue|)[0] == Drop;
    }
  }

  // The packet is sent once more.
  lemma SentAgain(s: Sys, n: nat)
    requires Ahead(s, n) && s.queue == [] && s.tx.pc == TxReply && s.tx.retry + 1 < MAXRETRANS
    ensures var p := Packet(s.tx.packetno, s.tx.block, s.tx.crc); var s' := Next(s, TxTimeout);
            s' == s.(tx := SendBlock(s.tx, s.tx.retry + 1), queue := [Sending(s.cur + 1, p)], cur := s.cur + 1) &&
            Ahead(s', n)
  {
    hide TxAt, Place, RxPcOk, Entry, Current, RxAt, Packet, Numbered, Emitted;
    InvTxOk(s, n);
    InReply(s.tx, Timeout);
    Resent(s.tx);
    var p := Packet(s.tx.packetno, s.tx.block, s.tx.crc);
    EmittedIs(s.tx, SendBlock(s.tx, s.tx.retry + 1), [Send(p)]);
    ResendKeeps(s, n);
    PacketNotEmpty(s.tx.packetno, s.tx.block, s.tx.crc);
    assert [] + [Sending(s.cur + 1, p)] == [Sending(s.cur + 1, p)];
    RxAtSource(s.rx, s.tx, SendBlock(s.tx, s.tx.retry + 1), n + 1);
  }

  lemma PacketNotEmpty(no: bv8, data: seq<bv8>, crc: int)
    ensures Packet(no, data, crc) != []
  {}

  lemma RxAtSource(r: Rx, t: Tx, t': Tx, k: nat)
    requires TxOk(t) && SameCall(t, t') && RxAt(r, SourceOf(t), k)
    ensures TxOk(t') && RxAt(r, SourceOf(t'), k)
  {}

  // The repetition is acknowledged, and the sender reads it.
  lemma AcknowledgedAgain(s: Sys, n: nat)
    requires Ahead(s, n) && s.tx.pc == TxReply &&
             s.queue == [Sending(s.cur, Packet(s.tx.packetno, s.tx.block, s.tx.crc))]
    requires s.rx.pc == RxWait && s.rx.retrans > 1 && s.rx.packetno != 0
    ensures var s2 := Next(Next(s, Deliver), ReadReply); s2.tx.len > s.tx.len
  {
    hide RxRun, Packet, Content, Capped, Off, NextNo, TxAt, Place, RxPcOk, Entry, Current, Numbered, RxAt, StartTrans;
    var t := s.tx;
    InvTxOk(s, n);
    NumberBefore(s, n);
    CountedRepetition(s.rx, t.packetno, t.block);
    var r' := RxRun(s.rx, Bytes(s.queue[0].bytes));
    AnsweredOne(s.rx, r');
    var s1 := Next(s, Deliver);
    assert s1.tx == t && s1.reply == Sending(s.cur, [ACK]) && s1.cur == s.cur;
    InReply(t, Byte(ACK));
    LenGrows(t);
  }

  lemma AnsweredOne(r: Rx, r': Rx)
    requires r'.out == r.out + [ACK]
    ensures Answered(r, r') == [ACK]
  {}

  lemma LenGrows(t: Tx)
    requires TxOk(t) && t.crc != 2 && BlockSized(t.block)
    ensures StartTrans(Advance(t)).len > t.len
  {
    hide Packet, Block, Chunk;
    Started(Advance(t));
  }

  ghost predicate CanAdvance(s: Sys)
    requires TxOk(s.tx)
  {
    exists steps :: Run(s, steps).tx.len > s.tx.len
  }

  lemma AdvanceSteps(s: Sys, n: nat)
    requires Ahead(s, n) && s.tx.pc == TxReply && s.tx.retry + 1 < MAXRETRANS && TxOk(s.tx)
    requires s.rx.pc == RxWait && s.rx.retrans > 1 && s.rx.packetno != 0
    ensures CanAdvance(s)
  {
    hide Next, InvAt, RxAt, Packet;
    Dropped(s, n);
    var s0 := s.(queue := []);
    SentAgain(s0, n);
    var s1 := Next(s0, TxTimeout);
    AcknowledgedAgain(s1, n);
    NextOk(s0, TxTimeout);
    NextOk(s1, Deliver);
    NextOk(Next(s1, Deliver), ReadReply);
    var steps := [TxTimeout, Deliver, ReadReply];
    RunAppend(s, Drops(|s.queue|), steps);
    assert steps[1..] == [Deliver, ReadReply] && [Deliver, ReadReply][1..] == [ReadReply] && [ReadReply][1..] == [];
    assert Run(s0, steps) == Run(s1, [Deliver, ReadReply]) == Run(Next(s1, Deliver), [ReadReply]);
    assert Run(Next(s1, Deliver), [ReadReply]) == Run(Next(Next(s1, Deliver), ReadReply), []);
    assert Run(s, Drops(|s.queue|) + steps).tx.len > s.tx.len;
  }

  // The ACK of block n was lost, and both ends have attempts left: the sender can still get beyond its
  // block if and only if the receiver does not expect number 0.
  lemma ProgressExactly(s: Sys, n: nat)
    requires Ahead(s, n) && NoAckPending(s) && s.tx.pc == TxReply && s.tx.retry + 1 < MAXRETRANS && TxOk(s.tx)
    requires s.rx.pc == RxWait && s.rx.retrans > 1
    ensures CanAdvance(s) <==> s.rx.packetno != 0
  {
    hide InvAt, RxAt;
    if s.rx.packetno == 0 {
      forall steps ensures Run(s, steps).tx.len == s.tx.len {
        NoProgress(s, n, steps);
      }
    } else {
      AdvanceSteps(s, n);
    }
  }

  // ----- It happens to every transfer that is long enough

  // Block n has just been sent for the first time, and the receiver waits for it.
  predicate JustSent(s: Sys, n: nat) {
    && InvAt(s, n) && s.tx.pc == TxReply && s.tx.retry == 0 && s.rx.pc == RxWait && RxAt(s.rx, SourceOf(s.tx), n)
    && s.queue == [Sending(s.cur, Packet(s.tx.packetno, s.tx.block, s.tx.crc))]
  }

  // It arrives and is acknowledged.
  lemma BlockTaken(s: Sys, n: nat)
    requires JustSent(s, n)
    ensures var s1 := Next(s, Deliver);
            InvAt(s1, n) && s1.tx == s.tx && s1.queue == [] && s1.cur == s.cur && s1.reply == Sending(s.cur, [ACK]) &&
            s1.rx.pc == RxWait && s1.rx.packetno == NextNo(s.rx.packetno) && RxAt(s1.rx, SourceOf(s.tx), n + 1)
  {
    hide RxRun, Packet, Content, Capped, Off, NextNo, Store, XmodemPacing.Nth, BlockAt;
    DeliverKeeps(s, n);
    NewBlock(s.rx, s.tx.block);
    TakenBlock(SourceOf(s.tx), n, s.rx.destsz);
    AnsweredOne(s.rx, RxRun(s.rx, Bytes(s.queue[0].bytes)));
  }

  // The ACK is read, and the next block is sent.
  lemma NextSent(s: Sys, n: nat)
    requires JustSent(s, n) && Off(SourceOf(s.tx), n + 1) < s.tx.srcsz
    ensures var s2 := Next(Next(s, Deliver), ReadReply); JustSent(s2, n + 1) && SourceOf(s2.tx) == SourceOf(s.tx)
  {
    hide RxRun, Packet, Content, Capped, XmodemPacing.Nth, NextNo, Numbered, Entry, Place, RxPcOk, RxMoves;
    BlockTaken(s, n);
    InvTxOk(s, n);
    var s1 := Next(s, Deliver);
    var s0 := s1.(reply := Sending(s.cur, []));
    EmptyReply(s1, s0, n);
    assert [ACK][1..] == [];
    assert Next(s1, ReadReply) == TxReads(s0, Byte(ACK));
    InReply(s.tx, Byte(ACK));
    AdvanceKeeps(s0, n);
    Sent(s0, n);
  }

  lemma EmptyReply(s: Sys, s0: Sys, n: nat)
    requires InvAt(s, n) && s0 == s.(reply := Sending(s.reply.id, []))
    ensures InvAt(s0, n)
  {
    hide Modes, TxAt, Place, RxPcOk, Entry, TxPcOk, Current;
  }

  lemma Sent(s: Sys, n: nat)
    requires TxOk(s.tx) && TxAt(s.tx, n) && s.tx.len < s.tx.srcsz && Off(SourceOf(s.tx), n + 1) < s.tx.srcsz &&
             s.tx.crc != 2
    requires s.queue == [] && s.rx.pc == RxWait && RxAt(s.rx, SourceOf(s.tx), n + 1)
    ensures var s' := TxMoves(s, StartTrans(Advance(s.tx)));
            s'.tx.pc == TxReply && s'.tx.retry == 0 && s'.rx == s.rx && SourceOf(s'.tx) == SourceOf(s.tx) &&
            s'.queue == [Sending(s'.cur, Packet(s'.tx.packetno, s'.tx.block, s'.tx.crc))]
  {
    hide Packet, Content, Capped, XmodemPacing.Nth, NextNo, Block, Chunk, Emitted;
    var a := Advance(s.tx);
    Started(a);
    var f, b := Fetch(Chunk(a.src, a.srcsz, a.onek, a.len)), Block(a.src, a.srcsz, a.onek, a.mode, a.len);
    var t := Did(a.(block := b), f);
    var p := Send(Packet(a.packetno, b, a.crc));
    assert SendBlock(t, 0).acts == s.tx.acts + [f, p];
    EmittedIs(s.tx, SendBlock(t, 0), [f, p]);
    PacketNotEmpty(a.packetno, b, a.crc);
    assert [] + [Sending(s.cur + 1, p.bytes)] == [Sending(s.cur + 1, p.bytes)];
  }

  // Offsets grow, so a source longer than the first n blocks is longer than fewer.
  lemma {:induction false} OffGrows(j: Source, m: nat, n: nat)
    requires m <= n
    ensures Off(j, m) <= Off(j, n)
    decreases n
  {
    if m < n { OffGrows(j, m, n - 1); }
  }

  lemma {:induction false} Reaches(s: Sys, n: nat, k: nat) returns (steps: seq<Step>)
    requires JustSent(s, n) && TxOk(s.tx) && Off(SourceOf(s.tx), n + k) < s.tx.srcsz
    ensures JustSent(Run(s, steps), n + k) && SourceOf(Run(s, steps).tx) == SourceOf(s.tx)
    decreases k
  {
    hide Next, JustSent;
    if k == 0 {
      steps := [];
    } else {
      OffGrows(SourceOf(s.tx), n + 1, n + k);
      NextSent(s, n);
      NextOk(s, Deliver);
      NextOk(Next(s, Deliver), ReadReply);
      var s2 := Next(Next(s, Deliver), ReadReply);
      var rest := Reaches(s2, n + 1, k - 1);
      steps := [Deliver, ReadReply] + rest;
      RunAppend(s, [Deliver, ReadReply], rest);
      assert [Deliver, ReadReply][1..] == [ReadReply] && [ReadReply][1..] == [];
      assert Run(s, [Deliver, ReadReply]) == Run(Next(s, Deliver), [ReadReply]) == Run(s2, []);
    }
  }

  lemma {:induction false} NthSum(b: bv8, m: nat, n: nat)
    ensures XmodemPacing.Nth(b, m + n) == XmodemPacing.Nth(XmodemPacing.Nth(b, m), n)
    decreases n
  {
    hide NextNo;
    if n > 0 { NthSum(b, m, n - 1); }
  }

  // Steps of powers of two.
  lemma NthPowers(b: bv8)
    ensures XmodemPacing.Nth(b, 1) == b + 1 && XmodemPacing.Nth(b, 2) == b + 2 && XmodemPacing.Nth(b, 4) == b + 4
  {}

  lemma NthMore(b: bv8)
    ensures XmodemPacing.Nth(b, 8) == b + 8 && XmodemPacing.Nth(b, 16) == b + 16
  {
    hide XmodemPacing.Nth;
    NthPowers(b); NthPowers(b + 4); NthPowers(b + 8); NthPowers(b + 12);
    NthSum(b, 4, 4); NthSum(b + 8, 4, 4); NthSum(b, 8, 8);
  }

  lemma NthMost(b: bv8)
    ensures XmodemPacing.Nth(b, 32) == b + 32 && XmodemPacing.Nth(b, 64) == b + 64 &&
            XmodemPacing.Nth(b, 128) == b + 128
  {
    hide XmodemPacing.Nth;
    NthMore(b); NthMore(b + 16); NthMore(b + 32); NthMore(b + 48);
    NthMore(b + 64); NthMore(b + 80); NthMore(b + 96); NthMore(b + 112);
    NthSum(b, 16, 16); NthSum(b + 32, 16, 16); NthSum(b + 64, 16, 16); NthSum(b + 96, 16, 16);
    NthSum(b, 32, 32); NthSum(b + 64, 32, 32); NthSum(b, 64, 64);
  }

  // The block behind the first 255 has number 0.
  lemma NumberWraps()
    ensures XmodemPacing.Nth(1, 255) == 0
  {
    hide XmodemPacing.Nth;
    NthMost(1); NthSum(1, 128, 127);
    NthMost(129); NthSum(129, 64, 63);
    NthMost(193); NthSum(193, 32, 31);
    NthMore(225); NthSum(225, 16, 15);
    NthMore(241); NthSum(241, 8, 7);
    NthPowers(249); NthSum(249, 4, 3);
    NthPowers(253); NthSum(253, 2, 1);
    NthPowers(255);
  }

  // When the ACK of block 255 is lost, the transfer cannot succeed any more.
  lemma LostAckStalls(s: Sys)
    requires JustSent(s, 254)
    ensures var s2 := Next(Next(s, Deliver), TxTimeout); TxOk(s2.tx) && Stuck(s2, 254)
  {
    hide RxRun, Packet, Content, Capped, XmodemPacing.Nth, NextNo, Entry, Place, RxPcOk, RxMoves, Off, TxAt;
    BlockTaken(s, 254);
    var s1 := Next(s, Deliver);
    NumberWraps();
    assert s1.rx.packetno == XmodemPacing.Nth(1, 255);
    SentAgain(s1, 254);
    InvTxOk(s1, 254);
    NextOk(s1, TxTimeout);
  }

  lemma FirstSent(src: seq<bv8>, srcsz: int, onek: bool, destsz: int, withCrc: bool)
    requires 0 < srcsz <= |src|
    ensures var s := Agreed(src, srcsz, onek, destsz, withCrc);
            JustSent(s, 0) && SourceOf(s.tx) == Source(src, srcsz, onek, false)
  {
    hide InvAt, RxInit, Packet, Block, Chunk, TxNext;
    AgreedOk(src, srcsz, onek, destsz, withCrc);
    AgreedArguments(src, srcsz, onek, destsz, withCrc);
    var crc := if withCrc then 1 else 0;
    RxStarts(destsz, crc);
    var t := TxInit(src, srcsz, onek, false);
    InSync(t, Byte(if withCrc then CHAR_C else NAK));
    Started(t.(crc := crc));
    var f, b := Fetch(Chunk(src, srcsz, onek, 0)), Block(src, srcsz, onek, false, 0);
    var p := Send(Packet(1, b, crc));
    assert StartTrans(t.(crc := crc)).acts == [f, p];
    LineOfTwo(f, p);
    assert [] + p.bytes == p.bytes;
  }

  // Every transfer of 255 blocks or more, in CRC or checksum mode, has a run -- one lost ACK, nothing
  // else amiss -- from which no run of the line, however good, lets the sender return a length.
  lemma LongTransferCanStall(src: seq<bv8>, srcsz: int, onek: bool, destsz: int, withCrc: bool)
    returns (steps: seq<Step>)
    requires srcsz <= |src| && Off(Source(src, srcsz, onek, false), 254) < srcsz
    ensures var s0 := Agreed(src, srcsz, onek, destsz, withCrc);
            TxOk(s0.tx) && TxOk(Run(s0, steps).tx) && Stuck(Run(s0, steps), 254) &&
            forall more :: var s := Run(Run(s0, steps), more); s.tx.pc.TxDone? ==> s.tx.pc.code < 0
  {
    hide Run, JustSent, Stuck, Off, Agreed;
    var s0 := Agreed(src, srcsz, onek, destsz, withCrc);
    FirstSent(src, srcsz, onek, destsz, withCrc);
    JustSentOk(s0, 0);
    var course := Reaches(s0, 0, 254);
    var s := Run(s0, course);
    JustSentOk(s, 254);
    LostAckStalls(s);
    steps := course + [Deliver, TxTimeout];
    RunAppend(s0, course, [Deliver, TxTimeout]);
    TwoSteps(s, Deliver, TxTimeout);
    var s2 := Run(s0, steps);
    forall more ensures var e := Run(s2, more); e.tx.pc.TxDone? ==> e.tx.pc.code < 0 {
      NoProgress(s2, 254, more);
    }
  }

  lemma JustSentOk(s: Sys, n: nat)
    requires JustSent(s, n)
    ensures TxOk(s.tx)
  {}

  lemma TwoSteps(s: Sys, a: Step, b: Step)
    requires TxOk(s.tx)
    ensures TxOk(Next(s, a).tx) && Run(s, [a, b]) == Next(Next(s, a), b)
  {
    hide Next;
    NextOk(s, a);
    NextOk(Next(s, a), b);
    assert [a, b][1..] == [b] && [b][1..] == [];
    assert Run(s, [a, b]) == Run(Next(s, a), [b]) == Run(Next(Next(s, a), b), []);
  }
}
