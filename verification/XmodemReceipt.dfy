/** What the receiver does with whole packets, field by field, in every mode: with the one it expects, with
    the one before, and with any other; what ends a flush; and how it falls back to simpler modes. */
module XmodemReceipt {
  import opened Xmodem
  import opened XmodemIo
  import opened XmodemProtocol
  import opened XmodemSafety
  import opened XmodemLimits
  import XmodemAnswers

  // How many bytes of a block a destination of destsz bytes still takes.
  function Room(destsz: int, stored: nat, size: nat): nat {
    if destsz <= stored then 0 else if destsz - stored < size then destsz - stored else size
  }

  // The receiver once the expected block is stored.
  function Next(r: Rx, data: seq<bv8>): Rx {
    var stored := r.stored + data[..Room(r.destsz, |r.stored|, |data|)];
    r.(trychar := 0, retry := 0, stored := stored, packetno := r.packetno + 1, retrans := 25,
       out := r.out + if r.crc == 2 then [] else [0x06], pc := if r.mode then RxDone(|stored|) else RxWait)
  }

  // The receiver once the repetition of a block is dealt with.
  function Again(r: Rx): Rx {
    var r' := r.(trychar := 0, retrans := r.retrans - 1);
    if r'.retrans <= 0 then r'.(pc := RxFlush(TooMany))
    else r'.(out := r.out + (if r.crc == 2 then [] else [0x06]), pc := if r.mode then RxDone(|r.stored|) else RxWait,
             retry := if r.mode then r.retry else 0)
  }

  lemma StoreIs(stored: seq<bv8>, destsz: int, data: seq<bv8>)
    ensures Store(stored, destsz, data) == stored + data[..Room(destsz, |stored|, |data|)]
  {}

  // An intact packet, in any mode: the expected one is stored as far as it fits, counted and acknowledged; the
  // one before, if it is not number 0 that is expected, is acknowledged unless it is the 25th in a row; any
  // other is refused.
  lemma PacketReceived(r: Rx, no: bv8, data: seq<bv8>)
    requires r.pc == RxWait && BlockSized(data)
    ensures var r' := RxRun(r, Bytes(Packet(no, data, r.crc)));
            if no == r.packetno then r' == Next(r, data).(retry := r'.retry) && (!r.mode ==> r'.retry == 0)
            else if no + 1 == r.packetno && r.packetno != 0 then r' == Again(r)
            else r' == r.(trychar := 0, pc := RxFlush(Rejected))
  {
    hide *;
    var p := Packet(no, data, r.crc);
    IntactPacket(r.packetno, no, data, r.crc);
    NumberBefore(no, r.packetno);
    PacketArrives(r, p);
    var r0 := r.(trychar := 0);
    JudgeRejects(r0, p);
    if Acceptable(r.packetno, r.crc, p) {
      var t := Judged(r0, p);
      StoredIs(r.stored, r.destsz, r.packetno, p, data);
      TakenIs(r0, StoredAfter(r.stored, r.destsz, r.packetno, p), p[1] == r.packetno);
      StoreIs(r.stored, r.destsz, data);
      AcceptedIs(t);
      if no == r.packetno { NextIs(r, data, t); } else { AgainIs(r, t); }
    }
  }

  lemma NumberBefore(no: bv8, packetno: bv8)
    ensures no == packetno - 1 <==> no + 1 == packetno
  {}

  lemma AcceptedIs(t: Rx)
    requires t.trychar == 0
    ensures Accepted(t) ==
            if t.retrans <= 0 then t.(pc := RxFlush(TooMany))
            else
              var out := t.out + if t.crc == 2 then [] else [0x06];
              if t.mode then t.(pc := RxDone(|t.stored|), out := out) else t.(pc := RxWait, retry := 0, out := out)
  {
    assert forall o: seq<bv8> :: o + [] == o;
  }

  lemma NextIs(r: Rx, data: seq<bv8>, t: Rx)
    requires t == r.(trychar := 0, stored := r.stored + data[..Room(r.destsz, |r.stored|, |data|)],
                     packetno := NextNo(r.packetno), retrans := MAXRETRANS)
    ensures Accepted(t) == Next(r, data).(retry := Accepted(t).retry) && (!r.mode ==> Accepted(t).retry == 0)
  {
    hide Accepted;
    AcceptedIs(t);
  }

  lemma AgainIs(r: Rx, t: Rx)
    requires r.pc == RxWait && t == r.(trychar := 0, retrans := r.retrans - 1)
    ensures Accepted(t) == Again(r)
  {
    hide Accepted;
    AcceptedIs(t);
  }

  // ----- Flushing

  // Whatever bytes come in, the flush goes on until a silence; then the receiver says why it flushed and returns,
  // or asks for the packet again.
  lemma FlushEnds(r: Rx, noise: seq<bv8>)
    requires r.pc.RxFlush?
    ensures RxRun(r, Bytes(noise)) == r
    ensures var r' := RxRun(r, Bytes(noise) + [Timeout]);
            match r.pc.after
            case Cancelled => r' == r.(pc := RxDone(-1), out := r.out + [0x06])
            case NoSync => r' == r.(pc := RxDone(-2), out := r.out + [0x18, 0x18, 0x18])
            case TooMany => r' == r.(pc := RxDone(-3), out := r.out + [0x18, 0x18, 0x18])
            case Rejected =>
              r' == r.(pc := RxWait, retry := 0,
                       out := r.out + [0x15] + if r.trychar != 0 then [r.trychar] else [])
  {
    hide RxRun, RxNext, Bytes;
    EmptyRun(r);
    RxFlushes(r, [], noise);
    assert [] + Bytes(noise) == Bytes(noise);
  }

  // ----- Waiting for a packet

  // What neither starts a packet nor ends or cancels the transfer: a silence, any byte but SOH, STX, EOT and CAN,
  // or one CAN and something else.
  predicate NoStart(x: seq<In>) {
    (|x| == 1 && x[0] !in {Byte(0x01), Byte(0x02), Byte(0x04), Byte(0x18)}) ||
    (|x| == 2 && x[0] == Byte(0x18) && x[1] != Byte(0x18))
  }

  function Prompts(trychar: bv8, n: nat): seq<bv8> { if trychar != 0 then Repeat(trychar, n) else [] }

  lemma PromptsSnoc(trychar: bv8, n: nat)
    ensures Prompts(trychar, n + 1) == Prompts(trychar, n) + if trychar != 0 then [trychar] else []
    ensures Prompts(trychar, 0) == []
  {}

  lemma OneAttempt(r: Rx, x: seq<In>)
    requires r.pc == RxWait && NoStart(x)
    ensures RxRun(r, x) == Listen(r, r.retry + 1)
  {
    hide RxRun, RxNext, Listen;
    EmptyRun(r);
    RxStep(r, [], x[0]);
    assert [] + [x[0]] == [x[0]];
    RxNextInWait(r, x[0]);
    if |x| == 1 {
      assert x == [x[0]];
    } else {
      RxStep(r, [x[0]], x[1]);
      assert x == [x[0]] + [x[1]];
      RxNextInCan(r.(pc := RxCan), x[1]);
      ListenIgnores(r, RxCan, r.retry, r.retry + 1);
      ListenAgain(r, r.retry + 1);
    }
  }

  lemma ListenAgain(r: Rx, n: nat)
    ensures Listen(r.(pc := RxCan), n) == Listen(r, n)
  {}

  // Sixteen such attempts use up a mode; behind G and C comes the next one, behind checksums the end, and so it
  // does in the middle of a transfer, where nothing is prompted for.
  lemma {:induction false} NothingStarts(r: Rx, xs: seq<seq<In>>)
    requires r.pc == RxWait && r.retry == 0 && |xs| <= 16 && forall i :: 0 <= i < |xs| ==> NoStart(xs[i])
    ensures var r' := RxRun(r, XmodemAnswers.Concat(xs));
            if |xs| < 16 then r' == r.(retry := |xs|, out := r.out + Prompts(r.trychar, |xs|))
            else
              var out := r.out + Prompts(r.trychar, 15);
              if r.trychar == 0x47 then r' == r.(trychar := 0x43, crc := 1, out := out + [0x43])
              else if r.trychar == 0x43 then r' == r.(trychar := 0x15, crc := 0, out := out + [0x15])
              else r' == r.(pc := RxFlush(NoSync), out := out)
  {
    hide RxRun, RxNext, Listen, NoStart, Prompts, Repeat;
    PromptsSnoc(r.trychar, 0);
    if xs == [] {
      EmptyRun(r);
      assert r.out + [] == r.out;
    } else {
      var n := |xs| - 1;
      NothingStarts(r, xs[..n]);
      RunAppend(r, XmodemAnswers.Concat(xs[..n]), xs[n]);
      var s := RxRun(r, XmodemAnswers.Concat(xs[..n]));
      OneAttempt(s, xs[n]);
      PromptsSnoc(r.trychar, n);
      Listened(s);
    }
  }

  lemma Listened(s: Rx)
    requires s.pc == RxWait
    ensures var r' := Listen(s, s.retry + 1);
            if s.retry + 1 < 16
            then r' == s.(retry := s.retry + 1, out := s.out + if s.trychar != 0 then [s.trychar] else [])
            else if s.trychar == 0x47 then r' == s.(trychar := 0x43, crc := 1, retry := 0, out := s.out + [0x43])
            else if s.trychar == 0x43 then r' == s.(trychar := 0x15, crc := 0, retry := 0, out := s.out + [0x15])
            else r' == s.(pc := RxFlush(NoSync), retry := 0)
  {}

  // ----- Falling back

  // A receiver that wanted G mode takes CRC packets after sixteen silent waits, and checksum packets after
  // thirty-two; one that wanted CRCs takes checksum packets after sixteen.
  lemma FallsBack(destsz: int, crc: int, mode: bool)
    ensures var r := RxRun(RxInit(destsz, crc, mode), []); r.pc == RxWait && r.crc == crc
    ensures crc == 2 ==>
              var r := RxRun(RxInit(destsz, 2, mode), Silence(16)); r.pc == RxWait && r.crc == 1 && r.stored == []
    ensures crc == 2 ==>
              var r := RxRun(RxInit(destsz, 2, mode), Silence(32)); r.pc == RxWait && r.crc == 0 && r.stored == []
    ensures crc == 1 ==>
              var r := RxRun(RxInit(destsz, 1, mode), Silence(16)); r.pc == RxWait && r.crc == 0 && r.stored == []
  {
    hide RxRun, RxNext, Listen, Prompt, Repeat, AllPrompts;
    var trychar := if crc == 2 then CHAR_G else if crc != 0 then CHAR_C else NAK;
    var h := Head(destsz, mode, [], if mode then 0 else 1, trychar, crc, MAXRETRANS, []);
    var init := RxInit(destsz, crc, mode);
    EmptyRun(init);
    ListenIgnores(h, RxWait, 0, 0);
    PromptKeeps(h);
    if crc == 2 || crc == 1 {
      ModeEnds(init, [], h);
      assert [] + Silence(16) == Silence(16);
      var h1 := Simpler(h.(out := h.out + Repeat(trychar, 16)));
      if crc == 2 {
        ModeEnds(init, Silence(16), h1);
        SilenceSum(16, 16);
        var h2 := Simpler(h1.(out := h1.out + Repeat(CHAR_C, 16)));
      }
    }
  }

  lemma PromptKeeps(r: Rx)
    ensures Prompt(r, 0).pc == RxWait && Prompt(r, 0).crc == r.crc && Prompt(r, 0).stored == r.stored
  {}

  lemma Simpler(r: Rx) returns (r': Rx)
    requires r.trychar == CHAR_G || r.trychar == CHAR_C
    ensures Listen(r, 16) == Prompt(r', 0) && r'.stored == r.stored
    ensures r'.trychar == if r.trychar == CHAR_G then CHAR_C else NAK
    ensures r'.crc == if r.trychar == CHAR_G then 1 else 0
    ensures Listen(r, 16).pc == RxWait && Listen(r, 16).crc == r'.crc && Listen(r, 16).stored == r.stored
  {
    r' := if r.trychar == CHAR_G then r.(trychar := CHAR_C, crc := 1) else r.(trychar := NAK, crc := 0);
  }
}
