/** Where sender and receiver give up: on a silent line, and on too many repetitions of one block. */
module XmodemLimits {
  import opened Xmodem
  import opened XmodemIo
  import opened XmodemSend
  import opened XmodemProtocol
  import opened XmodemSafety

  function Silence(n: nat): (ins: seq<In>)
    ensures |ins| == n
  {
    seq(n, _ => Timeout)
  }

  lemma SilenceSnoc(n: nat)
    ensures Silence(n + 1) == Silence(n) + [Timeout]
  {}

  lemma RepeatSnoc(b: bv8, n: nat)
    ensures Repeat(b, n + 1) == Repeat(b, n) + [b]
  {}

  // ----- Nobody sends

  // A receiver waiting in one mode, its first prompt sent, sends one more for each timeout.
  lemma {:induction false} Prompts(init: Rx, ins: seq<In>, r: Rx, n: nat)
    requires r.trychar != 0 && n < 16 && RxRun(init, ins) == Prompt(r, 0)
    ensures RxRun(init, ins + Silence(n)) == Prompt(r.(out := r.out + Repeat(r.trychar, n)), n)
  {
    hide RxRun, RxNext, Listen, Repeat;
    if n == 0 {
      assert ins + Silence(0) == ins;
      assert r.out + Repeat(r.trychar, 0) == r.out by { assert Repeat(r.trychar, 0) == []; }
    } else {
      Prompts(init, ins, r, n - 1);
      var before := Prompt(r.(out := r.out + Repeat(r.trychar, n - 1)), n - 1);
      SilenceSnoc(n - 1);
      RxStep(init, ins + Silence(n - 1), Timeout);
      assert ins + Silence(n - 1) + [Timeout] == ins + Silence(n);
      RxNextInWait(before, Timeout);
      RepeatSnoc(r.trychar, n - 1);
      assert r.out + Repeat(r.trychar, n - 1) + [r.trychar] == r.out + Repeat(r.trychar, n);
      ListenIgnores(r.(out := before.out), RxWait, n - 1, n);
      assert before == r.(out := before.out, pc := RxWait, retry := n - 1);
      PromptIs(r.(out := before.out), n);
    }
  }

  lemma PromptIs(r: Rx, n: nat)
    requires r.trychar != 0
    ensures Prompt(r, n) == r.(pc := RxWait, retry := n, out := r.out + [r.trychar])
  {}

  // Sixteen timeouts use up a mode.
  lemma ModeEnds(init: Rx, ins: seq<In>, r: Rx)
    requires r.trychar != 0 && RxRun(init, ins) == Prompt(r, 0)
    ensures RxRun(init, ins + Silence(16)) == Listen(r.(out := r.out + Repeat(r.trychar, 16)), 16)
  {
    hide RxRun, RxNext, Listen, Repeat;
    Prompts(init, ins, r, 15);
    var before := Prompt(r.(out := r.out + Repeat(r.trychar, 15)), 15);
    PromptIs(r.(out := r.out + Repeat(r.trychar, 15)), 15);
    SilenceSnoc(15);
    RxStep(init, ins + Silence(15), Timeout);
    assert ins + Silence(15) + [Timeout] == ins + Silence(16);
    RxNextInWait(before, Timeout);
    RepeatSnoc(r.trychar, 15);
    assert r.out + Repeat(r.trychar, 15) + [r.trychar] == r.out + Repeat(r.trychar, 16);
    ListenIgnores(r.(out := before.out), RxWait, 15, 16);
  }

  // What a receiver prompts for, from the mode it is in down to checksums.
  function AllPrompts(trychar: bv8): seq<bv8> {
    Repeat(trychar, 16) +
    if trychar == CHAR_G then Repeat(CHAR_C, 16) + Repeat(NAK, 16)
    else if trychar == CHAR_C then Repeat(NAK, 16) else []
  }

  function ModesLeft(trychar: bv8): nat { if trychar == CHAR_G then 3 else if trychar == CHAR_C then 2 else 1 }

  lemma NoMoreModes(init: Rx, ins: seq<In>, r: Rx)
    requires r.trychar == NAK && RxRun(init, ins) == Prompt(r, 0)
    ensures RxRun(init, ins + Silence(17)) ==
            r.(pc := RxDone(-2), retry := 0, out := r.out + Repeat(NAK, 16) + CANS)
  {
    hide RxRun, RxNext, Listen, Prompt, Repeat;
    ModeEnds(init, ins, r);
    GaveUp(r.(out := r.out + Repeat(NAK, 16)));
    RxStep(init, ins + Silence(16), Timeout);
    SilenceSnoc(16);
    assert ins + Silence(16) + [Timeout] == ins + Silence(17);
    RxNextInFlush(RxRun(init, ins + Silence(16)), Timeout);
  }

  // A silent line, from any mode on: sixteen prompts for each mode left, then the cancellation.
  lemma {:induction false} SilentFrom(init: Rx, ins: seq<In>, r: Rx)
    requires (r.trychar == CHAR_G || r.trychar == CHAR_C || r.trychar == NAK) && RxRun(init, ins) == Prompt(r, 0)
    ensures var e := RxRun(init, ins + Silence(16 * ModesLeft(r.trychar) + 1));
            e.pc == RxDone(-2) && e.stored == r.stored && e.out == r.out + AllPrompts(r.trychar) + CANS
    decreases ModesLeft(r.trychar)
  {
    hide RxRun, RxNext, Listen, Prompt, Repeat;
    if r.trychar == NAK {
      NoMoreModes(init, ins, r);
      assert AllPrompts(NAK) == Repeat(NAK, 16) + [] == Repeat(NAK, 16);
    } else {
      ModeEnds(init, ins, r);
      var spent := r.(out := r.out + Repeat(r.trychar, 16));
      GaveUp(spent);
      var next := if r.trychar == CHAR_G then spent.(trychar := CHAR_C, crc := 1) else spent.(trychar := NAK, crc := 0);
      ListenIgnores(next, next.pc, next.retry, 0);
      SilentFrom(init, ins + Silence(16), next);
      SilenceSum(16, 16 * ModesLeft(next.trychar) + 1);
      assert ins + Silence(16) + Silence(16 * ModesLeft(next.trychar) + 1) ==
          ins + Silence(16 * ModesLeft(r.trychar) + 1);
      assert r.out + Repeat(r.trychar, 16) + AllPrompts(next.trychar) == r.out + AllPrompts(r.trychar) by {
        PromptsSplit(r.trychar);
      }
    }
  }

  lemma SilenceSum(m: nat, n: nat)
    ensures Silence(m) + Silence(n) == Silence(m + n)
  {}

  lemma PromptsSplit(trychar: bv8)
    ensures trychar == CHAR_G ==> AllPrompts(trychar) == Repeat(trychar, 16) + AllPrompts(CHAR_C)
    ensures trychar == CHAR_C ==> AllPrompts(trychar) == Repeat(trychar, 16) + AllPrompts(NAK)
  {
    hide Repeat;
    assert AllPrompts(NAK) == Repeat(NAK, 16) + [] == Repeat(NAK, 16);
  }

  // On a silent line a receiver asks sixteen times for each mode from the one wanted down to checksums,
  // cancels and returns the synchronization error, with nothing stored.
  lemma NobodySends(destsz: int, crc: int, mode: bool)
    ensures var r := RxRun(RxInit(destsz, crc, mode), Silence(if crc == 2 then 49 else if crc != 0 then 33 else 17));
            r.pc == RxDone(-2) && r.stored == [] &&
            r.out == (if crc == 2 then Repeat(0x47, 16) else []) + (if crc != 0 then Repeat(0x43, 16) else []) +
                     Repeat(0x15, 16) + [0x18, 0x18, 0x18]
  {
    hide RxRun, RxNext, Listen, Prompt, AllPrompts, Repeat;
    var trychar := if crc == 2 then CHAR_G else if crc != 0 then CHAR_C else NAK;
    var h := Head(destsz, mode, [], if mode then 0 else 1, trychar, crc, MAXRETRANS, []);
    var init := RxInit(destsz, crc, mode);
    EmptyRun(init);
    ListenIgnores(h, RxWait, 0, 0);
    SilentFrom(init, [], h);
    assert [] + Silence(16 * ModesLeft(trychar) + 1) == Silence(16 * ModesLeft(trychar) + 1);
    assert [] + AllPrompts(trychar) == AllPrompts(trychar);
    PromptsInFull(trychar);
  }

  lemma PromptsInFull(trychar: bv8)
    requires trychar == CHAR_G || trychar == CHAR_C || trychar == NAK
    ensures AllPrompts(trychar) == (if trychar == 0x47 then Repeat(0x47, 16) else []) +
                                   (if trychar == 0x15 then [] else Repeat(0x43, 16)) + Repeat(0x15, 16)
  {
    hide Repeat;
    var c, n := Repeat(0x43, 16), Repeat(0x15, 16);
    assert n + [] == n && [] + n == n && [] + [] + n == n && [] + c + n == c + n;
    assert Repeat(0x47, 16) + (c + n) == Repeat(0x47, 16) + c + n;
  }

  // ----- One block over and over

  // The n-fold packet.
  function Copies(p: seq<bv8>, n: nat): seq<bv8> {
    if n == 0 then [] else Copies(p, n - 1) + p
  }

  // A repetition, with the count of repetitions.
  lemma CountedRepetition(r: Rx, no: bv8, data: seq<bv8>)
    requires r.pc == RxWait && !r.mode && r.crc != 2 && BlockSized(data) && r.packetno == NextNo(no) && r.packetno != 0
    ensures var r' := RxRun(r, Bytes(Packet(no, data, r.crc)));
            r'.stored == r.stored && r'.packetno == r.packetno && r'.crc == r.crc && !r'.mode &&
                r'.retrans == r.retrans - 1 &&
            (if r.retrans <= 1 then r'.pc == RxFlush(TooMany) && r'.out == r.out
             else r'.pc == RxWait && r'.out == r.out + [ACK])
  {
    hide *;
    var p := Packet(no, data, r.crc);
    IntactPacket(r.packetno, no, data, r.crc);
    Distinct(no);
    PacketArrives(r, p);
    var r0 := r.(trychar := 0);
    var t := Judged(r0, p);
    StoredIs(r.stored, r.destsz, r.packetno, p, data);
    TakenIs(r0, r.stored, false);
    AcceptedParts(t);
    AcceptedCount(t);
  }

  lemma AcceptedCount(t: Rx)
    ensures Accepted(t).retrans == t.retrans
  {}

  // Repetitions of a block are each acknowledged, up to the 25th without a new block in between: that
  // one makes the receiver give up.
  lemma {:induction false} RepetitionsBounded(r: Rx, no: bv8, data: seq<bv8>, n: nat)
    requires r.pc == RxWait && !r.mode && r.crc != 2 && BlockSized(data) && r.packetno == NextNo(no) && r.packetno != 0
    requires n <= r.retrans == 25
    ensures var r' := RxRun(r, Bytes(Copies(Packet(no, data, r.crc), n)));
            r'.stored == r.stored && r'.packetno == r.packetno && r'.crc == r.crc && !r'.mode &&
            r'.retrans == r.retrans - n &&
            (if n < 25 then r'.pc == RxWait && r'.out == r.out + Repeat(0x06, n)
             else r'.pc == RxFlush(TooMany) && r'.out == r.out + Repeat(0x06, 24))
  {
    hide RxRun, Packet, Bytes, Repeat;
    var p := Packet(no, data, r.crc);
    if n == 0 {
      EmptyRun(r);
      assert Bytes([]) == [] && Repeat(ACK, 0) == [];
      assert r.out + [] == r.out;
    } else {
      RepetitionsBounded(r, no, data, n - 1);
      var s := RxRun(r, Bytes(Copies(p, n - 1)));
      CountedRepetition(s, no, data);
      RunAppend(r, Bytes(Copies(p, n - 1)), Bytes(p));
      BytesAppend(Copies(p, n - 1), p);
      if n < MAXRETRANS {
        RepeatSnoc(ACK, n - 1);
        assert r.out + Repeat(ACK, n - 1) + [ACK] == r.out + Repeat(ACK, n);
      }
    }
  }

  // While number 0 is expected, each repetition is refused, flushed and answered by a NAK, any number of times:
  // the receiver neither counts them nor gives up.
  lemma {:induction false} RepetitionsRefused(r: Rx, no: bv8, data: seq<bv8>, n: nat)
    requires r.pc == RxWait && r.trychar == 0 && BlockSized(data) && NextNo(no) == r.packetno == 0
    ensures var r' := RxRun(r, Refusals(Packet(no, data, r.crc), n));
            r' == r.(retry := r'.retry, out := r.out + Repeat(0x15, n))
  {
    hide RxRun, RxNext, Packet, Bytes, Repeat, Acceptable, Listen, NextNo;
    var p := Packet(no, data, r.crc);
    if n == 0 {
      EmptyRun(r);
      assert Repeat(NAK, 0) == [];
      assert r.out + [] == r.out;
    } else {
      RepetitionsRefused(r, no, data, n - 1);
      var s := RxRun(r, Refusals(p, n - 1));
      OneRefusal(s, no, data);
      RunAppend(r, Refusals(p, n - 1), Bytes(p) + [Timeout]);
      RepeatSnoc(NAK, n - 1);
      assert r.out + Repeat(NAK, n - 1) + [NAK] == r.out + Repeat(NAK, n);
    }
  }

  // n times the packet, each time followed by silence.
  function Refusals(p: seq<bv8>, n: nat): seq<In> {
    if n == 0 then [] else Refusals(p, n - 1) + (Bytes(p) + [Timeout])
  }

  lemma OneRefusal(r: Rx, no: bv8, data: seq<bv8>)
    requires r.pc == RxWait && r.trychar == 0 && BlockSized(data) && NextNo(no) == r.packetno == 0
    ensures RxRun(r, Bytes(Packet(no, data, r.crc)) + [Timeout]) == r.(retry := 0, out := r.out + [NAK])
  {
    hide *;
    var p := Packet(no, data, r.crc);
    IntactPacket(r.packetno, no, data, r.crc);
    Distinct(no);
    PacketArrives(r, p);
    JudgeRejects(r.(trychar := 0), p);
    var f := r.(trychar := 0, pc := RxFlush(Rejected));
    RxStep(r, Bytes(p), Timeout);
    RxNextInFlush(f, Timeout);
    FlushedRejected(f);
    ListenIgnores(f.(out := f.out + [NAK]), f.pc, f.retry, 0);
    SilentPrompt(f.(out := f.out + [NAK]));
  }

  lemma SilentPrompt(r: Rx)
    requires r.trychar == 0
    ensures Prompt(r, 0) == r.(pc := RxWait, retry := 0)
  {
    assert r.out + [] == r.out;
  }

  lemma BytesAppend(a: seq<bv8>, b: seq<bv8>)
    ensures Bytes(a + b) == Bytes(a) + Bytes(b)
  {}

  lemma {:induction false} RunAppend(r: Rx, a: seq<In>, b: seq<In>)
    ensures RxRun(r, a + b) == RxRun(RxRun(r, a), b)
  {
    hide RxNext;
    if b == [] {
      assert a + b == a;
    } else {
      RunAppend(r, a, b[..|b| - 1]);
      assert (a + b)[..|a + b| - 1] == a + b[..|b| - 1];
    }
  }

  // ----- Nobody asks

  lemma {:induction false} Waits(t: Tx, n: nat)
    requires TxOk(t) && t.pc == TxSync && t.retry == 0 && n < 16
    ensures TxRun(t, Silence(n)) == t.(retry := n)
  {
    hide TxRun, TxNext;
    EmptyTxRun(t);
    assert Silence(0) == [];
    if n > 0 {
      Waits(t, n - 1);
      SilenceSnoc(n - 1);
      TxStep(t, Silence(n - 1), Timeout);
      InSync(t.(retry := n - 1), Timeout);
      Waited(t, n - 1);
    }
  }

  // On a silent line a sender waits sixteen times, cancels, and returns without having fetched anything.
  lemma NobodyAsks(src: seq<bv8>, srcsz: int, onek: bool, mode: bool)
    requires srcsz <= |src|
    ensures var t := TxRun(TxInit(src, srcsz, onek, mode), Silence(17)); 
            t.pc == TxDone(-2) && t.acts == [SendCtl([0x18, 0x18, 0x18])]
  {
    hide TxRun, TxNext;
    var t := TxInit(src, srcsz, onek, mode);
    Waits(t, 15);
    SilenceSnoc(15);
    TxStep(t, Silence(15), Timeout);
    InSync(t.(retry := 15), Timeout);
    Waited(t, 15);
    SilenceSnoc(16);
    TxStep(t, Silence(16), Timeout);
    InFlush(TxRun(t, Silence(16)), Timeout);
  }
}
