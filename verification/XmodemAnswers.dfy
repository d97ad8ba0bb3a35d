/** What the sender makes of answers, in every order: how often it repeats a prompt's wait, a block and EOT
    before it gives up, what ends its flush, and that mode G needs no answers. */
module XmodemAnswers {
  import opened Xmodem
  import opened XmodemSend
  import opened XmodemIo
  import opened XmodemPacing
  import opened XmodemWire

  // ----- Answers that are none

  // What neither acknowledges nor cancels: anything but ACK and CAN, or one CAN and something else.
  predicate Refusal(x: seq<In>) {
    (|x| == 1 && x[0] != Byte(0x06) && x[0] != Byte(0x18)) || (|x| == 2 && x[0] == Byte(0x18) && x[1] != Byte(0x18))
  }

  // What neither asks for a transfer nor cancels it.
  predicate NoPrompt(x: seq<In>) {
    (|x| == 1 && x[0] !in {Byte(0x47), Byte(0x43), Byte(0x15), Byte(0x18)}) ||
    (|x| == 2 && x[0] == Byte(0x18) && x[1] != Byte(0x18))
  }

  function Concat(xs: seq<seq<In>>): seq<In> {
    if xs == [] then [] else Concat(xs[..|xs| - 1]) + xs[|xs| - 1]
  }

  function Times(a: Act, n: nat): seq<Act> { if n == 0 then [] else Times(a, n - 1) + [a] }

  lemma OneOrTwo(t: Tx, ins: seq<In>, x: seq<In>)
    requires TxOk(t) && 1 <= |x| <= 2
    ensures TxRun(t, ins + x) ==
            if |x| == 1 then TxNext(TxRun(t, ins), x[0]) else TxNext(TxRun(t, ins + [x[0]]), x[1])
    ensures TxRun(t, ins + [x[0]]) == TxNext(TxRun(t, ins), x[0])
  {
    hide TxRun, TxNext;
    TxStep(t, ins, x[0]);
    if |x| == 1 {
      assert x == [x[0]];
    } else {
      TxStep(t, ins + [x[0]], x[1]);
      assert ins + x == ins + [x[0]] + [x[1]];
    }
  }

  // ----- A block

  lemma OneRefusal(t: Tx, x: seq<In>)
    requires TxOk(t) && t.pc == TxReply && Refusal(x)
    ensures TxRun(t, x) == Resend(t)
  {
    hide TxRun, TxNext, Resend, StartTrans;
    EmptyTxRun(t);
    OneOrTwo(t, [], x);
    assert [] + x == x && [] + [x[0]] == [x[0]];
    InReply(t, x[0]);
    if |x| == 2 {
      InReplyCan(t.(pc := TxReplyCan), x[1]);
      ResendIgnoresPc(t);
    }
  }

  lemma ResendIgnoresPc(t: Tx)
    ensures Resend(t.(pc := TxReplyCan)) == Resend(t)
  {
    hide Packet;
  }

  lemma {:induction false} RunConcat(t: Tx, a: seq<In>, b: seq<In>)
    requires TxOk(t)
    ensures TxRun(t, a + b) == TxRun(TxRun(t, a), b)
  {
    hide TxNext;
    if b == [] {
      assert a + b == a;
    } else {
      RunConcat(t, a, b[..|b| - 1]);
      assert (a + b)[..|a + b| - 1] == a + b[..|b| - 1];
    }
  }

  // A block that is refused n times is sent n more times, and given up at the 25th refusal.
  lemma {:induction false} RefusedBlock(t: Tx, xs: seq<seq<In>>)
    requires TxOk(t) && t.pc == TxReply && t.retry == 0 && |xs| <= 25
    requires forall i :: 0 <= i < |xs| ==> Refusal(xs[i])
    ensures var m := TxRun(t, Concat(xs)); var a := Send(Packet(t.packetno, t.block, t.crc));
            if |xs| < 25 then m == t.(retry := |xs|, acts := t.acts + Times(a, |xs|))
            else m == t.(retry := 24, acts := t.acts + Times(a, 24) + [SendCtl([0x18, 0x18, 0x18])], pc := TxFlush(-4))
  {
    hide TxRun, TxNext, Refusal, Packet;
    if xs == [] {
      EmptyTxRun(t);
      assert t.acts + [] == t.acts;
    } else {
      var n := |xs| - 1;
      RefusedBlock(t, xs[..n]);
      RunConcat(t, Concat(xs[..n]), xs[n]);
      OneRefusal(TxRun(t, Concat(xs[..n])), xs[n]);
    }
  }

  // ----- EOT

  // EOT that is not acknowledged n times is sent n more times, and given up at the tenth.
  lemma {:induction false} RefusedEot(t: Tx, ins: seq<In>)
    requires TxOk(t) && t.pc == TxEot && t.retry == 0 && |ins| <= 10
    requires forall i :: 0 <= i < |ins| ==> ins[i] != Byte(0x06)
    ensures var m := TxRun(t, ins);
            if |ins| < 10 then m == t.(retry := |ins|, acts := t.acts + Times(SendEot, |ins|))
            else m == t.(retry := 9, acts := t.acts + Times(SendEot, 9), pc := TxFlush(-5))
  {
    hide TxRun, TxNext;
    if ins == [] {
      EmptyTxRun(t);
      assert t.acts + [] == t.acts;
    } else {
      var n := |ins| - 1;
      RefusedEot(t, ins[..n]);
      TxStep(t, ins[..n], ins[n]);
      assert ins[..n] + [ins[n]] == ins;
      InEot(TxRun(t, ins[..n]), ins[n]);
    }
  }

  // ----- The prompt

  lemma OneWait(t: Tx, x: seq<In>)
    requires TxOk(t) && t.pc == TxSync && NoPrompt(x)
    ensures TxRun(t, x) == SyncRetry(t)
  {
    hide TxRun, TxNext, SyncRetry, StartTrans;
    EmptyTxRun(t);
    OneOrTwo(t, [], x);
    assert [] + x == x && [] + [x[0]] == [x[0]];
    InSync(t, x[0]);
    if |x| == 2 {
      InSyncCan(t.(pc := TxSyncCan), x[1]);
      SyncIgnoresPc(t);
    }
  }

  lemma SyncIgnoresPc(t: Tx)
    ensures SyncRetry(t.(pc := TxSyncCan)) == SyncRetry(t)
  {}

  // Without a prompt the sender waits sixteen times, and then gives up without having fetched anything.
  lemma {:induction false} NotPrompted(t: Tx, xs: seq<seq<In>>)
    requires TxOk(t) && t.pc == TxSync && t.retry == 0 && |xs| <= 16
    requires forall i :: 0 <= i < |xs| ==> NoPrompt(xs[i])
    ensures var m := TxRun(t, Concat(xs));
            if |xs| < 16 then m == t.(retry := |xs|)
            else m == t.(retry := 15, acts := t.acts + [SendCtl([0x18, 0x18, 0x18])], pc := TxFlush(-2))
  {
    hide TxRun, TxNext, NoPrompt;
    if xs == [] {
      EmptyTxRun(t);
    } else {
      var n := |xs| - 1;
      NotPrompted(t, xs[..n]);
      RunConcat(t, Concat(xs[..n]), xs[n]);
      OneWait(TxRun(t, Concat(xs[..n])), xs[n]);
    }
  }

  // ----- Flushing

  // A sender that has given up or was cancelled reads on until a silence, and then returns its code.
  lemma FlushEnds(t: Tx, noise: seq<bv8>)
    requires TxOk(t) && t.pc.TxFlush?
    ensures TxRun(t, Bytes(noise)) == t && TxRun(t, Bytes(noise) + [Timeout]) == t.(pc := TxDone(t.pc.code))
  {
    hide TxRun, TxNext, Bytes;
    EmptyTxRun(t);
    TxFlushes(t, [], noise);
    assert [] + Bytes(noise) == Bytes(noise);
  }

  // ----- Mode G

  // Without waiting for answers: all packets from the present one on, each once.
  lemma {:induction false} Streams(t: Tx, n: nat)
    requires Before(t) && !t.mode && t.crc == 2 && Fetches(t.acts) == n
    requires t.packetno == Nth(1, n) && LineFor(LineOf(t.acts), t.src, t.srcsz, t.onek, false, 2, n)
    ensures var m := StartTrans(t);
            m.pc == TxEot && m.retry == 0 && m.len == Length(t.srcsz, t.onek) && LineOf(m.acts) != [] &&
            var line := LineOf(m.acts);
            line[|line| - 1] == 0x04 &&
            LineFor(line[..|line| - 1], t.src, t.srcsz, t.onek, false, 2, Packets(t.srcsz, t.onek))
    decreases t.srcsz - t.len
  {
    hide PacketFor, LineFor, LineOf, Fetches, Packets, Length, Packet, Block, Chunk, Nth, Padded, Consecutive,
        StartTrans;
    if t.len < t.srcsz {
      var a := NextPiece(t, n);
      Streams(a, n + 1);
    } else {
      StreamEnds(t);
    }
  }

  lemma StreamEnds(t: Tx)
    requires Before(t) && !t.mode && t.len >= t.srcsz
    ensures StartTrans(t) == Did(t, SendEot).(pc := TxEot, retry := 0) && Complete(t)
    ensures LineOf(StartTrans(t).acts) == LineOf(t.acts) + [0x04]
  {
    hide Consecutive, Fetches, Packets, Length;
    Started(t);
    assert Did(t, SendEot).acts[..|t.acts|] == t.acts;
  }

  // One packet more, and on to the next piece.
  lemma NextPiece(t: Tx, n: nat) returns (a: Tx)
    requires Before(t) && !t.mode && t.crc == 2 && Fetches(t.acts) == n && t.len < t.srcsz
    requires t.packetno == Nth(1, n) && LineFor(LineOf(t.acts), t.src, t.srcsz, t.onek, false, 2, n)
    ensures Before(a) && StartTrans(t) == StartTrans(a) && a.len > t.len && SameCall(t, a) && a.crc == 2
    ensures Fetches(a.acts) == n + 1 && a.packetno == Nth(1, n + 1)
    ensures LineFor(LineOf(a.acts), a.src, a.srcsz, a.onek, false, 2, n + 1)
  {
    hide PacketFor, LineFor, Packets, Length, Packet, StartTrans, Padded;
    Started(t);
    var b := Did(t.(block := Block(t.src, t.srcsz, t.onek, t.mode, t.len)),
                 Fetch(Chunk(t.src, t.srcsz, t.onek, t.len)));
    var s := Send(Packet(b.packetno, b.block, b.crc));
    a := Advance(SendBlock(b, 0));
    PieceFetched(t);
    ActKeeps(b, s);
    PieceDone(SendBlock(b, 0));
    BlockIsPadded(t);
    Snoc(t.acts, Fetch(Chunk(t.src, t.srcsz, t.onek, t.len)));
    PieceIs(t);
    XmodemWire.PacketIs(t.src, t.srcsz, t.onek, false, 2, n);
    OnePacketMore(LineOf(t.acts), s.bytes, t.src, t.srcsz, t.onek, false, 2, n);
    LineSnoc(t.acts, Fetch(Chunk(t.src, t.srcsz, t.onek, t.len)), s);
  }

  lemma PieceIs(t: Tx)
    requires Before(t) && t.len < t.srcsz
    ensures var at := Step(t.onek) * Fetches(t.acts);
            at == t.len && Chunk(t.src, t.srcsz, t.onek, t.len) == t.src[at..Min(at + Step(t.onek), t.srcsz)]
  {}

  lemma LineSnoc(acts: seq<Act>, f: Act, s: Act)
    requires f.Fetch? && s.Send?
    ensures LineOf(acts + [f] + [s]) == LineOf(acts) + s.bytes
  {
    assert (acts + [f])[..|acts|] == acts && (acts + [f] + [s])[..|acts| + 1] == acts + [f];
    assert LineOf(acts) + [] == LineOf(acts);
  }

  // Prompted for mode G, the sender puts all packets of the source on the line at once, with CRCs, then EOT; one
  // ACK, that of EOT, makes it return their length.
  lemma StreamTransmission(src: seq<bv8>, srcsz: int, onek: bool)
    requires srcsz <= |src|
    ensures var m := TxRun(TxInit(src, srcsz, onek, false), [Byte(0x47), Byte(0x06)]);
            m.pc == TxDone(Length(srcsz, onek)) && LineOf(m.acts) != [] &&
            var line := LineOf(m.acts);
            line[|line| - 1] == 0x04 && LineFor(line[..|line| - 1], src, srcsz, onek, false, 2, Packets(srcsz, onek))
  {
    hide TxRun, TxNext, StartTrans, LineFor, Packets, Length;
    var t := TxInit(src, srcsz, onek, false);
    EmptyTxRun(t);
    TxStep(t, [], Byte(0x47));
    TxStep(t, [Byte(0x47)], Byte(0x06));
    assert [] + [Byte(0x47)] == [Byte(0x47)] && [Byte(0x47)] + [Byte(0x06)] == [Byte(0x47), Byte(0x06)];
    InSync(t, Byte(0x47));
    StartOfStream(t);
    Streams(t.(crc := 2), 0);
    InEot(StartTrans(t.(crc := 2)), Byte(0x06));
  }

  lemma StartOfStream(t: Tx)
    requires TxOk(t) && t.acts == [] && t.len == 0 && !t.mode && t.packetno == 1
    ensures var s := t.(crc := 2);
            Before(s) && Fetches(s.acts) == 0 && s.packetno == Nth(1, 0) &&
            LineFor(LineOf(s.acts), s.src, s.srcsz, s.onek, false, 2, 0)
  {}
}
