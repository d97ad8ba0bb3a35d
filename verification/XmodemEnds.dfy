/** Why a transfer ends, by what was read: either side is cancelled by two CANs in a row and by nothing less,
    and a receiver ends normally on EOT only, or after its first packet in mode 1. */
module XmodemEnds {
  import opened Xmodem
  import opened XmodemSend
  import opened XmodemIo

  // Some two inputs in a row are CANs.
  predicate TwoCans(ins: seq<In>) {
    exists i :: 0 < i < |ins| && ins[i - 1] == Byte(0x18) && ins[i] == Byte(0x18)
  }

  predicate LastIs(ins: seq<In>, b: bv8) { ins != [] && ins[|ins| - 1] == Byte(b) }

  lemma OneMoreInput(ins: seq<In>, c: In)
    ensures LastIs(ins + [c], 0x18) <==> c == Byte(0x18)
    ensures TwoCans(ins + [c]) <==> TwoCans(ins) || (LastIs(ins, 0x18) && c == Byte(0x18))
  {
    var more := ins + [c];
    assert forall i :: 0 <= i < |ins| ==> more[i] == ins[i];
    if TwoCans(more) {
      var i :| 0 < i < |more| && more[i - 1] == Byte(0x18) && more[i] == Byte(0x18);
      assert i < |ins| ==> ins[i - 1] == Byte(0x18) && ins[i] == Byte(0x18);
    }
    if TwoCans(ins) {
      var i :| 0 < i < |ins| && ins[i - 1] == Byte(0x18) && ins[i] == Byte(0x18);
      assert more[i - 1] == Byte(0x18) && more[i] == Byte(0x18);
    }
    if LastIs(ins, 0x18) && c == Byte(0x18) { assert more[|ins| - 1] == Byte(0x18) && more[|ins|] == Byte(0x18); }
  }

  // ----- The sender

  predicate TxCancelled(t: Tx) { t.pc == TxFlush(-1) || t.pc == TxDone(-1) }

  predicate TxHeard(t: Tx, ins: seq<In>) {
    && (t.pc == TxSyncCan || t.pc == TxReplyCan ==> LastIs(ins, 0x18))
    && (TxCancelled(t) ==> TwoCans(ins))
  }

  lemma {:induction false} StartTransGoesOn(t: Tx)
    requires TxOk(t)
    ensures var t' := StartTrans(t); t'.pc == TxReply || t'.pc == TxEot || (t'.pc.TxDone? && t'.pc.code >= 0)
    decreases t.srcsz - t.len
  {
    hide Packet, Block, Chunk;
    if t.len < t.srcsz && t.crc == 2 {
      var block := Block(t.src, t.srcsz, t.onek, t.mode, t.len);
      StartTransGoesOn(Advance(SendBlock(Did(t.(block := block), Fetch(Chunk(t.src, t.srcsz, t.onek, t.len))), 0)));
    }
  }

  lemma TxNextHeard(t: Tx, ins: seq<In>, c: In)
    requires TxOk(t) && TxHeard(t, ins)
    ensures TxHeard(TxNext(t, c), ins + [c])
  {
    hide StartTrans, Packet, TwoCans, LastIs;
    OneMoreInput(ins, c);
    if t.pc == TxSync && c == Byte(CHAR_G) { StartTransGoesOn(t.(crc := 2)); }
    if t.pc == TxSync && c == Byte(CHAR_C) { StartTransGoesOn(t.(crc := 1)); }
    if t.pc == TxSync && c == Byte(NAK) { StartTransGoesOn(t.(crc := 0)); }
    if t.pc == TxReply && c == Byte(ACK) { StartTransGoesOn(Advance(t)); }
  }

  // The sender returns -1 only if it has read two CANs in a row.
  lemma {:induction false} SenderCancelled(src: seq<bv8>, srcsz: int, onek: bool, mode: bool, ins: seq<In>)
    requires srcsz <= |src|
    ensures var m := TxRun(TxInit(src, srcsz, onek, mode), ins);
            TxHeard(m, ins) && (m.pc == TxDone(-1) ==> TwoCans(ins))
  {
    hide TxNext, TxHeard, TwoCans;
    var init := TxInit(src, srcsz, onek, mode);
    if ins == [] {
      assert TxHeard(init, ins) by { NothingHeard(init); }
    } else {
      var n := |ins| - 1;
      SenderCancelled(src, srcsz, onek, mode, ins[..n]);
      TxNextHeard(TxRun(init, ins[..n]), ins[..n], ins[n]);
      assert ins[..n] + [ins[n]] == ins;
    }
    assert TxCancelled(TxRun(init, ins)) ==> TwoCans(ins) by { Heard(TxRun(init, ins), ins); }
  }

  lemma NothingHeard(t: Tx)
    requires t.pc == TxSync
    ensures TxHeard(t, [])
  {}

  lemma Heard(t: Tx, ins: seq<In>)
    requires TxHeard(t, ins)
    ensures TxCancelled(t) ==> TwoCans(ins)
  {}

  // And it always does then: wherever it waits for a prompt or a reply, it answers ACK and returns -1 after
  // the next silence, with nothing else sent or fetched.
  lemma SenderObeys(t: Tx)
    requires TxOk(t) && (t.pc == TxSync || t.pc == TxReply)
    ensures TxRun(t, [Byte(0x18), Byte(0x18), Timeout]) == t.(pc := TxDone(-1), acts := t.acts + [SendCtl([0x06])])
  {
    hide StartTrans, SendBlock, TxRun;
    var a, b := Byte(0x18), Byte(0x18);
    EmptyTxRun(t);
    TxStep(t, [], a);
    TxStep(t, [a], b);
    TxStep(t, [a, b], Timeout);
    assert [] + [a] == [a] && [a] + [b] == [a, b] && [a, b] + [Timeout] == [a, b, Timeout];
  }

  // ----- The receiver

  predicate RxHeard(r: Rx, ins: seq<In>) {
    && (r.pc == RxCan ==> LastIs(ins, 0x18))
    && (r.pc == RxFlush(Cancelled) || r.pc == RxDone(-1) ==> TwoCans(ins))
    && (r.pc.RxDone? && r.pc.code >= 0 ==> r.pc.code == |r.stored| && (r.mode || Byte(0x04) in ins))
    && (r.pc.RxDone? && r.pc.code < 0 ==> Timeout in ins && r.pc.code in {-1, -2, -3})
  }

  lemma RxNextHeard(r: Rx, ins: seq<In>, c: In)
    requires RxHeard(r, ins)
    ensures RxHeard(RxNext(r, c), ins + [c])
  {
    hide TwoCans, LastIs, Acceptable, StoredAfter, PacketSize;
    OneMoreInput(ins, c);
    assert c in ins + [c];
    assert forall x :: x in ins ==> x in ins + [c];
  }

  // The receiver returns -1 only if it has read two CANs in a row, and the number of stored bytes only if it
  // has read EOT, or a packet in mode 1; the errors are -1, -2 and -3, each behind a silence.
  lemma {:induction false} ReceiverEnds(destsz: int, crc: int, mode: bool, ins: seq<In>)
    ensures RxHeard(RxRun(RxInit(destsz, crc, mode), ins), ins)
  {
    hide RxNext, RxHeard;
    if ins == [] {
      assert RxHeard(RxInit(destsz, crc, mode), ins) by { NothingRead(destsz, crc, mode); }
    } else {
      var n := |ins| - 1;
      ReceiverEnds(destsz, crc, mode, ins[..n]);
      RxNextHeard(RxRun(RxInit(destsz, crc, mode), ins[..n]), ins[..n], ins[n]);
      assert ins[..n] + [ins[n]] == ins;
    }
  }

  lemma NothingRead(destsz: int, crc: int, mode: bool)
    ensures RxHeard(RxInit(destsz, crc, mode), [])
  {}
}
