/** What a receiver may read besides intact packets. The transfer is safe as long as the line does not deceive
    it; broken packets, damaged headers and lone CANs do not, whereas one EOT or two CANs do. */
module XmodemNoise {
  import opened Xmodem
  import opened XmodemIo
  import opened XmodemProtocol
  import opened XmodemSafety

  lemma HarmlessSnoc(r: Rx, ins: seq<In>, c: In)
    ensures Harmless(r, ins + [c]) <==> Harmless(r, ins) && HarmlessNext(RxRun(r, ins), c)
  {
    assert (ins + [c])[..|ins|] == ins;
  }

  lemma NothingHarmless(r: Rx)
    ensures Harmless(r, [])
  {}

  // ----- What does not deceive it

  // A packet, right or wrong in any byte behind its first one, that breaks off or fails the test.
  lemma {:induction false} RefusedPacketHarmless(r: Rx, g: seq<bv8>)
    requires r.pc == RxWait && g != [] && (g[0] == SOH || g[0] == STX) && |g| <= PacketSize(g[0], r.crc)
    requires |g| == PacketSize(g[0], r.crc) ==> !Acceptable(r.packetno, r.crc, g)
    ensures Harmless(r, Bytes(g))
  {
    hide RxRun, Harmless, Acceptable, PacketSize, Bytes, Judge;
    var n := |g| - 1;
    NothingHarmless(r);
    EmptyRun(r);
    HarmlessSnoc(r, [], Byte(g[0]));
    assert [] + [Byte(g[0])] == [Byte(g[0])];
    if n == 0 {
      assert Bytes(g) == [Byte(g[0])] by { OneOf(g[0]); assert g == [g[0]]; }
    } else {
      PacketIsLong(g[0], r.crc);
      RefusedPacketHarmless(r, g[..n]);
      BytesSnoc(g);
      HarmlessSnoc(r, Bytes(g[..n]), Byte(g[n]));
      InsidePacket(r, g[..n]);
      assert g[..n] + [g[n]] == g;
    }
  }

  lemma OneOf(b: bv8)
    ensures Bytes([b]) == [Byte(b)]
  {}

  lemma InsidePacket(r: Rx, g: seq<bv8>)
    requires r.pc == RxWait && g != [] && (g[0] == SOH || g[0] == STX) && |g| < PacketSize(g[0], r.crc)
    ensures RxRun(r, Bytes(g)) == r.(trychar := 0, pc := RxBody(g))
  {
    hide *;
    FirstByte(r, g[0]);
    RxReadsBody(r, [Byte(g[0])], g[0], g[1..]);
    BytesCons(g);
    assert [g[0]] + g[1..] == g;
  }

  // Bytes that are no commands, such as those of a packet whose first byte was damaged to one of them and
  // that holds no command byte elsewhere: any number, at rest.
  lemma {:induction false} PlainHarmless(r: Rx, ins: seq<In>)
    requires AtRest(r) && forall i :: 0 <= i < |ins| ==> NoCommand(ins[i])
    ensures Harmless(r, ins) && AtRest(RxRun(r, ins))
  {
    hide RxRun, RxNext, Harmless;
    if ins == [] {
      NothingHarmless(r);
      EmptyRun(r);
    } else {
      var front, c := ins[..|ins| - 1], ins[|ins| - 1];
      PlainHarmless(r, front);
      assert front + [c] == ins;
      HarmlessSnoc(r, front, c);
      RxStep(r, front, c);
      PlainNext(RxRun(r, front), c);
    }
  }

  lemma PlainNext(r: Rx, c: In)
    requires AtRest(r) && NoCommand(c)
    ensures HarmlessNext(r, c) && AtRest(RxNext(r, c))
  {}

  // A CAN is harmless until a second one follows.
  lemma LoneCanHarmless(r: Rx, c: In)
    requires r.pc == RxWait
    ensures Harmless(r, [Byte(CAN)] + [c]) <==> c != Byte(CAN)
  {
    hide RxRun, RxNext;
    NothingHarmless(r);
    EmptyRun(r);
    assert [] + [Byte(CAN)] == [Byte(CAN)];
    HarmlessSnoc(r, [], Byte(CAN));
    HarmlessSnoc(r, [Byte(CAN)], c);
    RxStep(r, [], Byte(CAN));
    RxNextInWait(r, Byte(CAN));
  }

  // ----- What does

  // One EOT where the receiver waits for a packet -- noise, or a payload byte behind a lost header -- ends
  // the transfer normally with whatever is stored, and is acknowledged.
  lemma EotDeceives(r: Rx)
    requires r.pc == RxWait
    ensures !Harmless(r, [Byte(EOT)])
    ensures RxRun(r, [Byte(EOT)]) == r.(pc := RxDone(|r.stored|), out := r.out + [ACK])
  {
    hide RxRun, RxNext, Listen;
    EmptyRun(r);
    assert [] + [Byte(EOT)] == [Byte(EOT)];
    HarmlessSnoc(r, [], Byte(EOT));
    RxStep(r, [], Byte(EOT));
    RxNextInWait(r, Byte(EOT));
  }

  // So does an EOT in a packet whose first byte was damaged to a byte that is no command, for the second
  // byte on: here it stands at once behind that byte.
  lemma DamagedHeaderDeceives(r: Rx, b: bv8)
    requires r.pc == RxWait && r.retry + 1 < 16 && NoCommand(Byte(b))
    ensures var r' := RxRun(r, [Byte(b)] + [Byte(EOT)]); r'.pc == RxDone(|r.stored|) && r'.stored == r.stored
  {
    hide RxRun, RxNext, Listen;
    EmptyRun(r);
    assert [] + [Byte(b)] == [Byte(b)];
    RxStep(r, [], Byte(b));
    RxNextInWait(r, Byte(b));
    ListenIgnores(r, r.pc, r.retry, r.retry + 1);
    RxStep(r, [Byte(b)], Byte(EOT));
    RxNextInWait(RxRun(r, [Byte(b)]), Byte(EOT));
  }

  // Two CANs and silence make it return, with an ACK that the sender may take for that of its block.
  lemma CancelDeceives(r: Rx)
    requires r.pc == RxWait
    ensures RxRun(r, [Byte(CAN)] + [Byte(CAN)] + [Timeout]) == r.(pc := RxDone(-1), out := r.out + [ACK])
  {
    hide RxRun, RxNext, Listen;
    EmptyRun(r);
    assert [] + [Byte(CAN)] == [Byte(CAN)];
    RxStep(r, [], Byte(CAN));
    RxNextInWait(r, Byte(CAN));
    RxStep(r, [Byte(CAN)], Byte(CAN));
    RxNextInCan(r.(pc := RxCan), Byte(CAN));
    RxStep(r, [Byte(CAN)] + [Byte(CAN)], Timeout);
    RxNextInFlush(r.(pc := RxFlush(Cancelled)), Timeout);
  }
}
