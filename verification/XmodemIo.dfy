/** XmodemReceive and XmodemTransmit as loops over a port and a packet buffer. Whatever the line
    delivers, each ends in the final state of its machine, fed with exactly what was read. */
module XmodemIo {
  import opened Xmodem
  import Crc

  const XBUF_SIZE := 1024 + 3 + 2

  // The serial line: what _inbyte will return, then silence; what it has returned; what _outbyte sent.
  class Port {
    var input: seq<In>
    var consumed: seq<In>
    var output: seq<bv8>

    constructor (script: seq<In>)
      ensures input == script && consumed == [] && output == []
    {
      input, consumed, output := script, [], [];
    }

    // The logs belong to one transfer.
    method Open()
      modifies this`consumed, this`output
      ensures consumed == [] && output == []
    {
      consumed, output := [], [];
    }

    method InByte() returns (c: In)
      modifies this`input, this`consumed
      ensures consumed == old(consumed) + [c]
      ensures |input| <= |old(input)|
      ensures c.Byte? ==> |input| < |old(input)|
    {
      if input == [] {
        c := Timeout;
      } else {
        c := input[0];
        input := input[1..];
      }
      consumed := consumed + [c];
    }

    method OutByte(b: bv8)
      modifies this`output
      ensures output == old(output) + [b]
    {
      output := output + [b];
    }

    method Cancel()
      modifies this`output
      ensures output == old(output) + CANS
    {
      OutByte(CAN);
      OutByte(CAN);
      OutByte(CAN);
    }

    method FlushInput() returns (ghost skipped: seq<bv8>)
      modifies this`input, this`consumed
      ensures consumed == old(consumed) + Bytes(skipped) + [Timeout]
      ensures |input| <= |old(input)|
    {
      skipped := [];
      var c := InByte();
      while c.Byte?
        invariant consumed == old(consumed) + Bytes(skipped) + [c]
        invariant |input| <= |old(input)|
        decreases |input|, c.Byte?
      {
        assert Bytes(skipped) + [c] == Bytes(skipped + [c.b]);
        skipped := skipped + [c.b];
        c := InByte();
      }
    }

    // Read n more bytes of a packet behind its first one.
    method ReadBody(xbuff: array<bv8>, n: nat) returns (ok: bool, ghost got: seq<bv8>)
      requires 1 + n <= xbuff.Length
      modifies this`input, this`consumed, xbuff
      ensures consumed == if ok then old(consumed) + Bytes(got) else old(consumed) + Bytes(got) + [Timeout]
      ensures if ok then |got| == n else |got| < n
      ensures xbuff[..1 + |got|] == old(xbuff[..1]) + got
      ensures |input| <= |old(input)|
    {
      got := [];
      var i := 0;
      while i < n
        invariant i == |got| <= n
        invariant consumed == old(consumed) + Bytes(got)
        invariant xbuff[..1 + i] == old(xbuff[..1]) + got
        invariant |input| <= |old(input)|
      {
        var c := InByte();
        if c == Timeout { return false, got; }
        assert Bytes(got) + [c] == Bytes(got + [c.b]);
        xbuff[1 + i] := c.b;
        assert xbuff[..2 + i] == xbuff[..1 + i] + [c.b];
        got := got + [c.b];
        i := i + 1;
      }
      ok := true;
    }
  }

  method CheckBlock(crc: int, buf: seq<bv8>, sz: nat) returns (ok: bool)
    requires sz + (if crc != 0 then 2 else 1) <= |buf|
    ensures ok == Check(crc, buf, sz)
  {
    hide Crc.CrcFrom, Crc.ByteBits;
    if crc != 0 {
      var crc16 := Crc.Crc16Ccitt(buf[..sz]);
      var tcrc := Crc.OfBytes(buf[sz], buf[sz + 1]);
      ok := crc16 == tcrc;
    } else {
      var cks := ChecksumOf(buf[..sz]);
      ok := cks == buf[sz];
    }
  }

  method ChecksumOf(data: seq<bv8>) returns (cks: bv8)
    ensures cks == Checksum(data)
  {
    cks := 0;
    for i := 0 to |data|
      invariant cks == Checksum(data[..i])
    {
      assert data[..i + 1][..i] == data[..i];
      cks := cks + data[i];
    }
    assert data[..|data|] == data;
  }

  // ----- What the machines make of runs of input

  lemma RxStep(r: Rx, ins: seq<In>, c: In)
    ensures RxRun(r, ins + [c]) == RxNext(RxRun(r, ins), c)
  {
    assert (ins + [c])[..|ins|] == ins;
  }

  lemma RxNextInFlush(r: Rx, c: In)
    requires r.pc.RxFlush?
    ensures RxNext(r, c) == if c == Timeout then Flushed(r, r.pc.after) else r
  {}

  lemma RxNextInBody(r: Rx, c: In)
    requires r.pc.RxBody? && r.pc.buf != []
    ensures RxNext(r, c) == if c == Timeout then r.(pc := RxFlush(Rejected))
                            else if |r.pc.buf| + 1 < PacketSize(r.pc.buf[0], r.crc)
                            then r.(pc := RxBody(r.pc.buf + [c.b]))
                            else Judge(r, r.pc.buf + [c.b])
  {}

  lemma BytesSnoc(s: seq<bv8>)
    requires s != []
    ensures Bytes(s) == Bytes(s[..|s| - 1]) + [Byte(s[|s| - 1])]
  {}

  lemma {:induction false} RxFlushes(r: Rx, ins: seq<In>, skipped: seq<bv8>)
    requires RxRun(r, ins).pc.RxFlush?
    ensures RxRun(r, ins + Bytes(skipped)) == RxRun(r, ins)
    ensures RxRun(r, ins + Bytes(skipped) + [Timeout]) == Flushed(RxRun(r, ins), RxRun(r, ins).pc.after)
  {
    hide Flushed, RxNext, RxRun, Bytes;
    RxStep(r, ins + Bytes(skipped), Timeout);
    if skipped == [] {
      assert ins + Bytes(skipped) == ins;
    } else {
      var n := |skipped| - 1;
      RxFlushes(r, ins, skipped[..n]);
      RxStep(r, ins + Bytes(skipped[..n]), Byte(skipped[n]));
      RxNextInFlush(RxRun(r, ins), Byte(skipped[n]));
      BytesSnoc(skipped);
      assert ins + Bytes(skipped[..n]) + [Byte(skipped[n])] == ins + Bytes(skipped);
    }
    RxNextInFlush(RxRun(r, ins), Timeout);
  }

  // The bytes of a packet behind its first one.
  lemma {:induction false} RxReadsBody(r: Rx, ins: seq<In>, first: bv8, got: seq<bv8>)
    requires RxRun(r, ins).pc == RxBody([first])
    requires 1 + |got| <= PacketSize(first, RxRun(r, ins).crc)
    ensures var m := RxRun(r, ins);
            RxRun(r, ins + Bytes(got)) ==
            if 1 + |got| < PacketSize(first, m.crc) then m.(pc := RxBody([first] + got)) else Judge(m, [first] + got)
  {
    hide Judge, RxNext, RxRun, PacketSize, Bytes;
    if got == [] {
      assert ins + Bytes(got) == ins && [first] + got == [first];
      assert PacketSize(first, RxRun(r, ins).crc) > 1 by { PacketIsLong(first, RxRun(r, ins).crc); }
    } else {
      var n := |got| - 1;
      RxReadsBody(r, ins, first, got[..n]);
      var m := RxRun(r, ins).(pc := RxBody([first] + got[..n]));
      RxStep(r, ins + Bytes(got[..n]), Byte(got[n]));
      BytesSnoc(got);
      assert ins + Bytes(got[..n]) + [Byte(got[n])] == ins + Bytes(got);
      assert [first] + got[..n] + [got[n]] == [first] + got;
      RxNextInBody(m, Byte(got[n]));
      JudgeIgnoresPc(RxRun(r, ins), m.pc, [first] + got);
    }
  }

  lemma PacketIsLong(first: bv8, crc: int)
    ensures PacketSize(first, crc) >= 132
  {}

  lemma JudgeIgnoresPc(r: Rx, pc: RxPc, buf: seq<bv8>)
    ensures Judge(r.(pc := pc), buf) == Judge(r, buf)
  {
    hide Acceptable, StoredAfter, Accepted;
    if Acceptable(r.packetno, r.crc, buf) {
      AcceptableSize(r, buf);
      AcceptedIgnoresPc(Taken(r, StoredAfter(r.stored, r.destsz, r.packetno, buf), buf[1] == r.packetno), pc);
    }
  }

  lemma AcceptableSize(r: Rx, buf: seq<bv8>)
    ensures Acceptable(r.packetno, r.crc, buf) ==> 3 + BufSize(buf[0]) < |buf|
  {}

  lemma AcceptedIgnoresPc(r: Rx, pc: RxPc)
    ensures Accepted(r.(pc := pc)) == Accepted(r)
  {
    hide Listen, Reply;
    var a := r.(out := r.out + Reply(r.crc));
    ListenIgnores(a, pc, a.retry, 0);
  }

  // ----- Receive

  // The receiver at the head of its loop.
  function Head(destsz: int, mode: bool, stored: seq<bv8>, packetno: bv8, trychar: bv8, crc: int, retrans: int,
                out: seq<bv8>): Rx {
    Rx(destsz, mode, RxWait, stored, packetno, trychar, crc, 0, retrans, out)
  }

  lemma ListenIgnores(r: Rx, pc: RxPc, retry: nat, n: nat)
    ensures Listen(r.(pc := pc, retry := retry), n) == Listen(r, n)
    ensures n < 16 ==> Listen(r, n) == Prompt(r, n)
  {}

  lemma RxNextInWait(r: Rx, c: In)
    requires r.pc == RxWait
    ensures RxNext(r, c) ==
            if c == Byte(SOH) || c == Byte(STX) then r.(pc := RxBody([c.b]), trychar := 0)
            else if c == Byte(EOT) then r.(pc := RxDone(|r.stored|), out := r.out + [ACK])
            else if c == Byte(CAN) then r.(pc := RxCan)
            else Listen(r, r.retry + 1)
  {}

  lemma RxNextInCan(r: Rx, c: In)
    requires r.pc == RxCan
    ensures RxNext(r, c) == if c == Byte(CAN) then r.(pc := RxFlush(Cancelled)) else Listen(r, r.retry + 1)
  {}

  // Wait for a packet or the end: the returned byte is the first one of a packet, EOT, CAN (read
  // twice), or a timeout when the attempts are used up.
  method WaitHeader(port: Port, trychar: bv8, ghost init: Rx, ghost head: Rx) returns (c: In)
    requires head.trychar == trychar && RxRun(init, port.consumed) == Listen(head, 0) && port.output == head.out
    modifies port
    ensures |port.input| <= |old(port.input)|
    ensures var m := RxRun(init, port.consumed);
            if c == Byte(SOH) || c == Byte(STX) then
              |port.input| < |old(port.input)| &&
              m == head.(pc := RxBody([c.b]), trychar := 0, retry := m.retry, out := port.output)
            else if c == Byte(EOT) then m.pc == RxDone(|head.stored|) && m.stored == head.stored &&
                port.output + [ACK] == m.out
            else if c == Byte(CAN) then m == head.(pc := RxFlush(Cancelled), retry := m.retry, out := port.output)
            else m == Listen(head.(out := port.output), 16)
  {
    hide RxRun, RxNext, Listen;
    var retry := 0;
    c := Timeout;
    while retry < 16
      invariant retry <= 16
      invariant |port.input| <= |old(port.input)|
      invariant RxRun(init, port.consumed) == Listen(head.(out := port.output), retry)
      invariant c != Byte(SOH) && c != Byte(STX) && c != Byte(EOT) && c != Byte(CAN)
    {
      ListenIgnores(head.(out := port.output), head.pc, head.retry, retry);
      if trychar != 0 { port.OutByte(trychar); }
      ghost var m := head.(pc := RxWait, retry := retry, out := port.output);
      assert RxRun(init, port.consumed) == m;
      ghost var ins := port.consumed;
      c := port.InByte();
      RxStep(init, ins, c);
      RxNextInWait(m, c);
      if c == Byte(SOH) || c == Byte(STX) || c == Byte(EOT) { return; }
      ListenIgnores(head.(out := port.output), RxWait, retry, retry + 1);
      if c == Byte(CAN) {
        ins := port.consumed;
        c := port.InByte();
        RxStep(init, ins, c);
        RxNextInCan(m.(pc := RxCan), c);
        if c == Byte(CAN) { return; }
        ListenIgnores(head.(out := port.output), RxCan, retry, retry + 1);
        c := Timeout;
      }
      retry := retry + 1;
    }
  }

  // The three ways out of a flush other than a new attempt.
  method FlushAndReturn(port: Port, ghost init: Rx, code: int)
    requires -3 <= code <= -1
    requires var m := RxRun(init, port.consumed);
             m.pc == RxFlush(if code == -1 then Cancelled else if code == -2 then NoSync else TooMany) &&
                 port.output == m.out
    modifies port
    ensures |port.input| <= |old(port.input)|
    ensures RxRun(init, port.consumed) == RxRun(init, old(port.consumed)).(pc := RxDone(code), out := port.output)
  {
    hide RxRun;
    ghost var ins := port.consumed;
    ghost var skipped := port.FlushInput();
    RxFlushes(init, ins, skipped);
    if code == -1 { port.OutByte(ACK); } else { port.Cancel(); }
  }

  lemma Sizes(first: bv8, crc: int)
    ensures BufSize(first) == if first == STX then 1024 else 128
    ensures PacketSize(first, crc) == BufSize(first) + 4 + if crc != 0 then 1 else 0
    ensures BufSize(first) + 4 <= PacketSize(first, crc) <= XBUF_SIZE
  {}

  // What follows start_recv up to the verdict.
  method ReceivePacket(port: Port, first: bv8, packetno: bv8, crc: int, ghost init: Rx)
    returns (good: bool, xbuff: array<bv8>)
    requires var m := RxRun(init, port.consumed); m.pc == RxBody([first]) && m.packetno == packetno && m.crc == crc
    modifies port
    ensures fresh(xbuff) && xbuff.Length == XBUF_SIZE
    ensures port.output == old(port.output) && |port.input| <= |old(port.input)|
    ensures PacketSize(first, crc) <= XBUF_SIZE
    ensures var m := RxRun(init, old(port.consumed));
            RxRun(init, port.consumed) ==
            if good then Judge(m, xbuff[..PacketSize(first, crc)]) else m.(pc := RxFlush(Rejected))
    ensures good ==> Acceptable(packetno, crc, xbuff[..PacketSize(first, crc)])
  {
    hide RxRun, RxNext, Acceptable, Judge, PacketSize, BufSize;
    Sizes(first, crc);
    var bufsz := if first == STX then 1024 else 128;
    xbuff := new bv8[XBUF_SIZE];
    xbuff[0] := first;
    var n := bufsz + (if crc != 0 then 1 else 0) + 3;
    ghost var ins, m, got := port.consumed, RxRun(init, port.consumed), [];
    good, got := port.ReadBody(xbuff, n);
    RxReadsBody(init, ins, first, got);
    assert xbuff[..1 + |got|] == [first] + got;
    if !good {
      RxStep(init, ins + Bytes(got), Timeout);
      RxNextInBody(m.(pc := RxBody([first] + got)), Timeout);
      return;
    }
    assert xbuff[..1 + n][0] == first;
    good := Verdict(xbuff[..1 + n], packetno, crc);
    JudgeRejects(m, xbuff[..1 + n]);
  }

  method Verdict(buf: seq<bv8>, packetno: bv8, crc: int) returns (good: bool)
    requires 3 < |buf| == PacketSize(buf[0], crc)
    ensures good == Acceptable(packetno, crc, buf)
  {
    hide *;
    var bufsz := if buf[0] == STX then 1024 else 128;
    Sizes(buf[0], crc);
    AcceptableIs(packetno, crc, buf);
    good := buf[1] == !buf[2] && (buf[1] == packetno || (packetno != 0 && buf[1] == packetno - 1));
    if good {
      good := CheckBlock(crc, buf[3..], bufsz);
    }
  }

  lemma AcceptableIs(packetno: bv8, crc: int, buf: seq<bv8>)
    requires 3 < |buf| == PacketSize(buf[0], crc)
    ensures Acceptable(packetno, crc, buf) ==
            (buf[1] == !buf[2] && (buf[1] == packetno || (packetno != 0 && buf[1] == packetno - 1)) &&
             Check(crc, buf[3..], BufSize(buf[0])))
  {
    hide Check;
  }

  lemma JudgeRejects(r: Rx, buf: seq<bv8>)
    ensures !Acceptable(r.packetno, r.crc, buf) ==> Judge(r, buf) == r.(pc := RxFlush(Rejected))
  {
    hide Acceptable;
  }

  lemma Judged(r: Rx, buf: seq<bv8>) returns (t: Rx)
    requires Acceptable(r.packetno, r.crc, buf)
    ensures 3 < |buf| && 3 + BufSize(buf[0]) <= |buf|
    ensures t == Taken(r, StoredAfter(r.stored, r.destsz, r.packetno, buf), buf[1] == r.packetno)
    ensures Judge(r, buf) == Accepted(t)
  {
    hide Acceptable, StoredAfter, Accepted;
    AcceptableSize(r, buf);
    t := Taken(r, StoredAfter(r.stored, r.destsz, r.packetno, buf), buf[1] == r.packetno);
  }

  method StorePacket(buf: seq<bv8>, destsz: int, stored: seq<bv8>, packetno: bv8, retrans: int)
    returns (stored': seq<bv8>, packetno': bv8, retrans': int)
    requires 3 < |buf| && 3 + BufSize(buf[0]) <= |buf|
    ensures stored' == StoredAfter(stored, destsz, packetno, buf)
    ensures packetno' == if buf[1] == packetno then NextNo(packetno) else packetno
    ensures retrans' == if buf[1] == packetno then MAXRETRANS else retrans - 1
  {
    stored', packetno', retrans' := stored, packetno, retrans;
    var bufsz := if buf[0] == STX then 1024 else 128;
    if buf[1] == packetno {
      var count := destsz - |stored|;
      if count > bufsz { count := bufsz; }
      if count > 0 {
        assert buf[3..3 + bufsz][..count] == buf[3..3 + count];
        stored' := stored + buf[3..3 + count];
      }
      packetno' := NextNo(packetno);
      retrans' := MAXRETRANS + 1;
    }
    retrans' := retrans' - 1;
  }

  // An acceptable packet updates the fields; m is the receiver at that moment.
  method TakePacket(buf: seq<bv8>, destsz: int, stored: seq<bv8>, packetno: bv8, retrans: int, ghost m: Rx)
    returns (stored': seq<bv8>, packetno': bv8, retrans': int, ghost t: Rx)
    requires m.destsz == destsz && m.stored == stored && m.packetno == packetno && m.retrans == retrans
    requires Acceptable(packetno, m.crc, buf)
    ensures t == m.(stored := stored', packetno := packetno', retrans := retrans')
    ensures Judge(m, buf) == Accepted(t)
  {
    hide *;
    t := Judged(m, buf);
    stored', packetno', retrans' := StorePacket(buf, destsz, stored, packetno, retrans);
    TakenIs(m, stored', buf[1] == packetno);
  }

  lemma TakenIs(r: Rx, stored: seq<bv8>, isNew: bool)
    ensures Taken(r, stored, isNew) ==
            r.(stored := stored,
               packetno := if isNew then NextNo(r.packetno) else r.packetno,
               retrans := if isNew then MAXRETRANS else r.retrans - 1)
  {}

  lemma AcceptedCases(t: Rx)
    ensures t.retrans <= 0 ==> Accepted(t) == t.(pc := RxFlush(TooMany))
    ensures t.retrans > 0 && t.mode ==> Accepted(t) == t.(pc := RxDone(|t.stored|), out := t.out + Reply(t.crc))
    ensures t.retrans > 0 && !t.mode ==> Accepted(t) == Listen(t.(out := t.out + Reply(t.crc)), 0)
  {
    hide Listen, Reply;
  }

  // A good packet, already taken: back to the head of the loop, or out of it.
  method Acknowledge(port: Port, crc: int, mode: bool, len: nat, retrans: int, ghost init: Rx, ghost t: Rx)
    returns (done: bool, code: int)
    requires t.crc == crc && t.mode == mode && |t.stored| == len && t.retrans == retrans && t.out == port.output
    requires RxRun(init, port.consumed) == Accepted(t)
    modifies port
    ensures |port.input| <= |old(port.input)|
    ensures var r := RxRun(init, port.consumed);
            if done then r.pc == RxDone(code) && r.stored == t.stored && r.out == port.output
            else r == Listen(t.(pc := RxWait, retry := 0, out := port.output), 0)
  {
    hide RxRun, Listen, Accepted;
    AcceptedCases(t);
    done := retrans <= 0 || mode;
    if retrans <= 0 {
      FlushAndReturn(port, init, -3);
      code := -3;
    } else {
      if crc != 2 { port.OutByte(ACK); }
      code := len;
      assert port.output == t.out + Reply(t.crc);
      ListenIgnores(t.(out := port.output), RxWait, 0, 0);
    }
  }

  // reject: back to the head of the loop.
  method RejectPacket(port: Port, ghost init: Rx, ghost head: Rx)
    requires var m := RxRun(init, port.consumed);
             m == head.(pc := RxFlush(Rejected), retry := m.retry, out := port.output)
    modifies port
    ensures |port.input| <= |old(port.input)|
    ensures RxRun(init, port.consumed) == Listen(head.(out := port.output), 0)
  {
    hide RxRun, Listen, Flushed;
    ghost var ins, m := port.consumed, RxRun(init, port.consumed);
    ghost var skipped := port.FlushInput();
    RxFlushes(init, ins, skipped);
    FlushedRejected(m);
    port.OutByte(NAK);
    ListenIgnores(head.(out := port.output), m.pc, m.retry, 0);
  }

  lemma FlushedRejected(r: Rx)
    ensures Flushed(r, Rejected) == Listen(r.(out := r.out + [NAK]), 0)
  {}

  lemma GaveUp(head: Rx)
    ensures Listen(head, 16) ==
            if head.trychar == CHAR_G then Listen(head.(trychar := CHAR_C, crc := 1), 0)
            else if head.trychar == CHAR_C then Listen(head.(trychar := NAK, crc := 0), 0)
            else head.(pc := RxFlush(NoSync), retry := 0)
  {}

  // From start_recv to the head of the loop, or out of it.
  method HandlePacket(port: Port, first: bv8, destsz: int, crc: int, mode: bool, stored: seq<bv8>, packetno: bv8,
                      retrans: int,
                      ghost init: Rx, ghost head: Rx)
    returns (done: bool, code: int, stored': seq<bv8>, packetno': bv8, retrans': int)
    requires head.destsz == destsz && head.crc == crc && head.mode == mode && head.stored == stored
    requires head.packetno == packetno && head.retrans == retrans
    requires var m := RxRun(init, port.consumed);
             m == head.(pc := RxBody([first]), retry := m.retry, out := port.output)
    modifies port
    ensures |port.input| <= |old(port.input)|
    ensures var r := RxRun(init, port.consumed);
            if done then r.pc == RxDone(code) && r.stored == stored' && r.out == port.output
            else r == Listen(head.(stored := stored', packetno := packetno', retrans := retrans', out := port.output),
                             0)
  {
    hide *;
    ghost var m := RxRun(init, port.consumed);
    var good, xbuff := ReceivePacket(port, first, packetno, crc, init);
    if good {
      ghost var t;
      stored', packetno', retrans', t :=
        TakePacket(xbuff[..PacketSize(first, crc)], destsz, stored, packetno, retrans, m);
      done, code := Acknowledge(port, crc, mode, |stored'|, retrans', init, t);
      ListenIgnores(head.(stored := stored', packetno := packetno', retrans := retrans', out := port.output), RxWait,
          0, 0);
    } else {
      RejectPacket(port, init, head);
      done, code, stored', packetno', retrans' := false, 0, stored, packetno, retrans;
    }
  }

  // No packet: another attempt in the next mode, or the end; m is the receiver at that moment.
  method HandleOther(port: Port, c: In, stored: seq<bv8>, trychar: bv8, crc: int, ghost init: Rx, ghost head: Rx)
    returns (done: bool, code: int, trychar': bv8, crc': int)
    requires head.stored == stored && head.trychar == trychar && head.crc == crc
    requires var m := RxRun(init, port.consumed);
             if c == Byte(EOT) then m.pc == RxDone(|stored|) && m.stored == stored && port.output + [ACK] == m.out
             else if c == Byte(CAN) then m == head.(pc := RxFlush(Cancelled), retry := m.retry, out := port.output)
             else m == Listen(head.(out := port.output), 16)
    modifies port
    ensures |port.input| <= |old(port.input)|
    ensures var r := RxRun(init, port.consumed);
            if done then r.pc == RxDone(code) && r.stored == stored && r.out == port.output
            else r == Listen(head.(trychar := trychar', crc := crc', out := port.output), 0)
    ensures if done then trychar' == trychar else Rank(trychar') < Rank(trychar)
  {
    hide RxRun, Listen;
    GaveUp(head.(out := port.output));
    done, code, trychar', crc' := false, 0, trychar, crc;
    if c == Byte(EOT) {
      port.OutByte(ACK);
      done, code := true, |stored|;
    } else if c == Byte(CAN) {
      FlushAndReturn(port, init, -1);
      done, code := true, -1;
    } else if trychar == CHAR_G {
      trychar', crc' := CHAR_C, 1;
    } else if trychar == CHAR_C {
      trychar', crc' := NAK, 0;
    } else {
      FlushAndReturn(port, init, -2);
      done, code := true, -2;
    }
  }

  function Rank(trychar: bv8): nat { if trychar == CHAR_G then 2 else if trychar == CHAR_C then 1 else 0 }

  // destsz bytes at most are handed to storeChunk or copied; code is the returned length or error.
  method XmodemReceive(port: Port, destsz: int, crc0: int, mode: bool) returns (code: int, stored: seq<bv8>)
    modifies port
    ensures var m := RxRun(RxInit(destsz, crc0, mode), port.consumed);
            m.pc == RxDone(code) && m.stored == stored && m.out == port.output
  {
    hide RxRun, Listen, Rank;
    var crc := crc0;
    var trychar: bv8 := if crc == 2 then CHAR_G else if crc != 0 then CHAR_C else NAK;
    var packetno: bv8 := if mode then 0 else 1;
    var retrans := MAXRETRANS;
    stored := [];
    port.Open();
    ghost var init := RxInit(destsz, crc0, mode);
    EmptyRun(init);
    code := 0;
    var done := false;
    while !done
      invariant !done ==>
                RxRun(init, port.consumed) ==
                Listen(Head(destsz, mode, stored, packetno, trychar, crc, retrans, port.output), 0)
      invariant done ==>
                var r := RxRun(init, port.consumed);
                r.pc == RxDone(code) && r.stored == stored && r.out == port.output
      decreases |port.input|, Rank(trychar), !done
    {
      ghost var head := Head(destsz, mode, stored, packetno, trychar, crc, retrans, port.output);
      var c := WaitHeader(port, trychar, init, head);
      if c == Byte(SOH) || c == Byte(STX) {
        trychar := 0;
        done, code, stored, packetno, retrans :=
          HandlePacket(port, c.b, destsz, crc, mode, stored, packetno, retrans, init, head.(trychar := 0));
      } else {
        done, code, trychar, crc := HandleOther(port, c, stored, trychar, crc, init, head);
      }
    }
  }

  lemma EmptyRun(r: Rx)
    ensures RxRun(r, []) == r
  {}
}
