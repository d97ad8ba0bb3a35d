/** XmodemTransmit as loops over a port and a packet buffer; it ends in the final state of the sender's
    machine, fed with exactly what was read. */
module XmodemSend {
  import opened Xmodem
  import opened XmodemIo
  import Crc

  // ----- What the machine makes of one input

  lemma TxStep(t: Tx, ins: seq<In>, c: In)
    requires TxOk(t)
    ensures TxRun(t, ins + [c]) == TxNext(TxRun(t, ins), c)
  {
    assert (ins + [c])[..|ins|] == ins;
  }

  lemma EmptyTxRun(t: Tx)
    requires TxOk(t)
    ensures TxRun(t, []) == t
  {}

  lemma InSync(t: Tx, c: In)
    requires TxOk(t) && t.pc == TxSync
    ensures TxNext(t, c) ==
            if c == Byte(CHAR_G) then StartTrans(t.(crc := 2))
            else if c == Byte(CHAR_C) then StartTrans(t.(crc := 1))
            else if c == Byte(NAK) then StartTrans(t.(crc := 0))
            else if c == Byte(CAN) then t.(pc := TxSyncCan)
            else SyncRetry(t)
  {}

  lemma InSyncCan(t: Tx, c: In)
    requires TxOk(t) && t.pc == TxSyncCan
    ensures TxNext(t, c) == if c == Byte(CAN) then Did(t, SendCtl([ACK])).(pc := TxFlush(-1)) else SyncRetry(t)
  {}

  lemma InReply(t: Tx, c: In)
    requires TxOk(t) && t.pc == TxReply
    ensures TxNext(t, c) ==
            if c == Byte(ACK) then StartTrans(Advance(t))
            else if c == Byte(CAN) then t.(pc := TxReplyCan)
            else Resend(t)
  {}

  lemma InReplyCan(t: Tx, c: In)
    requires TxOk(t) && t.pc == TxReplyCan
    ensures TxNext(t, c) == if c == Byte(CAN) then Did(t, SendCtl([ACK])).(pc := TxFlush(-1)) else Resend(t)
  {}

  lemma InEot(t: Tx, c: In)
    requires TxOk(t) && t.pc == TxEot
    ensures TxNext(t, c) ==
            if c == Byte(ACK) then t.(pc := TxDone(t.len))
            else if t.retry + 1 < 10 then Did(t, SendEot).(retry := t.retry + 1)
            else t.(pc := TxFlush(-5))
  {}

  lemma InFlush(t: Tx, c: In)
    requires TxOk(t) && t.pc.TxFlush?
    ensures TxNext(t, c) == if c == Timeout then t.(pc := TxDone(t.pc.code)) else t
  {}

  lemma {:induction false} TxFlushes(t: Tx, ins: seq<In>, skipped: seq<bv8>)
    requires TxOk(t) && TxRun(t, ins).pc.TxFlush?
    ensures TxRun(t, ins + Bytes(skipped)) == TxRun(t, ins)
    ensures TxRun(t, ins + Bytes(skipped) + [Timeout]) == TxRun(t, ins).(pc := TxDone(TxRun(t, ins).pc.code))
  {
    hide TxNext, TxRun, Bytes;
    TxStep(t, ins + Bytes(skipped), Timeout);
    if skipped == [] {
      assert ins + Bytes(skipped) == ins by { assert |Bytes(skipped)| == 0; }
    } else {
      var n := |skipped| - 1;
      TxFlushes(t, ins, skipped[..n]);
      TxStep(t, ins + Bytes(skipped[..n]), Byte(skipped[n]));
      InFlush(TxRun(t, ins), Byte(skipped[n]));
      BytesSnoc(skipped);
      assert ins + Bytes(skipped[..n]) + [Byte(skipped[n])] == ins + Bytes(skipped);
    }
    InFlush(TxRun(t, ins), Timeout);
  }

  // ----- What has been put on the line and fetched

  function FetchedOf(acts: seq<Act>): seq<bv8> {
    if acts == [] then []
    else FetchedOf(acts[..|acts| - 1]) + if acts[|acts| - 1].Fetch? then acts[|acts| - 1].data else []
  }

  // Everything done so far is on the port and in the log of fetches.
  predicate Shown(acts: seq<Act>, output: seq<bv8>, fetched: seq<bv8>) {
    output == LineOf(acts) && fetched == FetchedOf(acts)
  }

  lemma ShowSent(acts: seq<Act>, act: Act, output: seq<bv8>, fetched: seq<bv8>)
    requires Shown(acts, output, fetched) && !act.Fetch?
    ensures Shown(acts + [act], output + ActBytes(act), fetched)
  {
    assert (acts + [act])[..|acts|] == acts;
    assert FetchedOf(acts) + [] == FetchedOf(acts);
  }

  lemma ShowFetched(acts: seq<Act>, data: seq<bv8>, output: seq<bv8>, fetched: seq<bv8>)
    requires Shown(acts, output, fetched)
    ensures Shown(acts + [Fetch(data)], output, fetched + data)
  {
    assert (acts + [Fetch(data)])[..|acts|] == acts;
    assert LineOf(acts) + [] == LineOf(acts);
  }

  // ----- The packet in the buffer

  // memset, then the chunk, header and trailer.
  method BuildPacket(xbuff: array<bv8>, src: seq<bv8>, srcsz: int, onek: bool, mode: bool, len: nat, packetno: bv8,
                     crc: int)
    returns (bufsz: nat, chunk: seq<bv8>)
    requires xbuff.Length == XBUF_SIZE && len < srcsz <= |src|
    modifies xbuff
    ensures bufsz == BlockSize(srcsz - len, onek) && chunk == Chunk(src, srcsz, onek, len)
    ensures bufsz + 4 + (if crc != 0 then 1 else 0) <= XBUF_SIZE
    ensures xbuff[..bufsz + 4 + if crc != 0 then 1 else 0] == Packet(packetno, Block(src, srcsz, onek, mode, len), crc)
  {
    hide *;
    var c := srcsz - len;
    bufsz := WriteHeader(xbuff, onek, c, packetno);
    if c > bufsz { c := bufsz; }
    chunk := src[len..len + c];
    FillData(xbuff, if mode then 0 else CTRLZ, bufsz, chunk);
    ghost var block := xbuff[3..3 + bufsz];
    BlockIs(src, srcsz, onek, mode, len);
    PacketIs(packetno, block, crc);
    assert xbuff[..3 + bufsz] == xbuff[..3] + block;
    WriteTrailer(xbuff, bufsz, crc);
  }

  method WriteHeader(xbuff: array<bv8>, onek: bool, c: int, packetno: bv8) returns (bufsz: nat)
    requires xbuff.Length == XBUF_SIZE
    modifies xbuff
    ensures bufsz == BlockSize(c, onek) && bufsz + 5 <= XBUF_SIZE
    ensures xbuff[..3] == [if bufsz == 1024 then STX else SOH, packetno, !packetno]
  {
    bufsz := 128;
    xbuff[0] := SOH;
    if onek && c > 128 {
      xbuff[0] := STX;
      bufsz := 1024;
    }
    xbuff[1] := packetno;
    xbuff[2] := !packetno;
  }

  lemma BlockIs(src: seq<bv8>, srcsz: int, onek: bool, mode: bool, len: nat)
    requires len < srcsz <= |src|
    ensures var size := BlockSize(srcsz - len, onek);
            var c := if srcsz - len > size then size else srcsz - len;
            Chunk(src, srcsz, onek, len) == src[len..len + c] &&
            Block(src, srcsz, onek, mode, len) == src[len..len + c] + Repeat(if mode then 0 else CTRLZ, size - c)
  {}

  lemma PacketIs(packetno: bv8, data: seq<bv8>, crc: int)
    ensures Packet(packetno, data, crc) ==
            [if |data| == 1024 then STX else SOH, packetno, !packetno] + data + Trailer(crc, data)
  {}

  method WriteTrailer(xbuff: array<bv8>, bufsz: nat, crc: int)
    requires bufsz + 5 <= xbuff.Length
    modifies xbuff
    ensures xbuff[..bufsz + 4 + if crc != 0 then 1 else 0] ==
            old(xbuff[..3 + bufsz]) + Trailer(crc, old(xbuff[3..3 + bufsz]))
  {
    hide Crc.CrcFrom, Crc.Hi, Crc.Lo, Checksum;
    if crc != 0 {
      var ccrc := Crc.Crc16Ccitt(xbuff[3..3 + bufsz]);
      xbuff[bufsz + 3] := Crc.Hi(ccrc);
      xbuff[bufsz + 4] := Crc.Lo(ccrc);
    } else {
      var ccks := ChecksumOf(xbuff[3..3 + bufsz]);
      xbuff[bufsz + 3] := ccks;
    }
  }

  method FillData(xbuff: array<bv8>, fill: bv8, bufsz: nat, chunk: seq<bv8>)
    requires |chunk| <= bufsz && 3 + bufsz <= xbuff.Length
    modifies xbuff
    ensures xbuff[3..3 + bufsz] == chunk + Repeat(fill, bufsz - |chunk|)
    ensures xbuff[..3] == old(xbuff[..3])
  {
    for i := 0 to bufsz
      invariant forall j :: 3 <= j < 3 + i ==> xbuff[j] == fill
      invariant xbuff[..3] == old(xbuff[..3])
    {
      xbuff[3 + i] := fill;
    }
    for i := 0 to |chunk|
      invariant forall j :: 0 <= j < i ==> xbuff[3 + j] == chunk[j]
      invariant forall j :: 3 + i <= j < 3 + bufsz ==> xbuff[j] == fill
      invariant xbuff[..3] == old(xbuff[..3])
    {
      xbuff[3 + i] := chunk[i];
    }
  }

  method OutPacket(port: Port, xbuff: array<bv8>, n: nat)
    requires n <= xbuff.Length
    modifies port`output
    ensures port.output == old(port.output) + xbuff[..n]
  {
    for i := 0 to n
      invariant port.output == old(port.output) + xbuff[..i]
    {
      port.OutByte(xbuff[i]);
      assert xbuff[..i + 1] == xbuff[..i] + [xbuff[i]];
    }
  }

  // ----- Transmit

  method FlushAndReturn(port: Port, ghost init: Tx, code: int)
    requires TxOk(init) && TxRun(init, port.consumed).pc == TxFlush(code)
    modifies port
    ensures TxRun(init, port.consumed) == TxRun(init, old(port.consumed)).(pc := TxDone(code))
    ensures port.output == old(port.output) && |port.input| <= |old(port.input)|
  {
    hide TxRun;
    ghost var ins := port.consumed;
    ghost var skipped := port.FlushInput();
    TxFlushes(init, ins, skipped);
  }

  lemma Waited(t: Tx, retry: nat)
    ensures SyncRetry(t.(pc := TxSyncCan, retry := retry)) == SyncRetry(t.(pc := TxSync, retry := retry))
    ensures retry + 1 < 16 ==> SyncRetry(t.(pc := TxSync, retry := retry)) == t.(pc := TxSync, retry := retry + 1)
    ensures retry + 1 >= 16 ==>
            SyncRetry(t.(pc := TxSync, retry := retry)) == Did(t.(retry := retry), SendCtl(CANS)).(pc := TxFlush(-2))
  {}

  // Wait for the receiver to ask for a mode: crc >= 0, or the call is over with an error code.
  method Synchronize(port: Port, ghost init: Tx) returns (crc: int, code: int)
    requires TxOk(init) && init.pc == TxSync && init.retry == 0 && port.consumed == [] &&
             Shown(init.acts, port.output, [])
    modifies port
    ensures |port.input| <= |old(port.input)|
    ensures var m := TxRun(init, port.consumed);
            if crc >= 0
            then (exists retry :: m == StartTrans(init.(crc := crc, retry := retry))) &&
                 port.output == old(port.output)
            else m.pc == TxDone(code) && code < 0 && Shown(m.acts, port.output, [])
    ensures crc <= 2
  {
    hide TxRun, TxNext, StartTrans, SyncRetry, Shown;
    EmptyTxRun(init);
    var retry := 0;
    crc, code := -1, 0;
    while retry < 16 && crc < 0 && code == 0
      decreases 16 - retry, crc < 0 && code == 0
      invariant retry <= 16 && -1 <= crc <= 2 && -1 <= code <= 0
      invariant |port.input| <= |old(port.input)|
      invariant code == 0 ==> port.output == old(port.output)
      invariant crc >= 0 ==>
                code == 0 && exists r :: TxRun(init, port.consumed) == StartTrans(init.(crc := crc, retry := r))
      invariant crc < 0 && code == 0 && retry < 16 ==> TxRun(init, port.consumed) == init.(retry := retry)
      invariant crc < 0 && code == 0 && retry == 16 ==>
                TxRun(init, port.consumed) == Did(init.(retry := 15), SendCtl(CANS)).(pc := TxFlush(-2))
      invariant crc < 0 && code != 0 ==>
                var m := TxRun(init, port.consumed); m.pc == TxDone(code) && Shown(m.acts, port.output, [])
    {
      ghost var ins, m := port.consumed, init.(retry := retry);
      Waited(init, retry);
      var c := port.InByte();
      TxStep(init, ins, c);
      InSync(m, c);
      if c == Byte(CHAR_G) { crc := 2; }
      else if c == Byte(CHAR_C) { crc := 1; }
      else if c == Byte(NAK) { crc := 0; }
      else if c == Byte(CAN) {
        ins := port.consumed;
        c := port.InByte();
        TxStep(init, ins, c);
        InSyncCan(m.(pc := TxSyncCan), c);
        if c == Byte(CAN) {
          ShowSent(init.acts, SendCtl([ACK]), port.output, []);
          port.OutByte(ACK);
          FlushAndReturn(port, init, -1);
          code := -1;
        }
      }
      if crc < 0 && code == 0 { retry := retry + 1; }
    }
    if crc < 0 && code == 0 {
      ShowSent(init.acts, SendCtl(CANS), port.output, []);
      port.Cancel();
      FlushAndReturn(port, init, -2);
      code := -2;
    }
  }

  lemma Resent(t: Tx)
    ensures t.retry + 1 < MAXRETRANS ==> Resend(t) == SendBlock(t, t.retry + 1)
    ensures t.retry + 1 >= MAXRETRANS ==> Resend(t) == Did(t, SendCtl(CANS)).(pc := TxFlush(-4))
    ensures Resend(t.(pc := TxReplyCan)) == Resend(t)
  {
    hide Packet;
  }

  // The machine after the first k packets of a block, the last of them unanswered.
  predicate SendingFrom(t: Tx, s: Tx) { s == t.(pc := s.pc, retry := s.retry, acts := s.acts) }

  // Send a packet up to 25 times: acknowledged in state t', or the call is over with an error code.
  method SendPacket(port: Port, xbuff: array<bv8>, n: nat, ghost init: Tx, ghost t: Tx, ghost fetched: seq<bv8>)
    returns (acked: bool, code: int, ghost t': Tx)
    requires TxOk(init) && TxOk(t) && t.crc != 2 && n <= xbuff.Length &&
             xbuff[..n] == Packet(t.packetno, t.block, t.crc)
    requires TxRun(init, port.consumed) == SendBlock(t, 0) && Shown(t.acts, port.output, fetched)
    modifies port
    ensures |port.input| <= |old(port.input)|
    ensures SendingFrom(t, t')
    ensures acked ==> TxRun(init, port.consumed) == StartTrans(Advance(t')) && Shown(t'.acts, port.output, fetched)
    ensures !acked ==>
            var m := TxRun(init, port.consumed);
            m.pc == TxDone(code) && code < 0 && Shown(m.acts, port.output, fetched)
  {
    hide TxRun, TxNext, StartTrans, Packet, Resend, Advance, Shown;
    var retry := 0;
    acked, code, t' := false, 0, t;
    ghost var s := t;
    while retry < MAXRETRANS
      invariant retry <= MAXRETRANS && SendingFrom(t, s)
      invariant |port.input| <= |old(port.input)|
      invariant Shown(s.acts, port.output, fetched)
      invariant TxRun(init, port.consumed) ==
                if retry < MAXRETRANS then SendBlock(s, retry) else Did(s, SendCtl(CANS)).(pc := TxFlush(-4))
    {
      ShowSent(s.acts, Send(xbuff[..n]), port.output, fetched);
      OutPacket(port, xbuff, n);
      s := SendBlock(s, retry);
      Resent(s);
      ghost var ins := port.consumed;
      var c := port.InByte();
      TxStep(init, ins, c);
      InReply(s, c);
      if c == Byte(ACK) {
        acked, t' := true, s;
        return;
      }
      if c == Byte(CAN) {
        ins := port.consumed;
        c := port.InByte();
        TxStep(init, ins, c);
        InReplyCan(s.(pc := TxReplyCan), c);
        if c == Byte(CAN) {
          ShowSent(s.acts, SendCtl([ACK]), port.output, fetched);
          port.OutByte(ACK);
          FlushAndReturn(port, init, -1);
          code := -1;
          return;
        }
      }
      retry := retry + 1;
    }
    ShowSent(s.acts, SendCtl(CANS), port.output, fetched);
    port.Cancel();
    FlushAndReturn(port, init, -4);
    code := -4;
  }

  // Up to 10 times EOT.
  method SendEots(port: Port, ghost init: Tx, ghost t: Tx, ghost fetched: seq<bv8>) returns (acked: bool)
    requires TxOk(init) && TxOk(t)
    requires TxRun(init, port.consumed) == Did(t, SendEot).(pc := TxEot, retry := 0) &&
             Shown(t.acts, port.output, fetched)
    modifies port
    ensures var m := TxRun(init, port.consumed);
            m.pc == TxDone(if acked then t.len else -5) && Shown(m.acts, port.output, fetched)
  {
    hide TxRun, TxNext, Shown;
    var retry := 0;
    acked := false;
    ghost var s := t;
    while retry < 10 && !acked
      invariant retry <= 10 && SendingFrom(t, s)
      invariant Shown(s.acts, port.output, fetched)
      invariant TxRun(init, port.consumed) ==
                if acked then s.(pc := TxDone(t.len))
                else if retry < 10 then Did(s, SendEot).(pc := TxEot, retry := retry) else s.(pc := TxFlush(-5))
      decreases 10 - retry, !acked
    {
      ShowSent(s.acts, SendEot, port.output, fetched);
      port.OutByte(EOT);
      s := Did(s, SendEot).(pc := TxEot, retry := retry);
      ghost var ins := port.consumed;
      var c := port.InByte();
      TxStep(init, ins, c);
      InEot(s, c);
      if c == Byte(ACK) { acked := true; } else { retry := retry + 1; }
    }
    if !acked {
      FlushAndReturn(port, init, -5);
    }
  }

  lemma Started(t: Tx)
    requires TxOk(t)
    ensures t.len < t.srcsz ==>
            var t' := Did(t.(block := Block(t.src, t.srcsz, t.onek, t.mode, t.len)),
            Fetch(Chunk(t.src, t.srcsz, t.onek, t.len)));
            StartTrans(t) == if t.crc == 2 then StartTrans(Advance(SendBlock(t', 0))) else SendBlock(t', 0)
    ensures t.len >= t.srcsz ==>
            StartTrans(t) == if t.mode then t.(pc := TxDone(t.len)) else Did(t, SendEot).(pc := TxEot, retry := 0)
  {
    hide Packet, Block, Chunk;
  }

  lemma ShowBlock(t: Tx, retry: nat, output: seq<bv8>, fetched: seq<bv8>)
    requires Shown(t.acts, output, fetched)
    ensures SendingFrom(t, SendBlock(t, retry))
    ensures Shown(SendBlock(t, retry).acts, output + Packet(t.packetno, t.block, t.crc), fetched)
  {
    hide Packet, Shown;
    ShowSent(t.acts, Send(Packet(t.packetno, t.block, t.crc)), output, fetched);
  }

  lemma Advanced(before: Tx, t: Tx, t': Tx)
    requires SendingFrom(t, t') && SameCall(before, t) && TxOk(t)
    ensures SameCall(before, Advance(t')) && TxOk(Advance(t')) && Advance(t').acts == t'.acts
    ensures var a := Advance(t');
            a == t.(pc := a.pc, retry := a.retry, acts := t'.acts, packetno := NextNo(t.packetno),
                len := t.len + |t.block|)
  {}

  // Fetch the next bytes into a packet; b is the machine with the packet in its buffer.
  method FetchNext(xbuff: array<bv8>, src: seq<bv8>, srcsz: int, onek: bool, mode: bool, crc: int, packetno: bv8,
                   len: nat,
                   fetched: seq<bv8>, ghost output: seq<bv8>, ghost t: Tx)
    returns (bufsz: nat, n: nat, fetched': seq<bv8>, ghost b: Tx)
    requires TxOk(t) && t.src == src && t.srcsz == srcsz && t.onek == onek && t.mode == mode
    requires t.crc == crc && t.packetno == packetno && t.len == len < t.srcsz && xbuff.Length == XBUF_SIZE
    requires Shown(t.acts, output, fetched)
    modifies xbuff
    ensures b == t.(block := b.block, acts := b.acts) && |b.block| == bufsz > 0 && Shown(b.acts, output, fetched')
    ensures StartTrans(t) == if t.crc == 2 then StartTrans(Advance(SendBlock(b, 0))) else SendBlock(b, 0)
    ensures n <= XBUF_SIZE && xbuff[..n] == Packet(packetno, b.block, crc)
    ensures TxOk(b) && SameCall(t, b)
  {
    hide StartTrans, Packet, Block, Chunk, Shown, SendBlock, Advance;
    var chunk;
    bufsz, chunk := BuildPacket(xbuff, src, srcsz, onek, mode, len, packetno, crc);
    n := bufsz + 4 + if crc != 0 then 1 else 0;
    fetched' := fetched + chunk;
    ShowFetched(t.acts, chunk, output, fetched);
    Started(t);
    b := Did(t.(block := Block(src, srcsz, onek, mode, len)), Fetch(chunk));
  }

  // One block: its bytes are fetched once, whatever number of times it is sent.
  method SendNext(port: Port, xbuff: array<bv8>, src: seq<bv8>, srcsz: int, onek: bool, mode: bool, crc: int,
                  packetno: bv8, len: nat,
                  fetched: seq<bv8>, ghost init: Tx, ghost t: Tx)
    returns (acked: bool, code: int, bufsz: nat, fetched': seq<bv8>, ghost t': Tx)
    requires TxOk(init) && TxOk(t) && t.src == src && t.srcsz == srcsz && t.onek == onek && t.mode == mode
    requires t.crc == crc && t.packetno == packetno && t.len == len < t.srcsz && xbuff.Length == XBUF_SIZE
    requires TxRun(init, port.consumed) == StartTrans(t) && Shown(t.acts, port.output, fetched)
    modifies port, xbuff
    ensures !acked ==>
            var m := TxRun(init, port.consumed);
            m.pc == TxDone(code) && code < 0 && Shown(m.acts, port.output, fetched')
    ensures SameCall(t, t') && t'.crc == crc && t'.packetno == NextNo(packetno) && t'.len == len + bufsz && bufsz > 0
    ensures acked ==> TxRun(init, port.consumed) == StartTrans(t') && Shown(t'.acts, port.output, fetched')
  {
    hide *;
    var n;
    ghost var b;
    bufsz, n, fetched', b := FetchNext(xbuff, src, srcsz, onek, mode, crc, packetno, len, fetched, port.output, t);
    ghost var s := b;
    acked, code := true, 0;
    if crc == 2 {
      ShowBlock(b, 0, port.output, fetched');
      OutPacket(port, xbuff, n);
      s := SendBlock(b, 0);
    } else {
      acked, code, s := SendPacket(port, xbuff, n, init, b, fetched');
    }
    Advanced(t, b, s);
    t' := Advance(s);
  }

  // fetched is what fetchChunk was asked for, in the order of the requests.
  method XmodemTransmit(port: Port, src: seq<bv8>, srcsz: int, onek: bool, mode: bool)
    returns (code: int, fetched: seq<bv8>)
    requires srcsz <= |src|
    modifies port
    ensures var m := TxRun(TxInit(src, srcsz, onek, mode), port.consumed);
            m.pc == TxDone(code) && Shown(m.acts, port.output, fetched)
  {
    hide TxRun, StartTrans;
    port.Open();
    fetched := [];
    ghost var init := TxInit(src, srcsz, onek, mode);
    var crc;
    crc, code := Synchronize(port, init);
    if crc < 0 { return; }
    ghost var retry0 :| TxRun(init, port.consumed) == StartTrans(init.(crc := crc, retry := retry0));
    ghost var t := init.(crc := crc, retry := retry0);
    var packetno: bv8 := if mode then 0 else 1;
    var len: nat := 0;
    var xbuff := new bv8[XBUF_SIZE];
    while len < srcsz
      invariant TxOk(t) && t.src == src && t.srcsz == srcsz && t.onek == onek && t.mode == mode
      invariant t.len == len && t.packetno == packetno && t.crc == crc
      invariant TxRun(init, port.consumed) == StartTrans(t) && Shown(t.acts, port.output, fetched)
    {
      var acked, bufsz;
      acked, code, bufsz, fetched, t :=
        SendNext(port, xbuff, src, srcsz, onek, mode, crc, packetno, len, fetched, init, t);
      if !acked { return; }
      packetno := NextNo(packetno);
      len := len + bufsz;
    }
    Started(t);
    code := len;
    if !mode {
      var acked := SendEots(port, init, t, fetched);
      if !acked { code := -5; }
    }
  }
}
