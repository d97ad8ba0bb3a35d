/** What the sender does in every run, whatever it is answered: each source byte is fetched once and in
    order, each block is sent at most 25 times as one fixed packet, and EOT at most 10 times. */
module XmodemPacing {
  import opened Xmodem
  import opened XmodemSend

  // ----- Reading a history of acts

  function Fetches(acts: seq<Act>): nat {
    if acts == [] then 0 else Fetches(acts[..|acts| - 1]) + if acts[|acts| - 1].Fetch? then 1 else 0
  }

  function LastFetch(acts: seq<Act>): seq<bv8> {
    if acts == [] then []
    else if acts[|acts| - 1].Fetch? then acts[|acts| - 1].data
    else LastFetch(acts[..|acts| - 1])
  }

  // Transmissions since the last fetch.
  function Attempts(acts: seq<Act>): nat {
    if acts == [] || acts[|acts| - 1].Fetch? then 0
    else Attempts(acts[..|acts| - 1]) + if acts[|acts| - 1].Send? then 1 else 0
  }

  function Eots(acts: seq<Act>): nat {
    if acts == [] then 0 else Eots(acts[..|acts| - 1]) + if acts[|acts| - 1].SendEot? then 1 else 0
  }

  // The number of the packet n places behind number `first`, modulo 256.
  function Nth(first: bv8, n: nat): bv8 {
    if n == 0 then first else NextNo(Nth(first, n - 1))
  }

  // Fetched bytes as they are sent.
  function Padded(mode: bool, data: seq<bv8>): seq<bv8> {
    var size := if |data| > 128 then 1024 else 128;
    if |data| <= size then data + Repeat(Fill(mode), size - |data|) else data
  }

  // Every transmission carries what was fetched last, padded, under its own number.
  predicate Faithful(acts: seq<Act>, mode: bool, crc: int) {
    acts == [] ||
    (Faithful(acts[..|acts| - 1], mode, crc) &&
     (acts[|acts| - 1].Send? ==> Fetches(acts) > 0 && acts[|acts| - 1].bytes == Expected(acts, mode, crc)))
  }

  // The packet for the last fetch.
  function Expected(acts: seq<Act>, mode: bool, crc: int): seq<bv8>
    requires Fetches(acts) > 0
  {
    Packet(Nth(if mode then 0 else 1, Fetches(acts) - 1), Padded(mode, LastFetch(acts)), crc)
  }

  predicate Paced(acts: seq<Act>) {
    acts == [] || (Paced(acts[..|acts| - 1]) && Attempts(acts) <= 25 && Eots(acts) <= 10)
  }

  lemma Snoc(acts: seq<Act>, a: Act)
    ensures (acts + [a])[..|acts + [a]| - 1] == acts
    ensures Fetches(acts + [a]) == Fetches(acts) + if a.Fetch? then 1 else 0
    ensures LastFetch(acts + [a]) == if a.Fetch? then a.data else LastFetch(acts)
    ensures Attempts(acts + [a]) == if a.Fetch? then 0 else Attempts(acts) + if a.Send? then 1 else 0
    ensures Eots(acts + [a]) == Eots(acts) + if a.SendEot? then 1 else 0
    ensures FetchedOf(acts + [a]) == FetchedOf(acts) + if a.Fetch? then a.data else []
  {
    assert (acts + [a])[..|acts|] == acts;
  }

  lemma SnocOk(acts: seq<Act>, a: Act, mode: bool, crc: int)
    requires Faithful(acts, mode, crc) && Paced(acts)
    requires a.Send? ==> Fetches(acts) > 0 && Attempts(acts) < MAXRETRANS && a.bytes == Expected(acts, mode, crc)
    requires a.SendEot? ==> Eots(acts) < 10
    requires Attempts(acts) <= MAXRETRANS && Eots(acts) <= 10
    ensures Faithful(acts + [a], mode, crc) && Paced(acts + [a])
  {
    hide Packet, Padded, Nth;
    Snoc(acts, a);
  }

  // ----- The invariant

  function Size(t: Tx): nat { if t.srcsz < 0 then 0 else t.srcsz }

  function Min(a: nat, b: nat): nat { if a < b then a else b }

  predicate History(t: Tx) {
    && TxOk(t) && Faithful(t.acts, t.mode, t.crc) && Paced(t.acts)
    && Attempts(t.acts) <= MAXRETRANS
  }

  // fetched == src[..n]
  predicate Got(t: Tx, n: nat) { n <= |t.src| && FetchedOf(t.acts) == t.src[..n] }

  // At start_trans.
  predicate Between(t: Tx) {
    && History(t)
    && Got(t, Min(t.len, Size(t)))
    && t.packetno == Nth(if t.mode then 0 else 1, Fetches(t.acts))
    && t.len < Size(t) + 1024 && Eots(t.acts) == 0
  }

  // A block is being sent.
  predicate InBlock(t: Tx) {
    && History(t)
    && t.len < t.srcsz && t.block == Block(t.src, t.srcsz, t.onek, t.mode, t.len) &&
       t.block == Padded(t.mode, LastFetch(t.acts))
    && Got(t, Min(t.len + |t.block|, t.srcsz))
    && Fetches(t.acts) > 0 && t.packetno == Nth(if t.mode then 0 else 1, Fetches(t.acts) - 1)
    && Eots(t.acts) == 0
  }

  // The call has ended or is about to.
  predicate Over(t: Tx, code: int) {
    && History(t) && Eots(t.acts) <= 10
    && FetchedOf(t.acts) <= t.src && |FetchedOf(t.acts)| <= Size(t)
    && (code >= 0 ==> code == t.len && Size(t) <= code < Size(t) + 1024 && Got(t, Size(t)))
  }

  predicate Inv(t: Tx) {
    match t.pc
    case TxSync => TxOk(t) && t.acts == [] && t.len == 0 && t.packetno == if t.mode then 0 else 1
    case TxSyncCan => TxOk(t) && t.acts == [] && t.len == 0 && t.packetno == if t.mode then 0 else 1
    case TxReply => InBlock(t) && Attempts(t.acts) == t.retry + 1 <= MAXRETRANS
    case TxReplyCan => InBlock(t) && Attempts(t.acts) == t.retry + 1 <= MAXRETRANS
    case TxEot => History(t) && Got(t, Size(t)) && Size(t) <= t.len < Size(t) + 1024 &&
        Eots(t.acts) == t.retry + 1 <= 10
    case TxFlush(code) => Over(t, code) && code < 0
    case TxDone(code) => Over(t, code)
  }

  lemma BlockIsPadded(t: Tx)
    requires TxOk(t) && t.len < t.srcsz
    ensures Block(t.src, t.srcsz, t.onek, t.mode, t.len) == Padded(t.mode, Chunk(t.src, t.srcsz, t.onek, t.len))
    ensures Chunk(t.src, t.srcsz, t.onek, t.len) ==
            t.src[t.len..Min(t.len + |Block(t.src, t.srcsz, t.onek, t.mode, t.len)|, t.srcsz)]
  {}

  lemma BlockFetched(t: Tx)
    requires Between(t) && t.len < t.srcsz
    ensures InBlock(Did(t.(block := Block(t.src, t.srcsz, t.onek, t.mode, t.len)),
            Fetch(Chunk(t.src, t.srcsz, t.onek, t.len))))
    ensures var t' := Did(t.(block := Block(t.src, t.srcsz, t.onek, t.mode, t.len)),
            Fetch(Chunk(t.src, t.srcsz, t.onek, t.len)));
            Attempts(t'.acts) == 0
  {
    hide Block, Chunk, Padded, Nth, Faithful, Paced, Fetches, LastFetch, Attempts, Eots, FetchedOf, Packet;
    var a := Fetch(Chunk(t.src, t.srcsz, t.onek, t.len));
    var n := Min(t.len + |Block(t.src, t.srcsz, t.onek, t.mode, t.len)|, t.srcsz);
    BlockIsPadded(t);
    Snoc(t.acts, a);
    SnocOk(t.acts, a, t.mode, t.crc);
    assert t.src[..t.len] + t.src[t.len..n] == t.src[..n];
  }

  lemma BlockSent(t: Tx, retry: nat)
    requires InBlock(t) && Attempts(t.acts) == retry < MAXRETRANS
    ensures InBlock(SendBlock(t, retry)) && Inv(SendBlock(t, retry))
  {
    hide Block, Padded, Nth, Packet;
    var a := Send(Packet(t.packetno, t.block, t.crc));
    Snoc(t.acts, a);
    SnocOk(t.acts, a, t.mode, t.crc);
    assert FetchedOf(t.acts) + [] == FetchedOf(t.acts);
  }

  lemma BlockDone(t: Tx)
    requires InBlock(t)
    ensures Between(Advance(t))
  {
    hide Padded, Packet, Chunk;
    assert |t.block| <= 1024;
    assert t.len + |t.block| < t.srcsz + 1024;
  }

  lemma {:induction false} StartTransInv(t: Tx)
    requires Between(t)
    ensures Inv(StartTrans(t))
    decreases t.srcsz - t.len
  {
    hide Block, Chunk, Packet, Padded, InBlock, Faithful, Paced, Nth, SendBlock, Advance;
    if t.len < t.srcsz {
      var b := Did(t.(block := Block(t.src, t.srcsz, t.onek, t.mode, t.len)),
          Fetch(Chunk(t.src, t.srcsz, t.onek, t.len)));
      BlockFetched(t);
      BlockSent(b, 0);
      Started(t);
      if t.crc == 2 {
        BlockDone(SendBlock(b, 0));
        Grows(b);
        StartTransInv(Advance(SendBlock(b, 0)));
      }
    } else {
      SourceDone(t);
    }
  }

  lemma Grows(t: Tx)
    requires InBlock(t)
    ensures Advance(SendBlock(t, 0)).len > t.len && Advance(SendBlock(t, 0)).srcsz == t.srcsz
  {
    hide Packet;
  }

  lemma SourceDone(t: Tx)
    requires Between(t) && t.len >= t.srcsz
    ensures Inv(StartTrans(t))
  {
    hide Faithful, Paced, Nth, Fetches, FetchedOf, Attempts, Eots, Packet, Block;
    Snoc(t.acts, SendEot);
    SnocOk(t.acts, SendEot, t.mode, t.crc);
    assert FetchedOf(t.acts) + [] == FetchedOf(t.acts);
    assert Got(t, Size(t));
    Started(t);
  }

  // Giving up, with or without a last word.
  lemma GivenUp(t: Tx, a: Act, code: int)
    requires TxOk(t) && History(t) && Eots(t.acts) <= 10 && a.SendCtl? && code < 0
    requires FetchedOf(t.acts) <= t.src && |FetchedOf(t.acts)| <= Size(t)
    ensures Inv(t.(pc := TxFlush(code))) && Inv(Did(t, a).(pc := TxFlush(code)))
  {
    hide Faithful, Paced;
    Snoc(t.acts, a);
    SnocOk(t.acts, a, t.mode, t.crc);
    assert FetchedOf(t.acts) + [] == FetchedOf(t.acts);
  }

  lemma SyncInv(t: Tx, c: In)
    requires Inv(t) && (t.pc == TxSync || t.pc == TxSyncCan)
    ensures Inv(TxNext(t, c))
  {
    hide StartTrans, SyncRetry;
    assert History(t) && Got(t, 0);
    GivenUp(t, SendCtl([ACK]), -1);
    SyncRetryInv(t);
    if t.pc == TxSync {
      assert forall crc | 0 <= crc <= 2 :: Between(t.(crc := crc));
      if c == Byte(CHAR_G) { StartTransInv(t.(crc := 2)); }
      if c == Byte(CHAR_C) { StartTransInv(t.(crc := 1)); }
      if c == Byte(NAK) { StartTransInv(t.(crc := 0)); }
    }
  }

  lemma SyncRetryInv(t: Tx)
    requires Inv(t) && (t.pc == TxSync || t.pc == TxSyncCan)
    ensures Inv(SyncRetry(t))
  {
    assert History(t) && Got(t, 0);
    GivenUp(t, SendCtl(CANS), -2);
  }

  lemma ReplyInv(t: Tx, c: In)
    requires Inv(t) && (t.pc == TxReply || t.pc == TxReplyCan)
    ensures Inv(TxNext(t, c))
  {
    hide StartTrans, Resend, Block, Padded, Packet, Nth, Advance, Faithful, Paced;
    assert Got(t, Min(t.len + |t.block|, t.srcsz));
    GivenUp(t, SendCtl([ACK]), -1);
    ResendInv(t);
    if c == Byte(ACK) && t.pc == TxReply {
      BlockDone(t);
      StartTransInv(Advance(t));
    }
  }

  lemma ResendInv(t: Tx)
    requires Inv(t) && (t.pc == TxReply || t.pc == TxReplyCan)
    ensures Inv(Resend(t))
  {
    hide Block, Padded, Packet, Nth, Faithful, Paced, SendBlock;
    assert Got(t, Min(t.len + |t.block|, t.srcsz));
    if t.retry + 1 < MAXRETRANS { BlockSent(t, t.retry + 1); } else { GivenUp(t, SendCtl(CANS), -4); }
  }

  lemma EotAgain(t: Tx)
    requires Inv(t) && t.pc == TxEot && t.retry + 1 < 10
    ensures Inv(Did(t, SendEot).(retry := t.retry + 1))
  {
    hide Faithful, Paced;
    Snoc(t.acts, SendEot);
    SnocOk(t.acts, SendEot, t.mode, t.crc);
    assert FetchedOf(t.acts) + [] == FetchedOf(t.acts);
  }

  lemma EotAnswered(t: Tx)
    requires Inv(t) && t.pc == TxEot
    ensures Inv(t.(pc := TxDone(t.len))) && Inv(t.(pc := TxFlush(-5)))
  {
    hide Faithful, Paced, Attempts, Eots;
    assert Got(t.(pc := TxDone(t.len)), Size(t));
    assert Got(t.(pc := TxFlush(-5)), Size(t));
  }

  lemma EotInv(t: Tx, c: In)
    requires Inv(t) && t.pc == TxEot
    ensures Inv(TxNext(t, c))
  {
    hide Inv, TxNext;
    assert TxOk(t) by { InvTxOk(t); }
    InEot(t, c);
    EotAnswered(t);
    if t.retry + 1 < 10 { EotAgain(t); }
  }

  lemma InvTxOk(t: Tx)
    requires Inv(t)
    ensures TxOk(t)
  {}

  lemma NextInv(t: Tx, c: In)
    requires Inv(t)
    ensures Inv(TxNext(t, c))
  {
    hide StartTrans, Resend, SyncRetry, InBlock, History;
    match t.pc
    case TxSync => SyncInv(t, c);
    case TxSyncCan => SyncInv(t, c);
    case TxReply => ReplyInv(t, c);
    case TxReplyCan => ReplyInv(t, c);
    case TxEot => EotInv(t, c);
    case TxFlush(code) =>
      HistoryIgnoresPc(t, TxDone(code));
    case TxDone(_) =>
  }

  lemma HistoryIgnoresPc(t: Tx, pc: TxPc)
    ensures History(t) == History(t.(pc := pc))
  {}

  lemma {:induction false} RunInv(t: Tx, ins: seq<In>)
    requires Inv(t) && TxOk(t)
    ensures Inv(TxRun(t, ins))
  {
    hide Inv, TxNext;
    if ins != [] {
      RunInv(t, ins[..|ins| - 1]);
      NextInv(TxRun(t, ins[..|ins| - 1]), ins[|ins| - 1]);
    }
  }

  // Every run, whatever the inputs: what was fetched is an initial piece of the source, every packet is
  // the right one and within its number of attempts; and a call that succeeds has fetched the whole
  // source and returns its length rounded up by less than 1024.
  lemma EveryTransmission(src: seq<bv8>, srcsz: int, onek: bool, mode: bool, ins: seq<In>)
    requires srcsz <= |src|
    ensures var m := TxRun(TxInit(src, srcsz, onek, mode), ins);
            Faithful(m.acts, mode, m.crc) && Paced(m.acts) && FetchedOf(m.acts) <= src &&
            (m.pc.TxDone? && m.pc.code >= 0 && srcsz >= 0 ==>
               srcsz <= m.pc.code < srcsz + 1024 && FetchedOf(m.acts) == src[..srcsz])
  {
    hide StartTrans, TxNext, Faithful, Paced, Packet, Padded, Nth, Block;
    var init := TxInit(src, srcsz, onek, mode);
    assert Inv(init);
    RunInv(init, ins);
    RunSameCall(init, ins);
    NothingYet(mode, TxRun(init, ins).crc);
  }

  lemma NothingYet(mode: bool, crc: int)
    ensures Faithful([], mode, crc) && Paced([]) && FetchedOf([]) == []
  {}

  lemma {:induction false} RunSameCall(t: Tx, ins: seq<In>)
    requires TxOk(t)
    ensures SameCall(t, TxRun(t, ins))
  {
    hide TxNext;
    if ins != [] {
      RunSameCall(t, ins[..|ins| - 1]);
      TxNextKeeps(TxRun(t, ins[..|ins| - 1]), ins[|ins| - 1]);
    }
  }
}
