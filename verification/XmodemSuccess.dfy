/** A transfer over a line without faults succeeds, for every source: the receiver holds all of it, and both ends
    say so. */
module XmodemSuccess {
  import opened Xmodem
  import opened XmodemIo
  import opened XmodemSend
  import XmodemPacing
  import opened XmodemProtocol
  import opened XmodemSafety
  import opened XmodemProgress

  // The sender has put EOT on the line behind the last block.
  predicate EotSent(s: Sys) {
    TxOk(s.tx) && s.tx.pc == TxEot && s.queue == [Sending(s.cur, [EOT])] && s.rx.pc == RxWait
  }

  // The ACK of the last block is read, and EOT is sent.
  lemma LastAnswered(s: Sys, n: nat)
    requires JustSent(s, n) && Off(SourceOf(s.tx), n + 1) >= s.tx.srcsz
    ensures TxOk(s.tx) && TxOk(Next(s, Deliver).tx)
    ensures var s2 := Next(Next(s, Deliver), ReadReply); EotSent(s2) && SourceOf(s2.tx) == SourceOf(s.tx)
  {
    hide RxRun, Packet, Content, Capped, XmodemPacing.Nth, NextNo, Numbered, Entry, Place, RxPcOk, RxMoves, Emitted;
    BlockTaken(s, n);
    InvTxOk(s, n);
    var s1 := Next(s, Deliver);
    var s0 := s1.(reply := Sending(s.cur, []));
    assert [ACK][1..] == [];
    assert Next(s1, ReadReply) == TxReads(s0, Byte(ACK));
    InReply(s.tx, Byte(ACK));
    var a := Advance(s.tx);
    AtTheEnd(s.tx, n);
    Started(a);
    EmittedIs(s.tx, StartTrans(a), [SendEot]);
    LineOfEot();
    assert [] + [Sending(s.cur + 1, [EOT])] == [Sending(s.cur + 1, [EOT])];
  }

  lemma AtTheEnd(t: Tx, n: nat)
    requires TxOk(t) && TxAt(t, n) && t.len < t.srcsz && Off(SourceOf(t), n + 1) >= t.srcsz
    ensures Advance(t).len >= t.srcsz
  {
    hide Packet, Content, XmodemPacing.Nth, NextNo;
  }

  lemma LineOfEot()
    ensures LineOf([SendEot]) == [EOT]
  {
    assert [SendEot][..0] == [];
  }

  // EOT arrives, and its ACK is read.
  lemma EotAnswered(s: Sys)
    requires EotSent(s)
    ensures TxOk(Next(s, Deliver).tx)
    ensures var s2 := Next(Next(s, Deliver), ReadReply); s2.tx.pc == TxDone(s.tx.len) && s2.rx.pc.RxDone?
  {
    hide RxRun;
    var s1 := Next(s, Deliver);
    EotArrives(s.rx);
    AnsweredOne(s.rx, RxRun(s.rx, Bytes([EOT])));
    assert [ACK][1..] == [];
    var s0 := s1.(reply := s1.reply.(bytes := []));
    InEot(s0.tx, Byte(ACK));
  }

  // From any block on: packet, answer, and so on to the end.
  lemma {:induction false} Finish(s: Sys, n: nat) returns (steps: seq<Step>)
    requires JustSent(s, n) && TxOk(s.tx)
    ensures var e := Run(s, steps); e.tx.pc.TxDone? && e.tx.pc.code >= 0
    ensures forall i :: 0 <= i < |steps| ==> steps[i] == Deliver || steps[i] == ReadReply
    decreases s.tx.srcsz - Off(SourceOf(s.tx), n)
  {
    hide Next, JustSent, Off;
    Longer(s, n);
    if Off(SourceOf(s.tx), n + 1) < s.tx.srcsz {
      NextSent(s, n);
      TwoSteps(s, Deliver, ReadReply);
      NextOk(s, Deliver);
      NextOk(Next(s, Deliver), ReadReply);
      var rest := Finish(Next(Next(s, Deliver), ReadReply), n + 1);
      steps := [Deliver, ReadReply] + rest;
      RunAppend(s, [Deliver, ReadReply], rest);
    } else {
      LastAnswered(s, n);
      TwoSteps(s, Deliver, ReadReply);
      var s2 := Next(Next(s, Deliver), ReadReply);
      TwoSteps(s2, Deliver, ReadReply);
      EotAnswered(s2);
      steps := [Deliver, ReadReply] + [Deliver, ReadReply];
      RunAppend(s, [Deliver, ReadReply], [Deliver, ReadReply]);
    }
  }

  lemma Longer(s: Sys, n: nat)
    requires JustSent(s, n)
    ensures Off(SourceOf(s.tx), n) < Off(SourceOf(s.tx), n + 1) && Off(SourceOf(s.tx), n) < s.tx.srcsz
  {
    hide Packet, Content, XmodemPacing.Nth, Block;
  }

  // Every source that is not empty, in CRC or checksum mode, has a run of deliveries and answers alone at whose end
  // the sender returns a length and the receiver holds the whole padded source, as far as it fits.
  lemma CleanTransfer(src: seq<bv8>, srcsz: int, onek: bool, destsz: int, withCrc: bool) returns (steps: seq<Step>)
    requires 0 < srcsz <= |src|
    ensures forall i :: 0 <= i < |steps| ==> steps[i] == Deliver || steps[i] == ReadReply
    ensures TxOk(Agreed(src, srcsz, onek, destsz, withCrc).tx)
    ensures var s := Run(Agreed(src, srcsz, onek, destsz, withCrc), steps);
            s.tx.pc.TxDone? && s.tx.pc.code >= 0 && Succeeded(s.rx) &&
            s.rx.stored == Capped(destsz, Full(Source(src, srcsz, onek, false)))
  {
    hide Next, JustSent, Agreed, Run, InStep, Capped, Full;
    FirstSent(src, srcsz, onek, destsz, withCrc);
    var s0 := Agreed(src, srcsz, onek, destsz, withCrc);
    JustSentOk(s0, 0);
    steps := Finish(s0, 0);
    EveryTransfer(src, srcsz, onek, destsz, withCrc, steps);
  }
}
