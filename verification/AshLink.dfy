/** Two ASH codecs joined by a line that neither loses nor reorders bytes, in every possible run. */
module AshLink {
  import opened AshFraming
  import opened AshCodec
  import opened AshStream

  // One end: its codec, the payloads it has submitted and those it has been handed.
  datatype End = End(codec: CodecState, sent: seq<seq<bv8>>, received: seq<seq<bv8>>)

  datatype Link = Link(a: End, b: End, ab: seq<bv8>, ba: seq<bv8>)

  // What may happen next, seen from one of the two ends.
  datatype Step =
    | SendData(fromA: bool, payload: seq<bv8>)
    | SendAck(fromA: bool)
    | Deliver(toB: bool, n: nat)    // the next n bytes of the line, in one call

  const IDLE := End(FRESH, [], [])
  const INITIAL := Link(IDLE, IDLE, [], [])

  function Swap(s: Link): Link { Link(s.b, s.a, s.ba, s.ab) }

  // A control frame shows up as an empty payload.
  function NonEmpty(ps: seq<seq<bv8>>): seq<seq<bv8>> {
    if ps == [] then [] else NonEmpty(ps[..|ps| - 1]) + if ps[|ps| - 1] == [] then [] else [ps[|ps| - 1]]
  }

  function Receive(e: End, bytes: seq<bv8>): End {
    var r := Feed(Start(e.codec), bytes);
    e.(codec := r.codec, received := e.received + if r.thrown then [] else NonEmpty(r.extracted))
  }

  predicate Fits(e: End, payload: seq<bv8>) {
    payload != [] && |StuffedData(e.codec.frmNum, e.codec.lastReceivedByNEAckNum, payload)| <= ASH_MAX_LENGTH
  }

  // DATA is never in flight both ways: an end sends only when it has received all the other submitted.
  predicate MaySend(s: Link, payload: seq<bv8>) {
    Fits(s.a, payload) && |s.a.received| == |s.b.sent|
  }

  function DataFromA(s: Link, payload: seq<bv8>): Link {
    if MaySend(s, payload) then
      s.(a := s.a.(codec := Sent(s.a.codec), sent := s.a.sent + [payload]),
         ab := s.ab + StuffedData(s.a.codec.frmNum, s.a.codec.lastReceivedByNEAckNum, payload) + [ASH_FLAG_BYTE])
    else s
  }

  function AckFromA(s: Link): Link {
    s.(ab := s.ab + StuffedAck(s.a.codec.lastReceivedByNEAckNum) + [ASH_FLAG_BYTE])
  }

  function DeliverToB(s: Link, n: nat): Link {
    if n <= |s.ab| then s.(b := Receive(s.b, s.ab[..n]), ab := s.ab[n..]) else s
  }

  function Next(s: Link, step: Step): Link {
    match step
    case SendData(fromA, p) => if fromA then DataFromA(s, p) else Swap(DataFromA(Swap(s), p))
    case SendAck(fromA) => if fromA then AckFromA(s) else Swap(AckFromA(Swap(s)))
    case Deliver(toB, n) => if toB then DeliverToB(s, n) else Swap(DeliverToB(Swap(s), n))
  }

  function Run(s: Link, steps: seq<Step>): Link
    decreases |steps|
  {
    if steps == [] then s else Run(Next(s, steps[0]), steps[1..])
  }

  // ----- What is on the line

  datatype Msg = Data(frm: bv8, ack: bv8, payload: seq<bv8>) | AckMsg(ack: bv8)

  function Stuffed(m: Msg): seq<bv8> {
    match m
    case Data(frm, ack, payload) => StuffedData(frm, ack, payload)
    case AckMsg(ack) => StuffedAck(ack)
  }

  function Wire(ms: seq<Msg>): seq<bv8> {
    if ms == [] then [] else Stuffed(ms[0]) + [ASH_FLAG_BYTE] + Wire(ms[1..])
  }

  function Payloads(ms: seq<Msg>): seq<seq<bv8>> {
    if ms == [] then [] else (if ms[0].Data? then [ms[0].payload] else []) + Payloads(ms[1..])
  }

  // The three-bit number of the n-th frame.
  function Mod8(n: nat): (r: bv8)
    ensures r < 8
  {
    if n == 0 then 0 else NextSeq(Mod8(n - 1))
  }

  // Frames that fit, DATA numbered from n on and acknowledging frame `ack`.
  predicate InOrder(ms: seq<Msg>, n: nat, ack: bv8)
    decreases |ms|
  {
    ms != [] ==>
    |Stuffed(ms[0])| <= ASH_MAX_LENGTH &&
    match ms[0]
    case Data(frm, k, p) => frm == Mod8(n) && k == ack < 8 && p != [] && InOrder(ms[1..], n + 1, ack)
    case AckMsg(k) => k < 8 && InOrder(ms[1..], n, ack)
  }

  // One direction: ms is what the receiver has not processed yet.
  predicate Flow(sent: seq<seq<bv8>>, c: CodecState, received: seq<seq<bv8>>, line: seq<bv8>, ms: seq<Msg>) {
    && BufferOk(c.inMsg)
    && c.inMsg + line == Wire(ms)
    && received + Payloads(ms) == sent
    && c.lastReceivedByNEAckNum == Mod8(|received|)
    && InOrder(ms, |received|, c.nextExpectedFEAckNum)
    && WrongAckNum !in c.log
  }

  predicate SenderOk(e: End) {
    e.codec.frmNum == e.codec.nextExpectedFEAckNum == Mod8(|e.sent|)
  }

  ghost predicate Inv(s: Link) {
    && SenderOk(s.a) && SenderOk(s.b)
    && (|s.b.received| == |s.a.sent| || |s.a.received| == |s.b.sent|)
    && (exists ms :: Flow(s.a.sent, s.b.codec, s.b.received, s.ab, ms))
    && (exists ms :: Flow(s.b.sent, s.a.codec, s.a.received, s.ba, ms))
  }

  // ----- Receiving

  lemma StuffedHasNoControl(m: Msg)
    ensures forall b :: b in Stuffed(m) ==> !IsControl(b)
    ensures Stuffed(m) != []
  {
    hide WithCrc, StuffBody;
    match m
    case Data(frm, ack, p) => StuffedBodyHasNoControl(WithCrc(DataBody(frm, ack, p)));
    case AckMsg(ack) => StuffedBodyHasNoControl(WithCrc([ack | 0x80]));
  }

  // Where the next byte of the line belongs.
  lemma NextByte(buffer: seq<bv8>, line: seq<bv8>, ms: seq<Msg>)
    requires line != [] && buffer + line == Wire(ms)
    requires forall b :: b in buffer ==> !IsControl(b)
    ensures ms != []
    ensures |buffer| < |Stuffed(ms[0])| ==> line[0] == Stuffed(ms[0])[|buffer|]
    ensures |buffer| >= |Stuffed(ms[0])| ==>
            buffer == Stuffed(ms[0]) && line[0] == ASH_FLAG_BYTE && line[1..] == Wire(ms[1..])
  {
    hide Stuffed;
    assert ms != [];
    var w, s := Wire(ms), Stuffed(ms[0]);
    assert line[0] == w[|buffer|];
    assert w[|s|] == ASH_FLAG_BYTE;
    assert forall i :: 0 <= i < |buffer| ==> (buffer + line)[i] in buffer;
    assert |buffer| <= |s|;
    if |buffer| == |s| {
      assert buffer == w[..|s|] == s;
      assert line == w[|s|..];
    }
  }

  lemma NonEmptySnoc(ps: seq<seq<bv8>>, p: seq<bv8>)
    ensures NonEmpty(ps + [p]) == NonEmpty(ps) + if p == [] then [] else [p]
  {
    assert (ps + [p])[..|ps|] == ps;
  }

  // One byte of the line, in a call that has already handed over some payloads.
  lemma ByteReceived(sent: seq<seq<bv8>>, r: Call, before: seq<seq<bv8>>, line: seq<bv8>, ms: seq<Msg>)
    returns (ms': seq<Msg>)
    requires line != [] && !r.inputError && !r.thrown
    requires Flow(sent, r.codec, before + NonEmpty(r.extracted), line, ms)
    ensures var r' := OnByte(r, line[0]);
            !r'.inputError && !r'.thrown && r'.codec.nextExpectedFEAckNum == r.codec.nextExpectedFEAckNum &&
            r'.codec.frmNum == r.codec.frmNum &&
            Flow(sent, r'.codec, before + NonEmpty(r'.extracted), line[1..], ms')
  {
    hide StuffedData, StuffedAck, Process, NextSeq, NonEmpty;
    NextByte(r.codec.inMsg, line, ms);
    var m := ms[0];
    StuffedHasNoControl(m);
    if |r.codec.inMsg| < |Stuffed(m)| {
      ms' := ms;
      assert !IsControl(line[0]);
      assert r.codec.inMsg + [line[0]] + line[1..] == r.codec.inMsg + line;
      assert forall x :: x in r.codec.inMsg + [line[0]] ==> x in r.codec.inMsg || x == line[0];
    } else {
      ms' := ms[1..];
      FrameReceived(sent, r, before, line, ms);
    }
  }

  lemma FrameReceived(sent: seq<seq<bv8>>, r: Call, before: seq<seq<bv8>>, line: seq<bv8>, ms: seq<Msg>)
    requires line != [] && ms != [] && !r.inputError && !r.thrown
    requires Flow(sent, r.codec, before + NonEmpty(r.extracted), line, ms)
    requires r.codec.inMsg == Stuffed(ms[0]) != [] && line[0] == ASH_FLAG_BYTE && line[1..] == Wire(ms[1..])
    ensures var r' := OnFlag(r);
            !r'.inputError && !r'.thrown && r'.codec.nextExpectedFEAckNum == r.codec.nextExpectedFEAckNum &&
            r'.codec.frmNum == r.codec.frmNum &&
            Flow(sent, r'.codec, before + NonEmpty(r'.extracted), line[1..], ms[1..])
  {
    hide NextSeq, NonEmpty, Stuffed, InOrder, Wire, BufferOk, Payloads, Mod8, OnFlag;
    var got := before + NonEmpty(r.extracted);
    HeadInOrder(ms, |got|, r.codec.nextExpectedFEAckNum);
    HeadPayload(ms);
    FlagProcessed(r, ms[0]);
    EmptyBufferOk();
    assert [] + line[1..] == line[1..];
    var p := if ms[0].Data? then ms[0].payload else [];
    NonEmptySnoc(r.extracted, p);
    if ms[0].Data? {
      Mod8Next(|got|);
      assert before + NonEmpty(r.extracted + [p]) == got + [p];
      assert got + [p] + Payloads(ms[1..]) == got + ([p] + Payloads(ms[1..]));
    } else {
      assert before + NonEmpty(r.extracted + [p]) == got;
    }
  }

  lemma Mod8Next(n: nat)
    ensures Mod8(n + 1) == NextSeq(Mod8(n))
  {
    hide NextSeq;
  }

  lemma HeadPayload(ms: seq<Msg>)
    requires ms != []
    ensures Payloads(ms) == (if ms[0].Data? then [ms[0].payload] else []) + Payloads(ms[1..])
    ensures !ms[0].Data? ==> Payloads(ms) == Payloads(ms[1..])
  {
    assert [] + Payloads(ms[1..]) == Payloads(ms[1..]);
  }

  // What the flag behind a whole frame does to a call.
  lemma FlagProcessed(r: Call, m: Msg)
    requires !r.inputError && !r.thrown && r.codec.inMsg == Stuffed(m) != []
    requires if m.Data? then m.frm < 8 && m.ack < 8 && m.ack == r.codec.nextExpectedFEAckNum else m.ack < 8
    ensures OnFlag(r) ==
            if m.Data?
            then r.(codec := Log(r.codec, [AckTimerCancelled]).(lastReceivedByNEAckNum := NextSeq(m.frm), inMsg := []),
                    extracted := r.extracted + [m.payload])
            else r.(codec := Log(r.codec, [AckTimerCancelled, Ack]).(inMsg := []), extracted := r.extracted + [[]])
  {
    hide Process, NextSeq, Stuffed;
    FrameProcessed(r.codec, m);
  }

  lemma EmptyBufferOk()
    ensures BufferOk([])
  {}

  lemma HeadInOrder(ms: seq<Msg>, n: nat, ack: bv8)
    requires ms != [] && InOrder(ms, n, ack)
    ensures match ms[0]
            case Data(frm, k, p) => frm == Mod8(n) && k == ack < 8 && p != [] && InOrder(ms[1..], n + 1, ack)
            case AckMsg(k) => k < 8 && InOrder(ms[1..], n, ack)
  {}

  lemma FrameProcessed(c: CodecState, m: Msg)
    requires c.inMsg == Stuffed(m)
    ensures m.Data? && m.frm < 8 && m.ack < 8 ==>
            var noted := if c.nextExpectedFEAckNum == m.ack then AckTimerCancelled else WrongAckNum;
            Process(c) == Payload(Log(c, [noted]).(lastReceivedByNEAckNum := NextSeq(m.frm)), m.payload)
    ensures m.AckMsg? && m.ack < 8 ==> Process(c) == Payload(Log(c, [AckTimerCancelled, Ack]), [])
  {
    hide Process, NextSeq, WithCrc, StuffBody;
    match m
    case Data(frm, ack, p) =>
      if frm < 8 && ack < 8 { ProcessForged(c, frm, ack, p); }
    case AckMsg(ack) =>
      if ack < 8 {
        ProcessControl(c, [ack | 0x80]);
        assert (ack | 0x80) & 0x80 != 0 && (ack | 0x80) & 0x60 == 0;
      }
  }

  lemma {:induction false} BytesReceived(sent: seq<seq<bv8>>, r: Call, before: seq<seq<bv8>>, line: seq<bv8>,
                                         ms: seq<Msg>, n: nat)
    returns (ms': seq<Msg>)
    requires n <= |line| && !r.inputError && !r.thrown
    requires Flow(sent, r.codec, before + NonEmpty(r.extracted), line, ms)
    ensures var r' := Feed(r, line[..n]);
            !r'.thrown && r'.codec.nextExpectedFEAckNum == r.codec.nextExpectedFEAckNum &&
                r'.codec.frmNum == r.codec.frmNum &&
            Flow(sent, r'.codec, before + NonEmpty(r'.extracted), line[n..], ms')
    decreases n
  {
    hide OnByte, NonEmpty, Flow;
    if n == 0 {
      ms' := ms;
      assert line[0..] == line;
    } else {
      ms' := ByteReceived(sent, r, before, line, ms);
      assert line[..n][1..] == line[1..][..n - 1] && line[n..] == line[1..][n - 1..] && line[..n][0] == line[0];
      ms' := BytesReceived(sent, OnByte(r, line[0]), before, line[1..], ms', n - 1);
    }
  }

  // ----- Sending

  lemma {:induction false} Appended(ms: seq<Msg>, m: Msg, n: nat, ack: bv8)
    ensures Wire(ms + [m]) == Wire(ms) + Stuffed(m) + [ASH_FLAG_BYTE]
    ensures Payloads(ms + [m]) == Payloads(ms) + if m.Data? then [m.payload] else []
    ensures InOrder(ms, n, ack) && InOrder([m], n + |Payloads(ms)|, ack) ==> InOrder(ms + [m], n, ack)
    decreases |ms|
  {
    hide Stuffed, Mod8;
    if ms == [] {
      assert ms + [m] == [m] && [m][1..] == [];
    } else {
      assert (ms + [m])[1..] == ms[1..] + [m];
      Appended(ms[1..], m, if ms[0].Data? then n + 1 else n, ack);
    }
  }

  // With no DATA among them the frames acknowledge nothing.
  lemma {:induction false} NoDataNoAck(ms: seq<Msg>, n: nat, ack: bv8, other: bv8)
    requires Payloads(ms) == [] && InOrder(ms, n, ack)
    ensures InOrder(ms, n, other)
    decreases |ms|
  {
    hide Stuffed, Mod8;
    if ms != [] {
      NoDataNoAck(ms[1..], n, ack, other);
    }
  }

  lemma FrameSent(sent: seq<seq<bv8>>, c: CodecState, received: seq<seq<bv8>>, line: seq<bv8>, ms: seq<Msg>, m: Msg)
    requires Flow(sent, c, received, line, ms)
    requires InOrder([m], |sent|, c.nextExpectedFEAckNum)
    ensures Flow(sent + if m.Data? then [m.payload] else [], c, received, line + Stuffed(m) + [ASH_FLAG_BYTE], ms + [m])
  {
    hide InOrder, Payloads, Wire, Stuffed;
    Appended(ms, m, |received|, c.nextExpectedFEAckNum);
    assert c.inMsg + (line + Stuffed(m) + [ASH_FLAG_BYTE]) == (c.inMsg + line) + Stuffed(m) + [ASH_FLAG_BYTE];
  }

  // ----- Every step

  lemma DataFromAKeeps(s: Link, payload: seq<bv8>)
    requires Inv(s)
    ensures Inv(DataFromA(s, payload))
  {
    hide StuffedData, BufferOk, InOrder, Payloads, Wire, Mod8, NextSeq;
    if MaySend(s, payload) {
      var t := DataFromA(s, payload);
      var ab :| Flow(s.a.sent, s.b.codec, s.b.received, s.ab, ab);
      var ba :| Flow(s.b.sent, s.a.codec, s.a.received, s.ba, ba);
      var m := Data(s.a.codec.frmNum, s.a.codec.lastReceivedByNEAckNum, payload);
      NewData(m, |s.a.sent|, s.b.codec.nextExpectedFEAckNum);
      FrameSent(s.a.sent, s.b.codec, s.b.received, s.ab, ab, m);
      NothingLeft(s.a.received, ba, s.b.sent);
      NoDataNoAck(ba, |s.a.received|, s.a.codec.nextExpectedFEAckNum, t.a.codec.nextExpectedFEAckNum);
      Mod8Next(|s.a.sent|);
      assert Flow(t.a.sent, t.b.codec, t.b.received, t.ab, ab + [m]);
      assert Flow(t.b.sent, t.a.codec, t.a.received, t.ba, ba);
    }
  }

  // A new DATA frame numbered n.
  lemma NewData(m: Msg, n: nat, ack: bv8)
    requires m.Data? && m.frm == Mod8(n) && m.ack == ack && ack < 8 && m.payload != [] && |Stuffed(m)| <= ASH_MAX_LENGTH
    ensures InOrder([m], n, ack)
  {
    hide Stuffed, Mod8;
    assert [m][1..] == [];
    assert InOrder([], n + 1, ack);
  }

  lemma NothingLeft(received: seq<seq<bv8>>, ms: seq<Msg>, sent: seq<seq<bv8>>)
    requires received + Payloads(ms) == sent && |received| == |sent|
    ensures Payloads(ms) == []
  {
    hide Payloads;
    assert |Payloads(ms)| == 0;
  }

  lemma AckFromAKeeps(s: Link)
    requires Inv(s)
    ensures Inv(AckFromA(s))
  {
    hide BufferOk, WithCrc, StuffBody;
    var ab :| Flow(s.a.sent, s.b.codec, s.b.received, s.ab, ab);
    var m := AckMsg(s.a.codec.lastReceivedByNEAckNum);
    assert |Stuffed(m)| <= ASH_MAX_LENGTH;
    assert [m][1..] == [];
    assert InOrder([], |s.a.sent|, s.b.codec.nextExpectedFEAckNum);
    assert InOrder([m], |s.a.sent|, s.b.codec.nextExpectedFEAckNum);
    FrameSent(s.a.sent, s.b.codec, s.b.received, s.ab, ab, m);
    assert s.a.sent + [] == s.a.sent;
  }

  lemma DeliverToBKeeps(s: Link, n: nat)
    requires Inv(s)
    ensures Inv(DeliverToB(s, n))
  {
    hide BufferOk, InOrder, Feed;
    if n <= |s.ab| {
      var t := DeliverToB(s, n);
      var ab :| Flow(s.a.sent, s.b.codec, s.b.received, s.ab, ab);
      var r := Start(s.b.codec);
      assert s.b.received + NonEmpty(r.extracted) == s.b.received;
      ab := BytesReceived(s.a.sent, r, s.b.received, s.ab, ab, n);
      assert Flow(t.a.sent, t.b.codec, t.b.received, t.ab, ab);
      assert |s.b.received| <= |t.b.received| <= |s.a.sent|;
    }
  }

  lemma {:induction false} RunKeeps(s: Link, steps: seq<Step>)
    requires Inv(s)
    ensures Inv(Run(s, steps))
    decreases |steps|
  {
    hide DataFromA, AckFromA, DeliverToB, Flow;
    if steps != [] {
      match steps[0] {
        case SendData(fromA, p) => DataFromAKeeps(if fromA then s else Swap(s), p);
        case SendAck(fromA) => AckFromAKeeps(if fromA then s else Swap(s));
        case Deliver(toB, n) => DeliverToBKeeps(if toB then s else Swap(s), n);
      }
      RunKeeps(Next(s, steps[0]), steps[1..]);
    }
  }

  lemma DrainedLine(sent: seq<seq<bv8>>, c: CodecState, received: seq<seq<bv8>>, ms: seq<Msg>)
    requires Flow(sent, c, received, [], ms)
    ensures received == sent && c.inMsg == []
  {
    hide Stuffed, InOrder;
    assert c.inMsg + [] == c.inMsg;
    if ms != [] {
      WireHasFlag(ms);
    }
  }

  lemma WireHasFlag(ms: seq<Msg>)
    requires ms != []
    ensures ASH_FLAG_BYTE in Wire(ms)
  {
    hide Stuffed;
    assert Wire(ms)[|Stuffed(ms[0])|] == ASH_FLAG_BYTE;
  }

  // In every run of two fresh codecs, over any number of wraps of the sequence numbers: each end has
  // been handed a prefix of what the other submitted, all of it once the line is empty, and no DATA
  // frame ever acknowledged a frame its receiver did not expect.
  lemma ExactlyOnceInOrder(steps: seq<Step>)
    ensures var s := Run(INITIAL, steps);
            s.b.received <= s.a.sent && s.a.received <= s.b.sent &&
            (s.ab == [] ==> s.b.received == s.a.sent) && (s.ba == [] ==> s.a.received == s.b.sent) &&
            WrongAckNum !in s.a.codec.log && WrongAckNum !in s.b.codec.log
  {
    hide BufferOk, InOrder, Next, Wire;
    assert Inv(INITIAL) by { StartsOk(); }
    RunKeeps(INITIAL, steps);
    var s := Run(INITIAL, steps);
    var ab :| Flow(s.a.sent, s.b.codec, s.b.received, s.ab, ab);
    var ba :| Flow(s.b.sent, s.a.codec, s.a.received, s.ba, ba);
    if s.ab == [] { DrainedLine(s.a.sent, s.b.codec, s.b.received, ab); }
    if s.ba == [] { DrainedLine(s.b.sent, s.a.codec, s.a.received, ba); }
  }

  lemma StartsOk()
    ensures Inv(INITIAL)
  {
    assert Flow([], FRESH, [], [], []);
  }
}
