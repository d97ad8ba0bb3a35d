/** The ASH v2 link codec: forging frames, decoding what lies between two flags, and the streaming
    deframer. The codec's fields and everything it tells its owner are one value, CodecState; the
    class Codec updates them in place. */
module AshCodec {
  import opened AshFraming
  import Crc

  const ASH_MAX_LENGTH := 131

  // What the codec does to the world: ack timer cancellations, ashCbInfo notifications, and the
  // complaint about a DATA frame that acknowledges another frame than the last one sent.
  datatype Event = AckTimerCancelled | Ack | Nack | Disconnected | Connected | WrongAckNum

  datatype CodecState = CodecState(
    nextExpectedFEAckNum: bv8,
    frmNum: bv8,
    lastReceivedByNEAckNum: bv8,
    connected: bool,
    inMsg: seq<bv8>,
    log: seq<Event>)

  const FRESH := CodecState(0, 0, 0, false, [], [])

  predicate ValidState(c: CodecState) {
    c.nextExpectedFEAckNum < 8 && c.frmNum < 8 && c.lastReceivedByNEAckNum < 8
  }

  function NextSeq(n: bv8): bv8 { (n + 1) & 0x07 }

  // ----- Frames

  function WithCrc(body: seq<bv8>): (f: seq<bv8>)
    ensures |f| == |body| + 2
  {
    var crc := Crc.CrcFrom(Crc.ASH_CRC_INIT, body);
    body + [Crc.Hi(crc), Crc.Lo(crc)]
  }

  predicate ResidueIsZero(f: seq<bv8>) {
    Crc.CrcFrom(Crc.ASH_CRC_INIT, f) == Crc.Zeros(16)
  }

  function DataControl(frm: bv8, ack: bv8): bv8 { (frm << 4) | (ack & 0x07) }

  function DataBody(frm: bv8, ack: bv8, payload: seq<bv8>): (body: seq<bv8>)
    ensures |body| == 1 + |payload|
  {
    [DataControl(frm, ack)] + Whiten(LFSR_SEED, payload)
  }

  // What a DATA frame puts on the line before its closing flag.
  function StuffedData(frm: bv8, ack: bv8, payload: seq<bv8>): seq<bv8> {
    StuffBody(WithCrc(DataBody(frm, ack, payload)))
  }

  function StuffedAck(ack: bv8): seq<bv8> { StuffBody(WithCrc([ack | 0x80])) }

  function StuffedReset(): seq<bv8> { StuffBody(WithCrc([0xC0])) }

  lemma ForgedResidue(body: seq<bv8>)
    ensures ResidueIsZero(WithCrc(body))
  {
    hide Crc.CrcFrom, Crc.Hi, Crc.Lo;
    var crc := Crc.CrcFrom(Crc.ASH_CRC_INIT, body);
    Crc.HiLo(crc);
    Crc.ResidueZero(Crc.ASH_CRC_INIT, body, Crc.Hi(crc), Crc.Lo(crc));
  }

  // ----- Decoding one frame

  datatype Outcome = Payload(codec: CodecState, payload: seq<bv8>) | OutOfRange

  function Log(c: CodecState, events: seq<Event>): CodecState { c.(log := c.log + events) }

  // The reset codes that make a connection.
  predicate Restarted(code: bv8) { code == 0x0b || code == 0x09 || code == 0x02 }

  // The frame body d, its CRC already checked and removed.
  function Interpret(c: CodecState, d: seq<bv8>): Outcome
    requires d != []
  {
    var control := d[0];
    if control & 0x80 == 0 then
      var noted := if c.nextExpectedFEAckNum != control & 0x07 then WrongAckNum else AckTimerCancelled;
      Payload(Log(c, [noted]).(lastReceivedByNEAckNum := NextSeq((control >> 4) & 0x07)), Whiten(LFSR_SEED, d[1..]))
    else if control & 0x60 == 0 then
      Payload(Log(c, [AckTimerCancelled, Ack]), [])
    else if control & 0x60 == 0x20 then
      Payload(Log(c, [AckTimerCancelled, Nack]).(frmNum := control & 0x07), [])
    else if control == 0xC0 then
      Payload(Log(c, [AckTimerCancelled]), [])
    else if control == 0xC1 then
      if |d| < 3 then OutOfRange
      else if d[1] == 2 && !c.connected && Restarted(d[2]) then
        Payload(Log(c, [AckTimerCancelled, Connected]).(connected := true), [])
      else Payload(c, [])
    else Payload(c, [])
  }

  function Process(c: CodecState): Outcome {
    var f := Unstuff(false, c.inMsg);
    if |f| < 3 || !ResidueIsZero(f) then Payload(c, []) else Interpret(c, f[..|f| - 2])
  }

  // ----- The deframer

  // One call of appendIncoming in progress; inputError lives no longer than the call.
  datatype Call = Call(codec: CodecState, inputError: bool, extracted: seq<seq<bv8>>, thrown: bool)

  function Start(c: CodecState): Call { Call(c, false, [], false) }

  function Cleared(r: Call): Call { r.(codec := r.codec.(inMsg := []), inputError := false) }

  function OnFlag(r: Call): Call {
    if r.inputError || r.codec.inMsg == [] then Cleared(r)
    else match Process(r.codec)
      case Payload(c, p) => Cleared(r.(codec := c, extracted := r.extracted + [p]))
      case OutOfRange => r.(thrown := true)
  }

  function OnOrdinary(r: Call, b: bv8): Call {
    if |r.codec.inMsg| >= ASH_MAX_LENGTH then r.(codec := r.codec.(inMsg := [b]), inputError := true)
    else r.(codec := r.codec.(inMsg := r.codec.inMsg + [b]))
  }

  function OnByte(r: Call, b: bv8): Call {
    if b == ASH_CANCEL_BYTE then Cleared(r)
    else if b == ASH_FLAG_BYTE then OnFlag(r)
    else if b == ASH_SUBSTITUTE_BYTE then r.(inputError := true)
    else if b == ASH_XON_BYTE || b == ASH_OFF_BYTE then r
    else OnOrdinary(r, b)
  }

  function Feed(r: Call, bytes: seq<bv8>): Call
    decreases |bytes|
  {
    if bytes == [] || r.thrown then r else Feed(OnByte(r, bytes[0]), bytes[1..])
  }

  // What an exception leaves in the caller's buffer.
  function Unread(r: Call, bytes: seq<bv8>): (rest: seq<bv8>)
    ensures |rest| <= |bytes|
    ensures |rest| == |bytes| ==> bytes == [] || r.thrown
    decreases |bytes|
  {
    if bytes == [] || r.thrown then bytes else Unread(OnByte(r, bytes[0]), bytes[1..])
  }

  lemma {:induction false} FeedAppend(r: Call, a: seq<bv8>, b: seq<bv8>)
    ensures Feed(r, a + b) == Feed(Feed(r, a), b)
    ensures !Feed(r, a).thrown ==> Unread(r, a + b) == Unread(Feed(r, a), b)
    decreases |a|
  {
    hide OnByte;
    if a == [] {
      assert a + b == b;
    } else if !r.thrown {
      FeedAppend(OnByte(r, a[0]), a[1..], b);
      assert (a + b)[1..] == a[1..] + b;
    }
  }

  // ----- The object

  class Codec {
    var nextExpectedFEAckNum: bv8
    var frmNum: bv8
    var lastReceivedByNEAckNum: bv8
    var stateConnected: bool
    var in_msg: seq<bv8>
    var log: seq<Event>

    constructor ()
      ensures State() == FRESH
    {
      nextExpectedFEAckNum, frmNum, lastReceivedByNEAckNum := 0, 0, 0;
      stateConnected, in_msg, log := false, [], [];
    }

    function State(): CodecState
      reads this
    {
      CodecState(nextExpectedFEAckNum, frmNum, lastReceivedByNEAckNum, stateConnected, in_msg, log)
    }

    method Notify(events: seq<Event>)
      modifies this`log
      ensures log == old(log) + events
    {
      log := log + events;
    }

    method ForgeResetNCPFrame() returns (frame: seq<bv8>)
      modifies this
      ensures State() == Log(FRESH, old(log) + [AckTimerCancelled, Disconnected]).(inMsg := old(in_msg))
      ensures frame == [ASH_CANCEL_BYTE] + StuffedReset() + [ASH_FLAG_BYTE]
    {
      hide WithCrc;
      nextExpectedFEAckNum := 0;
      lastReceivedByNEAckNum := 0;
      frmNum := 0;
      stateConnected := false;
      Notify([AckTimerCancelled]);
      Notify([Disconnected]);
      frame := Enclose([0xC0]);
      frame := [ASH_CANCEL_BYTE] + frame;
    }

    method ForgeAckFrame() returns (frame: seq<bv8>)
      ensures frame == StuffedAck(lastReceivedByNEAckNum) + [ASH_FLAG_BYTE]
      ensures lastReceivedByNEAckNum < 8 ==>
                var f := Unstuff(false, frame[..|frame| - 1]);
                |f| == 3 && f[0] & 0x07 == lastReceivedByNEAckNum && f[0] & 0xF8 == 0x80
    {
      hide WithCrc, StuffBody, Unstuff;
      if lastReceivedByNEAckNum < 8 { AckOnTheLine(lastReceivedByNEAckNum); }
      frame := Enclose([lastReceivedByNEAckNum | 0x80]);
    }

    method ForgeDataFrame(data: seq<bv8>) returns (frame: seq<bv8>)
      requires |data| <= 255
      modifies this
      ensures State() == Sent(old(State()))
      ensures frame == StuffedData(old(frmNum), old(lastReceivedByNEAckNum), data) + [ASH_FLAG_BYTE]
    {
      hide WithCrc, Whiten;
      var ashControlByte := (frmNum << 4) | (lastReceivedByNEAckNum & 0x07);
      frmNum := frmNum + 1;
      frmNum := frmNum & 0x07;
      nextExpectedFEAckNum := frmNum;
      var whitened := DataRandomize(data, 0);
      assert data[0..] == data;
      frame := Enclose([ashControlByte] + whitened);
    }

    // processInterFlagStream; thrown stands for std::out_of_range.
    method ProcessInterFlagStream() returns (msg: seq<bv8>, thrown: bool)
      requires |in_msg| <= 255
      modifies this
      ensures Process(old(State())) == if thrown then OutOfRange else Payload(State(), msg)
      ensures in_msg == old(in_msg)
      ensures thrown ==> State() == old(State())
    {
      hide Whiten, Unstuff, NextSeq, Crc.CrcFrom;
      thrown := false;
      msg := RemoveByteStuffing(in_msg);
      UnstuffShortens(false, in_msg);
      if |msg| < 3 { return [], false; }
      var crc := Crc.ComputeCRC(msg);
      if crc != Crc.Zeros(16) { return [], false; }
      msg := msg[..|msg| - 2];
      var ashControlByte := msg[0];
      if ashControlByte & 0x80 == 0 {
        msg := DataFrame(msg);
      } else if ashControlByte & 0x60 == 0 {
        msg := [];
        Notify([AckTimerCancelled, Ack]);
      } else if ashControlByte & 0x60 == 0x20 {
        frmNum := ashControlByte & 0x07;
        msg := [];
        Notify([AckTimerCancelled, Nack]);
      } else if ashControlByte == 0xC0 {
        msg := [];
        Notify([AckTimerCancelled]);
      } else if ashControlByte == 0xC1 {
        if |msg| < 3 { return msg, true; }
        var version := msg[1];
        var resetCode := msg[2];
        msg := [];
        if version != 2 { return; }
        if !stateConnected && (resetCode == 0x0b || resetCode == 0x09 || resetCode == 0x02) {
          stateConnected := true;
          Notify([AckTimerCancelled, Connected]);
        }
      } else {
        msg := [];
      }
    }

    // The DATA branch.
    method DataFrame(msg: seq<bv8>) returns (payload: seq<bv8>)
      requires 1 <= |msg| <= 255 && msg[0] & 0x80 == 0
      modifies this
      ensures Interpret(old(State()), msg) == Payload(State(), payload)
      ensures in_msg == old(in_msg)
    {
      hide Whiten;
      var remoteAckNum := (msg[0] & 0x0F) & 0x07;
      var remoteFrmNum := (msg[0] >> 4) & 0x07;
      assert remoteAckNum == msg[0] & 0x07;
      if nextExpectedFEAckNum != remoteAckNum {
        Notify([WrongAckNum]);
      } else {
        Notify([AckTimerCancelled]);
      }
      lastReceivedByNEAckNum := remoteFrmNum + 1;
      lastReceivedByNEAckNum := lastReceivedByNEAckNum & 0x07;
      payload := DataRandomize(msg, 1);
    }

    // appendIncoming consumes its argument from the front; rest is what is left of it. An exception
    // loses the payloads extracted so far.
    method AppendIncoming(data: seq<bv8>) returns (payloads: seq<seq<bv8>>, rest: seq<bv8>, thrown: bool)
      requires |in_msg| <= ASH_MAX_LENGTH
      modifies this
      ensures var r := Feed(Start(old(State())), data);
              State() == r.codec && thrown == r.thrown && (!thrown ==> payloads == r.extracted)
      ensures rest == Unread(Start(old(State())), data)
    {
      hide Process;
      var inputError := false;
      payloads, rest, thrown := [], data, false;
      while rest != [] && !thrown
        invariant |in_msg| <= ASH_MAX_LENGTH
        invariant Feed(Call(State(), inputError, payloads, thrown), rest) == Feed(Start(old(State())), data)
        invariant Unread(Call(State(), inputError, payloads, thrown), rest) == Unread(Start(old(State())), data)
        decreases |rest|
      {
        ghost var before := Call(State(), inputError, payloads, thrown);
        var val := rest[0];
        rest := rest[1..];
        if val == ASH_CANCEL_BYTE {
          in_msg := [];
          inputError := false;
        } else if val == ASH_FLAG_BYTE {
          var p;
          if !inputError && in_msg != [] {
            p, thrown := ProcessInterFlagStream();
            if !thrown { payloads := payloads + [p]; }
          }
          if !thrown {
            in_msg := [];
            inputError := false;
          }
        } else if val == ASH_SUBSTITUTE_BYTE {
          inputError := true;
        } else if val == ASH_XON_BYTE || val == ASH_OFF_BYTE {
        } else {
          if |in_msg| >= ASH_MAX_LENGTH {
            in_msg := [];
            inputError := true;
          }
          in_msg := in_msg + [val];
        }
        assert Call(State(), inputError, payloads, thrown) == OnByte(before, val);
      }
    }
  }

  // The codec after it has forged a DATA frame.
  function Sent(c: CodecState): CodecState {
    c.(frmNum := NextSeq(c.frmNum), nextExpectedFEAckNum := NextSeq(c.frmNum))
  }

  method Enclose(body: seq<bv8>) returns (frame: seq<bv8>)
    ensures frame == StuffBody(WithCrc(body)) + [ASH_FLAG_BYTE]
  {
    hide Crc.CrcFrom, Crc.Hi, Crc.Lo;
    var crc := Crc.ComputeCRC(body);
    frame := AddByteStuffing(body + [Crc.Hi(crc), Crc.Lo(crc)]);
  }

  lemma {:induction false} UnstuffShortens(escape: bool, s: seq<bv8>)
    ensures |Unstuff(escape, s)| <= |s|
    decreases |s|
  {
    if s != [] {
      UnstuffShortens(false, s[1..]);
      UnstuffShortens(true, s[1..]);
    }
  }

  // ----- Frames on the line, in numbers

  // The bytes of a frame behind its stuffing: control byte, data field, and the CRC of both, which is the
  // remainder of their bits times X^16 with the first sixteen of these inverted, high byte first.
  predicate Framed(line: seq<bv8>, control: int, data: seq<bv8>) {
    var f := Unstuff(false, line);
    |f| == |data| + 3 && f[0] as int == control && f[1..|data| + 1] == data &&
    Crc.OfBytes(f[|f| - 2], f[|f| - 1]) ==
    Crc.LongDivision(Crc.FirstInverted(Crc.Bits(f[..|data| + 1]) + Crc.Zeros(16)))
  }

  lemma BodyOnTheLine(control: bv8, data: seq<bv8>)
    ensures Framed(StuffBody(WithCrc([control] + data)), control as int, data)
    ensures Unstuff(false, StuffBody(WithCrc([control] + data))) == WithCrc([control] + data)
  {
    hide Crc.CrcFrom, Crc.Hi, Crc.Lo, Crc.Bits, Crc.LongDivision, StuffBody, Unstuff;
    var body := [control] + data;
    StuffingRoundTrip(WithCrc(body));
    Crc.HiLo(Crc.CrcFrom(Crc.ASH_CRC_INIT, body));
    Crc.AshCrcIsRemainder(body);
    assert WithCrc(body)[..|data| + 1] == body && body[1..] == data;
  }

  // An ACK names the frame expected next.
  lemma AckOnTheLine(ack: bv8)
    requires ack < 8
    ensures Framed(StuffedAck(ack), 0x80 + ack as int, [])
    ensures var f := Unstuff(false, StuffedAck(ack)); |f| == 3 && f[0] & 0x07 == ack && f[0] & 0xF8 == 0x80
  {
    hide Crc.CrcFrom, Crc.Hi, Crc.Lo, StuffBody, Unstuff;
    BodyOnTheLine(ack | 0x80, []);
    assert [ack | 0x80] + [] == [ack | 0x80];
  }

  // A DATA frame holds its number in bits 4 to 6, the frame expected next in bits 0 to 2, and its payload
  // whitened from 0x42 on.
  lemma DataOnTheLine(frm: bv8, ack: bv8, p: seq<bv8>)
    requires frm < 8 && ack < 8
    ensures Framed(StuffedData(frm, ack, p), 16 * frm as int + ack as int, Whiten(0x42, p))
  {
    hide Crc.CrcFrom, Crc.Hi, Crc.Lo, StuffBody, Unstuff, Whiten, Framed, WithCrc;
    BodyOnTheLine(DataControl(frm, ack), Whiten(0x42, p));
  }

  lemma ResetOnTheLine()
    ensures Framed(StuffedReset(), 0xC0, [])
  {
    hide Crc.CrcFrom, Crc.Hi, Crc.Lo, StuffBody, Unstuff, Framed, WithCrc;
    BodyOnTheLine(0xC0, []);
    assert [0xC0 as bv8] + [] == [0xC0];
  }

  // ----- One frame over the line

  // Ordinary bytes pile up in the buffer.
  lemma {:induction false} FeedOrdinary(r: Call, body: seq<bv8>)
    requires !r.thrown && |r.codec.inMsg| + |body| <= ASH_MAX_LENGTH
    requires forall b :: b in body ==> !IsControl(b)
    ensures Feed(r, body) == r.(codec := r.codec.(inMsg := r.codec.inMsg + body))
    decreases |body|
  {
    if body != [] {
      assert !IsControl(body[0]);
      var r' := OnOrdinary(r, body[0]);
      assert OnByte(r, body[0]) == r';
      FeedOrdinary(r', body[1..]);
      assert r.codec.inMsg + body == r'.codec.inMsg + body[1..];
    } else {
      assert r.codec.inMsg + body == r.codec.inMsg;
    }
  }

  // More of them than fit leave an input error behind.
  lemma {:induction false} FeedTooLong(r: Call, body: seq<bv8>)
    requires !r.thrown && (r.inputError || |r.codec.inMsg| + |body| > ASH_MAX_LENGTH >= |r.codec.inMsg|)
    requires forall b :: b in body ==> !IsControl(b)
    ensures var e := Feed(r, body);
            e.inputError && e == r.(codec := r.codec.(inMsg := e.codec.inMsg), inputError := true)
    decreases |body|
  {
    if body != [] {
      assert !IsControl(body[0]);
      assert OnByte(r, body[0]) == OnOrdinary(r, body[0]);
      FeedTooLong(OnOrdinary(r, body[0]), body[1..]);
    }
  }

  // What arrives between two delimiters, free of control bytes, is processed if and only if it fits in the
  // buffer; otherwise it leaves no trace.
  lemma BodyArrives(r: Call, s: seq<bv8>)
    requires !r.thrown && !r.inputError && r.codec.inMsg == [] && s != []
    requires forall b :: b in s ==> !IsControl(b)
    ensures Feed(r, s + [ASH_FLAG_BYTE]) ==
            if |s| <= ASH_MAX_LENGTH then OnFlag(r.(codec := r.codec.(inMsg := s))) else r
  {
    hide Process;
    FeedAppend(r, s, [ASH_FLAG_BYTE]);
    var e := Feed(r, s);
    assert [ASH_FLAG_BYTE][1..] == [];
    assert !e.thrown ==> Feed(e, [ASH_FLAG_BYTE]) == OnFlag(e);
    if |s| <= ASH_MAX_LENGTH {
      FeedOrdinary(r, s);
      assert [] + s == s;
    } else {
      FeedTooLong(r, s);
      assert OnFlag(e) == Cleared(e);
    }
  }

  // So is a whole forged frame, by the length of its stuffed form.
  lemma FrameArrives(r: Call, f: seq<bv8>)
    requires !r.thrown && !r.inputError && r.codec.inMsg == [] && f != []
    ensures Feed(r, StuffBody(f) + [ASH_FLAG_BYTE]) ==
            if |StuffBody(f)| <= 131 then OnFlag(r.(codec := r.codec.(inMsg := StuffBody(f)))) else r
  {
    hide OnFlag, Process, Feed;
    StuffedBodyHasNoControl(f);
    BodyArrives(r, StuffBody(f));
  }

  lemma ControlFields(frm: bv8, ack: bv8)
    requires frm < 8 && ack < 8
    ensures DataControl(frm, ack) & 0x80 == 0
    ensures DataControl(frm, ack) & 0x07 == ack && (DataControl(frm, ack) >> 4) & 0x07 == frm
  {}

  // What a receiver makes of a forged DATA frame held in its buffer.
  lemma ProcessForged(c: CodecState, frm: bv8, ack: bv8, p: seq<bv8>)
    requires frm < 8 && ack < 8 && c.inMsg == StuffedData(frm, ack, p)
    ensures var noted := if c.nextExpectedFEAckNum == ack then AckTimerCancelled else WrongAckNum;
            Process(c) == Payload(Log(c, [noted]).(lastReceivedByNEAckNum := NextSeq(frm)), p)
  {
    hide Crc.CrcFrom, Crc.Hi, Crc.Lo, StuffBody, Unstuff, Whiten, NextSeq, DataControl;
    var body := DataBody(frm, ack, p);
    ForgedResidue(body);
    StuffingRoundTrip(WithCrc(body));
    ControlFields(frm, ack);
    WhitenInvolution(LFSR_SEED, p);
    assert WithCrc(body)[..|body|] == body;
    assert body[1..] == Whiten(LFSR_SEED, p);
  }

  // The layered round trip: CRC, stuffing, whitening and flags. A DATA frame forged by a codec and
  // fed to a deframer that has just processed a FLAG or CANCEL delivers exactly its payload, and the
  // receiver will acknowledge the following frame -- if and only if the stuffed frame fits.
  lemma DataRoundTrip(r: Call, frm: bv8, ack: bv8, p: seq<bv8>)
    requires frm < 8 && ack < 8
    requires !r.thrown && !r.inputError && r.codec.inMsg == []
    ensures var noted := if r.codec.nextExpectedFEAckNum == ack then AckTimerCancelled else WrongAckNum;
            Feed(r, StuffedData(frm, ack, p) + [ASH_FLAG_BYTE]) ==
            if |StuffedData(frm, ack, p)| <= 131
            then r.(codec := Log(r.codec, [noted]).(lastReceivedByNEAckNum := NextSeq(frm)),
                extracted := r.extracted + [p])
            else r
  {
    hide WithCrc, StuffBody, Process, NextSeq, Feed;
    var f := WithCrc(DataBody(frm, ack, p));
    FrameArrives(r, f);
    ProcessForged(r.codec.(inMsg := StuffBody(f)), frm, ack, p);
  }

  // Every payload of at most 62 bytes fits, whatever its bytes are.
  lemma ShortPayloadsFit(frm: bv8, ack: bv8, p: seq<bv8>)
    requires |p| <= 62
    ensures |StuffedData(frm, ack, p)| <= ASH_MAX_LENGTH
  {
    hide StuffBody;
  }

  lemma ProcessControl(c: CodecState, body: seq<bv8>)
    requires body != [] && c.inMsg == StuffBody(WithCrc(body))
    ensures Process(c) == Interpret(c, body)
  {
    hide Crc.CrcFrom, Crc.Hi, Crc.Lo, StuffBody, Unstuff, Interpret;
    ForgedResidue(body);
    StuffingRoundTrip(WithCrc(body));
    assert WithCrc(body)[..|body|] == body;
  }

  // An ACK frame tells its receiver just that; a reset frame, its own CANCEL first, is recognised
  // after any noise on the line.
  lemma AckRoundTrip(r: Call, ack: bv8)
    requires ack < 8 && !r.thrown && !r.inputError && r.codec.inMsg == []
    ensures Feed(r, StuffedAck(ack) + [ASH_FLAG_BYTE]) ==
            r.(codec := Log(r.codec, [AckTimerCancelled, Ack]), extracted := r.extracted + [[]])
  {
    hide WithCrc, StuffBody, Process, Feed;
    var f := WithCrc([ack | 0x80]);
    FrameArrives(r, f);
    assert (ack | 0x80) & 0x80 != 0 && (ack | 0x80) & 0x60 == 0;
    ProcessControl(r.codec.(inMsg := StuffBody(f)), [ack | 0x80]);
  }

  lemma ResetRoundTrip(r: Call)
    requires !r.thrown
    ensures Feed(r, [ASH_CANCEL_BYTE] + StuffedReset() + [ASH_FLAG_BYTE]) ==
            r.(codec := Log(r.codec.(inMsg := []), [AckTimerCancelled]), inputError := false,
            extracted := r.extracted + [[]])
  {
    hide WithCrc, StuffBody, Process;
    var f := WithCrc([0xC0]);
    var frame := StuffBody(f) + [ASH_FLAG_BYTE];
    assert [ASH_CANCEL_BYTE] + StuffedReset() + [ASH_FLAG_BYTE] == [ASH_CANCEL_BYTE] + frame;
    assert ([ASH_CANCEL_BYTE] + frame)[1..] == frame;
    FrameArrives(Cleared(r), f);
    ProcessControl(Cleared(r).codec.(inMsg := StuffBody(f)), [0xC0]);
  }

  // The NAK of a frame makes it the next one to be forged.
  lemma NakArrives(r: Call, n: bv8)
    requires n < 8 && !r.thrown && !r.inputError && r.codec.inMsg == []
    ensures Feed(r, StuffBody(WithCrc([n | 0xA0])) + [ASH_FLAG_BYTE]) ==
            r.(codec := Log(r.codec, [AckTimerCancelled, Nack]).(frmNum := n), extracted := r.extracted + [[]])
  {
    hide WithCrc, StuffBody, Process, Feed;
    var f := WithCrc([n | 0xA0]);
    FrameArrives(r, f);
    assert (n | 0xA0) & 0x80 != 0 && (n | 0xA0) & 0x60 == 0x20 && (n | 0xA0) & 0x07 == n;
    ProcessControl(r.codec.(inMsg := StuffBody(f)), [n | 0xA0]);
  }

  // A reset acknowledgement connects an unconnected codec if and only if it is of version 2 and carries one
  // of the three codes of a restart; in all other cases nothing changes.
  lemma ResetAckArrives(r: Call, version: bv8, code: bv8)
    requires !r.thrown && !r.inputError && r.codec.inMsg == []
    ensures Feed(r, StuffBody(WithCrc([0xC1, version, code])) + [ASH_FLAG_BYTE]) ==
            r.(codec := if version == 2 && !r.codec.connected && (code == 0x02 || code == 0x09 || code == 0x0B)
                        then Log(r.codec, [AckTimerCancelled, Connected]).(connected := true) else r.codec,
               extracted := r.extracted + [[]])
  {
    hide WithCrc, StuffBody, Process, Feed, Whiten;
    var f := WithCrc([0xC1, version, code]);
    FrameArrives(r, f);
    FitsAlways([0xC1, version, code]);
    ProcessControl(r.codec.(inMsg := StuffBody(f)), [0xC1, version, code]);
  }

  // Any other frame with a control byte above 0x7F, such as an ERROR frame, changes nothing.
  lemma OtherArrives(r: Call, control: bv8, data: seq<bv8>)
    requires control & 0x80 != 0 && control & 0x60 != 0x00 && control & 0x60 != 0x20
    requires control != 0xC0 && control != 0xC1 && |data| <= 62
    requires !r.thrown && !r.inputError && r.codec.inMsg == []
    ensures Feed(r, StuffBody(WithCrc([control] + data)) + [ASH_FLAG_BYTE]) == r.(extracted := r.extracted + [[]])
  {
    hide WithCrc, StuffBody, Process, Feed, Whiten;
    var body := [control] + data;
    FrameArrives(r, WithCrc(body));
    FitsAlways(body);
    ProcessControl(r.codec.(inMsg := StuffBody(WithCrc(body))), body);
  }

  lemma FitsAlways(body: seq<bv8>)
    requires |body| <= 63
    ensures |StuffBody(WithCrc(body))| <= ASH_MAX_LENGTH
  {
    hide StuffBody;
  }

  // Any history that ends in a FLAG or a CANCEL leaves an empty buffer and no input error.
  lemma AfterDelimiter(r: Call, history: seq<bv8>, d: bv8)
    requires d == ASH_FLAG_BYTE || d == ASH_CANCEL_BYTE
    ensures var e := Feed(r, history + [d]); !e.thrown ==> e.codec.inMsg == [] && !e.inputError
  {
    hide Process;
    FeedAppend(r, history, [d]);
    assert [d][1..] == [];
  }

  // ----- Errors on the line

  // A frame that was damaged within sixteen consecutive bits delivers nothing and leaves the codec as it was.
  lemma BurstRejected(c: CodecState, good: seq<bv8>, k: nat)
    requires ResidueIsZero(good)
    requires var bad := Unstuff(false, c.inMsg);
             |bad| == |good| && bad != good && k + 16 <= 8 * |good| &&
             forall i :: 0 <= i < 8 * |good| && !(k <= i < k + 16) ==> Crc.Bits(good)[i] == Crc.Bits(bad)[i]
    ensures Process(c) == Payload(c, [])
  {
    hide Crc.CrcFrom, Interpret;
    Crc.BurstDetected(Crc.ASH_CRC_INIT, good, Unstuff(false, c.inMsg), k);
  }

  lemma OddErrorRejected(c: CodecState, good: seq<bv8>)
    requires ResidueIsZero(good)
    requires var bad := Unstuff(false, c.inMsg);
             |bad| == |good| && Crc.Odd(Crc.Xor(Crc.Bits(good), Crc.Bits(bad)))
    ensures Process(c) == Payload(c, [])
  {
    hide Crc.CrcFrom, Interpret;
    Crc.OddErrorDetected(Crc.ASH_CRC_INIT, good, Unstuff(false, c.inMsg));
  }
}
