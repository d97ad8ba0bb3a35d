/** The frames that the dongle hands to the ASH layer, byte by byte, in every run: sequence number, frame
    control and identifier in the form of the adapter's protocol version, and parameters. */
module EzspFrames {
  import opened EzspQueue
  import opened EzspRuns
  import ByteNumbers

  // A frame as it should be: the count of frames built before it since the last reset, the protocol version
  // known then (0 for none) and the command.
  datatype Frame = Frame(number: nat, protocol: nat, msg: Msg)

  predicate Shows(bytes: seq<bv8>, f: Frame) {
    && |bytes| >= 3 && bytes[0] as int == f.number % 256 && bytes[1] == 0x00
    && bytes[2..] == (if f.protocol >= 8 then [0x01, f.msg.cmd, 0x00]
                      else if f.protocol != 0 && f.msg.cmd != 0x00 then [0xFF, 0x00, f.msg.cmd]
                      else [f.msg.cmd]) + f.msg.payload
  }

  // An event on which a frame is built: a command, when no response is awaited; the answer to the head, when
  // another command is queued; a NACK, when one is.
  predicate Builds(s: State, e: Event) {
    && (s.mode == EZSP_NCP || s.mode == UNKNOWN)
    && match e
       case Command(_) => !s.waitRsp
       case Data(_) => AnswersHead(s, e) && |s.queue| > 1
       case NackReceived => s.queue != []
       case _ => false
  }

  function Built(s: State, e: Event): Msg
    requires Builds(s, e)
  {
    match e
    case Command(m) => (s.queue + [m])[0]
    case Data(_) => s.queue[1]
    case NackReceived => s.queue[0]
  }

  // The protocol version last made known, 0 if none was.
  function KnownVersion(events: seq<(Event, bool)>): nat {
    if events == [] then 0
    else if events[|events| - 1].0.VersionKnown? then events[|events| - 1].0.protocol
    else KnownVersion(events[..|events| - 1])
  }

  // Frames built since the last reset, and the frames that were written.
  datatype Track = Track(built: nat, frames: seq<Frame>)

  function Tracked(events: seq<(Event, bool)>): Track {
    if events == [] then Track(0, [])
    else
      var n := |events| - 1;
      var (t, s, e) := (Tracked(events[..n]), Run(events[..n]).s, events[n].0);
      Track(if Resets(s, e) then 0 else if Builds(s, e) then t.built + 1 else t.built,
            if Builds(s, e) && events[n].1
            then t.frames + [Frame(t.built, KnownVersion(events[..n]), Built(s, e))]
            else t.frames)
  }

  lemma SendNextIs(s: State, ok: bool)
    requires s.seqNum < 256
    ensures var s' := SendNext(s, ok);
            if InEzspMode(s) && !s.waitRsp && s.queue != []
            then s'.seqNum == (s.seqNum + 1) % 256 && s'.protocol == s.protocol &&
                 s'.sent == s.sent + if ok then [Header(s.protocol, s.seqNum, s.queue[0].cmd) + s.queue[0].payload]
                                     else []
            else s' == s
  {
    hide Header;
  }

  // One event: what it writes, and what becomes of the sequence number.
  lemma EventWrites(s: State, e: Event, ok: bool)
    requires s.seqNum < 256
    ensures var s' := Next(s, e, ok);
            s'.seqNum == (if Resets(s, e) then 0 else if Builds(s, e) then (s.seqNum + 1) % 256 else s.seqNum) &&
            s'.protocol == (if e.VersionKnown? then e.protocol else s.protocol) &&
            s'.sent == s.sent + if Builds(s, e) && ok
                                then [Header(s.protocol, s.seqNum, Built(s, e).cmd) + Built(s, e).payload] else []
  {
    hide Header, Parse, SendNext;
    if e.Command? { SendNextIs(s.(queue := s.queue + [e.msg]), ok); }
    if e.NackReceived? { SendNextIs(s.(waitRsp := false), ok); }
    if e.Data? && AnswersHead(s, e) {
      SendNextIs(s.(acks := s.acks + 1, queue := s.queue[1..], waitRsp := false), ok);
    }
  }

  lemma FrameShows(number: nat, protocol: nat, m: Msg, seqNum: nat)
    requires seqNum == number % 256
    ensures Shows(Header(protocol, seqNum, m.cmd) + m.payload, Frame(number, protocol, m))
  {
    ByteNumbers.Cast(seqNum);
  }

  // In every run, whichever writes fail and whenever mode, protocol version and sequence number change: the
  // frames written are the commands built for, each under the count of frames built since the last reset,
  // modulo 256, and in the form of the protocol version known at its time.
  lemma {:induction false} EveryFrame(events: seq<(Event, bool)>)
    ensures var s := Run(events).s; var t := Tracked(events);
            s.protocol == KnownVersion(events) && s.seqNum == t.built % 256 && |s.sent| == |t.frames| &&
            forall i :: 0 <= i < |s.sent| ==> Shows(s.sent[i], t.frames[i])
  {
    hide Next, Header, Shows, Builds, Built, Resets;
    if events != [] {
      var n := |events| - 1;
      var s, t, e := Run(events[..n]).s, Tracked(events[..n]), events[n].0;
      EveryFrame(events[..n]);
      EventWrites(s, e, events[n].1);
      StateRecorded(Run(events[..n]), e, events[n].1);
      NextCount(t.built);
      if Builds(s, e) { FrameShows(t.built, s.protocol, Built(s, e), s.seqNum); }
    }
  }

  predicate NoReset(events: seq<(Event, bool)>) {
    forall i :: 0 <= i < |events| ==> !Resets(Run(events[..i]).s, events[i].0)
  }

  // When every write succeeds, the count is that of the frames written: without a reset the i-th frame has
  // sequence number i modulo 256.
  lemma NumberedInTurn(events: seq<(Event, bool)>)
    requires Successful(events) && NoReset(events)
    ensures var s := Run(events).s;
            forall i :: 0 <= i < |s.sent| ==> s.sent[i] != [] && s.sent[i][0] as int == i % 256
  {
    hide Run, Tracked, Builds, Built, Resets;
    EveryFrame(events);
    CountsWritten(events);
    var s, t := Run(events).s, Tracked(events);
    forall i | 0 <= i < |s.sent| ensures s.sent[i] != [] && s.sent[i][0] as int == i % 256 {
      assert Shows(s.sent[i], t.frames[i]);
    }
  }

  lemma {:induction false} CountsWritten(events: seq<(Event, bool)>)
    requires Successful(events) && NoReset(events)
    ensures var t := Tracked(events);
            t.built == |t.frames| && forall i :: 0 <= i < |t.frames| ==> t.frames[i].number == i
  {
    hide Run, Builds, Built, Resets;
    if events != [] {
      var n := |events| - 1;
      assert forall i :: 0 <= i < n ==> events[..n][..i] == events[..i] && events[..n][i] == events[i];
      CountsWritten(events[..n]);
      assert !Resets(Run(events[..n]).s, events[n].0) && events[n].1;
    }
  }

  // And with resets, the numbers go up by one or start over.
  lemma {:induction false} NumberedSinceReset(events: seq<(Event, bool)>)
    requires Successful(events)
    ensures var t := Tracked(events);
            t.built == Run(events).sinceReset &&
            (t.built == 0 || (t.frames != [] && t.frames[|t.frames| - 1].number + 1 == t.built)) &&
            (t.frames != [] ==> t.frames[0].number == 0) &&
            forall i :: 0 < i < |t.frames| ==> t.frames[i].number in {0, t.frames[i - 1].number + 1}
  {
    hide Next, Header, Builds, Built, Resets;
    if events != [] {
      var n := |events| - 1;
      NumberedSinceReset(events[..n]);
      EventWrites(Run(events[..n]).s, events[n].0, events[n].1);
      assert events[n].1;
      ResetsBuildNothing(Run(events[..n]).s, events[n].0);
    }
  }

  lemma ResetsBuildNothing(s: State, e: Event)
    ensures Resets(s, e) ==> !Builds(s, e)
  {}
}
