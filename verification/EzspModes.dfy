/** Messages as they should be read, and the way into the bootloader and out of it: while firmware is being
    upgraded nothing is sent and nothing understood, and no command is lost. */
module EzspModes {
  import opened EzspQueue
  import opened EzspRuns

  // ----- Reading messages

  // A message of the protocol: two bytes (sequence number and frame control), then the identifier in the form of
  // the version, then parameters. Below version 8 a message has at least four bytes, and the identifier is
  // either the third byte, other than 0xFF, or the one behind 0xFF and one more byte.
  ghost predicate Reads(protocol: nat, bytes: seq<bv8>, m: Msg) {
    exists h, x: bv8 :: Layout(protocol, bytes, m, h, x)
  }

  predicate Layout(protocol: nat, bytes: seq<bv8>, m: Msg, h: seq<bv8>, x: bv8) {
    |h| == 2 &&
    if protocol >= 8 then bytes == h + [x, m.cmd, 0x00] + m.payload
    else |bytes| >= 4 && ((m.cmd != 0xFF && bytes == h + [m.cmd] + m.payload) ||
                          bytes == h + [0xFF, x, m.cmd] + m.payload)
  }

  // Every message has one reading at most, and the parser finds it.
  lemma ParseExactly(protocol: nat, bytes: seq<bv8>, m: Msg)
    ensures Parse(protocol, bytes) == Some(m) <==> Reads(protocol, bytes, m)
  {
    hide Parse;
    if Parse(protocol, bytes) == Some(m) { Parsed(protocol, bytes, m); }
    if h, x: bv8 :| Layout(protocol, bytes, m, h, x) { Laid(protocol, bytes, m, h, x); }
  }

  lemma Parsed(protocol: nat, bytes: seq<bv8>, m: Msg)
    requires Parse(protocol, bytes) == Some(m)
    ensures Reads(protocol, bytes, m)
  {
    var h := bytes[..2];
    if protocol >= 8 {
      assert bytes == h + [bytes[2], m.cmd, 0x00] + m.payload;
      assert Layout(protocol, bytes, m, h, bytes[2]);
    } else if bytes[2] == 0xFF {
      var r := bytes[..2] + bytes[4..];
      assert r[2] == bytes[4] && r[3..] == bytes[5..];
      assert bytes == h + [0xFF, bytes[3], m.cmd] + m.payload;
      assert Layout(protocol, bytes, m, h, bytes[3]);
    } else {
      assert bytes == h + [m.cmd] + m.payload;
      assert Layout(protocol, bytes, m, h, 0);
    }
  }

  lemma Laid(protocol: nat, bytes: seq<bv8>, m: Msg, h: seq<bv8>, x: bv8)
    requires Layout(protocol, bytes, m, h, x)
    ensures Parse(protocol, bytes) == Some(m)
  {
    if protocol >= 8 {
      assert bytes[5..] == m.payload;
    } else if bytes == h + [0xFF, x, m.cmd] + m.payload {
      var r := bytes[..2] + bytes[4..];
      assert r[2] == m.cmd && r[3..] == m.payload;
    } else {
      assert bytes[3..] == m.payload;
    }
  }

  // ----- In the bootloader

  // A firmware upgrade is on, or the bootloader's prompt is awaited for it.
  predicate Upgrading(s: State) { s.mode == BOOTLOADER_FIRMWARE_UPGRADE && s.prompt == UPGRADE_FIRMWARE }

  // Nothing leads out: no reconnection, and no request to leave the bootloader.
  predicate StaysInside(events: seq<(Event, bool)>) {
    forall i :: 0 <= i < |events| ==> !Leads(events[i].0)
  }

  predicate Leads(e: Event) {
    e == ConnectedReported || (e.ModeRequested? && (e.mode == EZSP_NCP || e.mode == BOOTLOADER_EXIT_TO_EZSP_NCP))
  }

  function Commands(events: seq<(Event, bool)>): seq<Msg> {
    if events == [] then []
    else Commands(events[..|events| - 1]) +
         if events[|events| - 1].0.Command? then [events[|events| - 1].0.msg] else []
  }

  // Events from a given state on.
  function From(s: State, events: seq<(Event, bool)>): (s': State)
    requires s.seqNum < 256
    ensures s'.seqNum < 256
  {
    if events == [] then s
    else
      var (before, (e, ok)) := (From(s, events[..|events| - 1]), events[|events| - 1]);
      SequenceNumber(before, e, ok);
      Next(before, e, ok)
  }

  lemma NextUpgrading(s: State, e: Event, ok: bool)
    requires Upgrading(s) && !Leads(e) && s.seqNum < 256
    ensures var s' := Next(s, e, ok);
            Upgrading(s') && s'.sent == s.sent && s'.acks == s.acks && s'.received == s.received &&
            s'.waitRsp == (s.waitRsp && e != NackReceived) && s'.queue == s.queue + if e.Command? then [e.msg] else []
  {
    hide Header, Parse;
    assert s.queue + [] == s.queue;
  }

  // Requested from EZSP mode, an upgrade begins at once; then, as long as nothing leads out, whatever is
  // submitted is queued in order, nothing is sent, acknowledged or passed on, and an awaited response stays
  // awaited unless a NACK comes.
  lemma {:induction false} BootloaderIsSilent(s: State, events: seq<(Event, bool)>)
    requires (s.mode == EZSP_NCP || s.mode == UNKNOWN) && s.seqNum < 256 && StaysInside(events)
    ensures var s0 := Next(s, ModeRequested(BOOTLOADER_FIRMWARE_UPGRADE), true); var s' := From(s0, events);
            Upgrading(s') && s'.sent == s.sent && s'.acks == s.acks && s'.received == s.received &&
            s'.waitRsp == (s.waitRsp && NoNack(events)) && s'.queue == s.queue + Commands(events)
  {
    hide Next, Leads;
    Begins(s);
    var s0 := Next(s, ModeRequested(BOOTLOADER_FIRMWARE_UPGRADE), true);
    if events != [] {
      var n := |events| - 1;
      BootloaderIsSilent(s, events[..n]);
      NextUpgrading(From(s0, events[..n]), events[n].0, events[n].1);
      var more := if events[n].0.Command? then [events[n].0.msg] else [];
      assert s.queue + Commands(events[..n]) + more == s.queue + Commands(events);
    }
  }

  lemma Begins(s: State)
    requires (s.mode == EZSP_NCP || s.mode == UNKNOWN) && s.seqNum < 256
    ensures Next(s, ModeRequested(BOOTLOADER_FIRMWARE_UPGRADE), true) ==
            s.(mode := BOOTLOADER_FIRMWARE_UPGRADE, prompt := UPGRADE_FIRMWARE)
  {}

  // The way out: on request, and the bootloader's next prompt, the dongle is in EZSP mode again, with sequence
  // number 0, everything queued still queued; and if no response was awaited, the next command makes it send
  // the oldest one.
  lemma BootloaderIsLeft(s: State, m: Msg)
    requires Upgrading(s) && s.seqNum < 256
    ensures var s' := From(s, [(ModeRequested(BOOTLOADER_EXIT_TO_EZSP_NCP), true), (PromptDetected, true)]);
            s' == s.(mode := EZSP_NCP, prompt := RUN_APPLICATION, seqNum := 0) &&
            (!s.waitRsp ==> |Next(s', Command(m), true).sent| == |s.sent| + 1)
  {
    hide Header, Parse;
    var a, b := (ModeRequested(BOOTLOADER_EXIT_TO_EZSP_NCP), true), (PromptDetected, true);
    assert [a, b][..1] == [a];
    assert From(s, [a][..0]) == s;
    assert From(s, [a]) == Next(s, a.0, true);
    assert From(s, [a, b]) == Next(From(s, [a]), b.0, true);
  }

  // A report that the link is connected does the same at once, without touching the sequence number.
  lemma ReconnectedAtOnce(s: State, m: Msg)
    requires Upgrading(s) && s.seqNum < 256
    ensures var s' := Next(s, ConnectedReported, true);
            s' == s.(mode := EZSP_NCP) && (!s.waitRsp ==> |Next(s', Command(m), true).sent| == |s.sent| + 1)
  {
    hide Header, Parse;
  }

  // Requests that fit neither way change nothing.
  lemma OtherRequestsRefused(s: State, mode: Mode)
    requires s.seqNum < 256
    ensures Next(s, ModeRequested(mode), true) == s <==>
            mode == UNKNOWN ||
            (s.mode == EZSP_NCP && mode != BOOTLOADER_FIRMWARE_UPGRADE) ||
            (s.mode != EZSP_NCP && s.mode != UNKNOWN && mode == BOOTLOADER_FIRMWARE_UPGRADE) ||
            (s.mode == BOOTLOADER_EXIT_TO_EZSP_NCP == mode && s.prompt == RUN_APPLICATION)
  {}
}
