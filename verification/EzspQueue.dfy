/** The command queue of the EZSP dongle: one command outstanding, resent on a NACK, removed by its
    response; and the EZSP frame header, written for commands and parsed from messages. */
module EzspQueue {

  const EZSP_VERSION: bv8 := 0x00
  const EZSP_LAUNCH_STANDALONE_BOOTLOADER: bv8 := 0x8F

  datatype Mode = UNKNOWN | EZSP_NCP | BOOTLOADER_FIRMWARE_UPGRADE | BOOTLOADER_EXIT_TO_EZSP_NCP

  // What the bootloader prompt, once detected, makes the dongle do.
  datatype PromptAction = NO_ACTION | RUN_APPLICATION | UPGRADE_FIRMWARE

  datatype Msg = Msg(cmd: bv8, payload: seq<bv8>)

  // protocol is the EZSP protocol version of the adapter, 0 while unknown. sent: the frames handed to
  // the ASH layer; acks: how often it was told to acknowledge; received: what observers were notified of.
  datatype State = State(
    mode: Mode, prompt: PromptAction, protocol: nat, seqNum: nat, queue: seq<Msg>, waitRsp: bool,
    sent: seq<seq<bv8>>, acks: nat, received: seq<Msg>)

  const FRESH := State(UNKNOWN, NO_ACTION, 0, 0, [], false, [], 0, [])

  predicate InEzspMode(s: State) { s.mode == EZSP_NCP || s.mode == UNKNOWN }

  // ----- The frame header (section 3 of the EZSP reference guide, UG100)

  function SeqByte(n: nat): bv8
    requires n < 256
  {
    n as bv8
  }

  function Header(protocol: nat, seqNum: nat, cmd: bv8): (h: seq<bv8>)
    requires seqNum < 256
    ensures 3 <= |h| <= 5
  {
    var start := [SeqByte(seqNum), 0x00];
    if protocol >= 8 then start + [0x01, cmd, 0x00]
    else if protocol != 0 && cmd != EZSP_VERSION then start + [0xFF, 0x00, cmd]
    else start + [cmd]
  }

  datatype Option<T> = None | Some(value: T)

  function Parse(protocol: nat, m: seq<bv8>): Option<Msg> {
    if protocol >= 8 then
      if |m| < 5 || m[4] != 0 then None else Some(Msg(m[3], m[5..]))
    else if |m| < 4 then None
    else
      var r := if m[2] == 0xFF then m[..2] + m[4..] else m;
      if |r| < 3 then None else Some(Msg(r[2], r[3..]))
  }

  // A message framed as the command it answers is understood if and only if it is not a three-byte
  // legacy frame without parameters, nor a legacy frame whose identifier is 0xFF.
  lemma HeaderRoundTrip(protocol: nat, seqNum: nat, cmd: bv8, payload: seq<bv8>)
    requires seqNum < 256
    ensures Parse(protocol, Header(protocol, seqNum, cmd) + payload) == Some(Msg(cmd, payload)) <==>
            protocol >= 8 || (protocol != 0 && cmd != EZSP_VERSION) || (payload != [] && cmd != 0xFF)
  {
    var h := Header(protocol, seqNum, cmd);
    var m := h + payload;
    if protocol >= 8 {
      assert m[5..] == payload;
    } else if protocol != 0 && cmd != EZSP_VERSION {
      var r := m[..2] + m[4..];
      assert r[2] == m[4] == cmd && r[3..] == payload;
    } else {
      assert m[2] == cmd && m[3..] == payload;
      if |m| >= 4 && cmd == 0xFF {
        assert |m[..2] + m[4..]| == |m| - 2;
      }
    }
  }

  // ----- Events

  // sendNextMsg; ok is whether the write to the serial port succeeds.
  function SendNext(s: State, ok: bool): State
    requires s.seqNum < 256
  {
    if !InEzspMode(s) || s.waitRsp || s.queue == [] then s
    else
      var m := s.queue[0];
      var s' := s.(seqNum := (s.seqNum + 1) % 256);
      if ok then s'.(waitRsp := true, sent := s.sent + [Header(s.protocol, s.seqNum, m.cmd) + m.payload]) else s'
  }

  function Submit(s: State, m: Msg, ok: bool): State
    requires s.seqNum < 256
  {
    SendNext(s.(queue := s.queue + [m]), ok)
  }

  function Respond(s: State, cmd: bv8, ok: bool): State
    requires s.seqNum < 256
  {
    if s.queue != [] && s.queue[0].cmd == cmd then SendNext(s.(queue := s.queue[1..], waitRsp := false), ok) else s
  }

  function Receive(s: State, bytes: seq<bv8>, ok: bool): State
    requires s.seqNum < 256
  {
    if !InEzspMode(s) then s
    else match Parse(s.protocol, bytes)
      case None => s
      case Some(m) =>
        var s' := if m.cmd == EZSP_LAUNCH_STANDALONE_BOOTLOADER then s else Respond(s.(acks := s.acks + 1), m.cmd, ok);
        s'.(received := s'.received + [m])
  }

  function Nack(s: State, ok: bool): State
    requires s.seqNum < 256
  {
    SendNext(s.(waitRsp := false), ok)
  }

  function Reset(s: State): State { s.(seqNum := 0) }

  // Out of the bootloader, or into its firmware upgrade; other requests are refused.
  function SetMode(s: State, requested: Mode): State {
    if s.mode != EZSP_NCP && (requested == EZSP_NCP || requested == BOOTLOADER_EXIT_TO_EZSP_NCP)
    then s.(mode := requested, prompt := RUN_APPLICATION)
    else if InEzspMode(s) && requested == BOOTLOADER_FIRMWARE_UPGRADE
    then s.(mode := requested, prompt := UPGRADE_FIRMWARE)
    else s
  }

  function Prompt(s: State): State {
    match s.prompt
    case NO_ACTION => s
    case RUN_APPLICATION => Reset(s.(mode := EZSP_NCP))
    case UPGRADE_FIRMWARE => s.(mode := BOOTLOADER_FIRMWARE_UPGRADE)
  }

  // ----- The object

  class EzspDongle {
    var lastKnownMode: Mode
    var promptAction: PromptAction
    var ezspProtocolVersion: nat
    var ezspSeqNum: nat
    var sendingMsgQueue: seq<Msg>
    var wait_rsp: bool
    var sent: seq<seq<bv8>>
    var acks: nat
    var received: seq<Msg>

    constructor ()
      ensures Value() == FRESH
    {
      lastKnownMode, promptAction, ezspProtocolVersion, ezspSeqNum := UNKNOWN, NO_ACTION, 0, 0;
      sendingMsgQueue, wait_rsp, sent, acks, received := [], false, [], 0, [];
    }

    function Value(): State
      reads this
    {
      State(lastKnownMode, promptAction, ezspProtocolVersion, ezspSeqNum, sendingMsgQueue, wait_rsp, sent, acks,
          received)
    }

    method SendNextMsg(ok: bool)
      requires ezspSeqNum < 256
      modifies this
      ensures Value() == SendNext(old(Value()), ok) && ezspSeqNum < 256
    {
      if lastKnownMode != EZSP_NCP && lastKnownMode != UNKNOWN { return; }
      if !wait_rsp && sendingMsgQueue != [] {
        var l_msg := sendingMsgQueue[0];
        var ezspMessage := BuildMessage(l_msg);
        if ok {
          sent := sent + [ezspMessage];
          wait_rsp := true;
        }
      }
    }

    method BuildMessage(m: Msg) returns (ezspMessage: seq<bv8>)
      requires ezspSeqNum < 256
      modifies this`ezspSeqNum
      ensures ezspMessage == Header(ezspProtocolVersion, old(ezspSeqNum), m.cmd) + m.payload
      ensures ezspSeqNum == (old(ezspSeqNum) + 1) % 256
    {
      hide SeqByte;
      ezspMessage := [SeqByte(ezspSeqNum)];
      ezspSeqNum := (ezspSeqNum + 1) % 256;
      ezspMessage := ezspMessage + [0x00];
      ezspMessage := AppendFrameId(ezspMessage, m.cmd);
      ezspMessage := ezspMessage + m.payload;
    }

    // What follows the sequence number and the frame control byte.
    method AppendFrameId(start: seq<bv8>, cmd: bv8) returns (h: seq<bv8>)
      ensures h == start + if ezspProtocolVersion >= 8 then [0x01, cmd, 0x00]
                           else if ezspProtocolVersion != 0 && cmd != EZSP_VERSION then [0xFF, 0x00, cmd] else [cmd]
    {
      h := start;
      if ezspProtocolVersion >= 8 {
        h := h + [0x01];
      }
      if cmd != EZSP_VERSION && ezspProtocolVersion != 0 && ezspProtocolVersion < 8 {
        h := h + [0xFF];
        h := h + [0x00];
      }
      h := h + [cmd];
      if ezspProtocolVersion >= 8 {
        h := h + [0x00];
      }
    }

    method SendCommand(cmd: bv8, payload: seq<bv8>, ok: bool)
      requires ezspSeqNum < 256
      modifies this
      ensures Value() == Submit(old(Value()), Msg(cmd, payload), ok) && ezspSeqNum < 256
    {
      sendingMsgQueue := sendingMsgQueue + [Msg(cmd, payload)];
      SendNextMsg(ok);
    }

    method HandleResponse(cmd: bv8, ok: bool)
      requires ezspSeqNum < 256
      modifies this
      ensures Value() == Respond(old(Value()), cmd, ok) && ezspSeqNum < 256
    {
      if sendingMsgQueue != [] {
        var l_msgQ := sendingMsgQueue[0];
        if l_msgQ.cmd == cmd {
          sendingMsgQueue := sendingMsgQueue[1..];
          wait_rsp := false;
          SendNextMsg(ok);
        }
      }
    }

    method HandleInputData(data: seq<bv8>, ok: bool)
      requires ezspSeqNum < 256
      modifies this
      ensures Value() == Receive(old(Value()), data, ok) && ezspSeqNum < 256
    {
      hide Parse, Respond;
      if lastKnownMode != EZSP_NCP && lastKnownMode != UNKNOWN { return; }
      var m := ParseMessage(data);
      if m == None { return; }
      if m.value.cmd != EZSP_LAUNCH_STANDALONE_BOOTLOADER {
        acks := acks + 1;
        HandleResponse(m.value.cmd, ok);
      }
      received := received + [m.value];
    }

    // The command and the parameters of a message, by erasing its header.
    method ParseMessage(data: seq<bv8>) returns (m: Option<Msg>)
      ensures m == Parse(ezspProtocolVersion, data)
    {
      var ezspMessage := data;
      var cmd;
      if ezspProtocolVersion >= 8 {
        if |ezspMessage| < 5 { return None; }
        if ezspMessage[4] != 0 { return None; }
        cmd := ezspMessage[3];
        ezspMessage := ezspMessage[5..];
      } else {
        if |ezspMessage| < 4 { return None; }
        if ezspMessage[2] == 0xFF {
          ezspMessage := ezspMessage[..2] + ezspMessage[4..];
        }
        if |ezspMessage| < 3 { return None; }
        cmd := ezspMessage[2];
        ezspMessage := ezspMessage[3..];
      }
      m := Some(Msg(cmd, ezspMessage));
    }

    method AshNack(ok: bool)
      requires ezspSeqNum < 256
      modifies this
      ensures Value() == Nack(old(Value()), ok) && ezspSeqNum < 256
    {
      wait_rsp := false;
      SendNextMsg(ok);
    }

    method AshConnected()
      requires ezspSeqNum < 256
      modifies this`lastKnownMode
      ensures Value() == Next(old(Value()), ConnectedReported, true)
    {
      lastKnownMode := EZSP_NCP;
    }

    // reset(), as far as the queue is concerned.
    method ResetDongle()
      requires ezspSeqNum < 256
      modifies this`ezspSeqNum
      ensures Value() == Next(old(Value()), ResetRequested, true)
    {
      ezspSeqNum := 0;
    }

    method SetDongleMode(requestedMode: Mode)
      requires ezspSeqNum < 256
      modifies this`lastKnownMode, this`promptAction
      ensures Value() == Next(old(Value()), ModeRequested(requestedMode), true)
    {
      if lastKnownMode != EZSP_NCP && (requestedMode == EZSP_NCP || requestedMode == BOOTLOADER_EXIT_TO_EZSP_NCP) {
        lastKnownMode := requestedMode;
        promptAction := RUN_APPLICATION;
        return;
      }
      if (lastKnownMode == EZSP_NCP || lastKnownMode == UNKNOWN) && requestedMode == BOOTLOADER_FIRMWARE_UPGRADE {
        lastKnownMode := requestedMode;
        promptAction := UPGRADE_FIRMWARE;
      }
    }

    // The callback registered by setMode().
    method HandleBootloaderPrompt()
      requires ezspSeqNum < 256
      modifies this
      ensures Value() == Next(old(Value()), PromptDetected, true)
    {
      if promptAction == RUN_APPLICATION {
        lastKnownMode := EZSP_NCP;
        ResetDongle();
      } else if promptAction == UPGRADE_FIRMWARE {
        lastKnownMode := BOOTLOADER_FIRMWARE_UPGRADE;
      }
    }
  }

  // ----- Everything that can happen

  datatype Event =
    | Command(msg: Msg)
    | Data(bytes: seq<bv8>)
    | NackReceived
    | ConnectedReported
    | VersionKnown(protocol: nat)
    | ResetRequested
    | ModeRequested(mode: Mode)
    | PromptDetected

  function Next(s: State, e: Event, ok: bool): State
    requires s.seqNum < 256
  {
    match e
    case Command(m) => Submit(s, m, ok)
    case Data(bytes) => Receive(s, bytes, ok)
    case NackReceived => Nack(s, ok)
    case ConnectedReported => s.(mode := EZSP_NCP)
    case VersionKnown(v) => s.(protocol := v)
    case ResetRequested => Reset(s)
    case ModeRequested(mode) => SetMode(s, mode)
    case PromptDetected => Prompt(s)
  }
}
