/** The start-up of the library: version negotiation, leaving and forming a Zigbee network, and starting
    the Green Power sink, under every order of messages and calls. */
module LibStart {

  const EZSP_MIN := 6
  const EZSP_MAX := 8
  const STACK_TYPE_MESH := 2
  const EMBER_SUCCESS := 0x00
  const EMBER_NO_NETWORK := 0x00
  const EMBER_NETWORK_UP := 0x90
  const STATUS_CHANNEL_CHANGED := 155

  // requestZbNetworkResetToChannel: 0 to keep the network, -1 to leave it for good, or a channel.
  const KEEP_NETWORK := 0
  const LEAVE_ONLY := 0xFFFF_FFFF

  datatype LibState =
    | UNINITIALIZED | WAIT_DONGLE_READY | GETTING_EZSP_VERSION | GETTING_XNCP_INFO | STACK_INIT | READY
    | INIT_FAILED | SINK_BUSY | FORM_NWK_IN_PROGRESS | LEAVE_NWK_IN_PROGRESS | SWITCHING_TO_BOOTLOADER_MODE
    | IN_XMODEM_XFR | SCANNING | TERMINATING

  // What the library makes the adapter do.
  datatype Act =
    | RequestVersion(version: nat)
    | RequestXncpInfo
    | InitStack
    | Form(channel: nat)
    | Leave
    | InitSink
    | RequestNetworkState
    | RequestNetworkParameters
    | StartScan
    | LaunchBootloader

  datatype Lib = Lib(state: LibState, expMin: nat, reset: nat, callback: bool, scanInProgress: bool, acts: seq<Act>)

  datatype Event =
    | Started(success: bool)
    | DongleReady
    | Version(payload: seq<nat>)
    | XncpInfo(payload: seq<nat>)
    | NetworkState(payload: seq<nat>)
    | StackStatus(payload: seq<nat>)
    | LeaveNetwork
    | ScanStarted(payload: seq<nat>)
    | ScanComplete
    | SinkReady                   // the sink reports that it is ready
    | UseSink                     // clearAllGPDevices, removeGPDevices or addGPDevices
    | Scan                        // startEnergyScan or startActiveScan
    | FirmwareUpgrade             // setFirmwareUpgradeMode
    | XModemReady                 // the bootloader waits for a firmware image

  function Init(request: nat): Lib { Lib(UNINITIALIZED, EZSP_MIN, request, false, false, []) }

  function Do(l: Lib, state: LibState, act: Act): Lib { l.(state := state, acts := l.acts + [act]) }

  // ----- The handlers

  function OnVersion(l: Lib, p: seq<nat>): Lib {
    if |p| == 2 then Do(l, GETTING_XNCP_INFO, RequestXncpInfo)
    else if |p| != 4 || p[1] != STACK_TYPE_MESH then l
    else if p[0] > l.expMin then
      if p[0] > EZSP_MAX then l else Do(l.(expMin := p[0]), GETTING_EZSP_VERSION, RequestVersion(p[0]))
    else if p[0] == l.expMin && p[0] <= EZSP_MAX then Do(l, GETTING_XNCP_INFO, RequestXncpInfo)
    else l
  }

  // An empty payload makes at(0) throw: nothing has changed then.
  function OnNetworkState(l: Lib, p: seq<nat>): Lib {
    if p == [] then l
    else if p[0] == EMBER_NO_NETWORK then
      if l.state == FORM_NWK_IN_PROGRESS then l
      else if l.reset == LEAVE_ONLY then l.(state := TERMINATING)
      else if l.reset == KEEP_NETWORK then l.(state := INIT_FAILED)
      else if l.state == STACK_INIT then Do(l, FORM_NWK_IN_PROGRESS, Form(l.reset % 256)).(reset := KEEP_NETWORK)
      else l
    else if l.state == STACK_INIT && l.reset != KEEP_NETWORK then Do(l, LEAVE_NWK_IN_PROGRESS, Leave)
    else l
  }

  // The sink is ready as soon as it is initialized, and reports it at once.
  function OnStackStatus(l: Lib, p: seq<nat>): Lib {
    if p == [] || l.state == LEAVE_NWK_IN_PROGRESS then l
    else if p[0] == EMBER_NETWORK_UP && l.reset == KEEP_NETWORK then Do(l, READY, InitSink).(callback := true)
    else if p[0] == STATUS_CHANNEL_CHANGED then Do(l, l.state, RequestNetworkParameters)
    else Do(l, l.state, RequestNetworkState)
  }

  function Next(l: Lib, e: Event): Lib {
    match e
    case Started(success) => if success then l.(state := WAIT_DONGLE_READY) else l
    case DongleReady =>
      if l.state == WAIT_DONGLE_READY then Do(l, GETTING_EZSP_VERSION, RequestVersion(l.expMin)) else l
    case Version(p) => OnVersion(l, p)
    case XncpInfo(_) => Do(l, STACK_INIT, InitStack)
    case NetworkState(p) => OnNetworkState(l, p)
    case StackStatus(p) => OnStackStatus(l, p)
    case LeaveNetwork => l.(state := STACK_INIT)
    case ScanStarted(p) => if p == [] then l else l.(scanInProgress := p[0] == EMBER_SUCCESS)
    case ScanComplete => l.(scanInProgress := false, state := if l.state == SCANNING then READY else l.state)
    case SinkReady => if l.callback && l.state == SINK_BUSY then l.(state := READY) else l
    case UseSink => if l.state == READY then l.(state := SINK_BUSY) else l
    case Scan => if l.state == SCANNING || l.scanInProgress then l else Do(l, SCANNING, StartScan)
    case FirmwareUpgrade => Do(l, SWITCHING_TO_BOOTLOADER_MODE, LaunchBootloader)
    case XModemReady => l.(state := IN_XMODEM_XFR)
  }

  class CLibEzspMain {
    var exp_ezsp_min_version: nat
    var lib_state: LibState
    var resetDot154ChannelAtInit: nat
    var sinkCallback: bool
    var scanInProgress: bool
    var acts: seq<Act>

    constructor (request: nat)
      ensures Value() == Init(request)
    {
      exp_ezsp_min_version, lib_state, resetDot154ChannelAtInit := 6, UNINITIALIZED, request;
      sinkCallback, scanInProgress, acts := false, false, [];
    }

    function Value(): Lib
      reads this
    {
      Lib(lib_state, exp_ezsp_min_version, resetDot154ChannelAtInit, sinkCallback, scanInProgress, acts)
    }

    method Act(a: Act)
      modifies this`acts
      ensures acts == old(acts) + [a]
    {
      acts := acts + [a];
    }

    method DongleInit(version: nat)
      modifies this`lib_state, this`acts
      ensures Value() == Do(old(Value()), GETTING_EZSP_VERSION, RequestVersion(version))
    {
      lib_state := GETTING_EZSP_VERSION;
      Act(RequestVersion(version));
    }

    method HandleDongleReady()
      modifies this
      ensures Value() == Next(old(Value()), DongleReady)
    {
      if lib_state == WAIT_DONGLE_READY {
        DongleInit(exp_ezsp_min_version);
      }
    }

    method GetXncpInfo()
      modifies this`lib_state, this`acts
      ensures Value() == Do(old(Value()), GETTING_XNCP_INFO, RequestXncpInfo)
    {
      lib_state := GETTING_XNCP_INFO;
      Act(RequestXncpInfo);
    }

    method HandleVersion(payload: seq<nat>)
      modifies this
      ensures Value() == Next(old(Value()), Version(payload))
    {
      var acceptableVersion := false;
      if |payload| == 2 {
        acceptableVersion := true;
      }
      if |payload| == 4 {
        var ezspProtocolVersion := payload[0];
        var ezspStackType := payload[1];
        if ezspStackType != 2 { return; }
        if ezspProtocolVersion > exp_ezsp_min_version {
          if ezspProtocolVersion > 8 { return; }
          exp_ezsp_min_version := ezspProtocolVersion;
          DongleInit(exp_ezsp_min_version);
          return;
        } else if ezspProtocolVersion == exp_ezsp_min_version && ezspProtocolVersion <= 8 {
          acceptableVersion := true;
        }
      }
      if acceptableVersion {
        GetXncpInfo();
      }
    }

    method HandleXncpInfo(payload: seq<nat>)
      modifies this
      ensures Value() == Next(old(Value()), XncpInfo(payload))
    {
      lib_state := STACK_INIT;
      Act(InitStack);
    }

    method HandleNetworkState(payload: seq<nat>) returns (thrown: bool)
      modifies this
      ensures Value() == Next(old(Value()), NetworkState(payload)) && thrown == (payload == [])
    {
      if payload == [] { return true; }
      thrown := false;
      if lib_state == FORM_NWK_IN_PROGRESS && payload[0] == EMBER_NO_NETWORK { return; }
      if payload[0] == EMBER_NO_NETWORK {
        if resetDot154ChannelAtInit == LEAVE_ONLY {
          lib_state := TERMINATING;
          return;
        }
        if resetDot154ChannelAtInit == 0 {
          lib_state := INIT_FAILED;
          return;
        }
        if lib_state == STACK_INIT {
          Act(Form(resetDot154ChannelAtInit % 256));
          lib_state := FORM_NWK_IN_PROGRESS;
          resetDot154ChannelAtInit := 0;
        }
      } else if lib_state == STACK_INIT && resetDot154ChannelAtInit != 0 {
        Act(Leave);
        lib_state := LEAVE_NWK_IN_PROGRESS;
      }
    }

    method HandleStackStatus(payload: seq<nat>) returns (thrown: bool)
      modifies this
      ensures Value() == Next(old(Value()), StackStatus(payload)) && thrown == (payload == [])
    {
      if payload == [] { return true; }
      thrown := false;
      var status := payload[0];
      if lib_state != LEAVE_NWK_IN_PROGRESS {
        if status == EMBER_NETWORK_UP && resetDot154ChannelAtInit == 0 {
          lib_state := SINK_BUSY;
          sinkCallback := true;
          Act(InitSink);
          HandleSinkReady();
        } else if status == STATUS_CHANNEL_CHANGED {
          Act(RequestNetworkParameters);
        } else {
          Act(RequestNetworkState);
        }
      }
    }

    method HandleSinkReady()
      modifies this`lib_state
      ensures Value() == Next(old(Value()), SinkReady)
    {
      if sinkCallback && lib_state == SINK_BUSY {
        lib_state := READY;
      }
    }

    method HandleLeaveNetwork()
      modifies this`lib_state
      ensures Value() == Next(old(Value()), LeaveNetwork)
    {
      lib_state := STACK_INIT;
    }
  }

  // ----- Every run

  function Run(l: Lib, events: seq<Event>): Lib {
    if events == [] then l else Next(Run(l, events[..|events| - 1]), events[|events| - 1])
  }

  function Forms(acts: seq<Act>): nat {
    if acts == [] then 0 else Forms(acts[..|acts| - 1]) + if acts[|acts| - 1].Form? then 1 else 0
  }

  // In the order of the acts: no leave after a form; with a request, no sink before a form; and a form
  // only on the requested channel.
  predicate Safe(acts: seq<Act>, request: nat) {
    acts == [] ||
    var before, a := acts[..|acts| - 1], acts[|acts| - 1];
    Safe(before, request) &&
    match a
    case Form(channel) => Forms(before) == 0 && request != KEEP_NETWORK && request != LEAVE_ONLY &&
        channel == request % 256
    case Leave => Forms(before) == 0 && request != KEEP_NETWORK
    case InitSink => request == KEEP_NETWORK || Forms(before) == 1
    case _ => true
  }

  predicate Inv(l: Lib, request: nat) {
    && Safe(l.acts, request) && EZSP_MIN <= l.expMin <= EZSP_MAX
    && (if Forms(l.acts) == 0 then l.reset == request else l.reset == KEEP_NETWORK && Forms(l.acts) == 1)
  }

  lemma OneMore(acts: seq<Act>, a: Act)
    ensures (acts + [a])[..|acts + [a]| - 1] == acts
    ensures Forms(acts + [a]) == Forms(acts) + if a.Form? then 1 else 0
  {}

  // An act that is neither a form, a leave nor a start of the sink.
  lemma ActKeeps(l: Lib, l': Lib, a: Act, request: nat)
    requires Inv(l, request) && l'.acts == l.acts + [a] && l'.reset == l.reset && EZSP_MIN <= l'.expMin <= EZSP_MAX
    requires a.Form? || a == Leave || a == InitSink ==> Safe(l'.acts, request)
    requires !a.Form?
    ensures Inv(l', request)
  {
    hide Forms;
    OneMore(l.acts, a);
  }

  lemma NetworkStateKeeps(l: Lib, p: seq<nat>, request: nat)
    requires Inv(l, request)
    ensures Inv(OnNetworkState(l, p), request)
  {
    hide Forms;
    OneMore(l.acts, Leave);
    OneMore(l.acts, Form(l.reset % 256));
  }

  lemma SinkStartKeeps(l: Lib, request: nat)
    requires Inv(l, request) && l.reset == KEEP_NETWORK
    ensures Inv(Do(l, READY, InitSink).(callback := true), request)
  {
    hide Forms;
    OneMore(l.acts, InitSink);
  }

  lemma StackStatusKeeps(l: Lib, p: seq<nat>, request: nat)
    requires Inv(l, request)
    ensures Inv(OnStackStatus(l, p), request)
  {
    hide Forms, Safe, Inv;
    if p != [] && l.state != LEAVE_NWK_IN_PROGRESS {
      if p[0] == EMBER_NETWORK_UP && l.reset == KEEP_NETWORK {
        SinkStartKeeps(l, request);
      } else {
        SameInv(l, OnStackStatus(l, p), request);
      }
    }
  }

  lemma SameInv(l: Lib, l': Lib, request: nat)
    requires Inv(l, request) && l'.reset == l.reset && l'.expMin == l.expMin
    requires l'.acts == l.acts + [RequestNetworkParameters] || l'.acts == l.acts + [RequestNetworkState]
    ensures Inv(l', request)
  {
    hide Forms, Safe;
    ActKeeps(l, l', l'.acts[|l.acts|], request);
  }

  lemma NextKeeps(l: Lib, e: Event, request: nat)
    requires Inv(l, request)
    ensures Inv(Next(l, e), request)
  {
    hide Forms, Safe, OnNetworkState, OnStackStatus;
    var l' := Next(l, e);
    if e.NetworkState? {
      NetworkStateKeeps(l, e.payload, request);
    } else if e.StackStatus? {
      StackStatusKeeps(l, e.payload, request);
    } else if l'.acts != l.acts {
      ActKeeps(l, l', l'.acts[|l.acts|], request);
    }
  }

  lemma {:induction false} RunKeeps(events: seq<Event>, request: nat)
    ensures Inv(Run(Init(request), events), request)
  {
    hide Next;
    if events != [] {
      RunKeeps(events[..|events| - 1], request);
      NextKeeps(Run(Init(request), events[..|events| - 1]), events[|events| - 1], request);
    }
  }

  // Whatever comes in and in whatever order: one network at most is formed, on the requested channel, and
  // none is left after that; with a request, the sink never starts before a network was formed, so with
  // the request to leave only it never starts and none is formed.
  lemma NetworkSafety(events: seq<Event>, request: nat)
    ensures var acts := Run(Init(request), events).acts;
            Safe(acts, request) && Forms(acts) <= 1 &&
            (request == LEAVE_ONLY ==> Forms(acts) == 0 && InitSink !in acts) &&
            (request == KEEP_NETWORK ==> Forms(acts) == 0 && Leave !in acts)
  {
    hide Safe, Run;
    RunKeeps(events, request);
    var acts := Run(Init(request), events).acts;
    if request == LEAVE_ONLY { NeverStarts(acts, request); }
    if request == KEEP_NETWORK { NeverStarts(acts, request); }
  }

  lemma {:induction false} NeverStarts(acts: seq<Act>, request: nat)
    requires Safe(acts, request)
    ensures request == LEAVE_ONLY ==> Forms(acts) == 0 && InitSink !in acts
    ensures request == KEEP_NETWORK ==> Forms(acts) == 0 && Leave !in acts
  {
    if acts != [] {
      NeverStarts(acts[..|acts| - 1], request);
      assert acts == acts[..|acts| - 1] + [acts[|acts| - 1]];
    }
  }

  // ----- Version negotiation

  function VersionRequests(acts: seq<Act>): nat {
    if acts == [] then 0 else VersionRequests(acts[..|acts| - 1]) + if acts[|acts| - 1].RequestVersion? then 1 else 0
  }

  function Readies(events: seq<Event>): nat {
    if events == [] then 0 else Readies(events[..|events| - 1]) + if events[|events| - 1] == DongleReady then 1 else 0
  }

  // Every request but those for a ready dongle raises the expected version, which stays within 6 to 8: the
  // adapter is initialized again at most twice.
  lemma {:induction false} NegotiationEnds(events: seq<Event>, request: nat)
    ensures var l := Run(Init(request), events);
            EZSP_MIN <= l.expMin <= EZSP_MAX &&
                VersionRequests(l.acts) <= Readies(events) + (l.expMin - EZSP_MIN) <= Readies(events) + 2
  {
    if events != [] {
      var n := |events| - 1;
      NegotiationEnds(events[..n], request);
      NextNegotiates(Run(Init(request), events[..n]), events[n]);
    }
  }

  lemma NextNegotiates(l: Lib, e: Event)
    requires EZSP_MIN <= l.expMin <= EZSP_MAX
    ensures var l' := Next(l, e);
            l.expMin <= l'.expMin <= EZSP_MAX &&
            VersionRequests(l'.acts) <=
            VersionRequests(l.acts) + (l'.expMin - l.expMin) + if e == DongleReady then 1 else 0
  {
    hide VersionRequests;
    var l' := Next(l, e);
    if l'.acts != l.acts {
      var a := l'.acts[|l.acts|];
      assert l'.acts == l.acts + [a];
      OneMoreRequest(l.acts, a);
    }
  }

  lemma OneMoreRequest(acts: seq<Act>, a: Act)
    ensures VersionRequests(acts + [a]) == VersionRequests(acts) + if a.RequestVersion? then 1 else 0
  {
    assert (acts + [a])[..|acts|] == acts;
  }

  function Versions(events: seq<Event>): nat {
    if events == [] then 0 else Versions(events[..|events| - 1]) + if events[|events| - 1].Version? then 1 else 0
  }

  // The adapter always reports version v and stack type t.
  predicate AlwaysReports(events: seq<Event>, v: nat, t: nat) {
    forall i :: 0 <= i < |events| && events[i].Version? ==>
      |events[i].payload| == 4 && events[i].payload[0] == v && events[i].payload[1] == t
  }

  predicate Supported(v: nat, t: nat) { 6 <= v <= 8 && t == 2 }

  // How many reports it takes: one for the version asked for first, one more for a higher one.
  function ReportsNeeded(v: nat): nat { if v == 6 then 1 else 2 }

  // In every run with such an adapter, whatever else happens in it: the library goes on to ask for the XNCP
  // data if and only if the version is 6, 7 or 8 on a mesh stack and was reported once, or twice if it is not 6.
  lemma {:induction false} NegotiationOutcome(events: seq<Event>, request: nat, v: nat, t: nat)
    requires AlwaysReports(events, v, t)
    ensures var l := Run(Init(request), events);
            (RequestXncpInfo in l.acts <==> Supported(v, t) && Versions(events) >= ReportsNeeded(v)) &&
            l.expMin == if Supported(v, t) && Versions(events) >= 1 then v else 6
  {
    if events != [] {
      var n := |events| - 1;
      NegotiationOutcome(events[..n], request, v, t);
      NextOutcome(Run(Init(request), events[..n]), events[n]);
    }
  }

  // One event: only a report moves the negotiation.
  lemma NextOutcome(l: Lib, e: Event)
    ensures !e.Version? ==>
            Next(l, e).expMin == l.expMin && (RequestXncpInfo in Next(l, e).acts <==> RequestXncpInfo in l.acts)
    ensures e.Version? && |e.payload| == 4 ==>
            var v, t := e.payload[0], e.payload[1]; var l' := Next(l, e);
            l'.expMin == (if t == STACK_TYPE_MESH && l.expMin < v <= EZSP_MAX then v else l.expMin) &&
            (RequestXncpInfo in l'.acts <==>
               RequestXncpInfo in l.acts || (t == STACK_TYPE_MESH && v == l.expMin && v <= EZSP_MAX))
  {}
}
