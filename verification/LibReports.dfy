/** What the library makes of each kind of report, over whole runs and in terms of the reports alone: versions,
    network states, stack statuses, scans, and the sink's readiness. */
module LibReports {
  import opened LibStart
  import opened LibOutcome

  // ----- Network states

  // A report that there is no network, in any run: nothing while one is being formed; else the library
  // terminates if asked to leave only, has failed with nothing requested or once a network was formed, and forms
  // one if its stack is initialized.
  lemma NoNetworkReported(events: seq<Event>, request: nat, p: seq<nat>)
    requires p != [] && p[0] == 0x00
    ensures var l := Run(Init(request), events); var l' := Next(l, NetworkState(p));
            if l.state == FORM_NWK_IN_PROGRESS then l' == l
            else if request == 0xFFFF_FFFF then l' == l.(state := TERMINATING)
            else if request == 0 || FormedBefore(events, request, |events|) then l' == l.(state := INIT_FAILED)
            else if l.state == STACK_INIT
            then l' == l.(state := FORM_NWK_IN_PROGRESS, reset := 0, acts := l.acts + [Form(request % 256)])
            else l' == l
  {
    hide Run, FormedBefore, Forms;
    Pending(events, request);
  }

  // A report that there is one: it is left if the stack is initialized and a request is pending.
  lemma NetworkReported(events: seq<Event>, request: nat, p: seq<nat>)
    requires p != [] && p[0] != 0x00
    ensures var l := Run(Init(request), events); var l' := Next(l, NetworkState(p));
            if l.state == STACK_INIT && request != 0 &&
               (request == 0xFFFF_FFFF || !FormedBefore(events, request, |events|))
            then l' == l.(state := LEAVE_NWK_IN_PROGRESS, acts := l.acts + [Leave])
            else l' == l
  {
    hide Run, FormedBefore, Forms;
    Pending(events, request);
  }

  // ----- Stack statuses

  predicate IsAnswer(a: Act) { a == InitSink || a == RequestNetworkParameters || a == RequestNetworkState }

  function Answers(acts: seq<Act>): seq<Act> {
    if acts == [] then []
    else Answers(acts[..|acts| - 1]) + if IsAnswer(acts[|acts| - 1]) then [acts[|acts| - 1]] else []
  }

  // What the statuses of a run call for, each unless the library is leaving a network: to start the sink when the
  // network is up and nothing is left to be formed, to ask for its parameters on status 155, else for its state.
  function CalledFor(events: seq<Event>, request: nat): seq<Act> {
    if events == [] then []
    else
      var n := |events| - 1;
      CalledFor(events[..n], request) +
      if events[n].StackStatus? && events[n].payload != [] &&
         Run(Init(request), events[..n]).state != LEAVE_NWK_IN_PROGRESS
      then [if events[n].payload[0] == 0x90 &&
               (request == 0 || (request != 0xFFFF_FFFF && FormedBefore(events, request, n))) then InitSink
            else if events[n].payload[0] == 155 then RequestNetworkParameters
            else RequestNetworkState]
      else []
  }

  lemma OneMoreAnswer(acts: seq<Act>, a: Act)
    ensures Answers(acts + [a]) == Answers(acts) + if IsAnswer(a) then [a] else []
  {
    assert (acts + [a])[..|acts|] == acts;
  }

  lemma NextAnswers(l: Lib, e: Event)
    ensures Answers(Next(l, e).acts) == Answers(l.acts) +
            if e.StackStatus? && e.payload != [] && l.state != LEAVE_NWK_IN_PROGRESS
            then [if e.payload[0] == 0x90 && l.reset == 0 then InitSink
                  else if e.payload[0] == 155 then RequestNetworkParameters else RequestNetworkState]
            else []
  {
    hide Answers;
    var l' := Next(l, e);
    assert Answers(l.acts) + [] == Answers(l.acts);
    if l'.acts != l.acts {
      var a := l'.acts[|l.acts|];
      assert l'.acts == l.acts + [a];
      OneMoreAnswer(l.acts, a);
    }
  }

  // In every run each status is answered once, in order, by just what it calls for.
  lemma {:induction false} EveryStatusAnswered(events: seq<Event>, request: nat)
    ensures Answers(Run(Init(request), events).acts) == CalledFor(events, request)
  {
    hide Next, Answers, FormedBefore, Forms;
    if events == [] {
      assert Answers([]) == [] by { NoAnswers(); }
    } else {
      var n := |events| - 1;
      EveryStatusAnswered(events[..n], request);
      Pending(events[..n], request);
      PrefixFormed(events, request, n, n);
      NextAnswers(Run(Init(request), events[..n]), events[n]);
    }
  }

  lemma NoAnswers()
    ensures Answers([]) == []
  {}

  // ----- Versions

  // A version of a mesh stack, in the long form of the report.
  predicate Mesh(e: Event) { e.Version? && |e.payload| == 4 && e.payload[1] == 2 }

  // The greatest of 6 and the versions up to 8 that were reported.
  predicate Greatest(events: seq<Event>, v: nat) {
    && 6 <= v <= 8
    && (v == 6 || exists i :: 0 <= i < |events| && Mesh(events[i]) && events[i].payload[0] == v)
    && (forall i :: 0 <= i < |events| && Mesh(events[i]) && events[i].payload[0] <= 8 ==> events[i].payload[0] <= v)
  }

  lemma {:induction false} ExpectsGreatest(events: seq<Event>, request: nat)
    ensures Greatest(events, Run(Init(request), events).expMin)
  {
    hide Next;
    if events != [] {
      var n := |events| - 1;
      ExpectsGreatest(events[..n], request);
      NextExpects(Run(Init(request), events[..n]), events[n]);
      GreatestSnoc(events, Run(Init(request), events[..n]).expMin);
    }
  }

  lemma NextExpects(l: Lib, e: Event)
    ensures Next(l, e).expMin == if Mesh(e) && l.expMin < e.payload[0] <= 8 then e.payload[0] else l.expMin
  {}

  lemma GreatestSnoc(events: seq<Event>, v: nat)
    requires events != [] && Greatest(events[..|events| - 1], v)
    ensures var e := events[|events| - 1];
            Greatest(events, if Mesh(e) && v < e.payload[0] <= 8 then e.payload[0] else v)
  {
    var n := |events| - 1;
    assert forall i :: 0 <= i < n ==> events[..n][i] == events[i];
    var w := if Mesh(events[n]) && v < events[n].payload[0] <= 8 then events[n].payload[0] else v;
    if w != 6 && w == v {
      var i :| 0 <= i < n && Mesh(events[..n][i]) && events[..n][i].payload[0] == v;
      assert Mesh(events[i]) && events[i].payload[0] == v;
    }
  }

  // A report that settles the version: the short form of old adapters, or the greatest version so far once more.
  predicate Settles(events: seq<Event>, i: nat)
    requires i < |events|
  {
    && events[i].Version?
    && (|events[i].payload| == 2 || (Mesh(events[i]) && Greatest(events[..i], events[i].payload[0])))
  }

  // In every run, with whatever versions reported: the library goes on to the XNCP data if and only if some report
  // settles the version.
  lemma {:induction false} SettlesExactly(events: seq<Event>, request: nat)
    ensures RequestXncpInfo in Run(Init(request), events).acts <==>
            exists i :: 0 <= i < |events| && Settles(events, i)
  {
    hide Next, Greatest, Settles;
    if events != [] {
      var n := |events| - 1;
      var l := Run(Init(request), events[..n]);
      SettlesExactly(events[..n], request);
      ExpectsGreatest(events[..n], request);
      NextSettles(l, events[n]);
      OneGreatest(events[..n], l.expMin, l.expMin);
      forall v ensures Greatest(events[..n], v) <==> v == l.expMin { OneGreatest(events[..n], v, l.expMin); }
      forall i | 0 <= i < n ensures Settles(events[..n], i) <==> Settles(events, i) {
        SettlesSooner(events, n, i);
      }
      SettlesNow(events, n, l);
    }
  }

  lemma SettlesSooner(events: seq<Event>, n: nat, i: nat)
    requires i < n <= |events|
    ensures Settles(events[..n], i) <==> Settles(events, i)
  {
    hide Greatest;
    assert events[..n][..i] == events[..i];
  }

  lemma SettlesNow(events: seq<Event>, n: nat, l: Lib)
    requires n < |events| && l.expMin <= 8 && forall v :: Greatest(events[..n], v) <==> v == l.expMin
    ensures Settles(events, n) <==>
            events[n].Version? &&
            (|events[n].payload| == 2 || (Mesh(events[n]) && events[n].payload[0] == l.expMin <= 8))
  {
    hide Greatest;
  }

  lemma OneGreatest(events: seq<Event>, v: nat, w: nat)
    requires Greatest(events, w)
    ensures (Greatest(events, v) <==> v == w) && 6 <= w <= 8
  {}

  lemma NextSettles(l: Lib, e: Event)
    ensures RequestXncpInfo in Next(l, e).acts <==>
            RequestXncpInfo in l.acts ||
            (e.Version? && (|e.payload| == 2 || (Mesh(e) && e.payload[0] == l.expMin <= 8)))
  {}

  // A report that neither settles the version nor raises it to 8 at most changes nothing at all.
  lemma OtherReportsIgnored(l: Lib, p: seq<nat>)
    requires |p| != 2 && !(Mesh(Version(p)) && l.expMin <= p[0] <= 8)
    ensures Next(l, Version(p)) == l
  {}

  // ----- Scans

  // The last report about a scan is that it has started.
  predicate Scanning(events: seq<Event>) {
    events != [] &&
    match events[|events| - 1]
    case ScanStarted(p) => if p == [] then Scanning(events[..|events| - 1]) else p[0] == 0x00
    case ScanComplete => false
    case _ => Scanning(events[..|events| - 1])
  }

  // In every run: while a scan is on, or one was requested last, no other is started; otherwise one is.
  lemma {:induction false} OneScanAtATime(events: seq<Event>, request: nat)
    ensures var l := Run(Init(request), events);
            l.scanInProgress == Scanning(events) &&
            Next(l, Scan) == if Scanning(events) || l.state == SCANNING then l
                             else l.(state := SCANNING, acts := l.acts + [StartScan])
    ensures var l := Run(Init(request), events);
            Next(l, ScanComplete).state == if l.state == SCANNING then READY else l.state
  {
    hide Next;
    if events != [] {
      var n := |events| - 1;
      OneScanAtATime(events[..n], request);
      NextScanning(Run(Init(request), events[..n]), events[n]);
    }
    ScanRequested(Run(Init(request), events));
  }

  lemma NextScanning(l: Lib, e: Event)
    ensures Next(l, e).scanInProgress ==
            match e
            case ScanStarted(p) => if p == [] then l.scanInProgress else p[0] == 0x00
            case ScanComplete => false
            case _ => l.scanInProgress
  {}

  lemma ScanRequested(l: Lib)
    ensures Next(l, Scan) == if l.scanInProgress || l.state == SCANNING then l
                             else l.(state := SCANNING, acts := l.acts + [StartScan])
    ensures Next(l, ScanComplete).state == if l.state == SCANNING then READY else l.state
  {}

  // ----- The sink

  // In every run: a library that has started its sink and is ready becomes busy when the sink is used, and ready
  // when the sink is again, with nothing else changed.
  lemma {:induction false} SinkUsed(events: seq<Event>, request: nat)
    ensures var l := Run(Init(request), events);
            (l.callback <==> InitSink in l.acts) &&
            (l.state == READY && InitSink in l.acts ==>
               Next(l, UseSink) == l.(state := SINK_BUSY) && Next(Next(l, UseSink), SinkReady) == l)
  {
    if events != [] {
      var n := |events| - 1;
      SinkUsed(events[..n], request);
      NextCallback(Run(Init(request), events[..n]), events[n]);
    }
  }

  lemma NextCallback(l: Lib, e: Event)
    requires l.callback <==> InitSink in l.acts
    ensures Next(l, e).callback <==> InitSink in Next(l, e).acts
  {}

  // ----- A start that fails

  // Until the dongle's driver is started, a ready dongle starts nothing.
  lemma {:induction false} NotStarted(events: seq<Event>, request: nat)
    requires forall i :: 0 <= i < |events| ==> events[i] == DongleReady || events[i] == Started(false)
    ensures Run(Init(request), events) == Init(request)
  {
    if events != [] { NotStarted(events[..|events| - 1], request); }
  }

  // ----- A firmware upgrade

  // Asked for in any state, it makes the adapter launch its bootloader, once; when that waits for an image, the
  // library is in the transfer, and nothing else has changed.
  lemma FirmwareUpgraded(l: Lib)
    ensures Run(l, [FirmwareUpgrade, XModemReady]) == l.(state := IN_XMODEM_XFR, acts := l.acts + [LaunchBootloader])
    ensures Run(l, [FirmwareUpgrade]).state == SWITCHING_TO_BOOTLOADER_MODE
  {
    hide Run, Next;
    RunOfOne(l, FirmwareUpgrade);
    RunOfTwo(l, FirmwareUpgrade, XModemReady);
    Launched(l);
    Launched(Next(l, FirmwareUpgrade));
  }

  lemma Launched(l: Lib)
    ensures Next(l, FirmwareUpgrade) == l.(state := SWITCHING_TO_BOOTLOADER_MODE, acts := l.acts + [LaunchBootloader])
    ensures Next(l, XModemReady) == l.(state := IN_XMODEM_XFR)
  {
    hide OnVersion, OnNetworkState, OnStackStatus;
  }
}
