/** What the start-up does, besides what it never does: exactly when a network is left, when one is formed and
    when the sink is started, in every run; and the whole course of an undisturbed start. */
module LibOutcome {
  import opened LibStart

  // The i-th event is a network state report that meets the library with its stack initialized.
  predicate ReportAt(events: seq<Event>, request: nat, i: nat, noNetwork: bool)
    requires i < |events|
  {
    && events[i].NetworkState? && events[i].payload != [] && (events[i].payload[0] == 0x00 <==> noNetwork)
    && Run(Init(request), events[..i]).state == STACK_INIT
  }

  // The network comes up, and the library is not leaving it.
  predicate UpAt(events: seq<Event>, request: nat, i: nat)
    requires i < |events|
  {
    && events[i].StackStatus? && events[i].payload != [] && events[i].payload[0] == 0x90
    && Run(Init(request), events[..i]).state != LEAVE_NWK_IN_PROGRESS
  }

  predicate FormedBefore(events: seq<Event>, request: nat, i: nat)
    requires i <= |events|
  {
    exists k :: 0 <= k < i && ReportAt(events, request, k, true)
  }

  // ----- One event

  lemma NextForms(l: Lib, e: Event)
    ensures var l' := Next(l, e);
            (Forms(l'.acts) > Forms(l.acts) <==>
               e.NetworkState? && e.payload != [] && e.payload[0] == 0x00 && l.state == STACK_INIT &&
               l.reset != 0 && l.reset != 0xFFFF_FFFF) &&
            Forms(l.acts) <= Forms(l'.acts) <= Forms(l.acts) + 1 &&
            (Forms(l'.acts) > Forms(l.acts) ==> l'.acts == l.acts + [Form(l.reset % 256)] && l'.reset == 0) &&
            (Forms(l'.acts) == Forms(l.acts) ==> l'.reset == l.reset)
  {
    hide Forms;
    var l' := Next(l, e);
    if l'.acts != l.acts {
      var a := l'.acts[|l.acts|];
      assert l'.acts == l.acts + [a];
      OneMore(l.acts, a);
    }
  }

  lemma NextLeaves(l: Lib, e: Event)
    ensures Leave in Next(l, e).acts <==>
            Leave in l.acts || (e.NetworkState? && e.payload != [] && e.payload[0] != 0x00 &&
                                l.state == STACK_INIT && l.reset != 0)
  {}

  lemma NextStarts(l: Lib, e: Event)
    ensures InitSink in Next(l, e).acts <==>
            InitSink in l.acts || (e.StackStatus? && e.payload != [] && e.payload[0] == 0x90 &&
                                   l.state != LEAVE_NWK_IN_PROGRESS && l.reset == 0)
  {}

  // ----- Every run

  lemma PrefixReports(events: seq<Event>, request: nat, n: nat, i: nat)
    requires i < n <= |events|
    ensures ReportAt(events[..n], request, i, true) <==> ReportAt(events, request, i, true)
    ensures ReportAt(events[..n], request, i, false) <==> ReportAt(events, request, i, false)
    ensures UpAt(events[..n], request, i) <==> UpAt(events, request, i)
  {
    assert events[..n][..i] == events[..i];
  }

  lemma PrefixFormed(events: seq<Event>, request: nat, n: nat, i: nat)
    requires i <= n <= |events|
    ensures FormedBefore(events[..n], request, i) <==> FormedBefore(events, request, i)
  {
    hide ReportAt;
    forall k | 0 <= k < i ensures ReportAt(events[..n], request, k, true) <==> ReportAt(events, request, k, true) {
      PrefixReports(events, request, n, k);
    }
  }

  // The pending request, in terms of the events: it is dropped by the form.
  lemma {:induction false} Pending(events: seq<Event>, request: nat)
    ensures var l := Run(Init(request), events);
            var formed := request != 0 && request != 0xFFFF_FFFF && FormedBefore(events, request, |events|);
            Forms(l.acts) == (if formed then 1 else 0) && l.reset == (if formed then 0 else request) &&
            (formed <==> Form(request % 256) in l.acts)
  {
    hide Next, ReportAt, Forms, FormedBefore;
    if events == [] {
      assert !FormedBefore(events, request, 0) by { NotYet(events, request); }
      assert Forms([]) == 0 by { NoForms(); }
    } else {
      var n := |events| - 1;
      var l, e := Run(Init(request), events[..n]), events[n];
      Pending(events[..n], request);
      PrefixFormed(events, request, n, n);
      NextForms(l, e);
      ReportIs(events, request, n);
      FormedSnoc(events, request, n);
      FormIn(l, e, request);
    }
  }

  lemma FormedSnoc(events: seq<Event>, request: nat, n: nat)
    requires n < |events|
    ensures FormedBefore(events, request, n + 1) <==>
            FormedBefore(events, request, n) || ReportAt(events, request, n, true)
  {
    hide ReportAt;
  }

  lemma NotYet(events: seq<Event>, request: nat)
    ensures !FormedBefore(events, request, 0)
  {}

  lemma NoForms()
    ensures Forms([]) == 0
  {}

  lemma ReportIs(events: seq<Event>, request: nat, n: nat)
    requires n == |events| - 1
    ensures ReportAt(events, request, n, true) <==>
            events[n].NetworkState? && events[n].payload != [] && events[n].payload[0] == 0x00 &&
            Run(Init(request), events[..n]).state == STACK_INIT
  {}

  lemma FormIn(l: Lib, e: Event, request: nat)
    ensures Form(request % 256) in Next(l, e).acts <==>
            Form(request % 256) in l.acts ||
            (Forms(Next(l, e).acts) > Forms(l.acts) && l.reset % 256 == request % 256)
  {
    hide Forms, Next;
    NextForms(l, e);
    OneActMore(l, e);
    var l' := Next(l, e);
    if l'.acts != l.acts {
      OneMore(l.acts, l'.acts[|l.acts|]);
    }
  }

  lemma OneActMore(l: Lib, e: Event)
    ensures var l' := Next(l, e); l'.acts == l.acts || (|l'.acts| > |l.acts| && l'.acts == l.acts + [l'.acts[|l.acts|]])
  {}

  // With a requested channel: a network is formed on it if and only if at some moment the adapter reports,
  // to an initialized stack, that it has none.
  lemma FormsExactly(events: seq<Event>, channel: nat)
    requires channel != 0 && channel != 0xFFFF_FFFF
    ensures Form(channel % 256) in Run(Init(channel), events).acts <==>
            exists i :: 0 <= i < |events| && ReportAt(events, channel, i, true)
  {
    hide Run, ReportAt, Forms;
    Pending(events, channel);
  }

  // With any request but to keep the network: one is left if and only if at some moment the adapter reports,
  // to an initialized stack, that it has one, and none was formed before.
  lemma {:induction false} LeavesExactly(events: seq<Event>, request: nat)
    requires request != 0
    ensures Leave in Run(Init(request), events).acts <==>
            exists i :: 0 <= i < |events| && ReportAt(events, request, i, false) &&
                        (request == 0xFFFF_FFFF || !FormedBefore(events, request, i))
  {
    hide Next, FormedBefore, Forms;
    if events != [] {
      var n := |events| - 1;
      LeavesExactly(events[..n], request);
      Pending(events[..n], request);
      NextLeaves(Run(Init(request), events[..n]), events[n]);
      PrefixFormed(events, request, n, n);
      forall i | 0 <= i < n
        ensures ReportAt(events[..n], request, i, false) <==> ReportAt(events, request, i, false)
        ensures FormedBefore(events[..n], request, i) <==> FormedBefore(events, request, i)
      {
        PrefixReports(events, request, n, i);
        PrefixFormed(events, request, n, i);
      }
    }
  }

  // The sink is started if and only if the network comes up, outside of leaving one, with nothing requested or
  // after the form.
  lemma {:induction false} StartsExactly(events: seq<Event>, request: nat)
    ensures InitSink in Run(Init(request), events).acts <==>
            exists i :: 0 <= i < |events| && UpAt(events, request, i) &&
                        (request == 0 || (request != 0xFFFF_FFFF && FormedBefore(events, request, i)))
  {
    hide Next, FormedBefore, Forms;
    if events != [] {
      var n := |events| - 1;
      StartsExactly(events[..n], request);
      Pending(events[..n], request);
      NextStarts(Run(Init(request), events[..n]), events[n]);
      PrefixFormed(events, request, n, n);
      forall i | 0 <= i < n
        ensures UpAt(events[..n], request, i) <==> UpAt(events, request, i)
        ensures FormedBefore(events[..n], request, i) <==> FormedBefore(events, request, i)
      {
        PrefixReports(events, request, n, i);
        PrefixFormed(events, request, n, i);
      }
    }
  }

  // ----- An undisturbed start

  // What the library makes the adapter do when it reports version v and the network goes down and up again.
  function Course(v: nat, channel: nat): seq<Act> {
    [RequestVersion(6)] + (if v > 6 then [RequestVersion(v)] else []) + [RequestXncpInfo, InitStack] +
    [Leave, Form(channel % 256), InitSink]
  }

  function Reports(v: nat, n: nat): seq<Event> { if v > 6 then [Version([v, 2, n, n]), Version([v, 2, n, n])]
                                                 else [Version([v, 2, n, n])] }

  // From a library that has its stack initialized and a channel requested, in any run: the network it is told of
  // is left, then one is formed on the channel, and when that comes up the sink is started and the library ready.
  lemma LeavesFormsStarts(l: Lib, channel: nat, network: nat)
    requires l.state == STACK_INIT && l.reset == channel != 0 && channel != 0xFFFF_FFFF && network != 0x00
    ensures var l' := Run(l, [NetworkState([network]), LeaveNetwork, NetworkState([0x00]), StackStatus([0x90])]);
            l'.state == READY && l'.acts == l.acts + [Leave, Form(channel % 256), InitSink]
  {
    var a, b, c, d := NetworkState([network]), LeaveNetwork, NetworkState([0x00]), StackStatus([0x90]);
    var l1 := Next(l, a);
    var l2 := Next(l1, b);
    var l3 := Next(l2, c);
    var l4 := Next(l3, d);
    RunOfFour(l, a, b, c, d);
    assert l1.acts == l.acts + [Leave] && l3.acts == l.acts + [Leave, Form(channel % 256)];
    assert l4.acts == l.acts + [Leave, Form(channel % 256), InitSink];
  }

  lemma RunOfFour(l: Lib, a: Event, b: Event, c: Event, d: Event)
    ensures Run(l, [a, b, c, d]) == Next(Next(Next(Next(l, a), b), c), d)
  {
    hide Next;
    assert [a, b, c, d][..3] == [a, b, c] && [a, b, c][..2] == [a, b] && [a, b][..1] == [a] && [a][..0] == [];
    assert Run(l, [a]) == Next(l, a);
    assert Run(l, [a, b]) == Next(Next(l, a), b);
    assert Run(l, [a, b, c]) == Next(Next(Next(l, a), b), c);
  }

  lemma {:induction false} RunAppend(l: Lib, a: seq<Event>, b: seq<Event>)
    ensures Run(l, a + b) == Run(Run(l, a), b)
  {
    hide Next;
    if b == [] {
      assert a + b == a;
    } else {
      RunAppend(l, a, b[..|b| - 1]);
      assert (a + b)[..|a + b| - 1] == a + b[..|b| - 1];
    }
  }

  // The negotiation and the initialization of the stack, for every version supported.
  lemma Negotiates(v: nat, n: nat, request: nat)
    requires 6 <= v <= 8
    ensures var l := Run(Init(request), [Started(true), DongleReady] + Reports(v, n) + [XncpInfo([])]);
            l.state == STACK_INIT && l.expMin == v && l.reset == request &&
            l.acts == [RequestVersion(6)] + (if v > 6 then [RequestVersion(v)] else []) + [RequestXncpInfo, InitStack]
  {
    var l2 := Next(Next(Init(request), Started(true)), DongleReady);
    var r := Version([v, 2, n, n]);
    RunOfTwo(Init(request), Started(true), DongleReady);
    RunAppend(Init(request), [Started(true), DongleReady], Reports(v, n));
    RunAppend(Init(request), [Started(true), DongleReady] + Reports(v, n), [XncpInfo([])]);
    var l3 := Run(l2, Reports(v, n));
    RunOfOne(l2, r);
    RunOfTwo(l2, r, r);
    RunOfOne(l3, XncpInfo([]));
    assert l2.acts == [RequestVersion(6)];
    assert l3.acts == [RequestVersion(6)] + (if v > 6 then [RequestVersion(v)] else []) + [RequestXncpInfo];
  }

  lemma RunOfOne(l: Lib, a: Event)
    ensures Run(l, [a]) == Next(l, a)
  {
    hide Next;
    assert [a][..0] == [];
  }

  lemma RunOfTwo(l: Lib, a: Event, b: Event)
    ensures Run(l, [a, b]) == Next(Next(l, a), b)
  {
    hide Next;
    RunOfOne(l, a);
    assert [a, b][..1] == [a];
  }

  // The whole start: from nothing to READY, with every command in order.
  lemma WholeStart(v: nat, n: nat, channel: nat, network: nat)
    requires 6 <= v <= 8 && channel != 0 && channel != 0xFFFF_FFFF && network != 0x00
    ensures var l := Run(Init(channel), [Started(true), DongleReady] + Reports(v, n) + [XncpInfo([])] +
                         [NetworkState([network]), LeaveNetwork, NetworkState([0x00]), StackStatus([0x90])]);
            l.state == READY && l.acts == Course(v, channel)
  {
    hide Run, Reports;
    var before := [Started(true), DongleReady] + Reports(v, n) + [XncpInfo([])];
    var after := [NetworkState([network]), LeaveNetwork, NetworkState([0x00]), StackStatus([0x90])];
    Negotiates(v, n, channel);
    RunAppend(Init(channel), before, after);
    LeavesFormsStarts(Run(Init(channel), before), channel, network);
  }
}
