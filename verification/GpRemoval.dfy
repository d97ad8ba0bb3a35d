/** Removing a list of source IDs: it ends, and then neither table holds one of them while everything else
    is as it was, whatever Green Power frames come in meanwhile. */
module GpRemoval {
  import opened GpSink

  // ----- It ends

  // The exchanges that a command stands for while n devices are left: four for each device.
  function Cost(cmd: Cmd, n: nat): nat {
    match cmd
    case SinkLookup(_) => 4 * n
    case ProxyLookup(_) => if n > 0 then 4 * n - 2 else 0
    case _ => 1
  }

  // Commands that ask for nothing more: the answer to them is ignored while removing.
  predicate Plain(cmd: Cmd) { cmd.GpSend? || cmd.PairingRemove? || cmd.SinkRemoveEntry? }

  predicate Plains(q: seq<Cmd>) { forall i :: 0 <= i < |q| ==> Plain(q[i]) }

  // The one lookup that drives the removal, at place d of the queue, if it is under way.
  predicate Driven(s: Sys, d: nat) {
    if s.sink.state == SINK_REMOVE_IN_PROGRESS then
      && d < |s.queue| && s.sink.toRemove != []
      && (s.queue[d] == SinkLookup(Last(s.sink.toRemove)) || s.queue[d] == ProxyLookup(Last(s.sink.toRemove)))
      && Plains(s.queue[..d]) && Plains(s.queue[d + 1..])
    else s.sink.state == SINK_READY && Plains(s.queue)
  }

  // The number of exchanges left, at most.
  function Left(s: Sys, d: nat): nat
    requires Driven(s, d)
  {
    if s.sink.state == SINK_REMOVE_IN_PROGRESS then |s.queue| - 1 + Cost(s.queue[d], |s.sink.toRemove|) else |s.queue|
  }

  // Where the driving lookup is after an event.
  function Place(s: Sys, d: nat, e: Event): nat {
    if e.FrameIn? || s.queue == [] then d
    else if d > 0 then d - 1
    else if |Next(s, e).queue| > 0 then |Next(s, e).queue| - 1 else 0
  }

  lemma PlainAnswer(k: Sink, a: Adapter, cmd: Cmd, fails: bool)
    requires k.state == SINK_READY || (k.state == SINK_REMOVE_IN_PROGRESS && Plain(cmd))
    ensures Handle(k, Reply(a, cmd, fails)) == Outcome(k, [])
  {}

  // The answer to the driving lookup: at most one command about the device, then the next lookup.
  lemma LookupAnswer(k: Sink, a: Adapter, fails: bool)
    requires k.state == SINK_REMOVE_IN_PROGRESS && k.toRemove != []
    ensures var o := Handle(k, Reply(a, SinkLookup(Last(k.toRemove)), fails));
            exists first :: o == Outcome(k, first + [ProxyLookup(Last(k.toRemove))]) && |first| <= 1 && Plains(first)
  {
    var i := IndexOrNone(a.sink, Find(a.sink, Last(k.toRemove), 0));
    var first := if i != NO_INDEX then [SinkRemoveEntry(i)] else [];
    assert Plains(first);
    assert Handle(k, Reply(a, SinkLookup(Last(k.toRemove)), fails)) ==
        Outcome(k, first + [ProxyLookup(Last(k.toRemove))]);
  }

  lemma ProxyAnswer(k: Sink, a: Adapter, fails: bool)
    requires k.state == SINK_REMOVE_IN_PROGRESS && k.toRemove != []
    ensures var o := Handle(k, Reply(a, ProxyLookup(Last(k.toRemove)), fails));
            var rest := Front(k.toRemove);
            exists first :: |first| <= 1 && Plains(first) &&
              o == if rest == [] then Outcome(k.(toRemove := rest, state := SINK_READY), first)
                   else Outcome(k.(toRemove := rest), first + [SinkLookup(Last(rest))])
  {
    var c := Last(k.toRemove);
    var first := if c in a.proxy then [PairingRemove(c)] else [];
    assert Plains(first);
  }

  predicate Advances(k: Sink, driver: Cmd, o: Outcome) {
    if o.sink.state == SINK_READY then |o.cmds| <= 1 && Plains(o.cmds)
    else
      && o.sink.state == SINK_REMOVE_IN_PROGRESS && o.sink.toRemove != [] && o.cmds != [] && Plains(Front(o.cmds))
      && (Last(o.cmds) == SinkLookup(Last(o.sink.toRemove)) || Last(o.cmds) == ProxyLookup(Last(o.sink.toRemove)))
      && |o.cmds| - 1 + Cost(Last(o.cmds), |o.sink.toRemove|) < Cost(driver, |k.toRemove|)
  }

  lemma LookupAdvances(k: Sink, first: seq<Cmd>)
    requires k.state == SINK_REMOVE_IN_PROGRESS && k.toRemove != [] && |first| <= 1 && Plains(first)
    ensures Advances(k, SinkLookup(Last(k.toRemove)), Outcome(k, first + [ProxyLookup(Last(k.toRemove))]))
  {
    hide Plains;
    assert Front(first + [ProxyLookup(Last(k.toRemove))]) == first;
  }

  lemma ProxyAdvances(k: Sink, first: seq<Cmd>)
    requires k.state == SINK_REMOVE_IN_PROGRESS && k.toRemove != [] && |first| <= 1 && Plains(first)
    ensures var rest := Front(k.toRemove);
            Advances(k, ProxyLookup(Last(k.toRemove)),
                     if rest == [] then Outcome(k.(toRemove := rest, state := SINK_READY), first)
                     else Outcome(k.(toRemove := rest), first + [SinkLookup(Last(rest))]))
  {
    hide Plains;
    var rest := Front(k.toRemove);
    if rest != [] { assert Front(first + [SinkLookup(Last(rest))]) == first; }
  }

  lemma DriverAnswer(s: Sys, fails: bool)
    requires Driven(s, 0) && s.sink.state == SINK_REMOVE_IN_PROGRESS
    ensures Advances(s.sink, s.queue[0], Handle(s.sink, Reply(s.adapter, s.queue[0], fails)))
  {
    hide Handle, Reply, Plains, Advances;
    var k := s.sink;
    var o := Handle(k, Reply(s.adapter, s.queue[0], fails));
    if s.queue[0] == SinkLookup(Last(k.toRemove)) {
      LookupAnswer(k, s.adapter, fails);
      var first :| o == Outcome(k, first + [ProxyLookup(Last(k.toRemove))]) && |first| <= 1 && Plains(first);
      LookupAdvances(k, first);
    } else {
      ProxyAnswer(k, s.adapter, fails);
      var rest := Front(k.toRemove);
      var first :| |first| <= 1 && Plains(first) &&
        o == if rest == [] then Outcome(k.(toRemove := rest, state := SINK_READY), first)
             else Outcome(k.(toRemove := rest), first + [SinkLookup(Last(rest))]);
      ProxyAdvances(k, first);
    }
  }

  lemma StepDriven(s: Sys, d: nat, e: Event)
    requires Driven(s, d)
    ensures Driven(Next(s, e), Place(s, d, e))
    ensures var s' := Next(s, e); var l := Left(s', Place(s, d, e));
            if e.FrameIn? then l <= Left(s, d) + 1 else if s.queue != [] then l < Left(s, d) else s' == s
  {
    hide Handle, Reply, Exec;
    if e.Answered? && s.queue != [] {
      if s.sink.state == SINK_READY || d > 0 {
        if d > 0 { assert s.sink.state == SINK_REMOVE_IN_PROGRESS ==> Plain(s.queue[..d][0]); }
        PlainAnswer(s.sink, s.adapter, s.queue[0], e.fails);
        PopPlain(s, d);
      } else {
        DriverAnswer(s, e.fails);
        DriverGone(s, e);
      }
    } else if e.FrameIn? && e.steer {
      SendAdded(s, d, e.id);
    }
  }

  lemma PopPlain(s: Sys, d: nat)
    requires Driven(s, d) && s.queue != [] && (s.sink.state == SINK_READY || d > 0)
    ensures forall a :: Driven(Sys(s.sink, s.queue[1..] + [], a), if d > 0 then d - 1 else 0)
  {
    var q := s.queue[1..] + [];
    assert q == s.queue[1..];
    if s.sink.state == SINK_REMOVE_IN_PROGRESS {
      assert q[..d - 1] == s.queue[..d][1..];
      assert q[d..] == s.queue[d + 1..];
    }
  }

  lemma SendAdded(s: Sys, d: nat, id: nat)
    requires Driven(s, d)
    ensures Driven(s.(queue := s.queue + [GpSend(id)]), d)
  {
    if s.sink.state == SINK_REMOVE_IN_PROGRESS {
      var q := s.queue + [GpSend(id)];
      assert q[..d] == s.queue[..d];
      assert q[d + 1..] == s.queue[d + 1..] + [GpSend(id)];
    }
  }

  lemma DriverGone(s: Sys, e: Event)
    requires Driven(s, 0) && s.sink.state == SINK_REMOVE_IN_PROGRESS && e.Answered?
    ensures Driven(Next(s, e), Place(s, 0, e))
  {
    hide Handle, Reply, Exec, Cost;
    DriverAnswer(s, e.fails);
    var o := Handle(s.sink, Reply(s.adapter, s.queue[0], e.fails));
    var q := s.queue[1..] + o.cmds;
    if o.sink.state == SINK_REMOVE_IN_PROGRESS {
      assert q[..|q| - 1] == s.queue[1..] + Front(o.cmds);
      assert q[|q|..] == [];
    }
  }

  lemma {:induction false} RunDriven(s: Sys, d: nat, events: seq<Event>) returns (d': nat)
    requires Driven(s, d)
    ensures Driven(Run(s, events), d')
    ensures Exchanges(s, events) + Left(Run(s, events), d') <= Left(s, d) + Steered(events)
    decreases |events|
  {
    hide Next, Driven, Left;
    d' := d;
    if events != [] {
      StepDriven(s, d, events[0]);
      d' := RunDriven(Next(s, events[0]), Place(s, d, events[0]), events[1..]);
    }
  }

  // ----- What it does to the tables

  // This source ID is in neither table, or about to be.
  predicate Clear(s: Sys, id: nat) {
    !InSink(s.adapter, id) && (id in s.adapter.proxy ==> PairingRemove(id) in s.queue)
  }

  // Nothing but entries of the listed devices has gone.
  predicate OthersKept(a: Adapter, a0: Adapter, list: seq<nat>) {
    && |a.sink| == |a0.sink|
    && (forall i :: 0 <= i < |a.sink| ==>
          a.sink[i] == a0.sink[i] || (a.sink[i].None? && a0.sink[i].Some? && a0.sink[i].value.id in list))
    && (forall id :: id in a.proxy ==> id in a0.proxy && a.proxy[id] == a0.proxy[id])
    && (forall id :: id in a0.proxy && id !in list ==> id in a.proxy)
  }

  // Every command under way concerns the list; an entry to remove is that of the device in hand.
  predicate QueueOk(s: Sys, d: nat, list: seq<nat>) {
    && (forall i :: 0 <= i < |s.queue| && s.queue[i].PairingRemove? ==> s.queue[i].id in list)
    && (forall i :: 0 <= i < |s.queue| && s.queue[i].SinkRemoveEntry? ==>
          && s.sink.state == SINK_REMOVE_IN_PROGRESS && i < d < |s.queue| && s.queue[d].ProxyLookup?
          && s.queue[i].index < |s.adapter.sink|
          && s.adapter.sink[s.queue[i].index].Some? && s.adapter.sink[s.queue[i].index].value.id == s.queue[d].id)
    && (forall i, k | 0 <= i < |s.queue| && 0 <= k < |s.queue| ::
          s.queue[i].SinkRemoveEntry? && s.queue[k].SinkRemoveEntry? ==> i == k)
  }

  // The tables, as far as the removal has come.
  predicate Edited(s: Sys, d: nat, list: seq<nat>, a0: Adapter)
    requires s.sink.state == SINK_REMOVE_IN_PROGRESS ==> d < |s.queue|
  {
    && TableOk(s.adapter.sink)
    && OthersKept(s.adapter, a0, list) && QueueOk(s, d, list)
    && (forall i :: 0 <= i < |s.sink.toRemove| ==> s.sink.toRemove[i] in list)
    && (s.sink.state == SINK_READY ==> s.sink.toRemove == [])
    && (forall id :: id in list ==> id in s.sink.toRemove || Clear(s, id))
    && (s.sink.state == SINK_REMOVE_IN_PROGRESS && s.queue[d].ProxyLookup? && InSink(s.adapter, s.queue[d].id) ==>
          exists i :: 0 <= i < d && s.queue[i].SinkRemoveEntry?)
  }

  predicate Removing(s: Sys, d: nat, list: seq<nat>, a0: Adapter) {
    Driven(s, d) && Edited(s, d, list, a0)
  }

  // The oldest command is not the driving lookup.
  predicate PlainFirst(s: Sys, d: nat) {
    && s.queue != [] && Plain(s.queue[0])
    && ((s.sink.state == SINK_REMOVE_IN_PROGRESS && 0 < d < |s.queue|) || s.sink.state == SINK_READY)
  }

  function Popped(s: Sys, a: Adapter): Sys
    requires s.queue != []
  {
    Sys(s.sink, s.queue[1..], a)
  }

  lemma SendExecuted(s: Sys, d: nat, list: seq<nat>, a0: Adapter)
    requires PlainFirst(s, d) && Edited(s, d, list, a0) && s.queue[0].GpSend?
    ensures Edited(Popped(s, s.adapter), if d > 0 then d - 1 else 0, list, a0)
  {
    var q := s.queue[1..];
    assert forall id :: PairingRemove(id) in s.queue ==> PairingRemove(id) in q;
  }

  lemma PairingExecuted(s: Sys, d: nat, list: seq<nat>, a0: Adapter)
    requires PlainFirst(s, d) && Edited(s, d, list, a0) && s.queue[0].PairingRemove?
    ensures Edited(Popped(s, Exec(s.adapter, s.queue[0], false)), if d > 0 then d - 1 else 0, list, a0)
  {
    var q := s.queue[1..];
    assert forall id :: PairingRemove(id) in s.queue ==> PairingRemove(id) in q || id == s.queue[0].id;
  }

  lemma RemoveExecuted(s: Sys, d: nat, list: seq<nat>, a0: Adapter)
    requires PlainFirst(s, d) && Edited(s, d, list, a0) && s.queue[0].SinkRemoveEntry? &&
             s.sink.state == SINK_REMOVE_IN_PROGRESS
    requires s.sink.toRemove != [] && s.queue[d] == ProxyLookup(Last(s.sink.toRemove))
    ensures Edited(Popped(s, Exec(s.adapter, s.queue[0], false)), d - 1, list, a0)
  {
    var q := s.queue[1..];
    var a := Exec(s.adapter, s.queue[0], false);
    assert forall id :: PairingRemove(id) in s.queue ==> PairingRemove(id) in q;
    assert !InSink(a, s.queue[d].id);
    assert forall id :: InSink(a, id) ==> InSink(s.adapter, id);
  }

  lemma InHand(s: Sys, d: nat, list: seq<nat>, a0: Adapter)
    requires Removing(s, d, list, a0) && s.queue != [] && s.queue[0].SinkRemoveEntry?
    ensures s.sink.state == SINK_REMOVE_IN_PROGRESS && s.sink.toRemove != [] && d < |s.queue|
    ensures s.queue[d] == ProxyLookup(Last(s.sink.toRemove))
  {}

  // A plain command reaches the adapter.
  lemma PlainExecuted(s: Sys, d: nat, fails: bool, list: seq<nat>, a0: Adapter)
    requires Removing(s, d, list, a0) && s.queue != [] && (s.sink.state == SINK_READY || d > 0)
    ensures Removing(Popped(s, Exec(s.adapter, s.queue[0], fails)), if d > 0 then d - 1 else 0, list, a0)
  {
    hide Edited;
    PopPlain(s, d);
    assert s.queue[1..] + [] == s.queue[1..];
    assert PlainFirst(s, d) by {
      if s.sink.state == SINK_REMOVE_IN_PROGRESS { assert s.queue[..d][0] == s.queue[0]; }
    }
    if s.queue[0].GpSend? { SendExecuted(s, d, list, a0); }
    else if s.queue[0].PairingRemove? { PairingExecuted(s, d, list, a0); }
    else { InHand(s, d, list, a0); RemoveExecuted(s, d, list, a0); }
  }

  // The driving sink lookup reaches the adapter, and its answer the sink.
  lemma LookupExecuted(s: Sys, fails: bool, list: seq<nat>, a0: Adapter)
    requires s.sink.state == SINK_REMOVE_IN_PROGRESS && s.queue != [] && s.sink.toRemove != []
    requires Edited(s, 0, list, a0) && s.queue[0] == SinkLookup(Last(s.sink.toRemove)) && Plains(s.queue[1..])
    ensures var s' := Next(s, Answered(fails));
            s'.sink.state == SINK_REMOVE_IN_PROGRESS && s'.queue != [] && Edited(s', |s'.queue| - 1, list, a0)
  {
    var a, c, rest := s.adapter, Last(s.sink.toRemove), s.queue[1..];
    var i := Find(a.sink, c, 0);
    var first := if i < |a.sink| then [SinkRemoveEntry(i)] else [];
    var s' := Next(s, Answered(fails));
    assert s'.queue == rest + first + [ProxyLookup(c)];
    assert s'.sink == s.sink && s'.adapter == a;
    assert forall id :: PairingRemove(id) in s.queue ==> PairingRemove(id) in rest;
    if i < |a.sink| { assert s'.queue[|rest|] == SinkRemoveEntry(i); } else { assert !InSink(a, c); }
  }

  lemma ProxyNext(s: Sys, fails: bool)
    requires s.sink.state == SINK_REMOVE_IN_PROGRESS && s.queue != [] && s.sink.toRemove != []
    requires s.queue[0] == ProxyLookup(Last(s.sink.toRemove))
    ensures var rest, c := Front(s.sink.toRemove), Last(s.sink.toRemove);
            Next(s, Answered(fails)) ==
            Sys(s.sink.(toRemove := rest, state := if rest == [] then SINK_READY else SINK_REMOVE_IN_PROGRESS),
                s.queue[1..] + ((if c in s.adapter.proxy then [PairingRemove(c)] else []) +
                                (if rest == [] then [] else [SinkLookup(Last(rest))])),
                s.adapter)
  {
    var first := if Last(s.sink.toRemove) in s.adapter.proxy then [PairingRemove(Last(s.sink.toRemove))] else [];
    assert first + [] == first;
  }

  lemma ProxyExecuted(s: Sys, fails: bool, list: seq<nat>, a0: Adapter)
    requires s.sink.state == SINK_REMOVE_IN_PROGRESS && s.queue != [] && s.sink.toRemove != []
    requires Edited(s, 0, list, a0) && s.queue[0] == ProxyLookup(Last(s.sink.toRemove)) && Plains(s.queue[1..])
    ensures var s' := Next(s, Answered(fails));
            (s'.sink.state == SINK_REMOVE_IN_PROGRESS ==> s'.queue != []) &&
            Edited(s', if s'.queue != [] then |s'.queue| - 1 else 0, list, a0)
  {
    hide Next, OthersKept, TableOk;
    var a, c, q := s.adapter, Last(s.sink.toRemove), s.queue[1..];
    var rest := Front(s.sink.toRemove);
    ProxyNext(s, fails);
    var q' := Next(s, Answered(fails)).queue;
    assert !InSink(a, c);
    assert forall id :: PairingRemove(id) in s.queue ==> PairingRemove(id) in q;
    if c in a.proxy { assert q'[|q|] == PairingRemove(c); }
    assert forall i :: 0 <= i < |s.sink.toRemove| ==> s.sink.toRemove[i] == c || s.sink.toRemove[i] in rest;
  }

  lemma FrameKeeps(s: Sys, d: nat, id: nat, list: seq<nat>, a0: Adapter)
    requires Removing(s, d, list, a0)
    ensures Removing(s.(queue := s.queue + [GpSend(id)]), d, list, a0)
  {
    hide Driven;
    SendAdded(s, d, id);
    var q := s.queue + [GpSend(id)];
    assert s.sink.state == SINK_REMOVE_IN_PROGRESS ==> d < |s.queue| by { DrivenBound(s, d); }
    assert forall x :: PairingRemove(x) in s.queue ==> PairingRemove(x) in q;
    assert forall i :: 0 <= i < |s.queue| ==> q[i] == s.queue[i];
    assert forall i :: 0 <= i < |q| ==> i < |s.queue| || q[i].GpSend?;
  }

  lemma DrivenBound(s: Sys, d: nat)
    requires Driven(s, d)
    ensures s.sink.state == SINK_REMOVE_IN_PROGRESS || s.sink.state == SINK_READY
    ensures s.sink.state == SINK_REMOVE_IN_PROGRESS ==> d < |s.queue| && s.sink.toRemove != []
    ensures s.sink.state == SINK_REMOVE_IN_PROGRESS ==>
            s.queue[d] == SinkLookup(Last(s.sink.toRemove)) || s.queue[d] == ProxyLookup(Last(s.sink.toRemove))
    ensures s.sink.state == SINK_REMOVE_IN_PROGRESS && d == 0 ==> Plains(s.queue[1..])
  {}

  lemma StepRemoving(s: Sys, d: nat, e: Event, list: seq<nat>, a0: Adapter)
    requires Removing(s, d, list, a0)
    ensures Removing(Next(s, e), Place(s, d, e), list, a0)
  {
    hide Edited, Driven, Exec, Handle, Reply;
    StepDriven(s, d, e);
    DrivenBound(s, d);
    if e.FrameIn? {
      if e.steer { FrameKeeps(s, d, e.id, list, a0); }
    } else if s.queue != [] {
      if s.sink.state == SINK_READY || d > 0 {
        PlainExecuted(s, d, e.fails, list, a0);
        FirstIsPlain(s, d);
        PlainAnswer(s.sink, s.adapter, s.queue[0], e.fails);
        assert s.queue[1..] + [] == s.queue[1..];
        ReadyAnywhere(Next(s, e), if d > 0 then d - 1 else 0, Place(s, d, e), list, a0);
      } else if s.queue[0].SinkLookup? {
        LookupExecuted(s, e.fails, list, a0);
      } else {
        ProxyExecuted(s, e.fails, list, a0);
      }
    }
  }

  lemma FirstIsPlain(s: Sys, d: nat)
    requires Driven(s, d) && s.queue != [] && (s.sink.state == SINK_READY || d > 0)
    ensures s.sink.state == SINK_READY || (s.sink.state == SINK_REMOVE_IN_PROGRESS && Plain(s.queue[0]))
  {
    if s.sink.state == SINK_REMOVE_IN_PROGRESS { assert s.queue[..d][0] == s.queue[0]; }
  }

  // Once the sink is ready the place of the driving lookup means nothing.
  lemma ReadyAnywhere(s: Sys, d: nat, d': nat, list: seq<nat>, a0: Adapter)
    requires Removing(s, d, list, a0) && (s.sink.state == SINK_READY || d == d')
    ensures Removing(s, d', list, a0)
  {
    hide OthersKept, Clear;
  }

  lemma {:induction false} RunRemoving(s: Sys, d: nat, events: seq<Event>, list: seq<nat>, a0: Adapter)
    returns (d': nat)
    requires Removing(s, d, list, a0)
    ensures Removing(Run(s, events), d', list, a0)
    decreases |events|
  {
    hide Next, Place, Removing;
    d' := d;
    if events != [] {
      StepRemoving(s, d, events[0], list, a0);
      d' := RunRemoving(Next(s, events[0]), Place(s, d, events[0]), events[1..], list, a0);
    }
  }

  // The system when removeGpds has just been called.
  function Requested(k: Sink, queue: seq<Cmd>, a: Adapter, list: seq<nat>): Sys {
    var o := Remove(k, list);
    Sys(o.sink, queue + o.cmds, a)
  }

  lemma RequestedOk(k: Sink, queue: seq<Cmd>, a: Adapter, list: seq<nat>)
    requires k.state == SINK_READY && list != [] && OnlySends(queue) && TableOk(a.sink)
    ensures Removing(Requested(k, queue, a, list), |queue|, list, a)
    ensures Left(Requested(k, queue, a, list), |queue|) == |queue| + 4 * |list|
  {
    var s := Requested(k, queue, a, list);
    assert s.queue[..|queue|] == queue && s.queue[|queue| + 1..] == [];
  }

  // Removing any list from a ready sink with nothing but Green Power sends under way, whatever frames come
  // in: at most four exchanges for each device, one for each command queued before and one for each frame;
  // while commands remain to be answered nothing is lost; and when the queue is empty the sink is ready,
  // neither table holds a listed device, and every other entry is where it was.
  lemma RemovalCompletes(k: Sink, queue: seq<Cmd>, a: Adapter, list: seq<nat>, events: seq<Event>)
    requires k.state == SINK_READY && list != [] && OnlySends(queue) && TableOk(a.sink)
    ensures var s0 := Requested(k, queue, a, list); var s := Run(s0, events);
            Exchanges(s0, events) <= |queue| + 4 * |list| + Steered(events) &&
            OthersKept(s.adapter, a, list) &&
            (s.queue == [] ==>
               s.sink.state == SINK_READY &&
               forall id :: id in list ==> !InSink(s.adapter, id) && id !in s.adapter.proxy)
  {
    hide Run, Exchanges, Steered, Requested, OthersKept;
    var s0 := Requested(k, queue, a, list);
    RequestedOk(k, queue, a, list);
    var d1 := RunDriven(s0, |queue|, events);
    var d2 := RunRemoving(s0, |queue|, events, list, a);
  }
}
