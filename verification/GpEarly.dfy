/** Registering too early. The sink is ready while the last pairing command of a removal is still unanswered;
    its answer counts as the first device's own, and that device is lost. So a registration completes exactly
    when no such command is queued. */
module GpEarly {
  import opened GpSink
  import opened GpRegistration
  import GpRemoval

  // What a removal can leave behind in the queue of a ready sink.
  predicate Leftovers(q: seq<Cmd>) { forall i :: 0 <= i < |q| ==> q[i].GpSend? || q[i].PairingRemove? }

  // ----- A removal leaves an unanswered pairing command behind

  // Removing one device that the proxy table holds: after two answers, three if the sink table holds it
  // too, the sink is ready and the command that unpairs the device is queued.
  lemma RemovalLeavesPairing(k: Sink, a: Adapter, id: nat) returns (events: seq<Event>)
    requires k.state == SINK_READY && TableOk(a.sink) && id in a.proxy
    ensures var s := Run(GpRemoval.Requested(k, [], a, [id]), events);
            s.sink.state == SINK_READY && s.queue == [PairingRemove(id)] && TableOk(s.adapter.sink)
  {
    var e := Answered(false);
    var s0 := GpRemoval.Requested(k, [], a, [id]);
    assert s0.queue == [SinkLookup(id)];
    var i := Find(a.sink, id, 0);
    var s1 := Next(s0, e);
    if i < |a.sink| {
      assert s1.queue == [SinkRemoveEntry(i), ProxyLookup(id)];
      var s2 := Next(s1, e);
      assert s2.queue == [ProxyLookup(id)];
      var s3 := Next(s2, e);
      assert s3.queue == [PairingRemove(id)];
      events := [e, e, e];
      assert events[1..] == [e, e] && [e, e][1..] == [e] && [e][1..] == [];
      assert Run(s0, events) == Run(s1, [e, e]) == Run(s2, [e]) == Run(s3, []) == s3;
    } else {
      assert s1.queue == [ProxyLookup(id)];
      var s2 := Next(s1, e);
      assert s2.queue == [PairingRemove(id)];
      events := [e, e];
      assert events[1..] == [e] && [e][1..] == [];
      assert Run(s0, events) == Run(s1, [e]) == Run(s2, []) == s2;
    }
  }

  // ----- The device is lost

  // No active entry of this source ID but those of a0.
  ghost predicate NothingNew(a: Adapter, a0: Adapter, id: nat) {
    forall key :: SinkHas(a, Entry(id, key, true)) ==> SinkHas(a0, Entry(id, key, true))
  }

  // Nothing under way can write an entry of this source ID.
  predicate NoWrite(q: seq<Cmd>, id: nat) {
    forall i :: 0 <= i < |q| && q[i].SinkSetEntry? ==> q[i].entry.id != id
  }

  predicate NotIn(list: seq<Device>, id: nat) { forall i :: 0 <= i < |list| ==> list[i].id != id }

  // The stale answer is still to come, ahead of the request for the device, which is at place f.
  predicate Ahead(s: Sys, list: seq<Device>, f: nat) {
    && list != [] && s.sink.state == SINK_COM_OFFLINE_IN_PROGRESS && s.sink.toRegister == list
    && f < |s.queue| && s.queue[f].FindOrAllocate?
    && Leftovers(s.queue[..f]) && OnlySends(s.queue[f + 1..])
    && (exists i :: 0 <= i < f && s.queue[i].PairingRemove?)
  }

  // It has come: the device is in the list no more.
  predicate Gone(s: Sys, id: nat) {
    && NotIn(s.sink.toRegister, id)
    && (s.sink.state == SINK_READY || (s.sink.state == SINK_COM_OFFLINE_IN_PROGRESS && s.sink.toRegister != []))
  }

  ghost predicate Lost(s: Sys, list: seq<Device>, id: nat, a0: Adapter) {
    NothingNew(s.adapter, a0, id) && NoWrite(s.queue, id) && ((exists f :: Ahead(s, list, f)) || Gone(s, id))
  }

  // A command that writes no entry of this source ID makes none active.
  lemma ExecMakesNothingNew(a: Adapter, cmd: Cmd, fails: bool, id: nat, a0: Adapter)
    requires NothingNew(a, a0, id) && (cmd.SinkSetEntry? ==> cmd.entry.id != id)
    ensures NothingNew(Exec(a, cmd, fails), a0, id)
  {
    var a' := Exec(a, cmd, fails);
    forall key | SinkHas(a', Entry(id, key, true)) ensures SinkHas(a0, Entry(id, key, true)) {
      var i :| 0 <= i < |a'.sink| && a'.sink[i] == Some(Entry(id, key, true));
      assert a.sink[i] == a'.sink[i];
      assert SinkHas(a, Entry(id, key, true));
    }
  }

  lemma GoneStays(s: Sys, id: nat, fails: bool)
    requires Gone(s, id) && s.queue != [] && NoWrite(s.queue, id)
    ensures var s' := Next(s, Answered(fails)); Gone(s', id) && NoWrite(s'.queue, id)
  {
    hide Exec, Find, FindFree;
    var o := Handle(s.sink, Reply(s.adapter, s.queue[0], fails));
    assert NoWrite(s.queue[1..], id);
    assert forall i :: 0 <= i < |o.cmds| && o.cmds[i].SinkSetEntry? ==> o.cmds[i].entry.id != id;
  }

  lemma AheadSteps(s: Sys, list: seq<Device>, f: nat, fails: bool, id: nat)
    requires Ahead(s, list, f) && NotIn(Front(list), id) && NoWrite(s.queue, id)
    ensures var s' := Next(s, Answered(fails));
            NoWrite(s'.queue, id) && (Gone(s', id) || (f > 0 && Ahead(s', list, f - 1)))
  {
    var p :| 0 <= p < f && s.queue[p].PairingRemove?;
    var q := s.queue[1..];
    assert s.queue[..f][0] == s.queue[0];
    if s.queue[0].GpSend? {
      assert q + [] == q;
      assert q[..f - 1] == s.queue[..f][1..] && q[f..] == s.queue[f + 1..];
      assert q[p - 1] == s.queue[p];
    }
  }

  lemma FrameKeepsAhead(s: Sys, list: seq<Device>, f: nat, id: nat)
    requires Ahead(s, list, f)
    ensures Ahead(s.(queue := s.queue + [GpSend(id)]), list, f)
  {
    var p :| 0 <= p < f && s.queue[p].PairingRemove?;
    var q := s.queue + [GpSend(id)];
    assert q[..f] == s.queue[..f] && q[f + 1..] == s.queue[f + 1..] + [GpSend(id)] && q[p] == s.queue[p];
  }

  lemma StepLost(s: Sys, e: Event, list: seq<Device>, id: nat, a0: Adapter)
    requires list != [] && NotIn(Front(list), id) && Lost(s, list, id, a0)
    ensures Lost(Next(s, e), list, id, a0)
  {
    hide Exec, Handle, Reply, Gone, Ahead, NothingNew;
    if e.FrameIn? {
      if e.steer {
        if f :| Ahead(s, list, f) { FrameKeepsAhead(s, list, f, e.id); } else { FrameKeepsGone(s, e.id, id); }
      }
    } else if s.queue != [] {
      ExecMakesNothingNew(s.adapter, s.queue[0], e.fails, id, a0);
      if f :| Ahead(s, list, f) { AheadSteps(s, list, f, e.fails, id); } else { GoneStays(s, id, e.fails); }
    }
  }

  lemma FrameKeepsGone(s: Sys, frame: nat, id: nat)
    requires Gone(s, id)
    ensures Gone(s.(queue := s.queue + [GpSend(frame)]), id)
  {}

  lemma {:induction false} RunLost(s: Sys, events: seq<Event>, list: seq<Device>, id: nat, a0: Adapter)
    requires list != [] && NotIn(Front(list), id) && Lost(s, list, id, a0)
    ensures Lost(Run(s, events), list, id, a0)
    decreases |events|
  {
    hide Next, Lost, NotIn;
    if events != [] {
      StepLost(s, events[0], list, id, a0);
      RunLost(Next(s, events[0]), events[1..], list, id, a0);
    }
  }

  lemma RequestedLost(k: Sink, queue: seq<Cmd>, a: Adapter, list: seq<Device>)
    requires k.state == SINK_READY && list != [] && Leftovers(queue) && !OnlySends(queue)
    ensures Lost(Requested(k, queue, a, list), list, Last(list).id, a)
  {
    var s := Requested(k, queue, a, list);
    var p :| 0 <= p < |queue| && !queue[p].GpSend?;
    assert s.queue[..|queue|] == queue && s.queue[|queue| + 1..] == [] && s.queue[p] == queue[p];
    assert Ahead(s, list, |queue|);
  }

  // With a stale pairing command queued, the device registered first (the last of the list) never becomes
  // active, in any run, whatever frames come in and however long it lasts: the sink table never gets an
  // active entry of its source ID, under any key, that it did not have.
  lemma StaleAnswerLosesDevice(k: Sink, queue: seq<Cmd>, a: Adapter, list: seq<Device>, events: seq<Event>)
    requires k.state == SINK_READY && list != [] && Leftovers(queue) && !OnlySends(queue)
    requires NotIn(Front(list), Last(list).id)
    ensures NothingNew(Run(Requested(k, queue, a, list), events).adapter, a, Last(list).id)
  {
    hide Run, Requested, NothingNew, NotIn;
    RequestedLost(k, queue, a, list);
    RunLost(Requested(k, queue, a, list), events, list, Last(list).id, a);
  }

  // Nor does the sink tell: with one such command queued and one device to register, it is ready again after
  // two answers, with nothing queued and nothing left to register.
  lemma ReadyWithoutDevice(k: Sink, a: Adapter, removed: nat, gpd: Device)
    requires k.state == SINK_READY && TableOk(a.sink) && !InSink(a, gpd.id)
    ensures var s := Run(Requested(k, [PairingRemove(removed)], a, [gpd]), [Answered(false), Answered(false)]);
            s.queue == [] && s.sink.state == SINK_READY && s.sink.toRegister == [] &&
            forall key :: !SinkHas(s.adapter, Entry(gpd.id, key, true))
  {
    var e, queue := Answered(false), [PairingRemove(removed)];
    var s0 := Requested(k, queue, a, [gpd]);
    var s1 := Next(s0, e);
    assert s0.queue == [PairingRemove(removed), FindOrAllocate(gpd.id)];
    assert s1.sink.state == SINK_READY && s1.queue == [FindOrAllocate(gpd.id)];
    var s2 := Next(s1, e);
    assert s2.queue == [];
    assert [e, e][1..] == [e] && [e][1..] == [];
    assert Run(s0, [e, e]) == Run(s1, [e]) == Run(s2, []);
    assert queue[0].PairingRemove?;
    StaleAnswerLosesDevice(k, queue, a, [gpd], [e, e]);
  }

  // So, however the run goes that drains the queue without a failure of the adapter, the list is
  // registered if and only if no pairing command of an earlier removal was queued at the call.
  lemma CompletesExactly(k: Sink, queue: seq<Cmd>, a: Adapter, list: seq<Device>, events: seq<Event>)
    requires k.state == SINK_READY && list != [] && Leftovers(queue) && TableOk(a.sink)
    requires NotIn(Front(list), Last(list).id) && !SinkHas(a, NewEntry(Last(list)))
    requires Run(Requested(k, queue, a, list), events).queue == [] && NoFailure(Requested(k, queue, a, list), events)
    ensures Registered(Run(Requested(k, queue, a, list), events).adapter, list, 0) <==>
            forall i :: 0 <= i < |queue| ==> !queue[i].PairingRemove?
  {
    hide Run, Requested, NoFailure, NotIn;
    if OnlySends(queue) {
      RegistrationCompletes(k, queue, a, list, events);
    } else {
      StaleAnswerLosesDevice(k, queue, a, list, events);
      assert Listed(list, 0, Last(list).id) by { assert list[|list| - 1] == Last(list); }
      LastKey(list, 0);
    }
  }

  // A source ID that only the last device has is registered under that device's key.
  lemma {:induction false} LastKey(list: seq<Device>, n: nat)
    requires n < |list| && NotIn(Front(list), Last(list).id) && Listed(list, n, Last(list).id)
    ensures FirstKey(list, n, Last(list).id) == Last(list).key
    decreases |list| - n
  {
    if n < |list| - 1 {
      assert list[n] == Front(list)[n];
      LastKey(list, n + 1);
    }
  }
}
