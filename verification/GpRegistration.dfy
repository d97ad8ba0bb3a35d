/** Registering a list of devices: four exchanges for each, back to front, so that of two devices with one
    source ID the first in the list stays; every other entry is untouched. */
module GpRegistration {
  import opened GpSink

  // ----- The list

  predicate Listed(list: seq<Device>, from: nat, id: nat) {
    exists i :: from <= i < |list| && list[i].id == id
  }

  // The key of the first device with this source ID at or behind a place.
  function FirstKey(list: seq<Device>, from: nat, id: nat): seq<bv8>
    requires from <= |list| && Listed(list, from, id)
    decreases |list| - from
  {
    if list[from].id == id then list[from].key else FirstKey(list, from + 1, id)
  }

  // ----- Where a registration is

  // The exchanges behind the one in hand, of the four for a device.
  function Phase(cmd: Cmd): nat {
    match cmd
    case FindOrAllocate(_) => 0
    case SinkGetEntry(_) => 1
    case SinkSetEntry(_, _) => 2
    case _ => 3
  }

  // The command in hand for a device, and the slot it concerns.
  predicate InHand(cmd: Cmd, gpd: Device, index: nat) {
    cmd == FindOrAllocate(gpd.id) || cmd == SinkGetEntry(index) || cmd == SinkSetEntry(index, NewEntry(gpd)) ||
    cmd == PairingAdd(NewEntry(gpd))
  }

  // The command that drives the registration is at place d of the queue, among Green Power sends.
  predicate Driven(s: Sys, d: nat) {
    if s.sink.state == SINK_COM_OFFLINE_IN_PROGRESS then
      && d < |s.queue| && s.sink.toRegister != []
      && InHand(s.queue[d], Last(s.sink.toRegister), s.sink.index)
      && (s.queue[d].PairingAdd? || s.queue[d].SinkSetEntry? ==> s.sink.entry == NewEntry(Last(s.sink.toRegister)))
      && OnlySends(s.queue[..d]) && OnlySends(s.queue[d + 1..])
    else s.sink.state == SINK_READY && OnlySends(s.queue)
  }

  // ----- The tables

  predicate SinkHas(a: Adapter, e: Entry) {
    exists i :: 0 <= i < |a.sink| && a.sink[i] == Some(e)
  }

  // A slot changes only by taking a listed device, in place of nothing or of that device.
  predicate SlotOk(now: Option<Entry>, was: Option<Entry>, list: seq<Device>) {
    now == was || (now.Some? && Listed(list, 0, now.value.id) && (was.Some? ==> was.value.id == now.value.id))
  }

  ghost predicate OthersKept(a: Adapter, a0: Adapter, list: seq<Device>) {
    && |a.sink| == |a0.sink|
    && (forall i :: 0 <= i < |a.sink| ==> SlotOk(a.sink[i], a0.sink[i], list))
    && (forall id :: !Listed(list, 0, id) ==> (id in a.proxy <==> id in a0.proxy))
    && (forall id :: id in a0.proxy && id in a.proxy && !Listed(list, 0, id) ==> a.proxy[id] == a0.proxy[id])
  }

  // The devices from place n on are in both tables, under their first keys.
  ghost predicate Registered(a: Adapter, list: seq<Device>, n: nat)
    requires n <= |list|
  {
    forall id :: Listed(list, n, id) ==>
      SinkHas(a, Entry(id, FirstKey(list, n, id), true)) && id in a.proxy && a.proxy[id] == FirstKey(list, n, id)
  }

  // The slot in hand is the current device's.
  predicate SlotReady(s: Sys, cmd: Cmd)
    requires s.sink.toRegister != []
  {
    var gpd := Last(s.sink.toRegister);
    var i := s.sink.index;
    && (cmd.SinkGetEntry? || cmd.SinkSetEntry? ==>
          i < |s.adapter.sink| && s.adapter.sink[i].Some? && s.adapter.sink[i].value.id == gpd.id)
    && (cmd.PairingAdd? ==> SinkHas(s.adapter, NewEntry(gpd)))
  }

  // Those done, except that the entry of the device in hand may be under way.
  ghost predicate DoneOrInHand(s: Sys, list: seq<Device>, cmd: Cmd)
    requires |s.sink.toRegister| <= |list|
  {
    var n := |s.sink.toRegister|;
    forall id :: Listed(list, n, id) ==>
      && id in s.adapter.proxy && s.adapter.proxy[id] == FirstKey(list, n, id)
      && (SinkHas(s.adapter, Entry(id, FirstKey(list, n, id), true)) ||
          (cmd.PairingAdd? && s.sink.toRegister != [] && id == Last(s.sink.toRegister).id))
  }

  ghost predicate Registering(s: Sys, d: nat, list: seq<Device>, a0: Adapter) {
    && Driven(s, d) && TableOk(s.adapter.sink) && OthersKept(s.adapter, a0, list)
    && s.sink.toRegister <= list
    && (if s.sink.state == SINK_COM_OFFLINE_IN_PROGRESS
        then SlotReady(s, s.queue[d]) && DoneOrInHand(s, list, s.queue[d])
        else Registered(s.adapter, list, |s.sink.toRegister|))
  }

  // ----- One exchange after another

  // The answer to the driving command d, its turn come: what is in the queue, and the list left.
  ghost predicate Handled(s: Sys, s': Sys, next: Cmd) {
    s.queue != [] && s'.queue == s.queue[1..] + [next] && s'.sink.state == SINK_COM_OFFLINE_IN_PROGRESS
  }

  lemma AllocateExecuted(s: Sys, fails: bool, list: seq<Device>, a0: Adapter)
    requires s.sink.state == SINK_COM_OFFLINE_IN_PROGRESS && s.sink.toRegister != [] && s.sink.toRegister <= list &&
             s.queue != []
    requires s.queue[0] == FindOrAllocate(Last(s.sink.toRegister).id)
    requires TableOk(s.adapter.sink) && OthersKept(s.adapter, a0, list) && DoneOrInHand(s, list, s.queue[0])
    ensures var s' := Next(s, Answered(fails));
            s'.sink.toRegister == s.sink.toRegister && TableOk(s'.adapter.sink) && OthersKept(s'.adapter, a0, list) &&
            (if s'.sink.state == SINK_READY
             then s'.queue == s.queue[1..] && Registered(s'.adapter, list, |s.sink.toRegister|)
             else Handled(s, s', SinkGetEntry(s'.sink.index)) &&
                  SlotReady(s', SinkGetEntry(s'.sink.index)) && DoneOrInHand(s', list, SinkGetEntry(s'.sink.index)))
  {
    var s' := Next(s, Answered(fails));
    var gpd := Last(s.sink.toRegister);
    var t, t' := s.adapter.sink, s'.adapter.sink;
    assert Listed(list, 0, gpd.id) by { assert list[|s.sink.toRegister| - 1] == gpd; }
    assert s.queue[1..] + [] == s.queue[1..];
    var found, free := Find(t, gpd.id, 0), FindFree(t, 0);
    if found == |t| && free < |t| {
      assert t' == t[free := Some(Entry(gpd.id, [], false))];
    }
    forall e | SinkHas(s.adapter, e) ensures SinkHas(s'.adapter, e) {
      var i :| 0 <= i < |t| && t[i] == Some(e);
      assert t'[i] == Some(e);
    }
  }

  lemma GetEntryExecuted(s: Sys, fails: bool, list: seq<Device>)
    requires s.sink.state == SINK_COM_OFFLINE_IN_PROGRESS && s.sink.toRegister != [] && s.sink.toRegister <= list &&
             s.queue != []
    requires s.queue[0] == SinkGetEntry(s.sink.index) && SlotReady(s, s.queue[0]) && DoneOrInHand(s, list, s.queue[0])
    ensures var s' := Next(s, Answered(fails)); var e := NewEntry(Last(s.sink.toRegister));
            s'.sink == s.sink.(entry := e) && s'.adapter == s.adapter &&
                Handled(s, s', SinkSetEntry(s.sink.index, e)) &&
            SlotReady(s', SinkSetEntry(s.sink.index, e)) && DoneOrInHand(s', list, SinkSetEntry(s.sink.index, e))
  {}

  lemma SetEntryExecuted(s: Sys, fails: bool, list: seq<Device>, a0: Adapter)
    requires s.sink.state == SINK_COM_OFFLINE_IN_PROGRESS && s.sink.toRegister != [] && s.sink.toRegister <= list &&
             s.queue != []
    requires s.queue[0] == SinkSetEntry(s.sink.index, NewEntry(Last(s.sink.toRegister)))
    requires s.sink.entry == NewEntry(Last(s.sink.toRegister)) && SlotReady(s, s.queue[0])
    requires TableOk(s.adapter.sink) && OthersKept(s.adapter, a0, list) && DoneOrInHand(s, list, s.queue[0])
    ensures var s' := Next(s, Answered(fails)); var e := NewEntry(Last(s.sink.toRegister));
            s'.sink.toRegister == s.sink.toRegister && TableOk(s'.adapter.sink) && OthersKept(s'.adapter, a0, list) &&
            (if fails
             then s'.sink.state == SINK_READY && s'.queue == s.queue[1..] &&
                  Registered(s'.adapter, list, |s.sink.toRegister|)
             else Handled(s, s', PairingAdd(e)) && s'.sink == s.sink &&
                  SlotReady(s', PairingAdd(e)) && DoneOrInHand(s', list, PairingAdd(e)))
  {
    var s' := Next(s, Answered(fails));
    var gpd := Last(s.sink.toRegister);
    var t, t' := s.adapter.sink, s'.adapter.sink;
    assert Listed(list, 0, gpd.id) by { assert list[|s.sink.toRegister| - 1] == gpd; }
    assert s.queue[1..] + [] == s.queue[1..];
    if !fails {
      assert t' == t[s.sink.index := Some(NewEntry(gpd))];
      assert t'[s.sink.index] == Some(NewEntry(gpd));
      forall e | SinkHas(s.adapter, e) && e.id != gpd.id ensures SinkHas(s'.adapter, e) {
        var i :| 0 <= i < |t| && t[i] == Some(e);
        assert t'[i] == Some(e);
      }
    }
  }

  lemma PairingExecuted(s: Sys, fails: bool, list: seq<Device>, a0: Adapter)
    requires s.sink.state == SINK_COM_OFFLINE_IN_PROGRESS && s.sink.toRegister != [] && s.sink.toRegister <= list &&
             s.queue != []
    requires s.queue[0] == PairingAdd(NewEntry(Last(s.sink.toRegister))) && SlotReady(s, s.queue[0])
    requires OthersKept(s.adapter, a0, list) && DoneOrInHand(s, list, s.queue[0])
    ensures var s' := Next(s, Answered(fails));
            s'.sink.toRegister == Front(s.sink.toRegister) && s'.adapter.sink == s.adapter.sink &&
                OthersKept(s'.adapter, a0, list) &&
            (if s'.sink.toRegister == []
             then s'.sink.state == SINK_READY && s'.queue == s.queue[1..] && Registered(s'.adapter, list, 0)
             else var next := FindOrAllocate(Last(s'.sink.toRegister).id);
                  Handled(s, s', next) && DoneOrInHand(s', list, next))
  {
    var s' := Next(s, Answered(fails));
    var gpd := Last(s.sink.toRegister);
    var n := |s.sink.toRegister| - 1;
    assert list[n] == gpd;
    assert Listed(list, 0, gpd.id);
    assert s.queue[1..] + [] == s.queue[1..];
    assert s'.adapter.proxy == s.adapter.proxy[gpd.id := gpd.key];
    forall id | Listed(list, n, id)
      ensures SinkHas(s'.adapter, Entry(id, FirstKey(list, n, id), true)) && id in s'.adapter.proxy &&
              s'.adapter.proxy[id] == FirstKey(list, n, id)
    {
      if id != gpd.id {
        assert Listed(list, n + 1, id);
      }
    }
  }

  // ----- Whole runs

  // The adapter fails the registration: its sink table is full, or it refuses to write.
  predicate Fails(s: Sys, e: Event) {
    && e.Answered? && s.queue != []
    && ((s.queue[0].SinkSetEntry? && e.fails) ||
        (s.queue[0].FindOrAllocate? && Reply(s.adapter, s.queue[0], e.fails) == FindOrAllocateRsp(NO_INDEX)))
  }

  predicate NoFailure(s: Sys, events: seq<Event>)
    decreases |events|
  {
    events == [] || (!Fails(s, events[0]) && NoFailure(Next(s, events[0]), events[1..]))
  }

  // The commands answered that are not Green Power sends.
  function SinkExchanges(s: Sys, events: seq<Event>): nat
    decreases |events|
  {
    if events == [] then 0
    else (if events[0].Answered? && s.queue != [] && !s.queue[0].GpSend? then 1 else 0) +
         SinkExchanges(Next(s, events[0]), events[1..])
  }

  // The exchanges still to come for the devices left.
  function ToCome(s: Sys, d: nat): int {
    if s.sink.state == SINK_COM_OFFLINE_IN_PROGRESS && d < |s.queue|
    then 4 * |s.sink.toRegister| - Phase(s.queue[d])
    else 0
  }

  function Left(s: Sys, d: nat): int {
    if s.sink.state == SINK_COM_OFFLINE_IN_PROGRESS then |s.queue| - 1 + ToCome(s, d) else |s.queue|
  }

  function Place(s: Sys, d: nat, e: Event): nat {
    if e.FrameIn? || s.queue == [] then d
    else if d > 0 then d - 1
    else if |Next(s, e).queue| > 0 then |Next(s, e).queue| - 1 else 0
  }

  lemma SendAnswered(s: Sys, d: nat, fails: bool, list: seq<Device>, a0: Adapter)
    requires Registering(s, d, list, a0) && s.queue != [] && s.queue[0].GpSend?
    ensures var s' := Next(s, Answered(fails)); var d' := if d > 0 then d - 1 else 0;
            s' == s.(queue := s.queue[1..]) && Registering(s', d', list, a0) &&
            (s.sink.state == SINK_COM_OFFLINE_IN_PROGRESS ==> d > 0 && s'.queue[d'] == s.queue[d])
  {
    hide OthersKept, Registered;
    assert s.queue[1..] + [] == s.queue[1..];
    if s.sink.state == SINK_COM_OFFLINE_IN_PROGRESS {
      var q := s.queue[1..];
      assert q[..d - 1] == s.queue[..d][1..];
      assert q[d..] == s.queue[d + 1..];
    }
  }

  lemma FrameKeeps(s: Sys, d: nat, id: nat, list: seq<Device>, a0: Adapter)
    requires Registering(s, d, list, a0)
    ensures Registering(s.(queue := s.queue + [GpSend(id)]), d, list, a0)
  {
    hide OthersKept, Registered;
    if s.sink.state == SINK_COM_OFFLINE_IN_PROGRESS {
      var q := s.queue + [GpSend(id)];
      assert q[..d] == s.queue[..d];
      assert q[d + 1..] == s.queue[d + 1..] + [GpSend(id)];
    }
  }

  // A driver handled in its turn leaves its successor at the end of the queue.
  lemma HandledDriven(s: Sys, s': Sys, next: Cmd)
    requires Handled(s, s', next) && s'.sink.toRegister != [] && InHand(next, Last(s'.sink.toRegister), s'.sink.index)
    requires next.PairingAdd? || next.SinkSetEntry? ==> s'.sink.entry == NewEntry(Last(s'.sink.toRegister))
    requires OnlySends(s.queue[1..])
    ensures Driven(s', |s'.queue| - 1)
  {
    var d := |s'.queue| - 1;
    assert s'.queue[..d] == s.queue[1..] && s'.queue[d + 1..] == [];
  }

  lemma DriverAnswered(s: Sys, fails: bool, list: seq<Device>, a0: Adapter)
    requires Registering(s, 0, list, a0) && s.sink.state == SINK_COM_OFFLINE_IN_PROGRESS
    ensures var s' := Next(s, Answered(fails)); var d' := if s'.queue != [] then |s'.queue| - 1 else 0;
            Registering(s', d', list, a0) && s.queue != [] && |s'.queue| <= |s.queue| &&
            (s'.sink.state == SINK_READY ==> |s'.queue| == |s.queue| - 1) &&
            (s'.sink.state != SINK_READY ==> ToCome(s', d') == ToCome(s, 0) - 1) &&
            (s'.sink.state == SINK_READY && !Fails(s, Answered(fails)) ==>
               s'.sink.toRegister == [] && ToCome(s, 0) == 1)
  {
    hide SlotReady, OthersKept, Registered, DoneOrInHand, TableOk, Next;
    var s' := Next(s, Answered(fails));
    var cmd := s.queue[0];
    if cmd.FindOrAllocate? {
      AllocateExecuted(s, fails, list, a0);
      AllocateReady(s, fails);
      if s'.sink.state != SINK_READY { HandledDriven(s, s', SinkGetEntry(s'.sink.index)); }
    } else if cmd.SinkGetEntry? {
      GetEntryExecuted(s, fails, list);
      HandledDriven(s, s', SinkSetEntry(s.sink.index, NewEntry(Last(s.sink.toRegister))));
    } else if cmd.SinkSetEntry? {
      SetEntryExecuted(s, fails, list, a0);
      if !fails { HandledDriven(s, s', PairingAdd(NewEntry(Last(s.sink.toRegister)))); }
    } else {
      PairingExecuted(s, fails, list, a0);
      if s'.sink.toRegister != [] {
        NoSlot(s', FindOrAllocate(Last(s'.sink.toRegister).id));
        HandledDriven(s, s', FindOrAllocate(Last(s'.sink.toRegister).id));
      }
    }
  }

  lemma NoSlot(s: Sys, cmd: Cmd)
    requires s.sink.toRegister != [] && cmd.FindOrAllocate?
    ensures SlotReady(s, cmd)
  {}

  lemma AllocateReady(s: Sys, fails: bool)
    requires s.queue != [] && s.queue[0].FindOrAllocate? && s.sink.state == SINK_COM_OFFLINE_IN_PROGRESS
    ensures Next(s, Answered(fails)).sink.state == SINK_READY ==> Fails(s, Answered(fails))
  {}

  lemma StepRegistering(s: Sys, d: nat, e: Event, list: seq<Device>, a0: Adapter)
    requires Registering(s, d, list, a0)
    ensures var s' := Next(s, e); var d' := Place(s, d, e);
            Registering(s', d', list, a0) &&
            (if e.FrameIn? then Left(s', d') <= Left(s, d) + 1 && ToCome(s', d') == ToCome(s, d)
             else if s.queue != [] then Left(s', d') < Left(s, d) else s' == s) &&
            (!Fails(s, e) ==>
               ToCome(s', d') ==
               ToCome(s, d) - if e.Answered? && s.queue != [] && !s.queue[0].GpSend? then 1 else 0) &&
            (!Fails(s, e) && (s.sink.state == SINK_READY ==> s.sink.toRegister == []) ==>
               (s'.sink.state == SINK_READY ==> s'.sink.toRegister == []))
  {
    hide SlotReady, OthersKept, Registered, DoneOrInHand, TableOk;
    if e.FrameIn? {
      if e.steer { FrameKeeps(s, d, e.id, list, a0); }
    } else if s.queue != [] {
      if s.queue[0].GpSend? {
        SendAnswered(s, d, e.fails, list, a0);
      } else {
        NotASend(s, d, list, a0);
        DriverAnswered(s, e.fails, list, a0);
      }
    }
  }

  lemma SendsBefore(q: seq<Cmd>, d: nat)
    requires d <= |q| && OnlySends(q[..d])
    ensures forall i :: 0 <= i < d ==> q[i].GpSend?
  {
    forall i | 0 <= i < d ensures q[i].GpSend? { assert q[..d][i] == q[i]; }
  }

  lemma NotASend(s: Sys, d: nat, list: seq<Device>, a0: Adapter)
    requires Registering(s, d, list, a0) && s.queue != [] && !s.queue[0].GpSend?
    ensures d == 0 && s.sink.state == SINK_COM_OFFLINE_IN_PROGRESS
  {
    hide SlotReady, OthersKept, Registered, DoneOrInHand, TableOk;
    if s.sink.state == SINK_COM_OFFLINE_IN_PROGRESS {
      SendsBefore(s.queue, d);
    }
  }

  lemma {:induction false} RunRegistering(s: Sys, d: nat, events: seq<Event>, list: seq<Device>, a0: Adapter)
    returns (d': nat)
    requires Registering(s, d, list, a0)
    ensures var s' := Run(s, events);
            Registering(s', d', list, a0) && Exchanges(s, events) + Left(s', d') <= Left(s, d) + Steered(events) &&
            (NoFailure(s, events) && (s.sink.state == SINK_READY ==> s.sink.toRegister == []) ==>
               ToCome(s', d') + SinkExchanges(s, events) == ToCome(s, d) &&
               (s'.sink.state == SINK_READY ==> s'.sink.toRegister == []))
    decreases |events|
  {
    hide Next, Registering, Left, ToCome, Fails;
    d' := d;
    if events != [] {
      StepRegistering(s, d, events[0], list, a0);
      d' := RunRegistering(Next(s, events[0]), Place(s, d, events[0]), events[1..], list, a0);
    }
  }

  // The system when registerGpds has just been called.
  function Requested(k: Sink, queue: seq<Cmd>, a: Adapter, list: seq<Device>): Sys {
    var o := Register(k, list);
    Sys(o.sink, queue + o.cmds, a)
  }

  lemma RequestedOk(k: Sink, queue: seq<Cmd>, a: Adapter, list: seq<Device>)
    requires k.state == SINK_READY && list != [] && OnlySends(queue) && TableOk(a.sink)
    ensures var s := Requested(k, queue, a, list);
            Registering(s, |queue|, list, a) && ToCome(s, |queue|) == 4 * |list| &&
                Left(s, |queue|) == |queue| + 4 * |list|
  {
    var s := Requested(k, queue, a, list);
    assert s.queue[..|queue|] == queue && s.queue[|queue| + 1..] == [];
  }

  // Registering any list from a ready sink with nothing but Green Power sends under way, whatever frames
  // come in: it ends; no other device's entry is touched, even if the adapter fails; and if the adapter does
  // not fail then, when the queue is empty, the sink is ready after exactly four exchanges for each device,
  // and both tables map every listed source ID to its first key in the list.
  lemma RegistrationCompletes(k: Sink, queue: seq<Cmd>, a: Adapter, list: seq<Device>, events: seq<Event>)
    requires k.state == SINK_READY && list != [] && OnlySends(queue) && TableOk(a.sink)
    ensures var s0 := Requested(k, queue, a, list); var s := Run(s0, events);
            Exchanges(s0, events) <= |queue| + 4 * |list| + Steered(events) &&
            OthersKept(s.adapter, a, list) && TableOk(s.adapter.sink) &&
            (s.queue == [] ==> s.sink.state == SINK_READY) &&
            (s.queue == [] && NoFailure(s0, events) ==>
               SinkExchanges(s0, events) == 4 * |list| && Registered(s.adapter, list, 0))
  {
    hide Run, Exchanges, Steered, Requested, OthersKept, NoFailure, SinkExchanges, DoneOrInHand, SlotReady, TableOk,
        Registered;
    var s0 := Requested(k, queue, a, list);
    RequestedOk(k, queue, a, list);
    StillBusy(k, queue, a, list);
    var d := RunRegistering(s0, |queue|, events, list, a);
  }

  lemma StillBusy(k: Sink, queue: seq<Cmd>, a: Adapter, list: seq<Device>)
    requires k.state == SINK_READY && list != []
    ensures Requested(k, queue, a, list).sink.state == SINK_COM_OFFLINE_IN_PROGRESS
  {}
}
