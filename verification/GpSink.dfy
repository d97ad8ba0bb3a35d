/** The Green Power sink: the object that registers and removes lists of devices, one answer of the adapter
    at a time, and the adapter whose two tables it edits through a queue of commands. */
module GpSink {

  const NO_INDEX := 0xFF

  datatype Option<T> = None | Some(value: T)

  // A device to register, and what a table holds of one.
  datatype Device = Device(id: nat, key: seq<bv8>)
  datatype Entry = Entry(id: nat, key: seq<bv8>, active: bool)

  datatype Cmd =
    | FindOrAllocate(id: nat)
    | SinkGetEntry(index: nat)
    | SinkSetEntry(index: nat, entry: Entry)
    | SinkLookup(id: nat)
    | SinkRemoveEntry(index: nat)
    | ProxyLookup(id: nat)
    | PairingAdd(entry: Entry)
    | PairingRemove(id: nat)
    | GpSend(id: nat)

  datatype Rsp =
    | FindOrAllocateRsp(index: nat)
    | SinkGetEntryRsp(entry: Entry)
    | SinkSetEntryRsp(success: bool)
    | SinkLookupRsp(index: nat)
    | ProxyLookupRsp(index: nat)
    | PairingRsp
    | OtherRsp

  datatype SinkState = SINK_NOT_INIT | SINK_READY | SINK_COM_OFFLINE_IN_PROGRESS | SINK_REMOVE_IN_PROGRESS

  datatype Sink = Sink(state: SinkState, toRegister: seq<Device>, toRemove: seq<nat>, index: nat, entry: Entry)

  // A handler's result: the sink, and the commands it has sent.
  datatype Outcome = Outcome(sink: Sink, cmds: seq<Cmd>)

  function Last<T>(s: seq<T>): T
    requires s != []
  {
    s[|s| - 1]
  }

  function Front<T>(s: seq<T>): seq<T>
    requires s != []
  {
    s[..|s| - 1]
  }

  // ----- The sink

  function Register(k: Sink, gpd: seq<Device>): Outcome {
    if k.state != SINK_READY || gpd == [] then Outcome(k, [])
    else Outcome(k.(state := SINK_COM_OFFLINE_IN_PROGRESS, toRegister := gpd), [FindOrAllocate(Last(gpd).id)])
  }

  function Remove(k: Sink, gpd: seq<nat>): Outcome {
    if k.state != SINK_READY || gpd == [] then Outcome(k, [])
    else Outcome(k.(state := SINK_REMOVE_IN_PROGRESS, toRemove := gpd), [SinkLookup(Last(gpd))])
  }

  function NewEntry(d: Device): Entry { Entry(d.id, d.key, true) }

  function Handle(k: Sink, rsp: Rsp): Outcome {
    match rsp
    case FindOrAllocateRsp(index) =>
      if k.state != SINK_COM_OFFLINE_IN_PROGRESS then Outcome(k, [])
      else if index != NO_INDEX then Outcome(k.(index := index), [SinkGetEntry(index)])
      else Outcome(k.(index := index, state := SINK_READY), [])
    case SinkGetEntryRsp(read) =>
      if k.state != SINK_COM_OFFLINE_IN_PROGRESS then Outcome(k, [])
      else
        var entry := if k.toRegister != [] then NewEntry(Last(k.toRegister)) else Entry(0, read.key, true);
        Outcome(k.(entry := entry), [SinkSetEntry(k.index, entry)])
    case SinkSetEntryRsp(success) =>
      if k.state != SINK_COM_OFFLINE_IN_PROGRESS then Outcome(k, [])
      else if !success then Outcome(k.(state := SINK_READY), [])
      else Outcome(k, [PairingAdd(k.entry)])
    case PairingRsp =>
      if k.state != SINK_COM_OFFLINE_IN_PROGRESS || k.toRegister == [] then Outcome(k, [])
      else
        var rest := Front(k.toRegister);
        if rest != [] then Outcome(k.(toRegister := rest), [FindOrAllocate(Last(rest).id)])
        else Outcome(k.(toRegister := rest, state := SINK_READY), [])
    case SinkLookupRsp(index) =>
      if k.state != SINK_REMOVE_IN_PROGRESS then Outcome(k, [])
      else Outcome(k, (if index != NO_INDEX then [SinkRemoveEntry(index)] else []) +
                      (if k.toRemove != [] then [ProxyLookup(Last(k.toRemove))] else []))
    case ProxyLookupRsp(index) =>
      if k.state != SINK_REMOVE_IN_PROGRESS then Outcome(k, [])
      else
        var first := if index != NO_INDEX && k.toRemove != [] then [PairingRemove(Last(k.toRemove))] else [];
        var rest := if k.toRemove != [] then Front(k.toRemove) else [];
        if rest == [] then Outcome(k.(toRemove := rest, state := SINK_READY), first)
        else Outcome(k.(toRemove := rest), first + [SinkLookup(Last(rest))])
    case OtherRsp => Outcome(k, [])
  }

  // While a list is in progress every other call is refused, and the list, the device in hand and what was
  // sent stay as they were; a sink in its ready state takes any list that is not empty.
  lemma RefusedWhileBusy(k: Sink, devices: seq<Device>, ids: seq<nat>)
    ensures Register(k, devices) == Outcome(k, []) <==> k.state != SINK_READY || devices == []
    ensures Remove(k, ids) == Outcome(k, []) <==> k.state != SINK_READY || ids == []
  {}

  class CGpSink {
    var sink_state: SinkState
    var gpds_to_register: seq<Device>
    var gpds_to_remove: seq<nat>
    var sink_table_index: nat
    var sink_table_entry: Entry
    var sent: seq<Cmd>

    constructor ()
      ensures Value() == Sink(SINK_NOT_INIT, [], [], 0xFF, Entry(0, [], false)) && sent == []
    {
      sink_state, gpds_to_register, gpds_to_remove := SINK_NOT_INIT, [], [];
      sink_table_index, sink_table_entry, sent := 0xFF, Entry(0, [], false), [];
    }

    function Value(): Sink
      reads this
    {
      Sink(sink_state, gpds_to_register, gpds_to_remove, sink_table_index, sink_table_entry)
    }

    method SendCommand(cmd: Cmd)
      modifies this`sent
      ensures sent == old(sent) + [cmd]
    {
      sent := sent + [cmd];
    }

    method RegisterGpds(gpd: seq<Device>) returns (accepted: bool)
      modifies this
      ensures Value() == Register(old(Value()), gpd).sink && sent == old(sent) + Register(old(Value()), gpd).cmds
      ensures accepted == (old(sink_state) == SINK_READY && gpd != [])
      ensures !accepted ==> Value() == old(Value()) && sent == old(sent)
    {
      if sink_state != SINK_READY || gpd == [] { return false; }
      sink_state := SINK_COM_OFFLINE_IN_PROGRESS;
      gpds_to_register := gpd;
      SendCommand(FindOrAllocate(gpds_to_register[|gpds_to_register| - 1].id));
      accepted := true;
    }

    method RemoveGpds(gpd: seq<nat>) returns (accepted: bool)
      modifies this
      ensures Value() == Remove(old(Value()), gpd).sink && sent == old(sent) + Remove(old(Value()), gpd).cmds
      ensures accepted == (old(sink_state) == SINK_READY && gpd != [])
      ensures !accepted ==> Value() == old(Value()) && sent == old(sent)
    {
      if sink_state != SINK_READY || gpd == [] { return false; }
      sink_state := SINK_REMOVE_IN_PROGRESS;
      gpds_to_remove := gpd;
      SendCommand(SinkLookup(gpds_to_remove[|gpds_to_remove| - 1]));
      accepted := true;
    }

    method HandleFindOrAllocateEntry(index: nat)
      modifies this
      ensures Value() == Handle(old(Value()), FindOrAllocateRsp(index)).sink &&
              sent == old(sent) + Handle(old(Value()), FindOrAllocateRsp(index)).cmds
    {
      if sink_state == SINK_COM_OFFLINE_IN_PROGRESS {
        sink_table_index := index;
        if sink_table_index != 0xFF {
          SendCommand(SinkGetEntry(sink_table_index));
        } else {
          sink_state := SINK_READY;
        }
      }
    }

    // Without a device to register, the entry would get a blank address.
    method HandleSinkGetEntry(read: Entry)
      modifies this
      ensures Value() == Handle(old(Value()), SinkGetEntryRsp(read)).sink
      ensures sent == old(sent) + Handle(old(Value()), SinkGetEntryRsp(read)).cmds
    {
      var entry := read;
      if sink_state == SINK_COM_OFFLINE_IN_PROGRESS {
        if gpds_to_register != [] {
          var gpd := gpds_to_register[|gpds_to_register| - 1];
          entry := entry.(key := gpd.key);
          entry := entry.(id := gpd.id);
        } else {
          entry := entry.(id := 0);
        }
        entry := entry.(active := true);
        SendCommand(SinkSetEntry(sink_table_index, entry));
        sink_table_entry := entry;
      }
    }

    method HandleSinkSetEntry(success: bool)
      modifies this
      ensures Value() == Handle(old(Value()), SinkSetEntryRsp(success)).sink &&
              sent == old(sent) + Handle(old(Value()), SinkSetEntryRsp(success)).cmds
    {
      if sink_state == SINK_COM_OFFLINE_IN_PROGRESS {
        if !success {
          sink_state := SINK_READY;
        } else {
          SendCommand(PairingAdd(sink_table_entry));
        }
      }
    }

    method HandleProcessGpPairing()
      modifies this
      ensures Value() == Handle(old(Value()), PairingRsp).sink &&
              sent == old(sent) + Handle(old(Value()), PairingRsp).cmds
    {
      if sink_state == SINK_COM_OFFLINE_IN_PROGRESS && gpds_to_register != [] {
        gpds_to_register := gpds_to_register[..|gpds_to_register| - 1];
        if gpds_to_register != [] {
          SendCommand(FindOrAllocate(gpds_to_register[|gpds_to_register| - 1].id));
        } else {
          sink_state := SINK_READY;
        }
      }
    }

    method HandleSinkLookup(index: nat)
      modifies this
      ensures Value() == Handle(old(Value()), SinkLookupRsp(index)).sink &&
              sent == old(sent) + Handle(old(Value()), SinkLookupRsp(index)).cmds
    {
      if sink_state == SINK_REMOVE_IN_PROGRESS {
        if index != 0xFF {
          SendCommand(SinkRemoveEntry(index));
        }
        if gpds_to_remove != [] {
          SendCommand(ProxyLookup(gpds_to_remove[|gpds_to_remove| - 1]));
        }
      }
    }

    method HandleProxyLookup(index: nat)
      modifies this
      ensures Value() == Handle(old(Value()), ProxyLookupRsp(index)).sink &&
              sent == old(sent) + Handle(old(Value()), ProxyLookupRsp(index)).cmds
    {
      if sink_state == SINK_REMOVE_IN_PROGRESS {
        if index != 0xFF {
          if gpds_to_remove != [] {
            SendCommand(PairingRemove(gpds_to_remove[|gpds_to_remove| - 1]));
          }
        }
        if gpds_to_remove != [] {
          gpds_to_remove := gpds_to_remove[..|gpds_to_remove| - 1];
        }
        if gpds_to_remove == [] {
          sink_state := SINK_READY;
        } else {
          SendCommand(SinkLookup(gpds_to_remove[|gpds_to_remove| - 1]));
        }
      }
    }
  }

  // ----- The adapter

  datatype Adapter = Adapter(sink: seq<Option<Entry>>, proxy: map<nat, seq<bv8>>)

  // The first index from i on whose entry has this source ID; |t| if there is none.
  function Find(t: seq<Option<Entry>>, id: nat, i: nat): (r: nat)
    requires i <= |t|
    ensures i <= r <= |t|
    ensures r < |t| ==> t[r].Some? && t[r].value.id == id
    ensures forall j :: i <= j < r ==> t[j].None? || t[j].value.id != id
    decreases |t| - i
  {
    if i == |t| || (t[i].Some? && t[i].value.id == id) then i else Find(t, id, i + 1)
  }

  function FindFree(t: seq<Option<Entry>>, i: nat): (r: nat)
    requires i <= |t|
    ensures i <= r <= |t|
    ensures r < |t| ==> t[r].None?
    decreases |t| - i
  {
    if i == |t| || t[i].None? then i else FindFree(t, i + 1)
  }

  function IndexOrNone(t: seq<Option<Entry>>, i: nat): nat { if i < |t| then i else NO_INDEX }

  // The adapter after a command; fails: it refuses to write a table entry.
  function Exec(a: Adapter, cmd: Cmd, fails: bool): Adapter {
    match cmd
    case FindOrAllocate(id) =>
      var free := FindFree(a.sink, 0);
      if Find(a.sink, id, 0) < |a.sink| || free == |a.sink| then a
      else a.(sink := a.sink[free := Some(Entry(id, [], false))])
    case SinkSetEntry(index, entry) =>
      if fails || index >= |a.sink| then a else a.(sink := a.sink[index := Some(entry)])
    case SinkRemoveEntry(index) => if index < |a.sink| then a.(sink := a.sink[index := None]) else a
    case PairingAdd(entry) => a.(proxy := a.proxy[entry.id := entry.key])
    case PairingRemove(id) => a.(proxy := a.proxy - {id})
    case _ => a
  }

  function Reply(a: Adapter, cmd: Cmd, fails: bool): Rsp {
    match cmd
    case FindOrAllocate(id) =>
      var found := Find(a.sink, id, 0);
      FindOrAllocateRsp(IndexOrNone(a.sink, if found < |a.sink| then found else FindFree(a.sink, 0)))
    case SinkGetEntry(index) =>
      SinkGetEntryRsp(if index < |a.sink| && a.sink[index].Some? then a.sink[index].value else Entry(0, [], false))
    case SinkSetEntry(index, _) => SinkSetEntryRsp(!fails && index < |a.sink|)
    case SinkLookup(id) => SinkLookupRsp(IndexOrNone(a.sink, Find(a.sink, id, 0)))
    case ProxyLookup(id) => ProxyLookupRsp(if id in a.proxy then 0 else NO_INDEX)
    case PairingAdd(_) => PairingRsp
    case PairingRemove(_) => PairingRsp
    case SinkRemoveEntry(_) => OtherRsp
    case GpSend(_) => OtherRsp
  }

  // ----- Both, joined by a queue of commands

  datatype Sys = Sys(sink: Sink, queue: seq<Cmd>, adapter: Adapter)

  datatype Event =
    | Answered(fails: bool)       // the adapter answers the oldest command
    | FrameIn(id: nat, steer: bool) // a Green Power frame comes in; to some the sink sends an answer

  function Next(s: Sys, e: Event): Sys {
    match e
    case Answered(fails) =>
      if s.queue == [] then s
      else
        var o := Handle(s.sink, Reply(s.adapter, s.queue[0], fails));
        Sys(o.sink, s.queue[1..] + o.cmds, Exec(s.adapter, s.queue[0], fails))
    case FrameIn(id, steer) => if steer then s.(queue := s.queue + [GpSend(id)]) else s
  }

  function Run(s: Sys, events: seq<Event>): Sys
    decreases |events|
  {
    if events == [] then s else Run(Next(s, events[0]), events[1..])
  }

  // Commands answered during a run, and frames answered with a command of the sink's own.
  function Exchanges(s: Sys, events: seq<Event>): nat
    decreases |events|
  {
    if events == [] then 0
    else (if events[0].Answered? && s.queue != [] then 1 else 0) + Exchanges(Next(s, events[0]), events[1..])
  }

  function Steered(events: seq<Event>): nat {
    if events == [] then 0 else (if events[0].FrameIn? then 1 else 0) + Steered(events[1..])
  }

  // Only Green Power sends are under way.
  predicate OnlySends(q: seq<Cmd>) { forall i :: 0 <= i < |q| ==> q[i].GpSend? }

  // No source ID has two entries; indices are bytes other than 0xFF.
  predicate TableOk(t: seq<Option<Entry>>) {
    && |t| <= NO_INDEX
    && forall i, k | 0 <= i < |t| && 0 <= k < |t| && t[i].Some? && t[k].Some? ::
         t[i].value.id == t[k].value.id ==> i == k
  }

  predicate InSink(a: Adapter, id: nat) {
    exists i :: 0 <= i < |a.sink| && a.sink[i].Some? && a.sink[i].value.id == id
  }

  // ----- Calls during a run

  datatype Step = Happens(e: Event) | RegisterCalled(devices: seq<Device>) | RemoveCalled(ids: seq<nat>)

  function NextStep(s: Sys, step: Step): Sys {
    match step
    case Happens(e) => Next(s, e)
    case RegisterCalled(devices) =>
      var o := Register(s.sink, devices);
      Sys(o.sink, s.queue + o.cmds, s.adapter)
    case RemoveCalled(ids) =>
      var o := Remove(s.sink, ids);
      Sys(o.sink, s.queue + o.cmds, s.adapter)
  }

  function RunSteps(s: Sys, steps: seq<Step>): Sys
    decreases |steps|
  {
    if steps == [] then s else RunSteps(NextStep(s, steps[0]), steps[1..])
  }

  function EventsOf(steps: seq<Step>): seq<Event> {
    if steps == [] then [] else (if steps[0].Happens? then [steps[0].e] else []) + EventsOf(steps[1..])
  }

  // Calls come only while a list is in progress.
  predicate BusyCalls(s: Sys, steps: seq<Step>)
    decreases |steps|
  {
    steps != [] ==>
      (steps[0].Happens? || s.sink.state != SINK_READY) && BusyCalls(NextStep(s, steps[0]), steps[1..])
  }

  // They make no difference to the run, so what is proved of runs without them holds of runs with them.
  lemma {:induction false} BusyCallsChangeNothing(s: Sys, steps: seq<Step>)
    requires BusyCalls(s, steps)
    ensures RunSteps(s, steps) == Run(s, EventsOf(steps))
    decreases |steps|
  {
    hide Next, Register, Remove;
    if steps != [] {
      BusyCallsChangeNothing(NextStep(s, steps[0]), steps[1..]);
      match steps[0] {
        case Happens(e) =>
          assert EventsOf(steps)[0] == e && EventsOf(steps)[1..] == EventsOf(steps[1..]);
        case RegisterCalled(devices) =>
          RefusedWhileBusy(s.sink, devices, []);
          assert s.queue + [] == s.queue && EventsOf(steps) == EventsOf(steps[1..]);
        case RemoveCalled(ids) =>
          RefusedWhileBusy(s.sink, [], ids);
          assert s.queue + [] == s.queue && EventsOf(steps) == EventsOf(steps[1..]);
      }
    }
  }
}
