/** Runs of the command queue: which commands are transmitted, how often, in what order, and when one is taken
    off the queue that never was. */
module EzspRuns {
  import opened EzspQueue

  // ----- Runs with their history

  // The commands submitted, how many of them are gone, how often each was transmitted, the NACKs that came
  // while some command was queued, and the transmissions since the last reset.
  datatype History = History(
    s: State, submitted: seq<Msg>, popped: nat, attempts: seq<nat>, nacks: nat, sinceReset: nat)

  const START := History(FRESH, [], 0, [], 0, 0)

  predicate Resets(s: State, e: Event) {
    e == ResetRequested || (e == PromptDetected && s.prompt == RUN_APPLICATION)
  }

  function Record(h: History, e: Event, ok: bool): History
    requires h.s.seqNum < 256
  {
    var s := Next(h.s, e, ok);
    var submitted := if e.Command? then h.submitted + [e.msg] else h.submitted;
    var popped := if |s.queue| <= |submitted| then |submitted| - |s.queue| else 0;
    var known := if e.Command? then h.attempts + [0] else h.attempts;
    var sent := |s.sent| != |h.s.sent|;
    History(s, submitted, popped,
            if sent && popped < |known| then known[popped := known[popped] + 1] else known,
            if e == NackReceived && h.s.queue != [] then h.nacks + 1 else h.nacks,
            if Resets(h.s, e) then 0 else if sent then h.sinceReset + 1 else h.sinceReset)
  }

  // Events, each with the outcome of the write it may cause.
  function Run(events: seq<(Event, bool)>): (h: History)
    ensures h.s.seqNum < 256
  {
    if events == [] then START
    else
      var h := Run(events[..|events| - 1]);
      var (e, ok) := events[|events| - 1];
      SequenceNumber(h.s, e, ok);
      Record(h, e, ok)
  }

  lemma SequenceNumber(s: State, e: Event, ok: bool)
    requires s.seqNum < 256
    ensures Next(s, e, ok).seqNum < 256
  {
    hide Header, Parse;
  }

  // ----- One event

  function Before(s: State, e: Event): seq<Msg> { if e.Command? then s.queue + [e.msg] else s.queue }

  // A message that is an answer to the command at the head of the queue (the test of handleResponse).
  predicate AnswersHead(s: State, e: Event) {
    && e.Data? && InEzspMode(s)
    && var m := Parse(s.protocol, e.bytes);
       m.Some? && m.value.cmd != EZSP_LAUNCH_STANDALONE_BOOTLOADER && s.queue != [] && s.queue[0].cmd == m.value.cmd
  }

  // A frame carries a command: it is the command behind some header.
  ghost predicate Carries(frame: seq<bv8>, m: Msg) {
    exists protocol: nat, seqNum: nat :: seqNum < 256 && frame == Header(protocol, seqNum, m.cmd) + m.payload
  }

  // The head leaves the queue exactly when it is answered.
  lemma QueueMoves(s: State, e: Event, ok: bool)
    requires s.seqNum < 256
    ensures Next(s, e, ok).queue == if AnswersHead(s, e) then s.queue[1..] else Before(s, e)
  {
    hide Header, Parse;
  }

  // What is sent is the head, and then its response is awaited; a response stays awaited until the head is
  // answered or a NACK comes.
  lemma HeadSent(s: State, e: Event, ok: bool)
    requires s.seqNum < 256 && (s.waitRsp ==> s.queue != [])
    ensures var s' := Next(s, e, ok);
            (s'.waitRsp ==> s'.queue != []) &&
            (s'.sent == s.sent ||
             (s'.waitRsp && s'.queue != [] &&
              exists frame :: Carries(frame, s'.queue[0]) && s'.sent == s.sent + [frame])) &&
            (s'.sent == s.sent && s'.waitRsp ==> s.waitRsp && !AnswersHead(s, e)) &&
            (e != NackReceived && s.waitRsp && !AnswersHead(s, e) ==> s'.waitRsp && s'.sent == s.sent)
  {
    hide Header, Parse;
    var s' := Next(s, e, ok);
    if s'.queue != [] {
      var m := s'.queue[0];
      assert Carries(Header(s.protocol, s.seqNum, m.cmd) + m.payload, m);
    }
  }

  // ----- What every run keeps, whether its writes succeed or not

  // Each command as often as it was transmitted, in order.
  function Spread(ms: seq<Msg>, attempts: seq<nat>): seq<Msg>
    requires |attempts| <= |ms|
  {
    if attempts == [] then []
    else Spread(ms, attempts[..|attempts| - 1]) + seq(attempts[|attempts| - 1], _ => ms[|attempts| - 1])
  }

  ghost predicate FramesMatch(sent: seq<seq<bv8>>, ms: seq<Msg>) {
    |sent| == |ms| && forall i :: 0 <= i < |sent| ==> Carries(sent[i], ms[i])
  }

  // The command at the head has been transmitted.
  predicate HeadTransmitted(h: History) { h.popped < |h.attempts| && h.attempts[h.popped] > 0 }

  predicate InSequence(h: History) {
    && h.s.seqNum < 256
    && h.popped <= |h.submitted| == |h.attempts| && h.submitted[h.popped..] == h.s.queue
  }

  predicate Ordered(h: History) {
    && InSequence(h)
    && (forall k :: h.popped < k < |h.attempts| ==> h.attempts[k] == 0)
    && (h.s.waitRsp ==> h.s.queue != [] && HeadTransmitted(h))
  }

  lemma RecordInSequence(h: History, e: Event, ok: bool)
    requires InSequence(h)
    ensures InSequence(Record(h, e, ok))
    ensures Record(h, e, ok).popped == if AnswersHead(h.s, e) then h.popped + 1 else h.popped
  {
    hide Next, AnswersHead;
    SequenceNumber(h.s, e, ok);
    QueueMoves(h.s, e, ok);
    AnsweredIsData(h.s, e);
  }

  lemma RecordOrdered(h: History, e: Event, ok: bool)
    requires Ordered(h)
    ensures Ordered(Record(h, e, ok))
    ensures Record(h, e, ok).popped == if AnswersHead(h.s, e) then h.popped + 1 else h.popped
  {
    hide Next, AnswersHead, Carries;
    RecordInSequence(h, e, ok);
    HeadSent(h.s, e, ok);
    AnsweredIsData(h.s, e);
    assert |h.s.queue| == |h.submitted| - h.popped;
  }

  lemma AnsweredIsData(s: State, e: Event)
    ensures AnswersHead(s, e) ==> e.Data? && s.queue != []
  {}

  lemma {:induction false} SpreadZeros(ms: seq<Msg>, attempts: seq<nat>, n: nat)
    requires n <= |attempts| <= |ms| && forall k :: n <= k < |attempts| ==> attempts[k] == 0
    ensures Spread(ms, attempts) == Spread(ms, attempts[..n])
    decreases |attempts|
  {
    if n < |attempts| {
      var front := attempts[..|attempts| - 1];
      SpreadZeros(ms, front, n);
      assert front[..n] == attempts[..n];
    } else {
      assert attempts[..n] == attempts;
    }
  }

  // One more transmission of the last command transmitted so far, or a first one of the next.
  lemma SpreadMore(ms: seq<Msg>, attempts: seq<nat>, p: nat)
    requires p < |attempts| <= |ms| && forall k :: p < k < |attempts| ==> attempts[k] == 0
    ensures Spread(ms, attempts[p := attempts[p] + 1]) == Spread(ms, attempts) + [ms[p]]
  {
    var more := attempts[p := attempts[p] + 1];
    SpreadZeros(ms, attempts, p + 1);
    SpreadZeros(ms, more, p + 1);
    assert attempts[..p + 1][..p] == attempts[..p] == more[..p + 1][..p];
    assert seq(attempts[p] + 1, _ => ms[p]) == seq(attempts[p], _ => ms[p]) + [ms[p]];
  }

  lemma {:induction false} SpreadLater(ms: seq<Msg>, m: Msg, attempts: seq<nat>)
    requires |attempts| <= |ms|
    ensures Spread(ms + [m], attempts) == Spread(ms, attempts)
  {
    if attempts != [] {
      SpreadLater(ms, m, attempts[..|attempts| - 1]);
      assert (ms + [m])[|attempts| - 1] == ms[|attempts| - 1];
    }
  }

  lemma OneMoreFrame(sent: seq<seq<bv8>>, ms: seq<Msg>, frame: seq<bv8>, m: Msg)
    requires FramesMatch(sent, ms) && Carries(frame, m)
    ensures FramesMatch(sent + [frame], ms + [m])
  {}

  ghost predicate Matches(h: History) {
    |h.attempts| <= |h.submitted| && FramesMatch(h.s.sent, Spread(h.submitted, h.attempts))
  }

  // A command not transmitted yet changes nothing.
  lemma CommandAdded(h: History, m: Msg)
    requires Ordered(h)
    ensures Spread(h.submitted + [m], h.attempts + [0]) == Spread(h.submitted, h.attempts)
  {
    SpreadZeros(h.submitted + [m], h.attempts + [0], |h.attempts|);
    assert (h.attempts + [0])[..|h.attempts|] == h.attempts;
    SpreadLater(h.submitted, m, h.attempts);
  }

  lemma RecordMatches(h: History, e: Event, ok: bool)
    requires Ordered(h) && Matches(h)
    ensures Matches(Record(h, e, ok))
  {
    hide Next, Spread, FramesMatch, Carries, AnswersHead;
    var h' := Record(h, e, ok);
    RecordOrdered(h, e, ok);
    HeadSent(h.s, e, ok);
    AnsweredIsData(h.s, e);
    var known := if e.Command? then h.attempts + [0] else h.attempts;
    if e.Command? { CommandAdded(h, e.msg); }
    if h'.s.sent != h.s.sent {
      var frame :| Carries(frame, h'.s.queue[0]) && h'.s.sent == h.s.sent + [frame];
      assert h'.s.queue[0] == h'.submitted[h'.popped];
      SpreadMore(h'.submitted, known, h'.popped);
      OneMoreFrame(h.s.sent, Spread(h.submitted, h.attempts), frame, h'.s.queue[0]);
    }
  }

  lemma StartKeeps()
    ensures Ordered(START) && Matches(START)
  {
    assert Spread([], []) == [];
  }

  // In every run, whatever comes in and whichever writes fail: the commands gone and the commands queued
  // are those submitted, in order; the frames sent are these commands in the order of submission, each as
  // often as it was transmitted; and a response is awaited only for a transmitted head of the queue.
  lemma {:induction false} EveryRunOrdered(events: seq<(Event, bool)>)
    ensures Ordered(Run(events)) && Matches(Run(events))
  {
    hide Record, Ordered, Matches;
    if events == [] {
      StartKeeps();
    } else {
      var n := |events| - 1;
      EveryRunOrdered(events[..n]);
      OrderedNumber(Run(events[..n]));
      RecordOrdered(Run(events[..n]), events[n].0, events[n].1);
      RecordMatches(Run(events[..n]), events[n].0, events[n].1);
    }
  }

  lemma OrderedNumber(h: History)
    requires Ordered(h)
    ensures h.s.seqNum < 256 && h.popped <= |h.attempts|
  {}

  // ----- Commands removed that were never sent

  predicate NoNack(events: seq<(Event, bool)>) { forall i :: 0 <= i < |events| ==> events[i].0 != NackReceived }

  // Until a NACK comes, the library knows: a response is awaited exactly while the head was transmitted.
  lemma {:induction false} WaitMeansTransmitted(events: seq<(Event, bool)>)
    requires NoNack(events)
    ensures var h := Run(events); h.s.waitRsp <==> h.s.queue != [] && HeadTransmitted(h)
  {
    hide Record, Ordered, HeadTransmitted;
    if events == [] {
      StartKeeps();
    } else {
      var n := |events| - 1;
      WaitMeansTransmitted(events[..n]);
      EveryRunOrdered(events[..n]);
      RecordWait(Run(events[..n]), events[n].0, events[n].1);
    }
  }

  lemma RecordWait(h: History, e: Event, ok: bool)
    requires Ordered(h) && e != NackReceived && (h.s.waitRsp <==> h.s.queue != [] && HeadTransmitted(h))
    ensures var h' := Record(h, e, ok); h'.s.waitRsp <==> h'.s.queue != [] && HeadTransmitted(h')
  {
    hide Next, AnswersHead, Carries;
    RecordOrdered(h, e, ok);
    QueueMoves(h.s, e, ok);
    HeadSent(h.s, e, ok);
    AnsweredIsData(h.s, e);
  }

  // Some command is gone that was never transmitted.
  predicate GoneUnsent(h: History) { exists k :: 0 <= k < h.popped <= |h.attempts| && h.attempts[k] == 0 }

  // An event removes such a command.
  predicate RemovesUnsent(h: History, e: Event, ok: bool)
    requires h.s.seqNum < 256
  {
    Record(h, e, ok).popped > h.popped && h.popped < |h.attempts| && h.attempts[h.popped] == 0
  }

  // An event removes a command that was never sent if and only if it is a message with the identifier of the
  // head, and the head was never transmitted.
  lemma RemovesUnsentExactly(h: History, e: Event, ok: bool)
    requires Ordered(h)
    ensures RemovesUnsent(h, e, ok) <==> AnswersHead(h.s, e) && !HeadTransmitted(h)
  {
    hide Record, AnswersHead;
    RecordOrdered(h, e, ok);
    AnsweredIsData(h.s, e);
  }

  lemma RecordGone(h: History, e: Event, ok: bool)
    requires Ordered(h)
    ensures GoneUnsent(Record(h, e, ok)) <==> GoneUnsent(h) || RemovesUnsent(h, e, ok)
  {
    hide Next, AnswersHead, Carries;
    var h' := Record(h, e, ok);
    RecordOrdered(h, e, ok);
    HeadSent(h.s, e, ok);
    AnsweredIsData(h.s, e);
    assert forall k :: 0 <= k < h.popped ==> h'.attempts[k] == h.attempts[k];
    if AnswersHead(h.s, e) { assert h'.attempts[h.popped] == h.attempts[h.popped]; }
  }

  // The i-th event is a message with the identifier of the head of the queue, and the head is unsent.
  predicate UnsolicitedAt(events: seq<(Event, bool)>, i: nat)
    requires i < |events|
  {
    AnswersHead(Run(events[..i]).s, events[i].0) && !HeadTransmitted(Run(events[..i]))
  }

  // Every run: a command is gone that was never transmitted if and only if at some moment a message with the
  // identifier of the head came in while the head had not been transmitted.
  lemma {:induction false} GoneUnsentExactly(events: seq<(Event, bool)>)
    ensures GoneUnsent(Run(events)) <==> exists i :: 0 <= i < |events| && UnsolicitedAt(events, i)
  {
    hide Record, Ordered, AnswersHead, HeadTransmitted;
    if events == [] {
      assert Run(events) == START;
    } else {
      var n := |events| - 1;
      var front := events[..n];
      GoneUnsentExactly(front);
      EveryRunOrdered(front);
      RecordGone(Run(front), events[n].0, events[n].1);
      RemovesUnsentExactly(Run(front), events[n].0, events[n].1);
      forall i | 0 <= i < n ensures UnsolicitedAt(front, i) <==> UnsolicitedAt(events, i) {
        assert front[..i] == events[..i];
      }
      assert UnsolicitedAt(events, n) <==> RemovesUnsent(Run(front), events[n].0, events[n].1);
    }
  }

  // Without NACKs the dongle can tell by its own flag: it happens if and only if a message with the
  // identifier of the head comes in while no response is awaited, which is what handleResponse only logs.
  lemma GoneUnsentWithoutNack(events: seq<(Event, bool)>)
    requires NoNack(events)
    ensures GoneUnsent(Run(events)) <==>
            exists i :: 0 <= i < |events| && AnswersHead(Run(events[..i]).s, events[i].0) && !Run(events[..i]).s.waitRsp
  {
    hide Run, AnswersHead, HeadTransmitted;
    GoneUnsentExactly(events);
    forall i | 0 <= i < |events|
      ensures UnsolicitedAt(events, i) <==> AnswersHead(Run(events[..i]).s, events[i].0) && !Run(events[..i]).s.waitRsp
    {
      WaitMeansTransmitted(events[..i]);
      AnsweredIsData(Run(events[..i]).s, events[i].0);
    }
  }

  // It does happen: the write of a command fails, and an unsolicited message with its identifier comes in.
  lemma GoneUnsentHappens(m: Msg)
    requires m.cmd != EZSP_LAUNCH_STANDALONE_BOOTLOADER && m.cmd != 0xFF
    ensures GoneUnsent(Run([(Command(m), false), (Data([0, 0, m.cmd, 0]), true)]))
  {
    hide Record;
    var e0, e1 := (Command(m), false), (Data([0, 0, m.cmd, 0]), true);
    var none: seq<(Event, bool)> := [];
    assert [e0, e1][..1] == [e0] && [e0][..0] == none;
    assert Run(none) == START;
    var h := Run([e0]);
    assert h == Record(START, e0.0, e0.1);
    FirstFails(m);
    assert UnsolicitedAt([e0, e1], 1);
    GoneUnsentExactly([e0, e1]);
  }

  lemma FirstFails(m: Msg)
    ensures var h := Record(START, Command(m), false);
            !HeadTransmitted(h) && h.s.queue == [m] && h.s.protocol == 0 && InEzspMode(h.s)
    ensures m.cmd != 0xFF ==> Parse(0, [0, 0, m.cmd, 0]) == Some(Msg(m.cmd, [0]))
  {}

  // ----- Runs in EZSP mode in which every write succeeds

  function Outstanding(s: State): nat { if s.queue != [] then 1 else 0 }

  predicate Successful(events: seq<(Event, bool)>) { forall i :: 0 <= i < |events| ==> events[i].1 }

  // The dongle never leaves EZSP mode.
  predicate StaysInEzspMode(events: seq<(Event, bool)>) {
    forall i :: 0 <= i <= |events| ==> InEzspMode(Run(events[..i]).s)
  }

  predicate Balanced(h: History) {
    && (h.s.waitRsp <==> h.s.queue != [])
    && |h.s.sent| == h.popped + Outstanding(h.s) + h.nacks
    && h.s.seqNum == h.sinceReset % 256
  }

  predicate AllSent(h: History) {
    forall k :: 0 <= k < h.popped + Outstanding(h.s) && k < |h.attempts| ==> h.attempts[k] >= 1
  }

  predicate Counted(h: History) { Balanced(h) && AllSent(h) }

  // What an event does to the line in such a run: the head is sent when it is new there, and on a NACK.
  lemma SuccessfulEvent(s: State, e: Event)
    requires s.seqNum < 256 && (s.waitRsp <==> s.queue != []) && InEzspMode(s) && InEzspMode(Next(s, e, true))
    ensures var s' := Next(s, e, true);
            (s'.waitRsp <==> s'.queue != []) &&
            (if s'.queue != [] && (s.queue == [] || AnswersHead(s, e) || e == NackReceived)
             then |s'.sent| == |s.sent| + 1 && s'.seqNum == (s.seqNum + 1) % 256
             else s'.sent == s.sent && s'.seqNum == if Resets(s, e) then 0 else s.seqNum)
  {
    hide Header, Parse;
  }

  lemma NextCount(n: nat)
    ensures (n % 256 + 1) % 256 == (n + 1) % 256
  {}

  lemma RecordBalanced(h: History, e: Event)
    requires InSequence(h) && Balanced(h) && InEzspMode(h.s) && InEzspMode(Next(h.s, e, true))
    ensures Balanced(Record(h, e, true))
  {
    hide Next, AnswersHead, InSequence;
    SequenceNumber(h.s, e, true);
    SuccessfulEvent(h.s, e);
    QueueMoves(h.s, e, true);
    RecordInSequence(h, e, true);
    AnsweredIsData(h.s, e);
    NextCount(h.sinceReset);
  }

  lemma RecordAllSent(h: History, e: Event)
    requires InSequence(h) && Balanced(h) && AllSent(h) && InEzspMode(h.s) && InEzspMode(Next(h.s, e, true))
    ensures AllSent(Record(h, e, true))
  {
    hide Next, AnswersHead;
    SequenceNumber(h.s, e, true);
    SuccessfulEvent(h.s, e);
    QueueMoves(h.s, e, true);
    RecordInSequence(h, e, true);
    AnsweredIsData(h.s, e);
    var h' := Record(h, e, true);
    assert |h.s.queue| == |h.submitted| - h.popped && |h'.s.queue| == |h'.submitted| - h'.popped;
    assert forall k :: 0 <= k < |h.attempts| ==> h'.attempts[k] >= h.attempts[k];
  }

  lemma RecordCounted(h: History, e: Event)
    requires Ordered(h) && Counted(h) && InEzspMode(h.s) && InEzspMode(Next(h.s, e, true))
    ensures Counted(Record(h, e, true))
  {
    hide Next, Record, Balanced, AllSent, InSequence;
    RecordBalanced(h, e);
    RecordAllSent(h, e);
  }

  // Then a response is awaited exactly while a command is queued; every command gone, and the one
  // outstanding, was transmitted at least once; there is one transmission for each of these and one for each
  // NACK; and the sequence number counts the transmissions since the last reset, modulo 256.
  lemma {:induction false} CommandsInOrder(events: seq<(Event, bool)>)
    requires Successful(events) && StaysInEzspMode(events)
    ensures var h := Run(events);
            (h.s.waitRsp <==> h.s.queue != []) &&
            (forall k :: 0 <= k < h.popped + Outstanding(h.s) && k < |h.attempts| ==> h.attempts[k] >= 1) &&
            |h.s.sent| == h.popped + Outstanding(h.s) + h.nacks && h.s.seqNum == h.sinceReset % 256
    ensures Counted(Run(events))
  {
    hide Record, Ordered;
    if events == [] {
      assert Run(events) == START;
    } else {
      var n := |events| - 1;
      var front := events[..n];
      assert forall i :: 0 <= i <= n ==> front[..i] == events[..i];
      assert events[..n + 1] == events;
      CommandsInOrder(front);
      EveryRunOrdered(front);
      assert events[n].1;
      StateRecorded(Run(front), events[n].0, true);
      RecordCounted(Run(front), events[n].0);
    }
  }

  lemma StateRecorded(h: History, e: Event, ok: bool)
    requires h.s.seqNum < 256
    ensures Record(h, e, ok).s == Next(h.s, e, ok)
  {}

  // ----- Acknowledgements

  // Messages that are acknowledged: all but the one that starts the bootloader.
  function Acknowledged(ms: seq<Msg>): nat {
    if ms == [] then 0
    else Acknowledged(ms[..|ms| - 1]) + if ms[|ms| - 1].cmd != 0x8F then 1 else 0
  }

  // In every run each message the observers were told of was acknowledged once, the bootloader's not.
  lemma {:induction false} EveryMessageAcknowledged(events: seq<(Event, bool)>)
    ensures var s := Run(events).s; s.acks == Acknowledged(s.received)
  {
    hide Record, Acknowledged;
    if events == [] {
      assert Acknowledged([]) == 0 by { NoneAcknowledged(); }
    } else {
      var n := |events| - 1;
      EveryMessageAcknowledged(events[..n]);
      StateRecorded(Run(events[..n]), events[n].0, events[n].1);
      NextLogs(Run(events[..n]).s, events[n].0, events[n].1);
    }
  }

  lemma NoneAcknowledged()
    ensures Acknowledged([]) == 0
  {}

  lemma NextLogs(s: State, e: Event, ok: bool)
    requires s.seqNum < 256 && s.acks == Acknowledged(s.received)
    ensures var s' := Next(s, e, ok); s'.acks == Acknowledged(s'.received)
  {
    hide Parse, SendNext, Receive, Acknowledged;
    if e.Command? { SendNextLogs(s.(queue := s.queue + [e.msg]), ok); }
    if e == NackReceived { SendNextLogs(s.(waitRsp := false), ok); }
    if e.Data? { ReceiveLogs(s, e.bytes, ok); }
  }

  lemma SendNextLogs(s: State, ok: bool)
    requires s.seqNum < 256
    ensures var s' := SendNext(s, ok); s'.seqNum < 256 && s'.acks == s.acks && s'.received == s.received
  {
    hide Header;
  }

  lemma RespondLogs(s: State, cmd: bv8, ok: bool)
    requires s.seqNum < 256
    ensures var s' := Respond(s, cmd, ok); s'.seqNum < 256 && s'.acks == s.acks && s'.received == s.received
  {
    hide SendNext;
    if s.queue != [] { SendNextLogs(s.(queue := s.queue[1..], waitRsp := false), ok); }
  }

  lemma MessageNoted(ms: seq<Msg>, m: Msg)
    ensures Acknowledged(ms + [m]) ==
            Acknowledged(ms) + if m.cmd != EZSP_LAUNCH_STANDALONE_BOOTLOADER then 1 else 0
  {
    assert (ms + [m])[..|ms|] == ms;
  }

  lemma ReceiveLogs(s: State, bytes: seq<bv8>, ok: bool)
    requires s.seqNum < 256 && s.acks == Acknowledged(s.received)
    ensures var s' := Receive(s, bytes, ok); s'.seqNum < 256 && s'.acks == Acknowledged(s'.received)
  {
    hide Parse, Respond, Acknowledged;
    var p := Parse(s.protocol, bytes);
    if p.Some? {
      MessageNoted(s.received, p.value);
      RespondLogs(s.(acks := s.acks + 1), p.value.cmd, ok);
    }
  }
}
