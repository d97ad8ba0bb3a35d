/** The numbers that two codecs on one line put into their frames, in every run: everything that was ever on
    the line, decoded and compared with what either end had submitted and received by then. */
module AshNumbers {
  import opened AshFraming
  import opened AshCodec
  import opened AshStream
  import opened AshLink

  // A frame, and how many DATA frames the end that forged it had submitted and received before.
  datatype Forged = ForgedData(submitted: nat, received: nat, payload: seq<bv8>) | ForgedAck(received: nat)

  // What A forges during a run, in order.
  function FromA(s: Link, steps: seq<Step>): seq<Forged>
    decreases |steps|
  {
    if steps == [] then []
    else
      (match steps[0]
       case SendData(true, p) => if MaySend(s, p) then [ForgedData(|s.a.sent|, |s.a.received|, p)] else []
       case SendAck(true) => [ForgedAck(|s.a.received|)]
       case _ => []) + FromA(Next(s, steps[0]), steps[1..])
  }

  // What B is handed of the line.
  function ToB(s: Link, steps: seq<Step>): seq<bv8>
    decreases |steps|
  {
    if steps == [] then []
    else
      (match steps[0]
       case Deliver(true, n) => if n <= |s.ab| then s.ab[..n] else []
       case _ => []) + ToB(Next(s, steps[0]), steps[1..])
  }

  // A line made of these frames, each closed by a FLAG: a DATA frame with the number of its submission and
  // the number received, an ACK with the number received, all modulo 8.
  predicate Written(line: seq<bv8>, frames: seq<Forged>)
    decreases |frames|
  {
    if frames == [] then line == []
    else
      var n := FirstFlag(line, 0);
      n < |line| && Shows(line[..n], frames[0]) && Written(line[n + 1..], frames[1..])
  }

  // The first FLAG from n on.
  function FirstFlag(line: seq<bv8>, n: nat): (r: nat)
    requires n <= |line|
    ensures n <= r <= |line| && (forall i :: n <= i < r ==> line[i] != 0x7E) && (r < |line| ==> line[r] == 0x7E)
    decreases |line| - n
  {
    if n == |line| || line[n] == 0x7E then n else FirstFlag(line, n + 1)
  }

  predicate Shows(body: seq<bv8>, f: Forged) {
    match f
    case ForgedData(submitted, received, p) =>
      Framed(body, 16 * (submitted % 8) + received % 8, Whiten(0x42, p))
    case ForgedAck(received) => Framed(body, 0x80 + received % 8, [])
  }

  lemma {:induction false} Mod8Is(n: nat)
    ensures Mod8(n) as int == n % 8
  {
    hide NextSeq;
    if n > 0 {
      Mod8Is(n - 1);
      NextSeqIs(Mod8(n - 1));
    }
  }

  lemma NextSeqIs(b: bv8)
    requires b < 8
    ensures NextSeq(b) as int == (b as int + 1) % 8
  {}

  function BodyOf(f: Forged): seq<bv8> {
    match f
    case ForgedData(submitted, received, p) => StuffedData(Mod8(submitted), Mod8(received), p)
    case ForgedAck(received) => StuffedAck(Mod8(received))
  }

  function LineOf(frames: seq<Forged>): seq<bv8> {
    if frames == [] then [] else BodyOf(frames[0]) + [ASH_FLAG_BYTE] + LineOf(frames[1..])
  }

  lemma BodyShows(f: Forged)
    ensures Shows(BodyOf(f), f) && forall b :: b in BodyOf(f) ==> b != 0x7E
  {
    hide StuffedData, StuffedAck, Framed, Mod8;
    match f
    case ForgedData(submitted, received, p) =>
      Mod8Is(submitted);
      Mod8Is(received);
      DataOnTheLine(Mod8(submitted), Mod8(received), p);
      StuffedHasNoControl(Data(Mod8(submitted), Mod8(received), p));
    case ForgedAck(received) =>
      Mod8Is(received);
      AckOnTheLine(Mod8(received));
      StuffedHasNoControl(AckMsg(Mod8(received)));
  }

  lemma FlagBehind(body: seq<bv8>, rest: seq<bv8>)
    requires forall b :: b in body ==> b != 0x7E
    ensures var line := body + [ASH_FLAG_BYTE] + rest; var n := FirstFlag(line, 0);
            n == |body| && line[..n] == body && line[n + 1..] == rest
  {
    hide FirstFlag;
    var line := body + [ASH_FLAG_BYTE] + rest;
    assert line[|body|] == 0x7E && forall i :: 0 <= i < |body| ==> line[i] == body[i] && body[i] in body;
  }

  lemma {:induction false} LineShows(frames: seq<Forged>)
    ensures Written(LineOf(frames), frames)
    decreases |frames|
  {
    hide BodyOf, Shows;
    if frames != [] {
      var body, rest := BodyOf(frames[0]), LineOf(frames[1..]);
      var line := LineOf(frames);
      BodyShows(frames[0]);
      LineShows(frames[1..]);
      FlagBehind(body, rest);
      assert line == body + [ASH_FLAG_BYTE] + rest;
    }
  }

  // The numbers of a codec, in a run.
  lemma NumbersOf(s: Link)
    requires Inv(s)
    ensures s.a.codec.frmNum == Mod8(|s.a.sent|) && s.a.codec.lastReceivedByNEAckNum == Mod8(|s.a.received|)
  {
    hide InOrder, Payloads, Wire, BufferOk, Mod8;
  }

  lemma NextKeeps(s: Link, step: Step)
    requires Inv(s)
    ensures Inv(Next(s, step))
  {
    hide Inv, Next, Run;
    RunKeeps(s, [step]);
    assert [step][1..] == [];
    assert Run(s, [step]) == Next(s, step) by { RunOfOne(s, step); }
  }

  lemma RunOfOne(s: Link, step: Step)
    ensures Run(s, [step]) == Next(s, step)
  {
    hide Next;
    assert Run(Next(s, step), []) == Next(s, step);
  }

  lemma OneStepOnLine(s: Link, step: Step)
    requires Inv(s)
    ensures var f := FromA(s, [step]); s.ab + LineOf(f) == ToB(s, [step]) + Next(s, step).ab
  {
    hide StuffedData, StuffedAck, Mod8, Inv, Receive, Fits;
    NumbersOf(s);
    var rest := [step][1..];
    assert rest == [] && FromA(Next(s, step), []) == [] && ToB(Next(s, step), []) == [];
    match step
    case SendData(true, p) =>
      if MaySend(s, p) {
        var f := ForgedData(|s.a.sent|, |s.a.received|, p);
        assert FromA(s, [step]) == [f];
        LineOfOne(f);
      }
    case SendAck(true) =>
      assert FromA(s, [step]) == [ForgedAck(|s.a.received|)];
      LineOfOne(ForgedAck(|s.a.received|));
    case Deliver(true, n) =>
    case _ =>
  }

  lemma LineOfOne(f: Forged)
    ensures LineOf([f]) == BodyOf(f) + [ASH_FLAG_BYTE]
  {
    hide BodyOf;
    assert [f][1..] == [] && LineOf([]) == [];
  }

  lemma {:induction false} LineOfAppend(a: seq<Forged>, b: seq<Forged>)
    ensures LineOf(a + b) == LineOf(a) + LineOf(b)
    decreases |a|
  {
    hide BodyOf;
    if a == [] {
      assert a + b == b;
    } else {
      assert (a + b)[1..] == a[1..] + b;
      LineOfAppend(a[1..], b);
    }
  }

  // What is forged and delivered is what the first step forges and delivers, and then the rest.
  lemma FirstStep(s: Link, steps: seq<Step>)
    requires steps != []
    ensures FromA(s, steps) == FromA(s, [steps[0]]) + FromA(Next(s, steps[0]), steps[1..])
    ensures ToB(s, steps) == ToB(s, [steps[0]]) + ToB(Next(s, steps[0]), steps[1..])
  {
    hide Next;
    var one := [steps[0]];
    assert one[1..] == [] && FromA(Next(s, steps[0]), []) == [] && ToB(Next(s, steps[0]), []) == [];
  }

  lemma {:induction false} LineIs(s: Link, steps: seq<Step>)
    requires Inv(s)
    ensures s.ab + LineOf(FromA(s, steps)) == ToB(s, steps) + Run(s, steps).ab
    decreases |steps|
  {
    hide Inv, Next, FromA, ToB, LineOf;
    if steps == [] {
      Nothing(s);
    } else {
      var s1, rest := Next(s, steps[0]), steps[1..];
      NextKeeps(s, steps[0]);
      LineIs(s1, rest);
      OneStepOnLine(s, steps[0]);
      FirstStep(s, steps);
      LineOfAppend(FromA(s, [steps[0]]), FromA(s1, rest));
      var f, g, d, e := LineOf(FromA(s, [steps[0]])), LineOf(FromA(s1, rest)), ToB(s, [steps[0]]), ToB(s1, rest);
      assert s.ab + (f + g) == (s.ab + f) + g == (d + s1.ab) + g == d + (s1.ab + g) == d + (e + Run(s1, rest).ab);
    }
  }

  lemma Nothing(s: Link)
    ensures FromA(s, []) == [] && ToB(s, []) == [] && LineOf([]) == []
  {}

  // The same run with the ends exchanged.
  function Mirrored(steps: seq<Step>): seq<Step> {
    if steps == [] then []
    else
      [match steps[0]
       case SendData(fromA, p) => SendData(!fromA, p)
       case SendAck(fromA) => SendAck(!fromA)
       case Deliver(toB, n) => Deliver(!toB, n)] + Mirrored(steps[1..])
  }

  lemma {:induction false} MirrorRun(s: Link, steps: seq<Step>)
    ensures Run(Swap(s), Mirrored(steps)) == Swap(Run(s, steps))
    decreases |steps|
  {
    hide DataFromA, AckFromA, DeliverToB;
    if steps != [] {
      var m := Mirrored(steps);
      assert m[1..] == Mirrored(steps[1..]) && Swap(Swap(s)) == s;
      assert Next(Swap(s), m[0]) == Swap(Next(s, steps[0]));
      MirrorRun(Next(s, steps[0]), steps[1..]);
    }
  }

  // In every run, all that A ever put on the line, whether delivered or still on it, is the frames that A
  // forged, in order: each DATA frame with the count of those before it and each frame with the count of DATA
  // frames that A had received when it forged it, modulo 8. The same holds for B.
  lemma EveryFrameNumbered(steps: seq<Step>)
    ensures Written(ToB(INITIAL, steps) + Run(INITIAL, steps).ab, FromA(INITIAL, steps))
    ensures var m := Mirrored(steps); Written(ToB(INITIAL, m) + Run(INITIAL, steps).ba, FromA(INITIAL, m))
  {
    hide Inv, Run, FromA, ToB, LineOf, Written, Mirrored;
    FramesOfA(steps);
    FramesOfA(Mirrored(steps));
    MirrorRun(INITIAL, steps);
  }

  lemma FramesOfA(steps: seq<Step>)
    ensures Written(ToB(INITIAL, steps) + Run(INITIAL, steps).ab, FromA(INITIAL, steps))
  {
    hide Inv, Run, FromA, ToB, LineOf, Written;
    StartsOk();
    LineIs(INITIAL, steps);
    LineShows(FromA(INITIAL, steps));
    assert INITIAL.ab + LineOf(FromA(INITIAL, steps)) == LineOf(FromA(INITIAL, steps));
  }
}
