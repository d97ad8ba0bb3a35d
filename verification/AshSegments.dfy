/** The deframer against a simple reading of the stream: cut it at FLAG and CANCEL, drop XON and XOFF, and
    keep what a FLAG ends, if it holds no SUBSTITUTE and between 1 and 131 bytes. */
module AshSegments {
  import opened AshFraming
  import opened AshCodec

  // Bytes between two delimiters.
  predicate Segment(s: seq<bv8>) { forall b :: b in s ==> b != 0x7E && b != 0x1A }

  // Without XON and XOFF.
  function Ordinary(s: seq<bv8>): seq<bv8> {
    if s == [] then []
    else Ordinary(s[..|s| - 1]) + if s[|s| - 1] == 0x11 || s[|s| - 1] == 0x13 then [] else [s[|s| - 1]]
  }

  predicate Kept(s: seq<bv8>) { 0x18 !in s && |Ordinary(s)| <= 131 }

  lemma Last(s: seq<bv8>, b: bv8)
    ensures Ordinary(s + [b]) == Ordinary(s) + if b == 0x11 || b == 0x13 then [] else [b]
  {
    assert (s + [b])[..|s|] == s;
  }

  // Within a segment: the ordinary bytes are in the buffer, or there is an input error.
  lemma {:induction false} Within(r: Call, s: seq<bv8>)
    requires !r.thrown && !r.inputError && r.codec.inMsg == [] && Segment(s)
    ensures var e := Feed(r, s);
            e == r.(codec := r.codec.(inMsg := e.codec.inMsg), inputError := e.inputError) &&
            |e.codec.inMsg| <= 131 && (e.inputError <==> !Kept(s)) &&
            (!e.inputError ==> e.codec.inMsg == Ordinary(s))
  {
    hide Process;
    if s != [] {
      var n := |s| - 1;
      var front, b := s[..n], s[n];
      assert front + [b] == s;
      assert forall x :: x in front ==> x in s;
      Within(r, front);
      Last(front, b);
      FeedAppend(r, front, [b]);
      assert [b][1..] == [];
      assert Feed(Feed(r, front), [b]) == OnByte(Feed(r, front), b);
      assert b in s;
    }
  }

  // A segment and the delimiter behind it: only a FLAG behind a kept segment that is not empty has a frame
  // processed, namely the ordinary bytes; everything else leaves the call as it was.
  lemma SegmentExactly(r: Call, s: seq<bv8>, delimiter: bv8)
    requires !r.thrown && !r.inputError && r.codec.inMsg == [] && Segment(s)
    requires delimiter == 0x7E || delimiter == 0x1A
    ensures Feed(r, s + [delimiter]) ==
            if delimiter == 0x7E && Kept(s) && Ordinary(s) != [] then Processed(r, Ordinary(s)) else r
  {
    hide Process;
    Within(r, s);
    FeedAppend(r, s, [delimiter]);
    assert [delimiter][1..] == [];
    assert Feed(Feed(r, s), [delimiter]) == OnByte(Feed(r, s), delimiter);
  }

  // A frame handed to processInterFlagStream; if that throws, it stays in the buffer.
  function Processed(r: Call, frame: seq<bv8>): Call {
    match Process(r.codec.(inMsg := frame))
    case Payload(c, p) => r.(codec := c.(inMsg := []), extracted := r.extracted + [p])
    case OutOfRange => r.(codec := r.codec.(inMsg := frame), thrown := true)
  }

  // ----- Whole streams

  // A stream cut at its delimiters.
  datatype Cut = Cut(segment: seq<bv8>, delimiter: bv8)

  predicate Cuts(cuts: seq<Cut>) {
    forall i :: 0 <= i < |cuts| ==>
      Segment(cuts[i].segment) && (cuts[i].delimiter == 0x7E || cuts[i].delimiter == 0x1A)
  }

  function Joined(cuts: seq<Cut>): seq<bv8> {
    if cuts == [] then [] else cuts[0].segment + [cuts[0].delimiter] + Joined(cuts[1..])
  }

  // The frames among them.
  function Frames(cuts: seq<Cut>): seq<seq<bv8>> {
    if cuts == [] then []
    else (if cuts[0].delimiter == 0x7E && Kept(cuts[0].segment) && Ordinary(cuts[0].segment) != []
          then [Ordinary(cuts[0].segment)] else []) + Frames(cuts[1..])
  }

  // Processed one after the other, until one of them throws.
  function InTurn(r: Call, frames: seq<seq<bv8>>): Call
    decreases |frames|
  {
    if frames == [] || r.thrown then r else InTurn(Processed(r, frames[0]), frames[1..])
  }

  lemma {:induction false} FeedThrown(r: Call, bytes: seq<bv8>)
    requires r.thrown
    ensures Feed(r, bytes) == r
  {}

  // appendIncoming processes the frames of the stream, in order.
  lemma {:induction false} StreamIsFrames(r: Call, cuts: seq<Cut>)
    requires !r.thrown && !r.inputError && r.codec.inMsg == [] && Cuts(cuts)
    ensures Feed(r, Joined(cuts)) == InTurn(r, Frames(cuts))
    decreases |cuts|
  {
    hide OnByte, Process, Ordinary, Kept, Segment;
    if cuts != [] {
      var head, rest := cuts[0].segment + [cuts[0].delimiter], Joined(cuts[1..]);
      SegmentExactly(r, cuts[0].segment, cuts[0].delimiter);
      FeedAppend(r, head, rest);
      var e := Feed(r, head);
      if cuts[0].delimiter == 0x7E && Kept(cuts[0].segment) && Ordinary(cuts[0].segment) != [] {
        assert Frames(cuts)[0] == Ordinary(cuts[0].segment) && Frames(cuts)[1..] == Frames(cuts[1..]);
      } else {
        assert Frames(cuts) == Frames(cuts[1..]);
      }
      if e.thrown {
        FeedThrown(e, rest);
      } else {
        StreamIsFrames(e, cuts[1..]);
      }
    }
  }

  // Every stream that ends in a delimiter can be cut so.
  lemma {:induction false} EveryStream(bytes: seq<bv8>) returns (cuts: seq<Cut>)
    requires bytes != [] ==> bytes[|bytes| - 1] == 0x7E || bytes[|bytes| - 1] == 0x1A
    ensures Cuts(cuts) && Joined(cuts) == bytes
    decreases |bytes|
  {
    if bytes == [] {
      cuts := [];
    } else {
      var n := 0;
      while bytes[n] != 0x7E && bytes[n] != 0x1A
        invariant n < |bytes| && forall i :: 0 <= i < n ==> bytes[i] != 0x7E && bytes[i] != 0x1A
        decreases |bytes| - n
      {
        n := n + 1;
      }
      var rest := EveryStream(bytes[n + 1..]);
      cuts := [Cut(bytes[..n], bytes[n])] + rest;
      assert cuts[1..] == rest;
      assert bytes == bytes[..n] + [bytes[n]] + bytes[n + 1..];
    }
  }
}
