/** The ASH deframer over whole streams: what cutting the input into calls can change, and what no
    input can. */
module AshStream {
  import opened AshFraming
  import opened AshCodec

  // What the owner of a codec can see of a call: the codec, the payloads, and how the call ended.
  predicate SameOutcome(p: Call, q: Call) {
    p.codec == q.codec && p.extracted == q.extracted && p.thrown == q.thrown
  }

  // A new call carries on: same codec, no input error.
  function NextCall(r: Call): Call { r.(inputError := false) }

  // The next delimiter that ends a pending input error is a FLAG, and a deframer with n buffered
  // bytes and no input error would see a frame there.
  predicate NextFlagSeesFrame(n: nat, bytes: seq<bv8>)
    decreases |bytes|
  {
    bytes != [] &&
    var b := bytes[0];
    if b == ASH_CANCEL_BYTE || b == ASH_SUBSTITUTE_BYTE then false
    else if b == ASH_FLAG_BYTE then n > 0
    else if b == ASH_XON_BYTE || b == ASH_OFF_BYTE then NextFlagSeesFrame(n, bytes[1..])
    else n < ASH_MAX_LENGTH && NextFlagSeesFrame(n + 1, bytes[1..])
  }

  lemma InterpretFacts(c: CodecState, d: seq<bv8>)
    requires d != []
    ensures Interpret(c, d).OutOfRange? <==> d[0] == 0xC1 && |d| < 3
    ensures ValidState(c) && Interpret(c, d).Payload? ==> ValidState(Interpret(c, d).codec)
  {
    hide Whiten;
  }

  // Whether a frame throws depends on its bytes alone.
  lemma ProcessFacts(c: CodecState)
    ensures Process(c).OutOfRange? <==>
            var f := Unstuff(false, c.inMsg); 3 <= |f| < 5 && ResidueIsZero(f) && f[0] == 0xC1
    ensures ValidState(c) && Process(c).Payload? ==> ValidState(Process(c).codec)
  {
    hide Unstuff, ResidueIsZero, Interpret;
    var f := Unstuff(false, c.inMsg);
    if |f| >= 3 {
      InterpretFacts(c, f[..|f| - 2]);
    }
  }

  // Same buffer, same error, same ending.
  predicate Aligned(p: Call, q: Call) {
    p.codec.inMsg == q.codec.inMsg && p.inputError == q.inputError && p.thrown == q.thrown
  }

  lemma ByteInStep(p: Call, q: Call, b: bv8)
    requires Aligned(p, q)
    ensures Aligned(OnByte(p, b), OnByte(q, b))
    ensures |OnByte(p, b).extracted| - |p.extracted| == |OnByte(q, b).extracted| - |q.extracted|
  {
    hide Process, Unstuff, ResidueIsZero;
    ProcessFacts(p.codec);
    ProcessFacts(q.codec);
  }

  // Two deframers with the same buffer stay in step, whatever each has delivered so far: they throw
  // together, and their counts of delivered payloads stay as far apart as they were.
  lemma {:induction false} InStep(p: Call, q: Call, bytes: seq<bv8>)
    requires Aligned(p, q)
    ensures |Feed(p, bytes).extracted| - |p.extracted| == |Feed(q, bytes).extracted| - |q.extracted|
    decreases |bytes|
  {
    hide OnByte;
    if bytes != [] && !p.thrown {
      ByteInStep(p, q, bytes[0]);
      InStep(OnByte(p, bytes[0]), OnByte(q, bytes[0]), bytes[1..]);
    }
  }

  // An input error that one deframer has and the other forgot shows, or is forgotten by both.
  lemma {:induction false} ForgottenError(r: Call, bytes: seq<bv8>)
    requires r.inputError && !r.thrown
    ensures SameOutcome(Feed(r, bytes), Feed(NextCall(r), bytes)) && Unread(r, bytes) == Unread(NextCall(r), bytes)
            <==> !NextFlagSeesFrame(|r.codec.inMsg|, bytes)
    decreases |bytes|
  {
    hide Process;
    if bytes != [] {
      var b := bytes[0];
      var p, q := OnByte(r, b), OnByte(NextCall(r), b);
      if b == ASH_FLAG_BYTE {
        if r.codec.inMsg != [] && !q.thrown {
          InStep(p, q, bytes[1..]);
        }
      } else if b != ASH_CANCEL_BYTE && b != ASH_SUBSTITUTE_BYTE && q.inputError == false {
        assert q == NextCall(p);
        ForgottenError(p, bytes[1..]);
      }
    }
  }

  // Splitting a stream into two calls changes the outcome if and only if the first part ends in an
  // input error and the second part completes a frame before anything ends that error.
  lemma Split(c: CodecState, a: seq<bv8>, b: seq<bv8>)
    requires !Feed(Start(c), a).thrown
    ensures var first := Feed(Start(c), a);
            SameOutcome(Feed(Start(c), a + b), Feed(NextCall(first), b)) &&
                Unread(Start(c), a + b) == Unread(NextCall(first), b)
            <==> !(first.inputError && NextFlagSeesFrame(|first.codec.inMsg|, b))
  {
    hide OnByte;
    FeedAppend(Start(c), a, b);
    var first := Feed(Start(c), a);
    if first.inputError {
      ForgottenError(first, b);
    } else {
      assert NextCall(first) == first;
    }
  }

  // The input error of a SUBSTITUTE byte is forgotten when the call ends before the frame does.
  lemma ErrorForgottenBetweenCalls(c: CodecState)
    requires c.inMsg == []
    ensures !SameOutcome(Feed(Start(c), [ASH_SUBSTITUTE_BYTE] + [0x00, ASH_FLAG_BYTE]),
                         Feed(NextCall(Feed(Start(c), [ASH_SUBSTITUTE_BYTE])), [0x00, ASH_FLAG_BYTE]))
  {
    hide Unstuff, ResidueIsZero, Interpret;
    var a, b := [ASH_SUBSTITUTE_BYTE], [0x00 as bv8, ASH_FLAG_BYTE];
    var r := OnByte(Start(c), a[0]);
    assert a[1..] == [] && b[1..] == [ASH_FLAG_BYTE] && b[1..][1..] == [];
    FeedAppend(Start(c), a, b);
    assert Feed(Start(c), a) == r;
    var p, q := OnByte(r, 0x00), OnByte(NextCall(r), 0x00);
    UnstuffShortens(false, q.codec.inMsg);
    assert Process(q.codec) == Payload(q.codec, []);
    assert Feed(r, b) == Feed(p, b[1..]) == OnByte(p, ASH_FLAG_BYTE);
    assert Feed(NextCall(r), b) == Feed(q, b[1..]) == OnByte(q, ASH_FLAG_BYTE);
  }

  // ----- Any number of calls

  function Concat(chunks: seq<seq<bv8>>): seq<bv8> {
    if chunks == [] then [] else chunks[0] + Concat(chunks[1..])
  }

  // Successive calls of appendIncoming, until one of them throws; the payloads are added up.
  function Calls(r: Call, chunks: seq<seq<bv8>>): Call
    decreases |chunks|
  {
    if chunks == [] || r.thrown then r else Calls(Feed(NextCall(r), chunks[0]), chunks[1..])
  }

  // No SUBSTITUTE byte, and never more than 131 ordinary bytes between delimiters, n of them already
  // in the buffer.
  predicate Clean(n: nat, bytes: seq<bv8>)
    decreases |bytes|
  {
    bytes == [] ||
    var b := bytes[0];
    if b == ASH_CANCEL_BYTE || b == ASH_FLAG_BYTE then Clean(0, bytes[1..])
    else if b == ASH_SUBSTITUTE_BYTE then false
    else if b == ASH_XON_BYTE || b == ASH_OFF_BYTE then Clean(n, bytes[1..])
    else n < ASH_MAX_LENGTH && Clean(n + 1, bytes[1..])
  }

  lemma {:induction false} CleanFeed(r: Call, a: seq<bv8>, b: seq<bv8>)
    requires !r.inputError && Clean(|r.codec.inMsg|, a + b)
    ensures var e := Feed(r, a); !e.inputError && (!e.thrown ==> Clean(|e.codec.inMsg|, b))
    decreases |a|
  {
    hide Process;
    if a == [] {
      assert a + b == b;
    } else if !r.thrown {
      assert (a + b)[1..] == a[1..] + b && (a + b)[0] == a[0];
      if !OnByte(r, a[0]).thrown {
        CleanFeed(OnByte(r, a[0]), a[1..], b);
      } else {
        assert Feed(OnByte(r, a[0]), a[1..]) == OnByte(r, a[0]);
      }
    }
  }

  // A clean stream may be cut anywhere, any number of times: the calls add up to one.
  lemma {:induction false} AnyChunks(r: Call, chunks: seq<seq<bv8>>)
    requires !r.inputError && Clean(|r.codec.inMsg|, Concat(chunks))
    ensures Calls(r, chunks) == Feed(r, Concat(chunks))
    decreases |chunks|
  {
    hide OnByte;
    if chunks != [] && !r.thrown {
      var a, rest := chunks[0], Concat(chunks[1..]);
      assert NextCall(r) == r;
      CleanFeed(r, a, rest);
      FeedAppend(r, a, rest);
      var e := Feed(r, a);
      if !e.thrown {
        AnyChunks(e, chunks[1..]);
      }
    }
  }

  lemma ChunkingIsInvisible(c: CodecState, chunks: seq<seq<bv8>>, others: seq<seq<bv8>>)
    requires Concat(chunks) == Concat(others) && Clean(|c.inMsg|, Concat(chunks))
    ensures Calls(Start(c), chunks) == Calls(Start(c), others)
  {
    AnyChunks(Start(c), chunks);
    AnyChunks(Start(c), others);
  }

  // ----- On every stream

  predicate BufferOk(s: seq<bv8>) {
    |s| <= ASH_MAX_LENGTH && forall b :: b in s ==> !IsControl(b)
  }

  lemma {:induction false} FeedKeepsBuffer(r: Call, bytes: seq<bv8>)
    requires BufferOk(r.codec.inMsg) && ValidState(r.codec)
    ensures BufferOk(Feed(r, bytes).codec.inMsg) && ValidState(Feed(r, bytes).codec)
    decreases |bytes|
  {
    if bytes != [] && !r.thrown {
      ByteKeepsBuffer(r, bytes[0]);
      FeedKeepsBuffer(OnByte(r, bytes[0]), bytes[1..]);
    }
  }

  lemma ByteKeepsBuffer(r: Call, b: bv8)
    requires BufferOk(r.codec.inMsg) && ValidState(r.codec)
    ensures BufferOk(OnByte(r, b).codec.inMsg) && ValidState(OnByte(r, b).codec)
  {
    hide Process, Unstuff, ResidueIsZero;
    if b == ASH_FLAG_BYTE {
      ProcessFacts(r.codec);
    } else if !IsControl(b) {
      assert forall x :: x in r.codec.inMsg + [b] ==> x in r.codec.inMsg || x == b;
    }
  }

  // The codec's buffer never outgrows 131 bytes and never holds a byte with a meaning of its own; its
  // sequence numbers stay below 8.
  lemma {:induction false} CallsKeepBuffer(r: Call, chunks: seq<seq<bv8>>)
    requires BufferOk(r.codec.inMsg) && ValidState(r.codec)
    ensures BufferOk(Calls(r, chunks).codec.inMsg) && ValidState(Calls(r, chunks).codec)
    decreases |chunks|
  {
    if chunks != [] && !r.thrown {
      FeedKeepsBuffer(NextCall(r), chunks[0]);
      CallsKeepBuffer(Feed(NextCall(r), chunks[0]), chunks[1..]);
    }
  }
}
