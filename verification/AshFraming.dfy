/** The two reversible layers of an ASH frame below its CRC: byte stuffing, which keeps six
    reserved values off the line, and the LFSR whitening of the data field. */
module AshFraming {

  const ASH_FLAG_BYTE: bv8 := 0x7E
  const ASH_ESCAPE_BYTE: bv8 := 0x7D
  const ASH_XON_BYTE: bv8 := 0x11
  const ASH_OFF_BYTE: bv8 := 0x13
  const ASH_SUBSTITUTE_BYTE: bv8 := 0x18
  const ASH_CANCEL_BYTE: bv8 := 0x1A
  const LFSR_SEED: bv8 := 0x42

  // The bytes that mean something to a receiver outside a frame body.
  predicate IsControl(b: bv8) {
    b == ASH_FLAG_BYTE || b == ASH_XON_BYTE || b == ASH_OFF_BYTE || b == ASH_SUBSTITUTE_BYTE || b == ASH_CANCEL_BYTE
  }

  // ----- Byte stuffing

  function StuffByte(b: bv8): (s: seq<bv8>)
    ensures 1 <= |s| <= 2
  {
    if b == 0x7E then [0x7D, 0x5E]
    else if b == 0x7D then [0x7D, 0x5D]
    else if b == 0x11 then [0x7D, 0x31]
    else if b == 0x13 then [0x7D, 0x33]
    else if b == 0x18 then [0x7D, 0x38]
    else if b == 0x1A then [0x7D, 0x3A]
    else [b]
  }

  function StuffBody(d: seq<bv8>): (s: seq<bv8>)
    ensures |d| <= |s| <= 2 * |d|
  {
    if d == [] then [] else StuffByte(d[0]) + StuffBody(d[1..])
  }

  method AddByteStuffing(data: seq<bv8>) returns (result: seq<bv8>)
    ensures result == StuffBody(data) + [ASH_FLAG_BYTE]
  {
    result := [];
    for i := 0 to |data|
      invariant result + StuffBody(data[i..]) == StuffBody(data)
    {
      ghost var tail := StuffBody(data[i + 1..]);
      assert data[i..][1..] == data[i + 1..];
      assert result + (StuffByte(data[i]) + tail) == (result + StuffByte(data[i])) + tail;
      match data[i] {
        case 0x7E => result := result + [0x7D, 0x5E];
        case 0x7D => result := result + [0x7D, 0x5D];
        case 0x11 => result := result + [0x7D, 0x31];
        case 0x13 => result := result + [0x7D, 0x33];
        case 0x18 => result := result + [0x7D, 0x38];
        case 0x1A => result := result + [0x7D, 0x3A];
        case _ => result := result + [data[i]];
      }
    }
    result := result + [ASH_FLAG_BYTE];
  }

  // An escaped byte: bit 5 is inverted.
  function Unescape(b: bv8): bv8 {
    if b & 0x20 == 0 then b | 0x20 else b & 0xDF
  }

  function Unstuff(escape: bool, s: seq<bv8>): seq<bv8>
    decreases |s|
  {
    if s == [] then []
    else if escape then [Unescape(s[0])] + Unstuff(false, s[1..])
    else if s[0] == ASH_ESCAPE_BYTE then Unstuff(true, s[1..])
    else [s[0]] + Unstuff(false, s[1..])
  }

  method RemoveByteStuffing(data: seq<bv8>) returns (result: seq<bv8>)
    ensures result == Unstuff(false, data)
  {
    hide Unescape;
    result := [];
    var escape := false;
    for i := 0 to |data|
      invariant result + Unstuff(escape, data[i..]) == Unstuff(false, data)
    {
      var b := data[i];
      assert data[i..][1..] == data[i + 1..];
      if escape {
        escape := false;
        result := result + [Unescape(b)];
      } else if b == 0x7D {
        escape := true;
      } else {
        result := result + [b];
      }
    }
  }

  lemma UnstuffByte(b: bv8, rest: seq<bv8>)
    ensures Unstuff(false, StuffByte(b) + rest) == [b] + Unstuff(false, rest)
  {
    var s := StuffByte(b) + rest;
    if |StuffByte(b)| == 2 {
      assert s[1..] == [StuffByte(b)[1]] + rest;
      assert s[1..][1..] == rest;
      assert Unescape(StuffByte(b)[1]) == b;
    } else {
      assert s[1..] == rest;
    }
  }

  // Unstuffing undoes stuffing, on every byte string.
  lemma {:induction false} StuffingRoundTrip(d: seq<bv8>)
    ensures Unstuff(false, StuffBody(d)) == d
  {
    if d != [] {
      UnstuffByte(d[0], StuffBody(d[1..]));
      StuffingRoundTrip(d[1..]);
    }
  }

  // A stuffed body holds none of the bytes a receiver acts upon.
  lemma {:induction false} StuffedBodyHasNoControl(d: seq<bv8>)
    ensures forall b :: b in StuffBody(d) ==> !IsControl(b)
  {
    if d != [] {
      StuffedBodyHasNoControl(d[1..]);
    }
  }

  // Reserved bytes go out as an escape and the byte with bit 5 inverted, all others as they are; and what
  // follows an escape has bit 5 inverted when it comes in.
  lemma EscapeIsXor(b: bv8)
    ensures StuffByte(b) ==
            if b == 0x7E || b == 0x7D || b == 0x11 || b == 0x13 || b == 0x18 || b == 0x1A then [0x7D, b ^ 0x20] else [b]
    ensures Unescape(b) == b ^ 0x20
  {}

  // ----- Whitening

  function LfsrNext(x: bv8): bv8 {
    if x & 0x01 == 1 then (x >> 1) ^ 0xB8 else x >> 1
  }

  function Whiten(lfsr: bv8, d: seq<bv8>): (r: seq<bv8>)
    ensures |r| == |d|
    decreases |d|
  {
    if d == [] then [] else [d[0] ^ lfsr] + Whiten(LfsrNext(lfsr), d[1..])
  }

  lemma {:induction false} WhitenInvolution(lfsr: bv8, d: seq<bv8>)
    ensures Whiten(lfsr, Whiten(lfsr, d)) == d
    decreases |d|
  {
    hide LfsrNext;
    if d != [] {
      WhitenInvolution(LfsrNext(lfsr), d[1..]);
      assert (d[0] ^ lfsr) ^ lfsr == d[0];
      assert Whiten(lfsr, d)[1..] == Whiten(LfsrNext(lfsr), d[1..]);
    }
  }

  method NextLfsrByte(lfsrByte: bv8) returns (next: bv8)
    ensures next == LfsrNext(lfsrByte)
  {
    var lfsrByteBit0 := lfsrByte & 0x01 == 1;
    next := lfsrByte >> 1;
    if lfsrByteBit0 {
      next := next ^ 0xB8;
    }
  }

  // The source counts with a uint8_t: a buffer of 256 bytes or more would never be left.
  method DataRandomize(data: seq<bv8>, start: nat) returns (result: seq<bv8>)
    requires |data| <= 255 && start <= |data|
    ensures result == Whiten(LFSR_SEED, data[start..])
  {
    hide LfsrNext;
    result := [];
    var lfsrByte := LFSR_SEED;
    for cnt := start to |data|
      invariant result + Whiten(lfsrByte, data[cnt..]) == Whiten(LFSR_SEED, data[start..])
    {
      assert data[cnt..][1..] == data[cnt + 1..];
      result := result + [data[cnt] ^ lfsrByte];
      lfsrByte := NextLfsrByte(lfsrByte);
    }
  }
}
