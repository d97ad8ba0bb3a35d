/** Bursts on the line itself: a stuffed frame whose bytes are damaged within sixteen consecutive bits, without
    making or unmaking an escape or a control byte, delivers nothing. Unstuffing never spreads a burst. */
module AshBurst {
  import opened AshFraming
  import opened AshCodec
  import opened Crc

  // ----- Unstuffing byte by byte

  // The line indices, from `base` on, of the bytes that unstuffing puts out.
  function Places(escape: bool, s: seq<bv8>, base: nat): (p: seq<nat>)
    decreases |s|
  {
    if s == [] then []
    else if !escape && s[0] == ASH_ESCAPE_BYTE then Places(true, s[1..], base + 1)
    else [base] + Places(false, s[1..], base + 1)
  }

  predicate SameEscapes(s: seq<bv8>, t: seq<bv8>) {
    |s| == |t| && forall i :: 0 <= i < |s| ==> (s[i] == ASH_ESCAPE_BYTE <==> t[i] == ASH_ESCAPE_BYTE)
  }

  lemma {:induction false} PlacesGrow(escape: bool, s: seq<bv8>, base: nat)
    ensures var p := Places(escape, s, base);
            |p| == |Unstuff(escape, s)| && (forall m :: 0 <= m < |p| ==> base + m <= p[m] < base + |s|) &&
            (forall m, k :: 0 <= m < k < |p| ==> p[m] + (k - m) <= p[k])
    decreases |s|
  {
    hide Unescape;
    if s != [] {
      PlacesGrow(!escape && s[0] == ASH_ESCAPE_BYTE, s[1..], base + 1);
    }
  }

  lemma UnescapeFlips(a: bv8, b: bv8)
    ensures a == b <==> Unescape(a) == Unescape(b)
  {}

  lemma UnescapeBit(b: bv8, k: nat)
    requires k < 8
    ensures BitOf(Unescape(b), k) == (BitOf(b, k) != (k == 2))
  {}

  // Bit k of byte m of what comes out differs exactly as bit k of the byte at its place on the line.
  lemma {:induction false} BitsFollow(escape: bool, s: seq<bv8>, t: seq<bv8>, base: nat, m: nat, k: nat)
    requires SameEscapes(s, t) && m < |Places(escape, s, base)| && k < 8
    ensures |Unstuff(escape, s)| == |Unstuff(escape, t)| == |Places(escape, s, base)|
    ensures var i := Places(escape, s, base)[m] - base;
            0 <= i < |s| &&
            (BitOf(Unstuff(escape, s)[m], k) != BitOf(Unstuff(escape, t)[m], k) <==> BitOf(s[i], k) != BitOf(t[i], k))
    decreases |s|
  {
    hide Unescape, BitOf;
    PlacesGrow(escape, s, base);
    SamePlaces(escape, s, t, base);
    PlacesGrow(escape, t, base);
    if s != [] {
      UnescapeBit(s[0], k);
      UnescapeBit(t[0], k);
      if !escape && s[0] == ASH_ESCAPE_BYTE {
        BitsFollow(true, s[1..], t[1..], base + 1, m, k);
      } else if m > 0 {
        BitsFollow(false, s[1..], t[1..], base + 1, m - 1, k);
      }
    }
  }

  lemma {:induction false} SamePlaces(escape: bool, s: seq<bv8>, t: seq<bv8>, base: nat)
    requires SameEscapes(s, t)
    ensures Places(escape, s, base) == Places(escape, t, base)
    decreases |s|
  {
    if s != [] {
      SamePlaces(!escape && s[0] == ASH_ESCAPE_BYTE, s[1..], t[1..], base + 1);
    }
  }

  // A byte that is no escape, or an escaped one, comes out: what comes out differs if the lines do.
  lemma {:induction false} DifferenceComesOut(escape: bool, s: seq<bv8>, t: seq<bv8>)
    requires SameEscapes(s, t) && s != t
    ensures Unstuff(escape, s) != Unstuff(escape, t)
    decreases |s|
  {
    hide Unescape;
    if s[0] == t[0] {
      assert s == [s[0]] + s[1..] && t == [t[0]] + t[1..];
      DifferenceComesOut(!escape && s[0] == ASH_ESCAPE_BYTE, s[1..], t[1..]);
      UnescapeFlips(s[0], t[0]);
      if !escape && s[0] == ASH_ESCAPE_BYTE {
      } else {
        TailDiffers(escape, s, t);
      }
    } else {
      UnescapeFlips(s[0], t[0]);
      assert Unstuff(escape, s)[0] != Unstuff(escape, t)[0];
    }
  }

  lemma TailDiffers(escape: bool, s: seq<bv8>, t: seq<bv8>)
    requires s != [] && t != [] && s[0] == t[0] && (escape || s[0] != ASH_ESCAPE_BYTE)
    requires Unstuff(false, s[1..]) != Unstuff(false, t[1..])
    ensures Unstuff(escape, s) != Unstuff(escape, t)
  {
    hide Unescape;
    var u, v := Unstuff(escape, s), Unstuff(escape, t);
    assert u[1..] == Unstuff(false, s[1..]) && v[1..] == Unstuff(false, t[1..]);
  }

  // ----- Bits of a buffer

  lemma {:induction false} BitAt(buf: seq<bv8>, m: nat, k: nat)
    requires m < |buf| && k < 8
    ensures Bits(buf)[8 * m + k] == BitOf(buf[m], k)
  {
    hide BitOf;
    var n := |buf| - 1;
    if m < n {
      BitAt(buf[..n], m, k);
    } else {
      assert Bits(buf)[8 * n..] == ByteBits(buf[n]);
      assert Bits(buf)[8 * n + k] == Bits(buf)[8 * n..][k];
    }
  }

  // All differences within sixteen bits from bit w on.
  predicate Burst(f: seq<bv8>, g: seq<bv8>, w: nat) {
    |f| == |g| && forall i :: 0 <= i < 8 * |f| && !(w <= i < w + 16) ==> Bits(f)[i] == Bits(g)[i]
  }

  // The first difference.
  lemma {:induction false} FirstDifference(a: seq<bool>, b: seq<bool>) returns (i: nat)
    requires |a| == |b| && a != b
    ensures i < |a| && a[i] != b[i] && forall k :: 0 <= k < i ==> a[k] == b[k]
  {
    if a[0] != b[0] {
      i := 0;
    } else {
      assert a == [a[0]] + a[1..] && b == [b[0]] + b[1..];
      var k := FirstDifference(a[1..], b[1..]);
      i := k + 1;
    }
  }

  // Taking out escapes moves the bytes of a burst together, never apart.
  lemma BurstStaysShort(s: seq<bv8>, t: seq<bv8>, w: nat) returns (v: nat)
    requires SameEscapes(s, t) && s != t && Burst(s, t, w) && |Unstuff(false, s)| >= 2
    ensures var f, g := Unstuff(false, s), Unstuff(false, t);
            f != g && |f| == |g| && v + 16 <= 8 * |f| && Burst(f, g, v)
  {
    hide Bits, Unstuff, BitOf, Places;
    var f, g, p := Unstuff(false, s), Unstuff(false, t), Places(false, s, 0);
    PlacesGrow(false, s, 0);
    PlacesGrow(false, t, 0);
    SamePlaces(false, s, t, 0);
    DifferenceComesOut(false, s, t);
    if Bits(f) == Bits(g) { BitsInjective(f, g); }
    var first := FirstDifference(Bits(f), Bits(g));
    OnTheLine(s, t, w, first);
    v := if first + 16 <= 8 * |f| then first else 8 * |f| - 16;
    forall i | 0 <= i < 8 * |f| && Bits(f)[i] != Bits(g)[i] ensures first <= i < first + 16 {
      OnTheLine(s, t, w, i);
      Apart(p, first, i);
    }
    assert Burst(f, g, v);
  }

  // A difference in what comes out is one on the line, within the burst.
  lemma OnTheLine(s: seq<bv8>, t: seq<bv8>, w: nat, i: nat)
    requires SameEscapes(s, t) && Burst(s, t, w)
    requires var f, g := Unstuff(false, s), Unstuff(false, t);
             |f| == |g| && i < 8 * |f| && Bits(f)[i] != Bits(g)[i]
    ensures var p := Places(false, s, 0); i / 8 < |p| && w <= 8 * p[i / 8] + i % 8 < w + 16
  {
    hide Bits, Unstuff, BitOf, Places;
    var f, g, p := Unstuff(false, s), Unstuff(false, t), Places(false, s, 0);
    var m, k := i / 8, i % 8;
    PlacesGrow(false, s, 0);
    assert i == 8 * m + k;
    BitAt(f, m, k);
    BitAt(g, m, k);
    BitsFollow(false, s, t, 0, m, k);
    BitAt(s, p[m], k);
    BitAt(t, p[m], k);
  }

  lemma Apart(p: seq<nat>, a: nat, b: nat)
    requires a <= b && b / 8 < |p| && forall m, k :: 0 <= m < k < |p| ==> p[m] + (k - m) <= p[k]
    ensures b - a <= (8 * p[b / 8] + b % 8) - (8 * p[a / 8] + a % 8)
  {
    var m, k := a / 8, b / 8;
    assert a == 8 * m + a % 8 && b == 8 * k + b % 8;
  }

  // ----- The burst is detected

  // A frame forged for any body, damaged on the line within sixteen consecutive bits so that neither a
  // control byte nor an escape appears or disappears, is taken off the line without delivering a byte, moving
  // a counter or notifying anyone.
  lemma BurstOnTheLine(r: Call, body: seq<bv8>, line: seq<bv8>, w: nat)
    requires !r.thrown && !r.inputError && r.codec.inMsg == []
    requires line != StuffBody(WithCrc(body)) && (forall b :: b in line ==> !IsControl(b))
    requires SameEscapes(StuffBody(WithCrc(body)), line) && Burst(StuffBody(WithCrc(body)), line, w)
    ensures Feed(r, line + [ASH_FLAG_BYTE]) ==
            if |line| <= ASH_MAX_LENGTH then r.(extracted := r.extracted + [[]]) else r
  {
    hide CrcFrom, Bits, Process, Unstuff, WithCrc, Feed, StuffBody, SameEscapes, Burst, ResidueIsZero;
    var good := WithCrc(body);
    ForgedResidue(body);
    StuffingRoundTrip(good);
    var v := BurstStaysShort(StuffBody(good), line, w);
    StuffedNotEmpty(body, line);
    BodyArrives(r, line);
    Rejected(r.codec.(inMsg := line), good, v);
  }

  lemma StuffedNotEmpty(body: seq<bv8>, line: seq<bv8>)
    requires SameEscapes(StuffBody(WithCrc(body)), line)
    ensures line != []
  {
    hide StuffBody;
  }

  lemma Rejected(c: CodecState, good: seq<bv8>, v: nat)
    requires ResidueIsZero(good) && Burst(good, Unstuff(false, c.inMsg), v)
    requires Unstuff(false, c.inMsg) != good && v + 16 <= 8 * |good|
    ensures Process(c) == Payload(c, [])
  {
    hide CrcFrom, Bits, Process, Unstuff, ResidueIsZero;
    BurstRejected(c, good, v);
  }
}
