/** The two CRC-16 routines of the library: the bit-serial one of the ASH codec and the
    shift/xor byte-at-a-time one of the XMODEM transfer. Both are one transition function,
    started from different registers; it is polynomial division, and it detects bursts.

    A 16-bit register is modelled by its sixteen bits, most significant first, so that
    `<<`, `>>`, `&`, `|` and `^` on uint16_t are operations on sequences. */
module Crc {

  // ----- Bits and words

  function Zeros(n: nat): (z: seq<bool>)
    ensures |z| == n
  {
    seq(n, _ => false)
  }

  type Word = w: seq<bool> | |w| == 16 witness Zeros(16)

  predicate BitOf(b: bv8, i: nat)
    requires i < 8
  {
    match i
    case 0 => b & 0x80 != 0
    case 1 => b & 0x40 != 0
    case 2 => b & 0x20 != 0
    case 3 => b & 0x10 != 0
    case 4 => b & 0x08 != 0
    case 5 => b & 0x04 != 0
    case 6 => b & 0x02 != 0
    case 7 => b & 0x01 != 0
  }

  function ByteBits(b: bv8): (bits: seq<bool>)
    ensures |bits| == 8
  {
    seq(8, i requires 0 <= i < 8 => BitOf(b, i))
  }

  function BitValue(bit: bool, value: bv8): bv8 { if bit then value else 0 }

  function ByteOf(bits: seq<bool>): bv8
    requires |bits| == 8
  {
    BitValue(bits[0], 0x80) | BitValue(bits[1], 0x40) | BitValue(bits[2], 0x20) | BitValue(bits[3], 0x10)
    | BitValue(bits[4], 0x08) | BitValue(bits[5], 0x04) | BitValue(bits[6], 0x02) | BitValue(bits[7], 0x01)
  }

  lemma ByteOfBits(b: bv8)
    ensures ByteOf(ByteBits(b)) == b
  {}

  lemma BitsOfByteOf(bits: seq<bool>)
    requires |bits| == 8
    ensures ByteBits(ByteOf(bits)) == bits
  {
    var b := ByteOf(bits);
    assert BitOf(b, 0) == bits[0] && BitOf(b, 1) == bits[1] && BitOf(b, 2) == bits[2] && BitOf(b, 3) == bits[3];
    assert BitOf(b, 4) == bits[4] && BitOf(b, 5) == bits[5] && BitOf(b, 6) == bits[6] && BitOf(b, 7) == bits[7];
  }

  // The bits of a buffer in transmission order.
  function Bits(buf: seq<bv8>): (bits: seq<bool>)
    ensures |bits| == 8 * |buf|
  {
    if buf == [] then [] else Bits(buf[..|buf| - 1]) + ByteBits(buf[|buf| - 1])
  }

  function Xor(a: seq<bool>, b: seq<bool>): (r: seq<bool>)
    requires |a| == |b|
    ensures |r| == |a|
  {
    seq(|a|, i requires 0 <= i < |a| => a[i] != b[i])
  }

  function Shl(w: Word, n: nat): Word
    requires n <= 16
  {
    w[n..] + Zeros(n)
  }

  function Shr(w: Word, n: nat): Word
    requires n <= 16
  {
    Zeros(n) + w[..16 - n]
  }

  function LowByte(w: Word): Word { Zeros(8) + w[8..] }

  function OfBytes(hi: bv8, lo: bv8): Word { ByteBits(hi) + ByteBits(lo) }

  function Hi(w: Word): bv8 { ByteOf(w[..8]) }

  function Lo(w: Word): bv8 { ByteOf(w[8..]) }

  lemma HiLo(w: Word)
    ensures OfBytes(Hi(w), Lo(w)) == w
  {
    hide ByteOf;
    BitsOfByteOf(w[..8]);
    BitsOfByteOf(w[8..]);
  }

  // ----- The shift register

  // X^16 + X^12 + X^5 + 1: coefficient i of the word belongs to X^(15 - i), X^16 being implicit.
  const POLYNOMIAL: Word := [false, false, false, true, false, false, false, false,
                             false, false, true, false, false, false, false, true]
  const ASH_CRC_INIT: Word := [true, true, true, true, true, true, true, true,
                               true, true, true, true, true, true, true, true]
  const XMODEM_CRC_INIT: Word := Zeros(16)

  function BitStep(crc: Word, bit: bool): Word {
    if crc[0] != bit then Xor(Shl(crc, 1), POLYNOMIAL) else Shl(crc, 1)
  }

  function BitsStep(crc: Word, bits: seq<bool>): Word {
    if bits == [] then crc else BitStep(BitsStep(crc, bits[..|bits| - 1]), bits[|bits| - 1])
  }

  function CrcFrom(crc: Word, buf: seq<bv8>): Word {
    BitsStep(crc, Bits(buf))
  }

  lemma {:induction false} BitsStepAppend(crc: Word, a: seq<bool>, b: seq<bool>)
    ensures BitsStep(crc, a + b) == BitsStep(BitsStep(crc, a), b)
  {
    hide BitStep;
    if b == [] {
      assert a + b == a;
    } else {
      BitsStepAppend(crc, a, b[..|b| - 1]);
      assert (a + b)[..|a + b| - 1] == a + b[..|b| - 1];
    }
  }

  lemma BitsStepHead(crc: Word, bits: seq<bool>)
    requires bits != []
    ensures BitsStep(crc, bits) == BitsStep(BitStep(crc, bits[0]), bits[1..])
  {
    hide BitStep;
    BitsStepAppend(crc, [bits[0]], bits[1..]);
    assert [bits[0]] + bits[1..] == bits && [bits[0]][..0] == [];
    assert BitsStep(crc, [bits[0]]) == BitStep(crc, bits[0]);
  }

  lemma {:induction false} BitsAppend(a: seq<bv8>, b: seq<bv8>)
    ensures Bits(a + b) == Bits(a) + Bits(b)
  {
    hide ByteBits;
    if b == [] {
      assert a + b == a;
    } else {
      BitsAppend(a, b[..|b| - 1]);
      assert (a + b)[..|a + b| - 1] == a + b[..|b| - 1];
    }
  }

  lemma CrcAppend(crc: Word, a: seq<bv8>, b: seq<bv8>)
    ensures CrcFrom(crc, a + b) == CrcFrom(CrcFrom(crc, a), b)
  {
    BitsAppend(a, b);
    BitsStepAppend(crc, Bits(a), Bits(b));
  }

  lemma BitsOfOne(b: bv8)
    ensures Bits([b]) == ByteBits(b)
  {
    hide ByteBits;
    assert [b][..0] == [];
  }

  // ----- The ASH routine

  // The inner loop: one byte, bit after bit.
  method AddByte(before: Word, b: bv8) returns (crc: Word)
    ensures crc == BitsStep(before, ByteBits(b))
  {
    hide BitOf;
    crc := before;
    for i := 0 to 8
      invariant crc == BitsStep(before, ByteBits(b)[..i])
    {
      assert ByteBits(b)[..i + 1][..i] == ByteBits(b)[..i];
      var bit := BitOf(b, i);
      var c15 := crc[0];
      crc := Shl(crc, 1);
      if c15 != bit {
        crc := Xor(crc, POLYNOMIAL);
      }
    }
    assert ByteBits(b)[..8] == ByteBits(b);
  }

  method ComputeCRC(buf: seq<bv8>) returns (crc: Word)
    ensures crc == CrcFrom(ASH_CRC_INIT, buf)
  {
    hide ByteBits, BitStep;
    crc := ASH_CRC_INIT;
    for cnt := 0 to |buf|
      invariant crc == CrcFrom(ASH_CRC_INIT, buf[..cnt])
    {
      BitsStepAppend(ASH_CRC_INIT, Bits(buf[..cnt]), ByteBits(buf[cnt]));
      assert buf[..cnt + 1][..cnt] == buf[..cnt];
      crc := AddByte(crc, buf[cnt]);
    }
    assert buf[..|buf|] == buf;
  }

  // ----- The XMODEM routine

  // The five assignments of the loop body.
  function XmodemByteStep(crc: Word, b: bv8): Word {
    var c3 := FirstHalf(crc, b);
    var c4: Word := Xor(c3, Shl(Shl(c3, 8), 4));
    Xor(c4, Shl(Shl(LowByte(c4), 4), 1))
  }

  function FirstHalf(crc: Word, b: bv8): Word {
    var c1: Word := crc[8..] + crc[..8];
    var c2: Word := Xor(c1, Zeros(8) + ByteBits(b));
    Xor(c2, Shr(LowByte(c2), 4))
  }

  // Bit k fed back while the first n bits of d move in, for k < n <= 8.
  predicate Fed(w: Word, d: seq<bool>, k: int, n: nat)
    requires n <= |d| <= 8
  {
    0 <= k < n && (w[k] != d[k]) != Fed(w, d, k - 4, n)
  }

  // Bit i of the register after n bits.
  predicate Later(w: Word, d: seq<bool>, n: nat, i: nat)
    requires n <= |d| <= 8
  {
    (((i + n < 16 && w[i + n]) != Fed(w, d, i + n - 4, n)) != Fed(w, d, i + n - 11, n)) != Fed(w, d, i + n - 16, n)
  }

  lemma BitStepAt(w: Word, bit: bool, i: nat)
    requires i < 16
    ensures BitStep(w, bit)[i] == ((i < 15 && w[i + 1]) != (w[0] != bit && (i == 3 || i == 10 || i == 15)))
  {}

  lemma {:induction false} FedMore(w: Word, d: seq<bool>, k: int, n: nat)
    requires n < |d| <= 8 && k < n
    ensures Fed(w, d, k, n) == Fed(w, d, k, n + 1)
    decreases if k < 0 then 0 else k + 1
  {
    if 0 <= k {
      FedMore(w, d, k - 4, n);
    }
  }

  lemma {:induction false} StepsAt(w: Word, d: seq<bool>, n: nat, i: nat)
    requires n <= |d| <= 8 && i < 16
    ensures BitsStep(w, d[..n])[i] == Later(w, d, n, i)
    decreases n
  {
    hide BitStep;
    if n > 0 {
      var r := BitsStep(w, d[..n - 1]);
      Snoc(w, d, n - 1);
      BitStepAt(r, d[n - 1], i);
      StepsAt(w, d, n - 1, 0);
      if i < 15 {
        StepsAt(w, d, n - 1, i + 1);
      }
      FedLater(w, d, n - 1, i);
    }
  }

  lemma FedLater(w: Word, d: seq<bool>, n: nat, i: nat)
    requires n < |d| <= 8 && i < 16
    ensures Later(w, d, n + 1, i) ==
            ((i < 15 && Later(w, d, n, i + 1)) != ((Later(w, d, n, 0) != d[n]) && (i == 3 || i == 10 || i == 15)))
  {
    FedMore(w, d, n - 4, n);
    if i != 3 { FedTop(w, d, i + n - 3, n); }
    if i != 10 { FedTop(w, d, i + n - 10, n); }
    if i != 15 { FedTop(w, d, i + n - 15, n); }
  }

  lemma FedTop(w: Word, d: seq<bool>, k: int, n: nat)
    requires n < |d| <= 8 && k != n
    ensures Fed(w, d, k, n) == Fed(w, d, k, n + 1)
  {
    if k < n {
      FedMore(w, d, k, n);
    }
  }

  lemma Snoc(crc: Word, s: seq<bool>, n: nat)
    requires n < |s|
    ensures BitsStep(crc, s[..n + 1]) == BitStep(BitsStep(crc, s[..n]), s[n])
  {
    hide BitStep;
    assert s[..n + 1][..n] == s[..n];
  }

  lemma FirstHalfAt(w: Word, b: bv8, i: nat)
    requires i < 16
    ensures FirstHalf(w, b)[i] == ((i < 8 && w[i + 8]) != Fed(w, ByteBits(b), i - 8, 8))
  {
    hide BitOf;
    var d := ByteBits(b);
    var c1: Word := w[8..] + w[..8];
    var c2: Word := Xor(c1, Zeros(8) + d);
    var s2 := Shr(LowByte(c2), 4);
    assert s2[i] == (i >= 12 && c2[i - 4]);
    assert forall k :: 0 <= k < 8 ==> c2[k + 8] == (w[k] != d[k]);
    assert i >= 8 ==> c2[i] == c2[i - 8 + 8];
    assert i >= 12 ==> c2[i - 4] == c2[i - 12 + 8];
    assert !Fed(w, d, i - 16, 8);
    assert Fed(w, d, i - 12, 8) == (i >= 12 && w[i - 12] != d[i - 12]);
  }

  lemma XmodemByteStepAt(w: Word, b: bv8, i: nat)
    requires i < 16
    ensures XmodemByteStep(w, b)[i] == Later(w, ByteBits(b), 8, i)
  {
    hide BitOf, FirstHalf, Fed;
    var d := ByteBits(b);
    var c3 := FirstHalf(w, b);
    FirstHalfAt(w, b, i);
    var s3 := Shl(Shl(c3, 8), 4);
    assert forall j :: 0 <= j < 16 ==> s3[j] == (j < 4 && c3[j + 12]);
    var c4: Word := Xor(c3, s3);
    var s4 := Shl(Shl(LowByte(c4), 4), 1);
    assert forall j :: 0 <= j < 16 ==> s4[j] == (3 <= j < 11 && c4[j + 5]);
    if i < 4 { FirstHalfAt(w, b, i + 12); }
    if 3 <= i < 11 { FirstHalfAt(w, b, i + 5); }
    FedOutside(w, d, i + 4);
    FedOutside(w, d, i - 3);
    FedOutside(w, d, i - 8);
    assert s3[i] == Fed(w, d, i + 4, 8);
    assert s4[i] == Fed(w, d, i - 3, 8);
  }

  lemma FedOutside(w: Word, d: seq<bool>, k: int)
    requires |d| == 8
    ensures k < 0 || k >= 8 ==> !Fed(w, d, k, 8)
  {}

  // Both routines make the same transition on every register and byte.
  lemma SameTransition(w: Word, b: bv8)
    ensures XmodemByteStep(w, b) == BitsStep(w, ByteBits(b))
  {
    hide BitOf, XmodemByteStep;
    var d := ByteBits(b);
    forall i | 0 <= i < 16 ensures XmodemByteStep(w, b)[i] == BitsStep(w, d)[i] {
      XmodemByteStepAt(w, b, i);
      StepsAt(w, d, 8, i);
      assert d[..8] == d;
    }
  }

  method Crc16Ccitt(buffer: seq<bv8>) returns (crc16: Word)
    ensures crc16 == CrcFrom(XMODEM_CRC_INIT, buffer)
  {
    hide XmodemByteStep, ByteBits, BitsStep;
    crc16 := XMODEM_CRC_INIT;
    assert buffer[..0] == [];
    EmptyMessage(crc16);
    for i := 0 to |buffer|
      invariant crc16 == CrcFrom(XMODEM_CRC_INIT, buffer[..i])
    {
      assert buffer[..i + 1] == buffer[..i] + [buffer[i]];
      CrcAppend(XMODEM_CRC_INIT, buffer[..i], [buffer[i]]);
      SameTransition(crc16, buffer[i]);
      BitsOfOne(buffer[i]);
      crc16 := XmodemByteStep(crc16, buffer[i]);
    }
    assert buffer[..|buffer|] == buffer;
  }

  lemma EmptyMessage(crc: Word)
    ensures CrcFrom(crc, []) == crc
  {}

  // ----- Polynomial division (section 8.1.1 of the X/YMODEM Protocol Reference)

  // XOR g onto the leading coefficients of p.
  function XorInto(p: seq<bool>, g: Word): (r: seq<bool>)
    requires 16 <= |p|
    ensures |r| == |p|
  {
    Xor(p[..16], g) + p[16..]
  }

  // The remainder modulo X^16 + X^12 + X^5 + 1 of the polynomial with coefficients p, highest
  // power first: schoolbook division, cancelling the leading coefficient until 16 are left.
  function LongDivision(p: seq<bool>): (r: seq<bool>)
    requires 16 <= |p|
    ensures |r| == 16
    decreases |p|
  {
    if |p| == 16 then p
    else if p[0] then LongDivision(XorInto(p[1..], POLYNOMIAL))
    else LongDivision(p[1..])
  }

  // The register is the remainder of the message times X^16, its start value being XORed onto
  // the leading coefficients.
  lemma {:induction false} RegisterIsRemainder(crc: Word, m: seq<bool>)
    ensures BitsStep(crc, m) == LongDivision(XorInto(m + Zeros(16), crc))
    decreases |m|
  {
    var p := XorInto(m + Zeros(16), crc);
    if m == [] {
      assert p == crc;
    } else {
      BitsStepHead(crc, m);
      RegisterIsRemainder(BitStep(crc, m[0]), m[1..]);
      var q := XorInto(m[1..] + Zeros(16), BitStep(crc, m[0]));
      var z := m + Zeros(16);
      assert z[1..] == m[1..] + Zeros(16);
      forall i | 0 <= i < 16
        ensures q[i] == (p[i + 1] != (p[0] && POLYNOMIAL[i]))
      {
        BitStepAt(crc, m[0], i);
        assert p[i + 1] == (z[i + 1] != (i < 15 && crc[i + 1]));
      }
      assert q == if p[0] then XorInto(p[1..], POLYNOMIAL) else p[1..];
    }
  }

  // crc16_ccitt is the remainder of the message times X^16.
  lemma XmodemCrcIsRemainder(buf: seq<bv8>)
    ensures CrcFrom(XMODEM_CRC_INIT, buf) == LongDivision(Bits(buf) + Zeros(16))
  {
    RegisterIsRemainder(XMODEM_CRC_INIT, Bits(buf));
    assert XorInto(Bits(buf) + Zeros(16), XMODEM_CRC_INIT) == Bits(buf) + Zeros(16);
  }

  // All coefficients, the first sixteen of them inverted.
  function FirstInverted(p: seq<bool>): (r: seq<bool>)
    ensures |r| == |p|
  {
    seq(|p|, i requires 0 <= i < |p| => p[i] != (i < 16))
  }

  // computeCRC starts from all ones: it is the remainder of the message times X^16 whose sixteen leading
  // coefficients were inverted.
  lemma AshCrcIsRemainder(buf: seq<bv8>)
    ensures CrcFrom(ASH_CRC_INIT, buf) == LongDivision(FirstInverted(Bits(buf) + Zeros(16)))
  {
    hide Bits, BitsStep;
    RegisterIsRemainder(ASH_CRC_INIT, Bits(buf));
    AllOnes();
    assert XorInto(Bits(buf) + Zeros(16), ASH_CRC_INIT) == FirstInverted(Bits(buf) + Zeros(16));
  }

  lemma AllOnes()
    ensures forall i :: 0 <= i < 16 ==> ASH_CRC_INIT[i]
  {}

  // ----- Linearity and error detection

  lemma BitStepLinear(a: Word, b: Word, x: bool, y: bool)
    ensures BitStep(Xor(a, b), x != y) == Xor(BitStep(a, x), BitStep(b, y))
  {
    forall i | 0 <= i < 16 ensures BitStep(Xor(a, b), x != y)[i] == Xor(BitStep(a, x), BitStep(b, y))[i] {
      BitStepAt(Xor(a, b), x != y, i);
      BitStepAt(a, x, i);
      BitStepAt(b, y, i);
    }
  }

  lemma {:induction false} BitsStepLinear(a: Word, b: Word, x: seq<bool>, y: seq<bool>)
    requires |x| == |y|
    ensures BitsStep(Xor(a, b), Xor(x, y)) == Xor(BitsStep(a, x), BitsStep(b, y))
    decreases |x|
  {
    hide BitStep;
    if x != [] {
      var n := |x| - 1;
      BitsStepLinear(a, b, x[..n], y[..n]);
      assert Xor(x, y)[..n] == Xor(x[..n], y[..n]);
      BitStepLinear(BitsStep(a, x[..n]), BitsStep(b, y[..n]), x[n], y[n]);
    }
  }

  // Zero bits neither clear a non-zero register nor set a zero one.
  lemma {:induction false} ZeroBitsInvertible(crc: Word, n: nat)
    ensures BitsStep(crc, Zeros(n)) == Zeros(16) <==> crc == Zeros(16)
  {
    if n > 0 {
      ZeroBitsInvertible(crc, n - 1);
      assert Zeros(n)[..n - 1] == Zeros(n - 1);
      var r := BitsStep(crc, Zeros(n - 1));
      assert BitsStep(crc, Zeros(n)) == BitStep(r, false);
      forall i | 0 <= i < 16
        ensures BitStep(r, false)[i] == ((i < 15 && r[i + 1]) != (r[0] && (i == 3 || i == 10 || i == 15)))
      {
        BitStepAt(r, false, i);
      }
      if BitStep(r, false) == Zeros(16) {
        assert !r[0] by { assert BitStep(r, false)[15] == r[0]; }
        forall i | 0 < i < 16 ensures !r[i] { assert !BitStep(r, false)[i - 1]; }
        assert r == Zeros(16);
      }
    }
  }

  // Sixteen data bits move the register as sixteen zero bits move it once they are XORed onto it.
  lemma SixteenBits(crc: Word, x: Word)
    ensures BitsStep(crc, x) == BitsStep(Xor(crc, x), Zeros(16))
  {
    RegisterIsRemainder(crc, x);
    RegisterIsRemainder(Xor(crc, x), Zeros(16));
    assert XorInto(x + Zeros(16), crc) == XorInto(Zeros(16) + Zeros(16), Xor(crc, x));
  }

  // A message followed by two bytes leaves residue 0 exactly when these are its own CRC, high
  // byte first.
  lemma ResidueZero(init: Word, msg: seq<bv8>, h: bv8, l: bv8)
    ensures CrcFrom(init, msg + [h, l]) == Zeros(16) <==> OfBytes(h, l) == CrcFrom(init, msg)
  {
    hide ByteBits, BitsStep;
    var c := CrcFrom(init, msg);
    CrcAppend(init, msg, [h, l]);
    BitsAppend([h], [l]);
    BitsOfOne(h);
    BitsOfOne(l);
    assert [h] + [l] == [h, l];
    SixteenBits(c, OfBytes(h, l));
    ZeroBitsInvertible(Xor(c, OfBytes(h, l)), 16);
    XorZero(c, OfBytes(h, l));
  }

  lemma XorZero(a: seq<bool>, b: seq<bool>)
    requires |a| == |b|
    ensures Xor(a, b) == Zeros(|a|) <==> a == b
  {
    if Xor(a, b) == Zeros(|a|) {
      forall i | 0 <= i < |a| ensures a[i] == b[i] { assert !Xor(a, b)[i]; }
    }
  }

  lemma SameParts(a: seq<bool>, b: seq<bool>, c: seq<bool>, d: seq<bool>)
    requires |a| == |c| && a + b == c + d
    ensures a == c && b == d
  {
    assert a == (a + b)[..|a|] && c == (c + d)[..|a|];
    assert b == (a + b)[|a|..] && d == (c + d)[|a|..];
  }

  lemma {:induction false} BitsInjective(f: seq<bv8>, g: seq<bv8>)
    requires |f| == |g| && Bits(f) == Bits(g)
    ensures f == g
  {
    hide ByteBits, ByteOf;
    if f != [] {
      var n := |f| - 1;
      SameParts(Bits(f[..n]), ByteBits(f[n]), Bits(g[..n]), ByteBits(g[n]));
      BitsInjective(f[..n], g[..n]);
      ByteOfBits(f[n]);
      ByteOfBits(g[n]);
      assert f == f[..n] + [f[n]] && g == g[..n] + [g[n]];
    }
  }

  // Two different frames whose difference lies in sixteen consecutive bits cannot both have residue 0.
  lemma BurstDetected(init: Word, f: seq<bv8>, g: seq<bv8>, k: nat)
    requires |f| == |g| && f != g && k + 16 <= 8 * |f|
    requires forall i :: 0 <= i < 8 * |f| && !(k <= i < k + 16) ==> Bits(f)[i] == Bits(g)[i]
    requires CrcFrom(init, f) == Zeros(16)
    ensures CrcFrom(init, g) != Zeros(16)
  {
    hide BitsStep, Bits;
    var e := Xor(Bits(f), Bits(g));
    var w := e[k..k + 16];
    var n := |e| - k - 16;
    assert e == Zeros(k) + w + Zeros(n);
    if w == Zeros(16) {
      assert e == Zeros(|e|);
      XorZero(Bits(f), Bits(g));
      BitsInjective(f, g);
    }
    ZeroBitsInvertible(Zeros(16), k);
    BitsStepAppend(Zeros(16), Zeros(k), w);
    SixteenBits(Zeros(16), w);
    assert Xor(Zeros(16), w) == w;
    ZeroBitsInvertible(w, 16);
    BitsStepAppend(Zeros(16), Zeros(k) + w, Zeros(n));
    ZeroBitsInvertible(BitsStep(w, Zeros(16)), n);
    // The difference of the two residues is the residue of the difference.
    BitsStepLinear(init, init, Bits(f), Bits(g));
    assert Xor(init, init) == Zeros(16);
    XorZero(CrcFrom(init, f), CrcFrom(init, g));
  }

  predicate Odd(bits: seq<bool>) {
    bits != [] && Odd(bits[..|bits| - 1]) != bits[|bits| - 1]
  }

  lemma {:induction false} OddXor(a: seq<bool>, b: seq<bool>)
    requires |a| == |b|
    ensures Odd(Xor(a, b)) == (Odd(a) != Odd(b))
  {
    if a != [] {
      var n := |a| - 1;
      OddXor(a[..n], b[..n]);
      assert Xor(a, b)[..n] == Xor(a[..n], b[..n]);
    }
  }

  lemma {:induction false} OddHead(bits: seq<bool>)
    requires bits != []
    ensures Odd(bits) == (bits[0] != Odd(bits[1..]))
  {
    var n := |bits| - 1;
    if n > 0 {
      OddHead(bits[..n]);
      assert bits[..n][1..] == bits[1..][..n - 1];
    }
  }

  lemma OddPolynomial()
    ensures Odd(POLYNOMIAL)
  {
    var p := POLYNOMIAL;
    var a, b, c := Zeros(3), Zeros(6), Zeros(4);
    OddZeros(a); OddZeros(b); OddZeros(c);
    OddAppend(a, [true]); OddAppend(a + [true], b); OddAppend(a + [true] + b, [true]);
    OddAppend(a + [true] + b + [true], c); OddAppend(a + [true] + b + [true] + c, [true]);
    assert p == a + [true] + b + [true] + c + [true];
    assert [true][..0] == [];
  }

  lemma {:induction false} OddZeros(z: seq<bool>)
    requires forall i :: 0 <= i < |z| ==> !z[i]
    ensures !Odd(z)
  {
    if z != [] { OddZeros(z[..|z| - 1]); }
  }

  lemma {:induction false} OddAppend(a: seq<bool>, b: seq<bool>)
    ensures Odd(a + b) == (Odd(a) != Odd(b))
  {
    if b == [] {
      assert a + b == a;
    } else {
      OddAppend(a, b[..|b| - 1]);
      assert (a + b)[..|a + b| - 1] == a + b[..|b| - 1];
    }
  }

  // The parity of the register follows the parity of the bits moved in.
  lemma {:induction false} RegisterParity(crc: Word, bits: seq<bool>)
    ensures Odd(BitsStep(crc, bits)) == (Odd(crc) != Odd(bits))
  {
    if bits != [] {
      var n := |bits| - 1;
      RegisterParity(crc, bits[..n]);
      var r := BitsStep(crc, bits[..n]);
      OddHead(r);
      assert Zeros(1) == [false] && [false][..0] == [];
      OddAppend(r[1..], Zeros(1));
      OddPolynomial();
      OddXor(Shl(r, 1), POLYNOMIAL);
    }
  }

  // Nor can two frames that differ in an odd number of bits.
  lemma OddErrorDetected(init: Word, f: seq<bv8>, g: seq<bv8>)
    requires |f| == |g| && Odd(Xor(Bits(f), Bits(g)))
    requires CrcFrom(init, f) == Zeros(16)
    ensures CrcFrom(init, g) != Zeros(16)
  {
    hide BitsStep, Bits;
    OddXor(Bits(f), Bits(g));
    RegisterParity(init, Bits(f));
    RegisterParity(init, Bits(g));
    OddZeros(Zeros(16));
  }
}
