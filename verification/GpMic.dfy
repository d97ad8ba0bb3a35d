/** The message integrity code of a Green Power frame: validateMIC accepts exactly the frames whose code is
    the CCM tag of RFC 3610 over their header, command and payload. */
module GpMic {
  import opened GaloisField
  import opened Fips197
  import opened Rfc3610
  import CustomAes

  // A 32-bit value by its bytes, least significant first.
  datatype U32 = U32(b0: bv8, b1: bv8, b2: bv8, b3: bv8)

  function LittleEndian(v: U32): (s: seq<bv8>)
    ensures |s| == 4
  {
    [v.b0, v.b1, v.b2, v.b3]
  }

  const GPD_FRM_COUNTER_MIC_SECURITY: bv8 := 0x2
  const GPD_KEY_TYPE_NO_KEY: bv8 := 0x0

  datatype GpFrame = GpFrame(
    applicationId: bv8,
    sourceId: U32,
    security: bv8,
    keyType: bv8,
    autoCommissioning: bool,
    rxAfterTx: bool,
    securityFrameCounter: U32,
    commandId: bv8,
    mic: U32,
    payload: seq<bv8>)

  // ----- What is authenticated (sections A.1.5.4.1 and A.1.5.4.3.1 of 09-5499-25)

  function NwkFC(f: GpFrame): bv8 {
    0x0C | (if f.autoCommissioning then 0x40 else 0) | 0x80
  }

  function ExtNwkFC(f: GpFrame): bv8 {
    (f.applicationId & 0x07) | ((f.security & 0x03) << 3)
    | (if f.keyType != GPD_KEY_TYPE_NO_KEY then 0x20 else 0) | (if f.rxAfterTx then 0x40 else 0)
  }

  function Nonce(f: GpFrame): (n: seq<bv8>)
    ensures |n| == 13
  {
    LittleEndian(f.sourceId) + LittleEndian(f.sourceId) + LittleEndian(f.securityFrameCounter) + [0x05]
  }

  function AuthData(f: GpFrame): (a: seq<bv8>)
    ensures |a| == 11 + |f.payload|
  {
    [NwkFC(f), ExtNwkFC(f)] + LittleEndian(f.sourceId) + LittleEndian(f.securityFrameCounter) + [f.commandId] +
    f.payload
  }

  // The tag that the frame ought to carry.
  ghost function ExpectedTag(f: GpFrame, key: seq<bv8>): (u: seq<bv8>)
    requires |key| == 16 && 11 + |f.payload| < 0xFF00
    ensures |u| == 4
  {
    Tag(key, 4, 2, Nonce(f), AuthData(f), [])
  }

  lemma FlagsRecovered(f: GpFrame)
    ensures NwkFC(f) & 0x40 != 0 <==> f.autoCommissioning
    ensures ExtNwkFC(f) & 0x40 != 0 <==> f.rxAfterTx
    ensures ExtNwkFC(f) & 0x20 != 0 <==> f.keyType != GPD_KEY_TYPE_NO_KEY
    ensures ExtNwkFC(f) & 0x07 == f.applicationId & 0x07 && (ExtNwkFC(f) >> 3) & 0x03 == f.security & 0x03
  {}

  // The data to authenticate, field by field: frame control (type 0, protocol version 3, auto-commissioning,
  // extension), extended frame control (application, security level, key, reception after transmission, from
  // the device), source ID and frame counter least significant byte first, command and payload.
  predicate IsAuthData(a: seq<bv8>, f: GpFrame) {
    && |a| == 11 + |f.payload|
    && a[0] & 0x03 == 0 && (a[0] >> 2) & 0x0F == 3 && (a[0] & 0x40 != 0 <==> f.autoCommissioning) && a[0] & 0x80 != 0
    && a[1] & 0x07 == f.applicationId & 0x07 && (a[1] >> 3) & 0x03 == f.security & 0x03
    && (a[1] & 0x20 != 0 <==> f.keyType != 0) && (a[1] & 0x40 != 0 <==> f.rxAfterTx) && a[1] & 0x80 == 0
    && a[2] == f.sourceId.b0 && a[3] == f.sourceId.b1 && a[4] == f.sourceId.b2 && a[5] == f.sourceId.b3
    && a[6] == f.securityFrameCounter.b0 && a[7] == f.securityFrameCounter.b1
    && a[8] == f.securityFrameCounter.b2 && a[9] == f.securityFrameCounter.b3
    && a[10] == f.commandId && a[11..] == f.payload
  }

  // The nonce: source ID twice, frame counter, security control 5.
  predicate IsNonce(n: seq<bv8>, f: GpFrame) {
    && |n| == 13
    && n[0] == n[4] == f.sourceId.b0 && n[1] == n[5] == f.sourceId.b1
    && n[2] == n[6] == f.sourceId.b2 && n[3] == n[7] == f.sourceId.b3
    && n[8] == f.securityFrameCounter.b0 && n[9] == f.securityFrameCounter.b1
    && n[10] == f.securityFrameCounter.b2 && n[11] == f.securityFrameCounter.b3 && n[12] == 0x05
  }

  lemma ControlBytes(f: GpFrame, x: bv8, y: bv8)
    ensures x & 0x03 == 0 && (x >> 2) & 0x0F == 3 && (x & 0x40 != 0 <==> f.autoCommissioning) && x & 0x80 != 0
            <==> x == NwkFC(f)
    ensures y & 0x07 == f.applicationId & 0x07 && (y >> 3) & 0x03 == f.security & 0x03 &&
            (y & 0x20 != 0 <==> f.keyType != 0) && (y & 0x40 != 0 <==> f.rxAfterTx) && y & 0x80 == 0
            <==> y == ExtNwkFC(f)
  {}

  lemma AuthDataIs(f: GpFrame)
    ensures IsAuthData(AuthData(f), f) && IsNonce(Nonce(f), f)
  {
    hide NwkFC, ExtNwkFC;
    ControlBytes(f, NwkFC(f), ExtNwkFC(f));
    var a := AuthData(f);
    assert a[0] == NwkFC(f) && a[1] == ExtNwkFC(f);
  }

  // There is no other such data and no other such nonce.
  lemma HeaderExactly(f: GpFrame, a: seq<bv8>, n: seq<bv8>)
    ensures IsAuthData(a, f) <==> a == AuthData(f)
    ensures IsNonce(n, f) <==> n == Nonce(f)
  {
    hide NwkFC, ExtNwkFC, AuthData, Nonce, IsAuthData, IsNonce;
    AuthDataIs(f);
    if IsAuthData(a, f) { SameAuthData(f, a, AuthData(f)); }
    if IsNonce(n, f) { SameNonce(f, n, Nonce(f)); }
  }

  lemma SameAuthData(f: GpFrame, a: seq<bv8>, b: seq<bv8>)
    requires IsAuthData(a, f) && IsAuthData(b, f)
    ensures a == b
  {
    hide NwkFC, ExtNwkFC;
    ControlBytes(f, a[0], a[1]);
    ControlBytes(f, b[0], b[1]);
    Eleven(a, b);
  }

  lemma Eleven(a: seq<bv8>, b: seq<bv8>)
    requires |a| == |b| >= 11 && a[11..] == b[11..]
    requires a[0] == b[0] && a[1] == b[1] && a[2] == b[2] && a[3] == b[3] && a[4] == b[4] && a[5] == b[5]
    requires a[6] == b[6] && a[7] == b[7] && a[8] == b[8] && a[9] == b[9] && a[10] == b[10]
    ensures a == b
  {
    assert a[..11] == b[..11];
    assert a == a[..11] + a[11..] && b == b[..11] + b[11..];
  }

  lemma SameNonce(f: GpFrame, m: seq<bv8>, n: seq<bv8>)
    requires IsNonce(m, f) && IsNonce(n, f)
    ensures m == n
  {}

  lemma HeaderUnique(f: GpFrame)
    ensures forall a, n :: IsAuthData(a, f) && IsNonce(n, f) ==> a == AuthData(f) && n == Nonce(f)
  {
    hide AuthData, Nonce, IsAuthData, IsNonce;
    forall a, n | IsAuthData(a, f) && IsNonce(n, f) ensures a == AuthData(f) && n == Nonce(f) {
      HeaderExactly(f, a, n);
    }
  }

  lemma Parts(f: GpFrame)
    ensures LittleEndian(f.mic) == [f.mic.b0, f.mic.b1, f.mic.b2, f.mic.b3]
    ensures Nonce(f) == LittleEndian(f.sourceId) + LittleEndian(f.sourceId) + LittleEndian(f.securityFrameCounter) +
                        [0x05]
  {}

  // Everything the receiver acts upon is authenticated.
  lemma AuthDataDetermines(f: GpFrame, g: GpFrame)
    requires AuthData(f) == AuthData(g)
    ensures f.sourceId == g.sourceId && f.securityFrameCounter == g.securityFrameCounter
    ensures f.commandId == g.commandId && f.payload == g.payload
    ensures f.autoCommissioning == g.autoCommissioning && f.rxAfterTx == g.rxAfterTx
    ensures (f.keyType == GPD_KEY_TYPE_NO_KEY) == (g.keyType == GPD_KEY_TYPE_NO_KEY)
    ensures f.applicationId & 0x07 == g.applicationId & 0x07 && f.security & 0x03 == g.security & 0x03
  {
    hide NwkFC, ExtNwkFC;
    var a, b := AuthData(f), AuthData(g);
    FlagsRecovered(f);
    FlagsRecovered(g);
    assert a[0] == b[0] && a[1] == b[1] && a[2] == b[2] && a[3] == b[3] && a[4] == b[4] && a[5] == b[5];
    assert a[6] == b[6] && a[7] == b[7] && a[8] == b[8] && a[9] == b[9] && a[10] == b[10];
    assert f.payload == a[11..] == b[11..] == g.payload;
  }

  // ----- CBC-MAC

  // Chaining from a zero block is the recursion of the standard.
  lemma {:induction false} ChainIsMac(key: seq<bv8>, b: seq<bv8>, n: nat)
    requires |key| == 16 && 1 <= n && 16 * n <= |b|
    ensures CustomAes.CbcBlock(key, Zero(16), b, n) == Mac(key, b, n)
  {
    hide Cipher, AddRoundKey, Mac;
    MacIs(key, b, n);
    CustomAes.CbcNext(key, Zero(16), b, n - 1);
    if n == 1 {
      CustomAes.CbcStarts(key, Zero(16), b);
      ZeroAdds(b[0..16]);
    } else {
      ChainIsMac(key, b, n - 1);
    }
  }

  lemma MacIs(key: seq<bv8>, b: seq<bv8>, n: nat)
    requires |key| == 16 && 1 <= n && 16 * n <= |b|
    ensures n == 1 ==> Mac(key, b, n) == Cipher(key, b[..16])
    ensures n > 1 ==> Mac(key, b, n) == Cipher(key, AddRoundKey(Mac(key, b, n - 1), b[16 * (n - 1)..16 * n]))
  {
    hide Cipher, AddRoundKey;
  }

  lemma ZeroAdds(b: seq<bv8>)
    requires |b| == 16
    ensures AddRoundKey(Zero(16), b) == b
  {
    hide Add;
    forall i | 0 <= i < 16 ensures AddRoundKey(Zero(16), b)[i] == b[i] { AddLaws(b[i], 0); }
  }

  method ToMemory(s: seq<bv8>) returns (buf: array<bv8>)
    ensures fresh(buf) && buf[..] == s
  {
    buf := new bv8[|s|](i requires 0 <= i < |s| => s[i]);
  }

  // getLastXiAESCBC: the last ciphertext block of b0 and b chained from x0. The source's last copy, which
  // would read the block behind b and is never used, is guarded here.
  method GetLastXi(key: seq<bv8>, x0: seq<bv8>, b0: seq<bv8>, b: seq<bv8>) returns (xi: seq<bv8>, lastIndex: nat)
    requires |key| == 16
    ensures |b| % 16 != 0 || |b0| != 16 || |x0| != 16 ==> xi == [] && lastIndex == 0
    ensures |b| % 16 == 0 && |b0| == 16 && |x0| == 16 ==>
            lastIndex == |b| / 16 + 1 && 16 * lastIndex == |b0 + b| &&
            xi == CustomAes.CbcBlock(key, x0, b0 + b, lastIndex)
  {
    hide CustomAes.CbcBlock, CustomAes.Cbc, CustomAes.Schedule, Cipher, AddRoundKey;
    lastIndex := 0;
    if |b| % 16 != 0 || |b0| != 16 || |x0| != 16 { return [], 0; }
    var x0buf := ToMemory(x0);
    var aes := new CustomAes.Aes();
    aes.SetKey(key);
    var bibuf := ToMemory(b0);
    var xibuf := new bv8[16](_ => 0);
    ghost var all := b0 + b;
    CustomAes.CbcStarts(key, x0, all);
    var index := 1;
    while index < |b| / 16 + 2
      invariant 1 <= index <= |b| / 16 + 2 && lastIndex == index - 1
      invariant aes.Valid() && aes.rnd != 0 && aes.key == key && fresh(aes) && fresh(aes.ksch) && fresh(x0buf) &&
                fresh(bibuf) && fresh(xibuf)
      invariant aes.ksch != xibuf && aes.ksch != x0buf && aes.ksch != bibuf && x0buf != bibuf && x0buf != xibuf &&
                bibuf != xibuf
      invariant x0buf.Length == bibuf.Length == xibuf.Length == 16
      invariant x0buf[..] == CustomAes.CbcBlock(key, x0, all, lastIndex)
      invariant index > 1 ==> xibuf[..] == x0buf[..]
      invariant 16 * index <= |all| ==> bibuf[..] == all[16 * (index - 1)..16 * index]
    {
      ChainBlock(aes, bibuf, xibuf, x0buf);
      CustomAes.CbcNext(key, x0, all, index - 1);
      if 16 * index <= |b| {
        assert all[16 * index..16 * (index + 1)] == b[16 * (index - 1)..16 * index];
        CopyFrom(bibuf, b, 16 * (index - 1));
      }
      lastIndex := index;
      index := index + 1;
    }
    xi := xibuf[..];
  }

  // One call of cbc_encrypt on one block.
  method ChainBlock(aes: CustomAes.Aes, bibuf: array<bv8>, xibuf: array<bv8>, x0buf: array<bv8>)
    requires aes.Valid() && aes.rnd != 0 && bibuf.Length == xibuf.Length == x0buf.Length == 16
    requires aes.ksch != xibuf && aes.ksch != x0buf && x0buf != bibuf && x0buf != xibuf
    modifies xibuf, x0buf
    ensures aes.Valid() && xibuf[..] == x0buf[..] == Cipher(aes.key, AddRoundKey(old(x0buf[..]), old(bibuf[..])))
  {
    hide CustomAes.CbcBlock, CustomAes.Cbc, CustomAes.Schedule, Cipher, AddRoundKey;
    ghost var x, block := x0buf[..], bibuf[..];
    assert bibuf[..16] == block;
    var ok := aes.CbcEncrypt(bibuf, xibuf, 16, x0buf);
    OneBlock(aes.key, x, block);
    assert xibuf[..16] == xibuf[..];
  }

  method CopyFrom(d: array<bv8>, b: seq<bv8>, o: nat)
    requires d.Length == 16 && o + 16 <= |b|
    modifies d
    ensures d[..] == b[o..o + 16]
  {
    for i := 0 to 16
      invariant forall j :: 0 <= j < i ==> d[j] == b[o + j]
    {
      d[i] := b[i + o];
    }
  }

  lemma OneBlock(key: seq<bv8>, x: seq<bv8>, block: seq<bv8>)
    requires |key| == |x| == |block| == 16
    ensures var c := Cipher(key, AddRoundKey(x, block));
            CustomAes.Cbc(key, x, block, 1) == c && CustomAes.CbcBlock(key, x, block, 1) == c
  {
    hide Cipher, AddRoundKey;
    CustomAes.CbcStarts(key, x, block);
    CustomAes.CbcNext(key, x, block, 0);
    assert block[0..16] == block;
  }

  // ----- validateMIC

  method ComputeNonce(sourceId: U32, frameCounter: U32) returns (nonce: seq<bv8>)
    ensures nonce == LittleEndian(sourceId) + LittleEndian(sourceId) + LittleEndian(frameCounter) + [0x05]
  {
    nonce := [sourceId.b0, sourceId.b1, sourceId.b2, sourceId.b3];
    nonce := nonce + [sourceId.b0, sourceId.b1, sourceId.b2, sourceId.b3];
    nonce := nonce + [frameCounter.b0, frameCounter.b1, frameCounter.b2, frameCounter.b3];
    nonce := nonce + [0x05];
  }

  method Padded(s: seq<bv8>) returns (p: seq<bv8>)
    ensures p == PadToBlock(s)
  {
    p := s;
    var pad := |p| % 16;
    if pad > 0 {
      for i := 0 to 16 - pad
        invariant p == s + Zero(i)
      {
        p := p + [0x00];
        assert Zero(i) + [0x00] == Zero(i + 1);
      }
    } else {
      assert p == s + Zero(0);
    }
  }

  lemma Lengths(n: nat)
    ensures BigEndian(n, 2) == [ByteOf(n / 256), ByteOf(n)]
  {
    assert BigEndian(n / 256 / 256, 0) == [];
    assert BigEndian(n / 256, 1) == [ByteOf(n / 256)];
  }

  // The constants of the source are the fields of the standard for M = 4 and L = 2.
  lemma Constants(nonce: seq<bv8>)
    requires |nonce| == 13
    ensures FirstBlock(4, 2, nonce, true, []) == [0x49] + nonce + [0x00, 0x00]
    ensures [ByteOf(1)] + nonce + BigEndian(0, 2) == [0x49 & 0x03] + nonce + [0x00, 0x00]
  {
    Lengths(0);
  }

  // The authenticated blocks, without and with the first one.
  method AuthInput(a: seq<bv8>) returns (b: seq<bv8>)
    requires 0 < |a| < 0xFF00
    ensures |b| % 16 == 0 && b == PadToBlock(BigEndian(|a|, 2) + a)
  {
    hide Zero, PadToBlock, BigEndian, ByteOf;
    Lengths(|a|);
    var La := |a| % 0x1_0000;
    b := [ByteOf(La / 256), ByteOf(La)] + a;
    b := Padded(b);
    b := Again(b);
  }

  // B is padded a second time, to no effect.
  method Again(s: seq<bv8>) returns (p: seq<bv8>)
    requires |s| % 16 == 0
    ensures p == s
  {
    p := Padded(s);
    assert s + Zero(0) == s;
  }

  lemma AuthBlocksAre(nonce: seq<bv8>, a: seq<bv8>)
    requires |nonce| == 13 && 0 < |a| < 0xFF00
    ensures AuthBlocks(4, 2, nonce, a, []) == [0x49] + nonce + [0x00, 0x00] + PadToBlock(BigEndian(|a|, 2) + a)
  {
    hide FirstBlock, BigEndian;
    Constants(nonce);
    assert PadToBlock([]) == [] + Zero(0) == [];
  }

  // The CBC-MAC half and the counter half of the tag, before they are added.
  method CcmHalves(key: seq<bv8>, nonce: seq<bv8>, a: seq<bv8>) returns (t: seq<bv8>, r: seq<bv8>)
    requires |key| == 16 && |nonce| == 13 && 0 < |a| < 0xFF00
    ensures |t| == |r| == 4 && AddRoundKey(t, r) == Tag(key, 4, 2, nonce, a, [])
  {
    hide Cipher, Mac, CustomAes.CbcBlock, PadToBlock, BigEndian, FirstBlock, AuthBlocks, AddRoundKey, ByteOf, Zero;
    var b := AuthInput(a);
    var flags := 0x49;
    var b0 := [flags] + nonce + [0x00, 0x00];
    AuthBlocksAre(nonce, a);
    var xi, lastIndex := GetLastXi(key, Zero(16), b0, b);
    ChainIsMac(key, b0 + b, lastIndex);
    t := xi[..4];
    var e := EncryptCounter(key, [flags & 0x03] + nonce + [0x00, 0x00]);
    r := e[..4];
    Constants(nonce);
  }

  method BuildAuthData(f: GpFrame) returns (a: seq<bv8>)
    ensures a == AuthData(f)
  {
    hide NwkFC, ExtNwkFC;
    var header := [NwkFC(f), ExtNwkFC(f), f.sourceId.b0, f.sourceId.b1, f.sourceId.b2, f.sourceId.b3,
                   f.securityFrameCounter.b0, f.securityFrameCounter.b1, f.securityFrameCounter.b2,
                   f.securityFrameCounter.b3];
    a := header;
    a := a + [f.commandId];
    a := a + f.payload;
  }

  method ValidateMIC(f: GpFrame, key: seq<bv8>) returns (ok: bool)
    requires |key| == 16 && 11 + |f.payload| < 0xFF00
    ensures ok <==> f.security == GPD_FRM_COUNTER_MIC_SECURITY && f.applicationId == 0 &&
                    LittleEndian(f.mic) == ExpectedTag(f, key)
    ensures forall a, n :: IsAuthData(a, f) && IsNonce(n, f) ==>
              (ok <==> f.security == 2 && f.applicationId == 0 &&
                       [f.mic.b0, f.mic.b1, f.mic.b2, f.mic.b3] == Tag(key, 4, 2, n, a, []))
  {
    hide Tag, Add, AddRoundKey, AuthData, LittleEndian, Nonce, IsAuthData, IsNonce;
    HeaderUnique(f);
    Parts(f);
    if f.security != GPD_FRM_COUNTER_MIC_SECURITY { return false; }
    var nonce := ComputeNonce(f.sourceId, f.securityFrameCounter);
    if f.applicationId != 0 { return false; }
    var a := BuildAuthData(f);
    var t, r := CcmHalves(key, nonce, a);
    var u := U32(Add(r[0], t[0]), Add(r[1], t[1]), Add(r[2], t[2]), Add(r[3], t[3]));
    TagIs(t, r, u);
    ok := f.mic == u;
  }

  lemma TagIs(t: seq<bv8>, r: seq<bv8>, u: U32)
    requires |t| == |r| == 4 && u == U32(Add(r[0], t[0]), Add(r[1], t[1]), Add(r[2], t[2]), Add(r[3], t[3]))
    ensures LittleEndian(u) == AddRoundKey(t, r)
    ensures forall v: U32 :: LittleEndian(v) == LittleEndian(u) <==> v == u
  {
    hide Add;
    AddLaws(r[0], t[0]); AddLaws(r[1], t[1]); AddLaws(r[2], t[2]); AddLaws(r[3], t[3]);
    forall v: U32 ensures LittleEndian(v) == LittleEndian(u) <==> v == u {
      var a, b := LittleEndian(v), LittleEndian(u);
      if a == b { assert a[0] == b[0] && a[1] == b[1] && a[2] == b[2] && a[3] == b[3]; }
    }
  }

  method EncryptCounter(key: seq<bv8>, iv: seq<bv8>) returns (e: seq<bv8>)
    requires |key| == |iv| == 16
    ensures e == Cipher(key, iv)
  {
    hide Cipher, CustomAes.Schedule;
    var aes := new CustomAes.Aes();
    aes.SetKey(key);
    var ivBuf := ToMemory(iv);
    var eBuf := new bv8[16](_ => 0);
    var ok := aes.Encrypt(ivBuf, eBuf);
    e := eBuf[..];
  }
}
