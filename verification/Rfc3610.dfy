/** Authentication of RFC 3610, Counter with CBC-MAC, with AES-128 as the block cipher. */
module Rfc3610 {
  import opened GaloisField
  import opened Fips197

  function Zero(n: nat): (z: seq<bv8>)
    ensures |z| == n
  {
    seq(n, _ => 0)
  }

  // The smallest number of zero bytes up to a block boundary.
  function Fill(n: nat): nat { if n % 16 == 0 then 0 else 16 - n % 16 }

  function PadToBlock(s: seq<bv8>): (p: seq<bv8>)
    ensures |p| % 16 == 0 && |s| <= |p|
  {
    s + Zero(Fill(|s|))
  }

  function ByteOf(n: nat): bv8 { (n % 256) as bv8 }

  // The n low-order bytes of v, most significant first.
  function BigEndian(v: nat, n: nat): (s: seq<bv8>)
    ensures |s| == n
  {
    if n == 0 then [] else BigEndian(v / 256, n - 1) + [ByteOf(v)]
  }

  // Section 2: field M of the tag length and field L of the length of the message length.
  predicate Parameters(M: nat, L: nat) {
    4 <= M <= 16 && M % 2 == 0 && 2 <= L <= 8
  }

  // Section 2.2: the first block.
  function FirstBlock(M: nat, L: nat, nonce: seq<bv8>, hasA: bool, m: seq<bv8>): (b: seq<bv8>)
    requires Parameters(M, L) && |nonce| == 15 - L
    ensures |b| == 16
  {
    [ByteOf((if hasA then 64 else 0) + 8 * ((M - 2) / 2) + (L - 1))] + nonce + BigEndian(|m|, L)
  }

  lemma SumOfMultiples(a: nat, b: nat)
    requires a % 16 == 0 && b % 16 == 0
    ensures (16 + a + b) % 16 == 0
  {
    assert a == 16 * (a / 16) && b == 16 * (b / 16);
    assert 16 + a + b == 16 * (1 + a / 16 + b / 16);
  }

  // Section 2.2: the blocks to authenticate, for fewer than 2^16 - 2^8 bytes of additional data.
  function AuthBlocks(M: nat, L: nat, nonce: seq<bv8>, a: seq<bv8>, m: seq<bv8>): (b: seq<bv8>)
    requires Parameters(M, L) && |nonce| == 15 - L && |a| < 0xFF00
    ensures 16 <= |b| && |b| % 16 == 0
  {
    SumOfMultiples(|if a == [] then [] else PadToBlock(BigEndian(|a|, 2) + a)|, |PadToBlock(m)|);
    FirstBlock(M, L, nonce, a != [], m) + (if a == [] then [] else PadToBlock(BigEndian(|a|, 2) + a)) + PadToBlock(m)
  }

  // Section 2.2: X_n, for n blocks B_0 .. B_(n-1).
  ghost function Mac(key: seq<bv8>, b: seq<bv8>, n: nat): (x: seq<bv8>)
    requires |key| == 16 && 1 <= n && 16 * n <= |b|
    ensures |x| == 16
  {
    if n == 1 then Cipher(key, b[..16])
    else Cipher(key, AddRoundKey(Mac(key, b, n - 1), b[16 * (n - 1)..16 * n]))
  }

  // Section 2.3: key stream block i.
  ghost function KeyStream(key: seq<bv8>, L: nat, nonce: seq<bv8>, i: nat): (s: seq<bv8>)
    requires |key| == 16 && 2 <= L <= 8 && |nonce| == 15 - L
    ensures |s| == 16
  {
    Cipher(key, [ByteOf(L - 1)] + nonce + BigEndian(i, L))
  }

  // The authentication value U.
  ghost function Tag(key: seq<bv8>, M: nat, L: nat, nonce: seq<bv8>, a: seq<bv8>, m: seq<bv8>): (u: seq<bv8>)
    requires |key| == 16 && Parameters(M, L) && |nonce| == 15 - L && |a| < 0xFF00
    ensures |u| == M
  {
    var b := AuthBlocks(M, L, nonce, a, m);
    AddRoundKey(Mac(key, b, |b| / 16)[..M], KeyStream(key, L, nonce, 0)[..M])
  }
}
