/** The cipher of FIPS 197, Advanced Encryption Standard, with 128-bit keys. A state is its sixteen bytes,
    column after column: row r of column c is byte r + 4 * c. */
module Fips197 {
  import opened GaloisField

  // ----- Section 5.1.1: SubBytes

  ghost function SubByte(x: bv8): bv8 {
    if exists i :: IsInverse(x, i) then
      var i :| IsInverse(x, i);
      Affine(i)
    else 0
  }

  ghost function SubBytes(s: seq<bv8>): (r: seq<bv8>)
    ensures |r| == |s|
  {
    seq(|s|, i requires 0 <= i < |s| => SubByte(s[i]))
  }

  // ----- Rows and columns (section 3.4)

  // n modulo 4.
  function Wrap(n: nat): (r: nat)
    requires n < 8
    ensures r < 4
  {
    if n < 4 then n else n - 4
  }

  function Row(j: nat): (r: nat)
    ensures r < 4
  {
    j % 4
  }

  function Col(j: nat): (c: nat)
    requires j < 16
    ensures c < 4
  {
    j / 4
  }

  function At(r: nat, c: nat): (j: nat)
    requires r < 4 && c < 4
    ensures j < 16
  {
    r + 4 * c
  }

  lemma RowCol(j: nat)
    requires j < 16
    ensures At(Row(j), Col(j)) == j
  {}

  lemma AtRowCol(r: nat, c: nat)
    requires r < 4 && c < 4
    ensures Row(At(r, c)) == r && Col(At(r, c)) == c
  {}

  lemma Wraps(a: nat, b: nat, c: nat)
    requires a < 4 && b < 4 && c < 4
    ensures Wrap(Wrap(a + b) + c) == Wrap(a + Wrap(b + c)) && Wrap(a) == a
    ensures Wrap(Wrap(4 - a) + a) == 0 == Wrap(a + Wrap(4 - a))
  {}

  // ----- Section 5.1.2: ShiftRows moves row r by r columns to the left

  function ShiftRows(s: seq<bv8>): (r: seq<bv8>)
    requires |s| == 16
    ensures |r| == 16
  {
    seq(16, j requires 0 <= j < 16 => s[At(Row(j), Wrap(Col(j) + Row(j)))])
  }

  function InvShiftRows(s: seq<bv8>): (r: seq<bv8>)
    requires |s| == 16
    ensures |r| == 16
  {
    seq(16, j requires 0 <= j < 16 => s[At(Row(j), Wrap(Col(j) + Wrap(4 - Row(j))))])
  }

  // ----- Sections 5.1.3 and 5.3.3: MixColumns and its inverse

  // Byte k rows below byte j in its column.
  function Below(j: nat, k: nat): (i: nat)
    requires j < 16 && k < 4
    ensures i < 16
  {
    At(Wrap(Row(j) + k), Col(j))
  }

  function MixByte(a: bv8, b: bv8, c: bv8, d: bv8): bv8 {
    Add4(GfMul(0x02, a), GfMul(0x03, b), c, d)
  }

  function InvMixByte(a: bv8, b: bv8, c: bv8, d: bv8): bv8 {
    Add4(GfMul(0x0E, a), GfMul(0x0B, b), GfMul(0x0D, c), GfMul(0x09, d))
  }

  function MixColumns(s: seq<bv8>): (r: seq<bv8>)
    requires |s| == 16
    ensures |r| == 16
  {
    seq(16, j requires 0 <= j < 16 => MixByte(s[j], s[Below(j, 1)], s[Below(j, 2)], s[Below(j, 3)]))
  }

  function InvMixColumns(s: seq<bv8>): (r: seq<bv8>)
    requires |s| == 16
    ensures |r| == 16
  {
    seq(16, j requires 0 <= j < 16 => InvMixByte(s[j], s[Below(j, 1)], s[Below(j, 2)], s[Below(j, 3)]))
  }

  // ----- Section 5.1.4

  function AddRoundKey(s: seq<bv8>, k: seq<bv8>): (r: seq<bv8>)
    requires |s| == |k|
    ensures |r| == |s|
  {
    seq(|s|, i requires 0 <= i < |s| => Add(s[i], k[i]))
  }

  // ----- Section 5.2: key expansion

  function RconByte(j: nat): bv8 {
    if j <= 1 then 1 else XTime(RconByte(j - 1))
  }

  function RotWord(w: seq<bv8>): (r: seq<bv8>)
    requires |w| == 4
    ensures |r| == 4
  {
    w[1..] + w[..1]
  }

  ghost function KeyWord(key: seq<bv8>, i: nat): (w: seq<bv8>)
    requires |key| == 16
    ensures |w| == 4
  {
    if i < 4 then key[4 * i..4 * i + 4]
    else
      var temp := KeyWord(key, i - 1);
      AddRoundKey(KeyWord(key, i - 4),
                  if i % 4 == 0 then AddRoundKey(SubBytes(RotWord(temp)), [RconByte(i / 4), 0, 0, 0]) else temp)
  }

  ghost function RoundKey(key: seq<bv8>, r: nat): (k: seq<bv8>)
    requires |key| == 16
    ensures |k| == 16
  {
    KeyWord(key, 4 * r) + KeyWord(key, 4 * r + 1) + KeyWord(key, 4 * r + 2) + KeyWord(key, 4 * r + 3)
  }

  // ----- Section 5.1: the cipher

  // The state after the initial key and r full rounds.
  ghost function Rounds(key: seq<bv8>, block: seq<bv8>, r: nat): (s: seq<bv8>)
    requires |key| == |block| == 16
    ensures |s| == 16
  {
    if r == 0 then AddRoundKey(block, RoundKey(key, 0))
    else AddRoundKey(MixColumns(ShiftRows(SubBytes(Rounds(key, block, r - 1)))), RoundKey(key, r))
  }

  ghost function Cipher(key: seq<bv8>, block: seq<bv8>): (s: seq<bv8>)
    requires |key| == |block| == 16
    ensures |s| == 16
  {
    AddRoundKey(ShiftRows(SubBytes(Rounds(key, block, 9))), RoundKey(key, 10))
  }

  // ----- The inverse steps

  lemma ShiftRowsInverse(s: seq<bv8>)
    requires |s| == 16
    ensures InvShiftRows(ShiftRows(s)) == s
  {
    hide Row, Col, At, Wrap;
    forall j | 0 <= j < 16 ensures InvShiftRows(ShiftRows(s))[j] == s[j] {
      var r, c := Row(j), Col(j);
      RowCol(j);
      AtRowCol(r, Wrap(c + Wrap(4 - r)));
      Wraps(c, Wrap(4 - r), r);
      Wraps(r, r, r);
      Wraps(c, 0, 0);
    }
  }

  lemma Add4Transpose(a0: bv8, a1: bv8, a2: bv8, a3: bv8, b0: bv8, b1: bv8, b2: bv8, b3: bv8,
                      c0: bv8, c1: bv8, c2: bv8, c3: bv8, d0: bv8, d1: bv8, d2: bv8, d3: bv8)
    ensures Add4(Add4(a0, a1, a2, a3), Add4(b0, b1, b2, b3), Add4(c0, c1, c2, c3), Add4(d0, d1, d2, d3)) ==
            Add4(Add4(a0, b0, c0, d0), Add4(a1, b1, c1, d1), Add4(a2, b2, c2, d2), Add4(a3, b3, c3, d3))
  {
    hide Add, Add4;
    Add4Add(a0, a1, a2, a3, b0, b1, b2, b3);
    Add4Add(c0, c1, c2, c3, d0, d1, d2, d3);
    Add4Add(Add(a0, b0), Add(a1, b1), Add(a2, b2), Add(a3, b3), Add(c0, d0), Add(c1, d1), Add(c2, d2), Add(c3, d3));
    Add4Is(Add4(a0, a1, a2, a3), Add4(b0, b1, b2, b3), Add4(c0, c1, c2, c3), Add4(d0, d1, d2, d3));
    Add4Is(a0, b0, c0, d0);
    Add4Is(a1, b1, c1, d1);
    Add4Is(a2, b2, c2, d2);
    Add4Is(a3, b3, c3, d3);
  }

  lemma Add4Is(a: bv8, b: bv8, c: bv8, d: bv8)
    ensures Add4(a, b, c, d) == Add(Add(a, b), Add(c, d))
  {
    hide Add;
  }

  lemma GfMulAdd4(x: bv8, a: bv8, b: bv8, c: bv8, d: bv8)
    ensures GfMul(x, Add4(a, b, c, d)) == Add4(GfMul(x, a), GfMul(x, b), GfMul(x, c), GfMul(x, d))
  {
    hide GfMul, Add;
    GfMulAdd(x, a, b);
    GfMulAdd(x, c, d);
    GfMulAdd(x, Add(a, b), Add(c, d));
  }

  // Multiples as sums of doublings.
  lemma Multiples(x: bv8)
    ensures GfMul(0x02, x) == XTime(x) && GfMul(0x03, x) == Add(XTime(x), x)
    ensures GfMul(0x09, x) == Add(XTime(XTime(XTime(x))), x)
  {}

  lemma MultiplesOfB(x: bv8)
    ensures GfMul(0x0B, x) == Add(XTime(XTime(XTime(x))), Add(XTime(x), x))
  {}

  lemma MultiplesOfD(x: bv8)
    ensures GfMul(0x0D, x) == Add(XTime(XTime(XTime(x))), Add(XTime(XTime(x)), x))
  {}

  lemma MultiplesOfE(x: bv8)
    ensures GfMul(0x0E, x) == Add(XTime(XTime(XTime(x))), Add(XTime(XTime(x)), XTime(x)))
  {}

  // The first row of the product of the two coefficient matrices.
  lemma FirstCoefficient(a: bv8)
    ensures Add4(GfMul(0x0E, GfMul(0x02, a)), GfMul(0x0B, a), GfMul(0x0D, a), GfMul(0x09, GfMul(0x03, a))) == a
  {
    hide GfMul;
    Multiples(a); MultiplesOfB(a); MultiplesOfD(a); MultiplesOfE(a); MultiplesOfB(XTime(a)); MultiplesOfD(XTime(a));
    MultiplesOfE(XTime(a)); Multiples(Add(XTime(a), a));
  }

  lemma SecondCoefficient(b: bv8)
    ensures Add4(GfMul(0x0E, GfMul(0x03, b)), GfMul(0x0B, GfMul(0x02, b)), GfMul(0x0D, b), GfMul(0x09, b)) == 0
  {
    hide GfMul;
    Multiples(b); MultiplesOfB(b); MultiplesOfD(b); MultiplesOfE(b); MultiplesOfB(XTime(b)); MultiplesOfD(XTime(b));
    MultiplesOfE(XTime(b)); MultiplesOfB(Add(XTime(b), b)); MultiplesOfD(Add(XTime(b), b));
    MultiplesOfE(Add(XTime(b), b));
  }

  lemma ThirdCoefficient(c: bv8)
    ensures Add4(GfMul(0x0E, c), GfMul(0x0B, GfMul(0x03, c)), GfMul(0x0D, GfMul(0x02, c)), GfMul(0x09, c)) == 0
  {
    hide GfMul;
    Multiples(c); MultiplesOfB(c); MultiplesOfD(c); MultiplesOfE(c); MultiplesOfB(XTime(c)); MultiplesOfD(XTime(c));
    MultiplesOfE(XTime(c)); MultiplesOfB(Add(XTime(c), c)); MultiplesOfD(Add(XTime(c), c));
    MultiplesOfE(Add(XTime(c), c));
  }

  lemma FourthCoefficient(d: bv8)
    ensures Add4(GfMul(0x0E, d), GfMul(0x0B, d), GfMul(0x0D, GfMul(0x03, d)), GfMul(0x09, GfMul(0x02, d))) == 0
  {
    hide GfMul;
    Multiples(d); MultiplesOfB(d); MultiplesOfD(d); MultiplesOfE(d); MultiplesOfB(Add(XTime(d), d));
    MultiplesOfD(Add(XTime(d), d)); MultiplesOfE(Add(XTime(d), d)); Multiples(XTime(d));
  }

  lemma Add4Rotate(a: bv8, b: bv8, c: bv8, d: bv8)
    ensures Add4(a, b, c, d) == Add4(d, a, b, c)
  {
    hide Add;
    AddLaws(Add(a, b), Add(c, d));
    AddLaws(c, d);
    AddExchange(d, c, a, b);
    AddLaws(c, b);
  }

  lemma MixByteInverse(a: bv8, b: bv8, c: bv8, d: bv8)
    ensures InvMixByte(MixByte(a, b, c, d), MixByte(b, c, d, a), MixByte(c, d, a, b), MixByte(d, a, b, c)) == a
  {
    hide GfMul, Add, Add4;
    var m := (x: bv8, y: bv8) => GfMul(x, y);
    // Each row of the outer sum, its terms in the order a, b, c, d.
    GfMulAdd4(0x0E, m(2, a), m(3, b), c, d);
    Add4Rotate(m(2, b), m(3, c), d, a);
    GfMulAdd4(0x0B, a, m(2, b), m(3, c), d);
    Add4Rotate(m(2, c), m(3, d), a, b);
    Add4Rotate(b, m(2, c), m(3, d), a);
    GfMulAdd4(0x0D, a, b, m(2, c), m(3, d));
    Add4Rotate(m(2, d), m(3, a), b, c);
    Add4Rotate(c, m(2, d), m(3, a), b);
    Add4Rotate(b, c, m(2, d), m(3, a));
    GfMulAdd4(0x09, m(3, a), b, c, m(2, d));
    Add4Transpose(m(0x0E, m(2, a)), m(0x0E, m(3, b)), m(0x0E, c), m(0x0E, d),
                  m(0x0B, a), m(0x0B, m(2, b)), m(0x0B, m(3, c)), m(0x0B, d),
                  m(0x0D, a), m(0x0D, b), m(0x0D, m(2, c)), m(0x0D, m(3, d)),
                  m(0x09, m(3, a)), m(0x09, b), m(0x09, c), m(0x09, m(2, d)));
    FirstCoefficient(a);
    SecondCoefficient(b);
    ThirdCoefficient(c);
    FourthCoefficient(d);
    Add4Is(a, 0, 0, 0);
    AddLaws(a, 0);
    AddLaws(0, 0);
  }

  lemma BelowSelf(j: nat)
    requires j < 16
    ensures Below(j, 0) == j
  {
    hide Row, Col, At;
    RowCol(j);
  }

  lemma BelowBelow(j: nat, k: nat, m: nat)
    requires j < 16 && k < 4 && m < 4
    ensures Below(Below(j, k), m) == Below(j, Wrap(k + m))
  {
    hide Row, Col, At, Wrap;
    AtRowCol(Wrap(Row(j) + k), Col(j));
    Wraps(Row(j), k, m);
  }

  // The column of byte j, read from byte j downwards, is the column of any of its bytes, rotated.
  lemma SameColumn(j: nat)
    requires j < 16
    ensures var i1, i2, i3 := Below(j, 1), Below(j, 2), Below(j, 3);
            Below(i1, 1) == i2 && Below(i1, 2) == i3 && Below(i1, 3) == j &&
            Below(i2, 1) == i3 && Below(i2, 2) == j && Below(i2, 3) == i1 &&
            Below(i3, 1) == j && Below(i3, 2) == i1 && Below(i3, 3) == i2
  {
    hide Below;
    BelowSelf(j);
    BelowBelow(j, 1, 1); BelowBelow(j, 1, 2); BelowBelow(j, 1, 3);
    BelowBelow(j, 2, 1); BelowBelow(j, 2, 2); BelowBelow(j, 2, 3);
    BelowBelow(j, 3, 1); BelowBelow(j, 3, 2); BelowBelow(j, 3, 3);
  }

  lemma MixedByte(s: seq<bv8>, j: nat)
    requires |s| == 16 && j < 16
    ensures MixColumns(s)[j] == MixByte(s[j], s[Below(j, 1)], s[Below(j, 2)], s[Below(j, 3)])
    ensures InvMixColumns(s)[j] == InvMixByte(s[j], s[Below(j, 1)], s[Below(j, 2)], s[Below(j, 3)])
  {
    hide MixByte, InvMixByte, Below;
  }

  lemma MixColumnsInverse(s: seq<bv8>)
    requires |s| == 16
    ensures InvMixColumns(MixColumns(s)) == s
  {
    hide InvMixByte, MixByte, Below, MixColumns, InvMixColumns;
    forall j | 0 <= j < 16 ensures InvMixColumns(MixColumns(s))[j] == s[j] {
      var i1, i2, i3 := Below(j, 1), Below(j, 2), Below(j, 3);
      SameColumn(j);
      MixedByte(s, j); MixedByte(s, i1); MixedByte(s, i2); MixedByte(s, i3);
      MixedByte(MixColumns(s), j);
      MixByteInverse(s[j], s[i1], s[i2], s[i3]);
    }
  }
}
