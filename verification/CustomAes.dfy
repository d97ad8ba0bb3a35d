/** The table-driven AES-128 of custom-aes.cpp: its fused rounds, working in place on byte arrays, compute
    the cipher of FIPS 197, its CBC mode is that of NIST SP 800-38A, and its inverse helpers undo the
    forward ones. */
module CustomAes {
  import opened GaloisField
  import opened AesTables
  import opened Fips197

  const AES_BLOCK_SIZE := 16
  const N_MAX_ROUNDS := 14

  // The four tables used by the rounds.
  function Gfm2Sb(x: bv8): bv8 { F2(SBox(x)) }
  function Gfm3Sb(x: bv8): bv8 { F3(SBox(x)) }

  lemma SBoxIsSubByte(x: bv8)
    ensures SBox(x) == SubByte(x)
  {
    hide SBox, IsInverse, Affine, UnAffine;
    SBoxIsAffineInverse(x);
  }

  lemma TablesAre(x: bv8)
    ensures SBox(x) == SubByte(x)
    ensures Gfm2Sb(x) == GfMul(0x02, SubByte(x)) && Gfm3Sb(x) == GfMul(0x03, SubByte(x))
  {
    hide SBox, GfMul, F2, F3, SubByte;
    SBoxIsSubByte(x);
    MacrosMultiply(SBox(x));
  }

  // ----- ShiftRows after SubBytes, and what the source does to undo it

  ghost function ShiftSub(s: seq<bv8>): (r: seq<bv8>)
    requires |s| == 16
    ensures |r| == 16
  {
    ShiftRows(SubBytes(s))
  }

  function UnShiftSub(s: seq<bv8>): (r: seq<bv8>)
    requires |s| == 16
    ensures |r| == 16
  {
    var t := InvShiftRows(s);
    seq(16, j requires 0 <= j < 16 => ISBox(t[j]))
  }

  lemma Positions()
    ensures Row(0) == Row(4) == Row(8) == Row(12) == 0 && Row(1) == Row(5) == Row(9) == Row(13) == 1
    ensures Row(2) == Row(6) == Row(10) == Row(14) == 2 && Row(3) == Row(7) == Row(11) == Row(15) == 3
    ensures Col(0) == Col(1) == Col(2) == Col(3) == 0 && Col(4) == Col(5) == Col(6) == Col(7) == 1
    ensures Col(8) == Col(9) == Col(10) == Col(11) == 2 && Col(12) == Col(13) == Col(14) == Col(15) == 3
  {}

  // Where ShiftRows takes each byte from.
  lemma Shifted(s: seq<bv8>)
    requires |s| == 16
    ensures var r := ShiftRows(s);
            r[0] == s[0] && r[4] == s[4] && r[8] == s[8] && r[12] == s[12] &&
            r[1] == s[5] && r[5] == s[9] && r[9] == s[13] && r[13] == s[1] &&
            r[2] == s[10] && r[6] == s[14] && r[10] == s[2] && r[14] == s[6] &&
            r[3] == s[15] && r[7] == s[3] && r[11] == s[7] && r[15] == s[11]
  {
    hide Row, Col;
    Positions();
  }

  lemma ShiftSubbed(s: seq<bv8>)
    requires |s| == 16
    ensures var r := ShiftSub(s);
            r[0] == SubByte(s[0]) && r[4] == SubByte(s[4]) && r[8] == SubByte(s[8]) && r[12] == SubByte(s[12]) &&
            r[1] == SubByte(s[5]) && r[5] == SubByte(s[9]) && r[9] == SubByte(s[13]) && r[13] == SubByte(s[1]) &&
            r[2] == SubByte(s[10]) && r[6] == SubByte(s[14]) && r[10] == SubByte(s[2]) && r[14] == SubByte(s[6]) &&
            r[3] == SubByte(s[15]) && r[7] == SubByte(s[3]) && r[11] == SubByte(s[7]) && r[15] == SubByte(s[11])
  {
    hide ShiftRows, SubByte;
    Shifted(SubBytes(s));
  }

  lemma UnShiftSubbed(s: seq<bv8>)
    requires |s| == 16
    ensures var r := UnShiftSub(s);
            r[0] == ISBox(s[0]) && r[4] == ISBox(s[4]) && r[8] == ISBox(s[8]) && r[12] == ISBox(s[12]) &&
            r[5] == ISBox(s[1]) && r[9] == ISBox(s[5]) && r[13] == ISBox(s[9]) && r[1] == ISBox(s[13]) &&
            r[10] == ISBox(s[2]) && r[14] == ISBox(s[6]) && r[2] == ISBox(s[10]) && r[6] == ISBox(s[14]) &&
            r[15] == ISBox(s[3]) && r[3] == ISBox(s[7]) && r[7] == ISBox(s[11]) && r[11] == ISBox(s[15])
  {
    hide Row, Col, ISBox;
    Positions();
  }

  // inv_shift_sub_rows undoes shift_sub_rows.
  lemma UnShiftSubUndoes(s: seq<bv8>)
    requires |s| == 16
    ensures UnShiftSub(ShiftSub(s)) == s
  {
    hide SBox, ISBox, ShiftRows, InvShiftRows, SubByte;
    ShiftRowsInverse(SubBytes(s));
    forall j | 0 <= j < 16 ensures UnShiftSub(ShiftSub(s))[j] == s[j] {
      SBoxIsSubByte(s[j]);
      ISBoxUndoesSBox(s[j]);
    }
  }

  // inv_mix_sub_columns undoes mix_sub_columns.
  lemma UnMixSubUndoes(s: seq<bv8>)
    requires |s| == 16
    ensures UnShiftSub(InvMixColumns(MixColumns(ShiftSub(s)))) == s
  {
    hide *;
    MixColumnsInverse(ShiftSub(s));
    UnShiftSubUndoes(s);
  }

  // ----- The helpers, in place

  predicate Unchanged(now: seq<bv8>, was: seq<bv8>, a: nat, b: nat, c: nat, d: nat) {
    |now| == |was| && forall j :: 0 <= j < |now| && j != a && j != b && j != c && j != d ==> now[j] == was[j]
  }

  method ShiftSubRow0(st: array<bv8>)
    requires st.Length == 16
    modifies st
    ensures st[0] == SBox(old(st[0])) && st[4] == SBox(old(st[4])) && st[8] == SBox(old(st[8])) &&
            st[12] == SBox(old(st[12]))
    ensures Unchanged(st[..], old(st[..]), 0, 4, 8, 12)
  {
    hide SBox;
    st[0] := SBox(st[0]);
    st[4] := SBox(st[4]);
    st[8] := SBox(st[8]);
    st[12] := SBox(st[12]);
  }

  method ShiftSubRow1(st: array<bv8>)
    requires st.Length == 16
    modifies st
    ensures st[1] == SBox(old(st[5])) && st[5] == SBox(old(st[9])) && st[9] == SBox(old(st[13])) &&
            st[13] == SBox(old(st[1]))
    ensures Unchanged(st[..], old(st[..]), 1, 5, 9, 13)
  {
    hide SBox;
    var tt := st[1];
    st[1] := SBox(st[5]);
    st[5] := SBox(st[9]);
    st[9] := SBox(st[13]);
    st[13] := SBox(tt);
  }

  method ShiftSubRow2(st: array<bv8>)
    requires st.Length == 16
    modifies st
    ensures st[2] == SBox(old(st[10])) && st[10] == SBox(old(st[2])) && st[6] == SBox(old(st[14])) &&
            st[14] == SBox(old(st[6]))
    ensures Unchanged(st[..], old(st[..]), 2, 6, 10, 14)
  {
    hide SBox;
    var tt := st[2];
    st[2] := SBox(st[10]);
    st[10] := SBox(tt);
    tt := st[6];
    st[6] := SBox(st[14]);
    st[14] := SBox(tt);
  }

  method ShiftSubRow3(st: array<bv8>)
    requires st.Length == 16
    modifies st
    ensures st[15] == SBox(old(st[11])) && st[11] == SBox(old(st[7])) && st[7] == SBox(old(st[3])) &&
            st[3] == SBox(old(st[15]))
    ensures Unchanged(st[..], old(st[..]), 3, 7, 11, 15)
  {
    hide SBox;
    var tt := st[15];
    st[15] := SBox(st[11]);
    st[11] := SBox(st[7]);
    st[7] := SBox(st[3]);
    st[3] := SBox(tt);
  }

  lemma SubbedAt(s: seq<bv8>, j: nat)
    requires j < |s|
    ensures SubBytes(s)[j] == SBox(s[j])
  {
    hide SBox, SubByte;
    SBoxIsSubByte(s[j]);
  }

  lemma SixteenSame(a: seq<bv8>, b: seq<bv8>)
    requires |a| == |b| == 16
    requires a[0] == b[0] && a[1] == b[1] && a[2] == b[2] && a[3] == b[3] && a[4] == b[4] && a[5] == b[5] &&
             a[6] == b[6] && a[7] == b[7]
    requires a[8] == b[8] && a[9] == b[9] && a[10] == b[10] && a[11] == b[11] && a[12] == b[12] && a[13] == b[13] &&
             a[14] == b[14] && a[15] == b[15]
    ensures a == b
  {}

  method ShiftSubRows(st: array<bv8>)
    requires st.Length == 16
    modifies st
    ensures st[..] == ShiftSub(old(st[..]))
  {
    hide SBox, ShiftRows, SubBytes;
    ghost var s := st[..];
    ShiftSubRow0(st);
    ShiftSubRow1(st);
    ShiftSubRow2(st);
    ShiftSubRow3(st);
    ghost var b := SubBytes(s);
    Shifted(b);
    SubbedAt(s, 0); SubbedAt(s, 1); SubbedAt(s, 2); SubbedAt(s, 3); SubbedAt(s, 4); SubbedAt(s, 5); SubbedAt(s, 6);
    SubbedAt(s, 7);
    SubbedAt(s, 8); SubbedAt(s, 9); SubbedAt(s, 10); SubbedAt(s, 11); SubbedAt(s, 12); SubbedAt(s, 13);
    SubbedAt(s, 14); SubbedAt(s, 15);
    SixteenSame(st[..], ShiftRows(b));
  }

  method InvShiftSubRow0(st: array<bv8>)
    requires st.Length == 16
    modifies st
    ensures st[0] == ISBox(old(st[0])) && st[4] == ISBox(old(st[4])) && st[8] == ISBox(old(st[8])) &&
            st[12] == ISBox(old(st[12]))
    ensures Unchanged(st[..], old(st[..]), 0, 4, 8, 12)
  {
    hide ISBox;
    st[0] := ISBox(st[0]);
    st[4] := ISBox(st[4]);
    st[8] := ISBox(st[8]);
    st[12] := ISBox(st[12]);
  }

  method InvShiftSubRow1(st: array<bv8>)
    requires st.Length == 16
    modifies st
    ensures st[13] == ISBox(old(st[9])) && st[9] == ISBox(old(st[5])) && st[5] == ISBox(old(st[1])) &&
            st[1] == ISBox(old(st[13]))
    ensures Unchanged(st[..], old(st[..]), 1, 5, 9, 13)
  {
    hide ISBox;
    var tt := st[13];
    st[13] := ISBox(st[9]);
    st[9] := ISBox(st[5]);
    st[5] := ISBox(st[1]);
    st[1] := ISBox(tt);
  }

  method InvShiftSubRow2(st: array<bv8>)
    requires st.Length == 16
    modifies st
    ensures st[2] == ISBox(old(st[10])) && st[10] == ISBox(old(st[2])) && st[6] == ISBox(old(st[14])) &&
            st[14] == ISBox(old(st[6]))
    ensures Unchanged(st[..], old(st[..]), 2, 6, 10, 14)
  {
    hide ISBox;
    var tt := st[2];
    st[2] := ISBox(st[10]);
    st[10] := ISBox(tt);
    tt := st[6];
    st[6] := ISBox(st[14]);
    st[14] := ISBox(tt);
  }

  method InvShiftSubRow3(st: array<bv8>)
    requires st.Length == 16
    modifies st
    ensures st[3] == ISBox(old(st[7])) && st[7] == ISBox(old(st[11])) && st[11] == ISBox(old(st[15])) &&
            st[15] == ISBox(old(st[3]))
    ensures Unchanged(st[..], old(st[..]), 3, 7, 11, 15)
  {
    hide ISBox;
    var tt := st[3];
    st[3] := ISBox(st[7]);
    st[7] := ISBox(st[11]);
    st[11] := ISBox(st[15]);
    st[15] := ISBox(tt);
  }

  method InvShiftSubRows(st: array<bv8>)
    requires st.Length == 16
    modifies st
    ensures st[..] == UnShiftSub(old(st[..]))
  {
    hide ISBox, UnShiftSub;
    ghost var s := st[..];
    InvShiftSubRow0(st);
    InvShiftSubRow1(st);
    InvShiftSubRow2(st);
    InvShiftSubRow3(st);
    UnShiftSubbed(s);
    SixteenSame(st[..], UnShiftSub(s));
  }

  // ----- The fused rounds

  function Xor4(a: bv8, b: bv8, c: bv8, d: bv8): bv8 { a ^ b ^ c ^ d }

  lemma XorSum(a: bv8, b: bv8, c: bv8, d: bv8)
    ensures Xor4(a, b, c, d) == Add4(a, b, c, d)
  {}

  // The four expressions for a column, in the order in which the source adds.
  lemma MixSubSums(u: bv8, v: bv8, w: bv8, z: bv8)
    ensures Xor4(Gfm2Sb(u), Gfm3Sb(v), SBox(w), SBox(z)) == MixByte(SubByte(u), SubByte(v), SubByte(w), SubByte(z))
    ensures Xor4(SBox(u), Gfm2Sb(v), Gfm3Sb(w), SBox(z)) == MixByte(SubByte(v), SubByte(w), SubByte(z), SubByte(u))
    ensures Xor4(SBox(u), SBox(v), Gfm2Sb(w), Gfm3Sb(z)) == MixByte(SubByte(w), SubByte(z), SubByte(u), SubByte(v))
    ensures Xor4(Gfm3Sb(u), SBox(v), SBox(w), Gfm2Sb(z)) == MixByte(SubByte(z), SubByte(u), SubByte(v), SubByte(w))
  {
    hide SBox, SubByte, Gfm2Sb, Gfm3Sb, GfMul, Add4, Xor4;
    TablesAre(u); TablesAre(v); TablesAre(w); TablesAre(z);
    XorSum(Gfm2Sb(u), Gfm3Sb(v), SBox(w), SBox(z));
    XorSum(SBox(u), Gfm2Sb(v), Gfm3Sb(w), SBox(z));
    Add4Rotate(Gfm2Sb(v), Gfm3Sb(w), SBox(z), SBox(u));
    XorSum(SBox(u), SBox(v), Gfm2Sb(w), Gfm3Sb(z));
    Add4Rotate(Gfm2Sb(w), Gfm3Sb(z), SBox(u), SBox(v));
    Add4Rotate(SBox(v), Gfm2Sb(w), Gfm3Sb(z), SBox(u));
    XorSum(Gfm3Sb(u), SBox(v), SBox(w), Gfm2Sb(z));
    Add4Rotate(Gfm3Sb(u), SBox(v), SBox(w), Gfm2Sb(z));
  }

  // A column by its indices.
  lemma ColumnIndices(c: nat)
    requires c < 4
    ensures var d := 4 * c;
            Below(d, 1) == d + 1 && Below(d, 2) == d + 2 && Below(d, 3) == d + 3 &&
            Below(d + 1, 1) == d + 2 && Below(d + 1, 2) == d + 3 && Below(d + 1, 3) == d &&
            Below(d + 2, 1) == d + 3 && Below(d + 2, 2) == d && Below(d + 2, 3) == d + 1 &&
            Below(d + 3, 1) == d && Below(d + 3, 2) == d + 1 && Below(d + 3, 3) == d + 2
  {
    hide Row, Col;
    AtRowCol(0, c); AtRowCol(1, c); AtRowCol(2, c); AtRowCol(3, c);
  }

  predicate ColumnMixed(r: seq<bv8>, s: seq<bv8>, d: nat)
    requires |r| == |s| == 16 && d <= 12
  {
    && r[d] == MixByte(s[d], s[d + 1], s[d + 2], s[d + 3]) && r[d + 1] == MixByte(s[d + 1], s[d + 2], s[d + 3], s[d])
    && r[d + 2] == MixByte(s[d + 2], s[d + 3], s[d], s[d + 1]) &&
       r[d + 3] == MixByte(s[d + 3], s[d], s[d + 1], s[d + 2])
  }

  predicate ColumnUnmixed(r: seq<bv8>, s: seq<bv8>, d: nat)
    requires |r| == |s| == 16 && d <= 12
  {
    && r[d] == InvMixByte(s[d], s[d + 1], s[d + 2], s[d + 3]) &&
       r[d + 1] == InvMixByte(s[d + 1], s[d + 2], s[d + 3], s[d])
    && r[d + 2] == InvMixByte(s[d + 2], s[d + 3], s[d], s[d + 1]) &&
       r[d + 3] == InvMixByte(s[d + 3], s[d], s[d + 1], s[d + 2])
  }

  lemma MixedColumn(s: seq<bv8>, c: nat)
    requires |s| == 16 && c < 4
    ensures ColumnMixed(MixColumns(s), s, 4 * c) && ColumnUnmixed(InvMixColumns(s), s, 4 * c)
  {
    hide Below, MixByte, InvMixByte, MixColumns, InvMixColumns;
    ColumnIndices(c);
    MixedByte(s, 4 * c); MixedByte(s, 4 * c + 1); MixedByte(s, 4 * c + 2); MixedByte(s, 4 * c + 3);
  }

  // Column d..d+3 from the bytes a, b, c, e of the old state; r is the new state and t the old one,
  // substituted and shifted.
  method MixSubColumn(dt: array<bv8>, st: seq<bv8>, ghost r: seq<bv8>, ghost t: seq<bv8>, d: nat, a: nat, b: nat,
                      c: nat, e: nat)
    requires dt.Length == |st| == |r| == |t| == 16 && d <= 12 && a < 16 && b < 16 && c < 16 && e < 16 &&
             ColumnMixed(r, t, d)
    requires t[d] == SubByte(st[a]) && t[d + 1] == SubByte(st[b]) && t[d + 2] == SubByte(st[c]) &&
             t[d + 3] == SubByte(st[e])
    modifies dt
    ensures dt[d] == r[d] && dt[d + 1] == r[d + 1] && dt[d + 2] == r[d + 2] && dt[d + 3] == r[d + 3]
    ensures Unchanged(dt[..], old(dt[..]), d, d + 1, d + 2, d + 3)
  {
    hide SBox, SubByte, Gfm2Sb, Gfm3Sb, MixByte, Xor4;
    MixSubSums(st[a], st[b], st[c], st[e]);
    dt[d] := Xor4(Gfm2Sb(st[a]), Gfm3Sb(st[b]), SBox(st[c]), SBox(st[e]));
    dt[d + 1] := Xor4(SBox(st[a]), Gfm2Sb(st[b]), Gfm3Sb(st[c]), SBox(st[e]));
    dt[d + 2] := Xor4(SBox(st[a]), SBox(st[b]), Gfm2Sb(st[c]), Gfm3Sb(st[e]));
    dt[d + 3] := Xor4(Gfm3Sb(st[a]), SBox(st[b]), SBox(st[c]), Gfm2Sb(st[e]));
  }

  method MixSubColumns(dt: array<bv8>)
    requires dt.Length == 16
    modifies dt
    ensures dt[..] == MixColumns(ShiftSub(old(dt[..])))
  {
    hide SubByte, MixColumns, InvMixColumns, ShiftSub, ColumnMixed, ColumnUnmixed;
    var st := dt[..];
    ghost var t := ShiftSub(st);
    ghost var r := MixColumns(t);
    ShiftSubbed(st);
    MixedColumn(t, 0); MixedColumn(t, 1); MixedColumn(t, 2); MixedColumn(t, 3);
    MixSubColumn(dt, st, r, t, 0, 0, 5, 10, 15);
    MixSubColumn(dt, st, r, t, 4, 4, 9, 14, 3);
    MixSubColumn(dt, st, r, t, 8, 8, 13, 2, 7);
    MixSubColumn(dt, st, r, t, 12, 12, 1, 6, 11);
    SixteenSame(dt[..], r);
  }

  lemma InvMixByteIs(a: bv8, b: bv8, c: bv8, d: bv8)
    ensures InvMixByte(a, b, c, d) == Add4(FE(a), FB(b), FD(c), F9(d))
  {
    hide F9, FB, FD, FE, GfMul, Add4;
    TimesE(a);
    TimesB(b);
    TimesD(c);
    Times9(d);
  }

  lemma InvMixSums(u: bv8, v: bv8, w: bv8, z: bv8)
    ensures Xor4(FE(u), FB(v), FD(w), F9(z)) == InvMixByte(u, v, w, z)
    ensures Xor4(F9(u), FE(v), FB(w), FD(z)) == InvMixByte(v, w, z, u)
    ensures Xor4(FD(u), F9(v), FE(w), FB(z)) == InvMixByte(w, z, u, v)
    ensures Xor4(FB(u), FD(v), F9(w), FE(z)) == InvMixByte(z, u, v, w)
  {
    hide *;
    InvMixByteIs(u, v, w, z);
    InvMixByteIs(v, w, z, u);
    InvMixByteIs(w, z, u, v);
    InvMixByteIs(z, u, v, w);
    XorSum(FE(u), FB(v), FD(w), F9(z));
    XorSum(F9(u), FE(v), FB(w), FD(z));
    Add4Rotate(FE(v), FB(w), FD(z), F9(u));
    XorSum(FD(u), F9(v), FE(w), FB(z));
    Add4Rotate(FE(w), FB(z), FD(u), F9(v));
    Add4Rotate(F9(v), FE(w), FB(z), FD(u));
    XorSum(FB(u), FD(v), F9(w), FE(z));
    Add4Rotate(FB(u), FD(v), F9(w), FE(z));
  }

  // The bytes a, b, c, e of the new state from column d..d+3; r is st unmixed.
  method InvMixSubColumn(dt: array<bv8>, st: seq<bv8>, ghost r: seq<bv8>, d: nat, a: nat, b: nat, c: nat, e: nat)
    requires dt.Length == |st| == |r| == 16 && d <= 12 && a < 16 && b < 16 && c < 16 && e < 16 &&
             ColumnUnmixed(r, st, d)
    requires a != b && a != c && a != e && b != c && b != e && c != e
    modifies dt
    ensures dt[a] == ISBox(r[d]) && dt[b] == ISBox(r[d + 1]) && dt[c] == ISBox(r[d + 2]) && dt[e] == ISBox(r[d + 3])
    ensures Unchanged(dt[..], old(dt[..]), a, b, c, e)
  {
    hide ISBox, InvMixByte, F9, FB, FD, FE, Xor4;
    InvMixSums(st[d], st[d + 1], st[d + 2], st[d + 3]);
    dt[a] := ISBox(Xor4(FE(st[d]), FB(st[d + 1]), FD(st[d + 2]), F9(st[d + 3])));
    dt[b] := ISBox(Xor4(F9(st[d]), FE(st[d + 1]), FB(st[d + 2]), FD(st[d + 3])));
    dt[c] := ISBox(Xor4(FD(st[d]), F9(st[d + 1]), FE(st[d + 2]), FB(st[d + 3])));
    dt[e] := ISBox(Xor4(FB(st[d]), FD(st[d + 1]), F9(st[d + 2]), FE(st[d + 3])));
  }

  method InvMixSubColumns(dt: array<bv8>)
    requires dt.Length == 16
    modifies dt
    ensures dt[..] == UnShiftSub(InvMixColumns(old(dt[..])))
  {
    hide ISBox, InvMixColumns, MixColumns, UnShiftSub, ColumnMixed, ColumnUnmixed;
    var st := dt[..];
    ghost var r := InvMixColumns(st);
    MixedColumn(st, 0); MixedColumn(st, 1); MixedColumn(st, 2); MixedColumn(st, 3);
    InvMixSubColumn(dt, st, r, 0, 0, 5, 10, 15);
    InvMixSubColumn(dt, st, r, 4, 4, 9, 14, 3);
    InvMixSubColumn(dt, st, r, 8, 8, 13, 2, 7);
    InvMixSubColumn(dt, st, r, 12, 12, 1, 6, 11);
    UnShiftSubbed(r);
    SixteenSame(dt[..], UnShiftSub(r));
  }

  // ----- Blocks

  // One 32-bit word of xor_block.
  method XorWord(d: array<bv8>, s: seq<bv8>, i: nat)
    requires d.Length == |s| == 16 && i <= 12
    modifies d
    ensures d[i] == Add(old(d[i]), s[i]) && d[i + 1] == Add(old(d[i + 1]), s[i + 1])
    ensures d[i + 2] == Add(old(d[i + 2]), s[i + 2]) && d[i + 3] == Add(old(d[i + 3]), s[i + 3])
    ensures Unchanged(d[..], old(d[..]), i, i + 1, i + 2, i + 3)
  {
    hide Add;
    d[i] := Add(d[i], s[i]);
    d[i + 1] := Add(d[i + 1], s[i + 1]);
    d[i + 2] := Add(d[i + 2], s[i + 2]);
    d[i + 3] := Add(d[i + 3], s[i + 3]);
  }

  method XorBlock(d: array<bv8>, s: seq<bv8>)
    requires d.Length == |s| == 16
    modifies d
    ensures d[..] == AddRoundKey(old(d[..]), s)
  {
    hide Add;
    XorWord(d, s, 0);
    XorWord(d, s, 4);
    XorWord(d, s, 8);
    XorWord(d, s, 12);
    SixteenSame(d[..], AddRoundKey(old(d[..]), s));
  }

  method CopyAndKey(d: array<bv8>, s: seq<bv8>, k: seq<bv8>)
    requires d.Length == |s| == |k| == 16
    modifies d
    ensures d[..] == AddRoundKey(s, k)
  {
    hide Add;
    for i := 0 to 16
      invariant forall j :: 0 <= j < i ==> d[j] == Add(s[j], k[j])
    {
      d[i] := Add(s[i], k[i]);
    }
  }

  // ----- CBC mode (section 6.2 of NIST SP 800-38A)

  // Ciphertext block j, counted from 1; block 0 is the initialization vector.
  ghost function CbcBlock(key: seq<bv8>, iv: seq<bv8>, p: seq<bv8>, j: nat): (c: seq<bv8>)
    requires |key| == |iv| == 16 && 16 * j <= |p|
    ensures |c| == 16
  {
    if j == 0 then iv else Cipher(key, AddRoundKey(CbcBlock(key, iv, p, j - 1), p[16 * (j - 1)..16 * j]))
  }

  // The first n blocks.
  ghost function Cbc(key: seq<bv8>, iv: seq<bv8>, p: seq<bv8>, n: nat): (c: seq<bv8>)
    requires |key| == |iv| == 16 && 16 * n <= |p|
    ensures |c| == 16 * n
  {
    if n == 0 then [] else Cbc(key, iv, p, n - 1) + CbcBlock(key, iv, p, n)
  }

  // ----- The key schedule

  // The first n words of the expanded key.
  ghost function Schedule(key: seq<bv8>, n: nat): (ks: seq<bv8>)
    requires |key| == 16
    ensures |ks| == 4 * n
  {
    if n == 0 then [] else Schedule(key, n - 1) + KeyWord(key, n - 1)
  }

  lemma {:induction false} ScheduleWord(key: seq<bv8>, n: nat, w: nat)
    requires |key| == 16 && w < n
    ensures Schedule(key, n)[4 * w..4 * w + 4] == KeyWord(key, w)
  {
    hide KeyWord;
    if w < n - 1 {
      ScheduleWord(key, n - 1, w);
      assert Schedule(key, n)[4 * w..4 * w + 4] == Schedule(key, n - 1)[4 * w..4 * w + 4];
    }
  }

  lemma FourWords(ks: seq<bv8>, a: nat)
    requires a + 16 <= |ks|
    ensures ks[a..a + 16] == ks[a..a + 4] + ks[a + 4..a + 8] + ks[a + 8..a + 12] + ks[a + 12..a + 16]
  {}

  lemma ScheduleRound(key: seq<bv8>, r: nat)
    requires |key| == 16 && r < 11
    ensures Schedule(key, 44)[16 * r..16 * r + 16] == RoundKey(key, r)
  {
    hide KeyWord, Schedule;
    ScheduleWord(key, 44, 4 * r);
    ScheduleWord(key, 44, 4 * r + 1);
    ScheduleWord(key, 44, 4 * r + 2);
    ScheduleWord(key, 44, 4 * r + 3);
    FourWords(Schedule(key, 44), 16 * r);
  }

  lemma ScheduleStarts(key: seq<bv8>)
    requires |key| == 16
    ensures Schedule(key, 4) == key
  {
    assert Schedule(key, 1) == key[0..4];
    assert Schedule(key, 2) == key[0..8];
    assert Schedule(key, 3) == key[0..12];
  }

  // The constant for word i of the schedule, or for the next one that needs it.
  ghost function Rc(i: nat): bv8 { RconByte((i + 3) / 4) }

  lemma RcSteps(i: nat)
    requires i >= 4
    ensures i % 4 == 0 ==> Rc(i) == RconByte(i / 4) && Rc(i + 1) == F2(Rc(i))
    ensures i % 4 != 0 ==> Rc(i + 1) == Rc(i)
  {
    hide XTime, F2;
    Doubling(Rc(i));
  }

  // The word before word i as the source transforms it.
  ghost function Temp(i: nat, w: seq<bv8>): (t: seq<bv8>)
    requires |w| == 4
    ensures |t| == 4
  {
    if i % 4 == 0 then [Add(SBox(w[1]), Rc(i)), SBox(w[2]), SBox(w[3]), SBox(w[0])] else w
  }

  lemma NextKeyWord(key: seq<bv8>, i: nat)
    requires |key| == 16 && i >= 4
    ensures KeyWord(key, i) == AddRoundKey(KeyWord(key, i - 4), Temp(i, KeyWord(key, i - 1)))
  {
    hide SBox, SubByte, Add, RconByte;
    var w := KeyWord(key, i - 1);
    if i % 4 == 0 {
      RcSteps(i);
      SBoxIsSubByte(w[1]); SBoxIsSubByte(w[2]); SBoxIsSubByte(w[3]); SBoxIsSubByte(w[0]);
      AddLaws(SBox(w[2]), 0); AddLaws(SBox(w[3]), 0); AddLaws(SBox(w[0]), 0);
      assert AddRoundKey(SubBytes(RotWord(w)), [RconByte(i / 4), 0, 0, 0]) == Temp(i, w);
    }
  }

  // ----- The cipher object

  class Aes {
    var ksch: array<bv8>
    var rnd: nat
    ghost var key: seq<bv8>

    ghost predicate Valid()
      reads this, ksch
    {
      && ksch.Length == (N_MAX_ROUNDS + 1) * AES_BLOCK_SIZE
      && (rnd == 0 || rnd == 10)
      && (rnd == 10 ==> |key| == 16 && ksch[..176] == Schedule(key, 44))
    }

    // Unkeyed.
    constructor ()
      ensures Valid() && rnd == 0 && fresh(ksch)
    {
      ksch := new bv8[(N_MAX_ROUNDS + 1) * AES_BLOCK_SIZE](_ => 0);
      rnd := 0;
      key := [];
    }

    // A 16-byte key takes only the first branch of the source's schedule loop.
    method SetKey(newKey: seq<bv8>)
      requires Valid() && |newKey| == 16
      modifies this, ksch
      ensures Valid() && ksch == old(ksch) && rnd == 10 && key == newKey
    {
      hide Schedule, Rc;
      var keylen := 16;
      CopyKey(newKey);
      ScheduleStarts(newKey);
      key := newKey;
      var hi := 4 * (keylen + 28);
      rnd := hi / 16 - 1;
      var cc := keylen;
      var rc: bv8 := 1;
      RcStarts();
      while cc < hi
        invariant 16 <= cc <= hi == 176 && cc % 4 == 0
        invariant rnd == 10 && key == newKey && ksch == old(ksch) && ksch.Length == 240
        invariant rc == Rc(cc / 4) && ksch[..cc] == Schedule(key, cc / 4)
      {
        rc := NextWord(cc, rc);
        cc := cc + 4;
      }
    }

    method CopyKey(newKey: seq<bv8>)
      requires ksch.Length == 240 && |newKey| == 16
      modifies ksch
      ensures ksch[..16] == newKey
    {
      for i := 0 to 16
        invariant ksch[..i] == newKey[..i]
      {
        ksch[i] := newKey[i];
        assert ksch[..i + 1] == ksch[..i] + [newKey[i]];
      }
    }

    // One turn of the schedule loop.
    method NextWord(cc: nat, rc: bv8) returns (rc': bv8)
      requires ksch.Length == 240 && 16 <= cc < 176 && cc % 4 == 0 && |key| == 16
      requires rc == Rc(cc / 4) && ksch[..cc] == Schedule(key, cc / 4)
      modifies ksch
      ensures rc' == Rc(cc / 4 + 1) && ksch[..cc + 4] == Schedule(key, cc / 4 + 1)
    {
      hide *;
      rc' := rc;
      ghost var i, was := cc / 4, ksch[..cc];
      var t0, t1, t2, t3 := ksch[cc - 4], ksch[cc - 3], ksch[cc - 2], ksch[cc - 1];
      ScheduleWord(key, i, i - 1);
      ScheduleWord(key, i, i - 4);
      ghost var w := was[cc - 4..cc];
      assert ksch[cc - 16..cc - 12] == was[cc - 16..cc - 12];
      RcSteps(i);
      FourTimes(cc);
      if cc % 16 == 0 {
        var tt := t0;
        t0 := Add(SBox(t1), rc);
        t1 := SBox(t2);
        t2 := SBox(t3);
        t3 := SBox(tt);
        rc' := F2(rc);
      }
      TempIs(i, w);
      assert Temp(i, w) == [t0, t1, t2, t3];
      assert w == KeyWord(key, i - 1) && was[cc - 16..cc - 12] == KeyWord(key, i - 4);
      NextKeyWord(key, i);
      StoreWord(cc, [t0, t1, t2, t3]);
      ScheduleSnoc(key, i);
    }

    // One block; input and output may be the same array. False when there is no key.
    method Encrypt(input: array<bv8>, output: array<bv8>) returns (ok: bool)
      requires Valid() && input.Length == output.Length == AES_BLOCK_SIZE && output != ksch
      modifies output
      ensures Valid() && ok == (rnd != 0)
      ensures output[..] == if ok then Cipher(key, old(input[..])) else old(output[..])
    {
      hide Schedule, Rounds, RoundKey, MixColumns, ShiftSub, AddRoundKey;
      if rnd == 0 { return false; }
      var s1 := new bv8[AES_BLOCK_SIZE];
      ghost var block := input[..];
      ghost var ks := ksch[..176];
      ScheduleRound(key, 0);
      RoundsAre(key, block, 0);
      assert ksch[..16] == ks[0..16];
      CopyAndKey(s1, input[..], ksch[..16]);
      var r := 1;
      while r < rnd
        invariant 1 <= r <= rnd && s1[..] == Rounds(key, block, r - 1)
        invariant ksch[..176] == ks && input[..] == block && output[..] == old(output[..])
      {
        MixSubColumns(s1);
        assert ksch[16 * r..16 * r + 16] == ks[16 * r..16 * r + 16];
        ScheduleRound(key, r);
        XorBlock(s1, ksch[16 * r..16 * r + 16]);
        RoundsAre(key, block, r);
        r := r + 1;
      }
      ShiftSubRows(s1);
      assert ksch[16 * r..16 * r + 16] == ks[16 * r..16 * r + 16];
      ScheduleRound(key, r);
      CopyAndKey(output, s1[..], ksch[16 * r..16 * r + 16]);
      CipherIs(key, block);
      ok := true;
    }

    // CBC encryption of size bytes, in place if input and output are the same array; iv becomes the last
    // block of the result. Refused when size is not a multiple of 16, or for want of a key.
    method CbcEncrypt(input: array<bv8>, output: array<bv8>, size: nat, iv: array<bv8>) returns (ok: bool)
      requires Valid() && size <= input.Length && size <= output.Length && iv.Length == AES_BLOCK_SIZE
      requires output != ksch && iv != ksch && iv != input && iv != output
      modifies output, iv
      ensures Valid() && ok == (size % 16 == 0 && (rnd != 0 || size == 0))
      ensures ok && rnd != 0 ==>
              output[..size] == Cbc(key, old(iv[..]), old(input[..size]), size / 16) &&
              iv[..] == CbcBlock(key, old(iv[..]), old(input[..size]), size / 16)
      ensures !ok || rnd == 0 ==> output[..size] == old(output[..size])
      ensures output[size..] == old(output[size..])
    {
      hide Cbc, CbcBlock, Schedule;
      if size % 16 != 0 { return false; }
      ghost var iv0, p := iv[..], input[..size];
      var n := 0;
      if rnd != 0 { CbcStarts(key, iv0, p); }
      while n < size / 16
        invariant n <= size / 16 && Valid()
        invariant rnd == 0 ==> n == 0 && output[..size] == old(output[..size])
        invariant rnd != 0 ==> output[..16 * n] == Cbc(key, iv0, p, n) && iv[..] == CbcBlock(key, iv0, p, n)
        invariant input[16 * n..size] == p[16 * n..] && output[size..] == old(output[size..])
      {
        var done := NextBlock(input, output, size, n, iv, iv0, p);
        if !done { return false; }
        n := n + 1;
      }
      ok := true;
    }

    // One turn of the CBC loop.
    method NextBlock(input: array<bv8>, output: array<bv8>, size: nat, n: nat, iv: array<bv8>, ghost iv0: seq<bv8>,
                     ghost p: seq<bv8>)
      returns (done: bool)
      requires Valid() && size <= input.Length && size <= output.Length && iv.Length == AES_BLOCK_SIZE
      requires output != ksch && iv != ksch && iv != input && iv != output
      requires 16 * n + 16 <= size == |p| && |iv0| == 16 && input[16 * n..size] == p[16 * n..]
      requires rnd != 0 ==> output[..16 * n] == Cbc(key, iv0, p, n) && iv[..] == CbcBlock(key, iv0, p, n)
      modifies output, iv
      ensures Valid() && done == (rnd != 0)
      ensures !done ==> output[..] == old(output[..])
      ensures done ==> output[..16 * (n + 1)] == Cbc(key, iv0, p, n + 1) && iv[..] == CbcBlock(key, iv0, p, n + 1)
      ensures input[16 * (n + 1)..size] == p[16 * (n + 1)..] && output[size..] == old(output[size..])
    {
      hide Cbc, CbcBlock, Schedule, AddRoundKey, Cipher;
      ghost var block := p[16 * n..16 * n + 16];
      ghost var a, b := 16 * n, 16 * n + 16;
      NextSixteen(input[..], p, a, size);
      assert input[a..size] == input[..][a..size] && input[b..size] == input[..][b..size] &&
          input[a..b] == input[..][a..b];
      XorBlock(iv, input[16 * n..16 * n + 16]);
      done := Encrypt(iv, iv);
      if done {
        CbcNext(key, iv0, p, n);
        ghost var after := output[b..];
        CopyBlock(output, 16 * n, iv);
        assert output[..b] == output[..a] + output[a..b];
        assert output[b..size] == after[..size - b] && output[size..] == after[size - b..];
      }
    }

    // The word at cc from the one four words before.
    method StoreWord(cc: nat, t: seq<bv8>)
      requires ksch.Length == 240 && 16 <= cc < 176 && |t| == 4
      modifies ksch
      ensures ksch[..cc + 4] == old(ksch[..cc]) + AddRoundKey(old(ksch[cc - 16..cc - 12]), t)
    {
      hide Add;
      var tt := cc - 16;
      ksch[cc] := Add(ksch[tt], t[0]);
      ksch[cc + 1] := Add(ksch[tt + 1], t[1]);
      ksch[cc + 2] := Add(ksch[tt + 2], t[2]);
      ksch[cc + 3] := Add(ksch[tt + 3], t[3]);
    }
  }

  lemma FourTimes(cc: nat)
    requires cc % 4 == 0
    ensures cc == 4 * (cc / 4) && (cc % 16 == 0 <==> cc / 4 % 4 == 0)
  {}

  lemma RcStarts()
    ensures Rc(4) == 1
  {}

  lemma TempIs(i: nat, w: seq<bv8>)
    requires |w| == 4
    ensures Temp(i, w) == if i % 4 == 0 then [Add(SBox(w[1]), Rc(i)), SBox(w[2]), SBox(w[3]), SBox(w[0])] else w
  {
    hide SBox, Rc, Add;
  }

  lemma ScheduleSnoc(key: seq<bv8>, n: nat)
    requires |key| == 16
    ensures Schedule(key, n + 1) == Schedule(key, n) + KeyWord(key, n)
  {
    hide KeyWord;
  }

  lemma RoundsAre(key: seq<bv8>, block: seq<bv8>, r: nat)
    requires |key| == |block| == 16
    ensures Rounds(key, block, r) ==
            if r == 0 then AddRoundKey(block, RoundKey(key, 0))
            else AddRoundKey(MixColumns(ShiftSub(Rounds(key, block, r - 1))), RoundKey(key, r))
  {
    hide AddRoundKey, MixColumns, ShiftRows, SubBytes, RoundKey;
  }

  lemma CipherIs(key: seq<bv8>, block: seq<bv8>)
    requires |key| == |block| == 16
    ensures Cipher(key, block) == AddRoundKey(ShiftSub(Rounds(key, block, 9)), RoundKey(key, 10))
  {
    hide AddRoundKey, ShiftRows, SubBytes, RoundKey, Rounds;
  }

  lemma NextSixteen(s: seq<bv8>, p: seq<bv8>, a: nat, size: nat)
    requires a + 16 <= size == |p| <= |s| && s[a..size] == p[a..]
    ensures s[a..a + 16] == p[a..a + 16] && s[a + 16..size] == p[a + 16..]
  {
    var u, v := s[a..size], p[a..];
    assert forall i :: 0 <= i < |u| ==> u[i] == s[a + i];
    assert forall i :: 0 <= i < |v| ==> v[i] == p[a + i];
    assert u[..16] == s[a..a + 16];
    assert v[..16] == p[a..a + 16];
    assert u[16..] == s[a + 16..size];
    assert v[16..] == p[a + 16..];
  }

  lemma CbcStarts(key: seq<bv8>, iv: seq<bv8>, p: seq<bv8>)
    requires |key| == |iv| == 16
    ensures Cbc(key, iv, p, 0) == [] && CbcBlock(key, iv, p, 0) == iv
  {}

  lemma CbcNext(key: seq<bv8>, iv: seq<bv8>, p: seq<bv8>, n: nat)
    requires |key| == |iv| == 16 && 16 * n + 16 <= |p|
    ensures CbcBlock(key, iv, p, n + 1) == Cipher(key, AddRoundKey(CbcBlock(key, iv, p, n), p[16 * n..16 * n + 16]))
    ensures Cbc(key, iv, p, n + 1) == Cbc(key, iv, p, n) + CbcBlock(key, iv, p, n + 1)
  {
    hide Cipher, AddRoundKey;
  }

  method CopyBlock(d: array<bv8>, o: nat, s: array<bv8>)
    requires o + 16 <= d.Length && s.Length == 16 && s != d
    modifies d
    ensures d[..o] == old(d[..o]) && d[o..o + 16] == s[..] && d[o + 16..] == old(d[o + 16..])
  {
    for i := 0 to 16
      invariant d[..o] == old(d[..o]) && d[o + 16..] == old(d[o + 16..])
      invariant forall j :: 0 <= j < i ==> d[o + j] == s[j]
    {
      d[o + i] := s[i];
    }
  }
}
