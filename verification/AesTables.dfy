/** The tables of custom-aes.cpp, by value where the source lists values, by its macros where it computes
    them. */
module AesTables {
  import opened GaloisField

  // Entry n of a row of sixteen.
  function Pick16(n: bv8, c0: bv8, c1: bv8, c2: bv8, c3: bv8, c4: bv8, c5: bv8, c6: bv8, c7: bv8,
                  c8: bv8, c9: bv8, cA: bv8, cB: bv8, cC: bv8, cD: bv8, cE: bv8, cF: bv8): bv8 {
    if n & 8 == 0 then
      if n & 4 == 0 then
        if n & 2 == 0 then (if n & 1 == 0 then c0 else c1) else (if n & 1 == 0 then c2 else c3)
      else
        if n & 2 == 0 then (if n & 1 == 0 then c4 else c5) else (if n & 1 == 0 then c6 else c7)
    else
      if n & 4 == 0 then
        if n & 2 == 0 then (if n & 1 == 0 then c8 else c9) else (if n & 1 == 0 then cA else cB)
      else
        if n & 2 == 0 then (if n & 1 == 0 then cC else cD) else (if n & 1 == 0 then cE else cF)
  }

  // Row r of sb_data, and the whole table.
  function SRow0(n: bv8): bv8 {
    Pick16(n, 0x63, 0x7C, 0x77, 0x7B, 0xF2, 0x6B, 0x6F, 0xC5, 0x30, 0x01, 0x67, 0x2B, 0xFE, 0xD7, 0xAB, 0x76)
  }
  function SRow1(n: bv8): bv8 {
    Pick16(n, 0xCA, 0x82, 0xC9, 0x7D, 0xFA, 0x59, 0x47, 0xF0, 0xAD, 0xD4, 0xA2, 0xAF, 0x9C, 0xA4, 0x72, 0xC0)
  }
  function SRow2(n: bv8): bv8 {
    Pick16(n, 0xB7, 0xFD, 0x93, 0x26, 0x36, 0x3F, 0xF7, 0xCC, 0x34, 0xA5, 0xE5, 0xF1, 0x71, 0xD8, 0x31, 0x15)
  }
  function SRow3(n: bv8): bv8 {
    Pick16(n, 0x04, 0xC7, 0x23, 0xC3, 0x18, 0x96, 0x05, 0x9A, 0x07, 0x12, 0x80, 0xE2, 0xEB, 0x27, 0xB2, 0x75)
  }
  function SRow4(n: bv8): bv8 {
    Pick16(n, 0x09, 0x83, 0x2C, 0x1A, 0x1B, 0x6E, 0x5A, 0xA0, 0x52, 0x3B, 0xD6, 0xB3, 0x29, 0xE3, 0x2F, 0x84)
  }
  function SRow5(n: bv8): bv8 {
    Pick16(n, 0x53, 0xD1, 0x00, 0xED, 0x20, 0xFC, 0xB1, 0x5B, 0x6A, 0xCB, 0xBE, 0x39, 0x4A, 0x4C, 0x58, 0xCF)
  }
  function SRow6(n: bv8): bv8 {
    Pick16(n, 0xD0, 0xEF, 0xAA, 0xFB, 0x43, 0x4D, 0x33, 0x85, 0x45, 0xF9, 0x02, 0x7F, 0x50, 0x3C, 0x9F, 0xA8)
  }
  function SRow7(n: bv8): bv8 {
    Pick16(n, 0x51, 0xA3, 0x40, 0x8F, 0x92, 0x9D, 0x38, 0xF5, 0xBC, 0xB6, 0xDA, 0x21, 0x10, 0xFF, 0xF3, 0xD2)
  }
  function SRow8(n: bv8): bv8 {
    Pick16(n, 0xCD, 0x0C, 0x13, 0xEC, 0x5F, 0x97, 0x44, 0x17, 0xC4, 0xA7, 0x7E, 0x3D, 0x64, 0x5D, 0x19, 0x73)
  }
  function SRow9(n: bv8): bv8 {
    Pick16(n, 0x60, 0x81, 0x4F, 0xDC, 0x22, 0x2A, 0x90, 0x88, 0x46, 0xEE, 0xB8, 0x14, 0xDE, 0x5E, 0x0B, 0xDB)
  }
  function SRowA(n: bv8): bv8 {
    Pick16(n, 0xE0, 0x32, 0x3A, 0x0A, 0x49, 0x06, 0x24, 0x5C, 0xC2, 0xD3, 0xAC, 0x62, 0x91, 0x95, 0xE4, 0x79)
  }
  function SRowB(n: bv8): bv8 {
    Pick16(n, 0xE7, 0xC8, 0x37, 0x6D, 0x8D, 0xD5, 0x4E, 0xA9, 0x6C, 0x56, 0xF4, 0xEA, 0x65, 0x7A, 0xAE, 0x08)
  }
  function SRowC(n: bv8): bv8 {
    Pick16(n, 0xBA, 0x78, 0x25, 0x2E, 0x1C, 0xA6, 0xB4, 0xC6, 0xE8, 0xDD, 0x74, 0x1F, 0x4B, 0xBD, 0x8B, 0x8A)
  }
  function SRowD(n: bv8): bv8 {
    Pick16(n, 0x70, 0x3E, 0xB5, 0x66, 0x48, 0x03, 0xF6, 0x0E, 0x61, 0x35, 0x57, 0xB9, 0x86, 0xC1, 0x1D, 0x9E)
  }
  function SRowE(n: bv8): bv8 {
    Pick16(n, 0xE1, 0xF8, 0x98, 0x11, 0x69, 0xD9, 0x8E, 0x94, 0x9B, 0x1E, 0x87, 0xE9, 0xCE, 0x55, 0x28, 0xDF)
  }
  function SRowF(n: bv8): bv8 {
    Pick16(n, 0x8C, 0xA1, 0x89, 0x0D, 0xBF, 0xE6, 0x42, 0x68, 0x41, 0x99, 0x2D, 0x0F, 0xB0, 0x54, 0xBB, 0x16)
  }

  function SBox(x: bv8): bv8 {
    var n := x & 0x0F;
    match x & 0xF0
    case 0x00 => SRow0(n)
    case 0x10 => SRow1(n)
    case 0x20 => SRow2(n)
    case 0x30 => SRow3(n)
    case 0x40 => SRow4(n)
    case 0x50 => SRow5(n)
    case 0x60 => SRow6(n)
    case 0x70 => SRow7(n)
    case 0x80 => SRow8(n)
    case 0x90 => SRow9(n)
    case 0xA0 => SRowA(n)
    case 0xB0 => SRowB(n)
    case 0xC0 => SRowC(n)
    case 0xD0 => SRowD(n)
    case 0xE0 => SRowE(n)
    case _ => SRowF(n)
  }

  function ISBox(x: bv8): bv8 {
    Pick16(x >> 4,
      Pick16(x & 0x0F, 0x52, 0x09, 0x6A, 0xD5, 0x30, 0x36, 0xA5, 0x38, 0xBF, 0x40, 0xA3, 0x9E, 0x81, 0xF3, 0xD7, 0xFB),
      Pick16(x & 0x0F, 0x7C, 0xE3, 0x39, 0x82, 0x9B, 0x2F, 0xFF, 0x87, 0x34, 0x8E, 0x43, 0x44, 0xC4, 0xDE, 0xE9, 0xCB),
      Pick16(x & 0x0F, 0x54, 0x7B, 0x94, 0x32, 0xA6, 0xC2, 0x23, 0x3D, 0xEE, 0x4C, 0x95, 0x0B, 0x42, 0xFA, 0xC3, 0x4E),
      Pick16(x & 0x0F, 0x08, 0x2E, 0xA1, 0x66, 0x28, 0xD9, 0x24, 0xB2, 0x76, 0x5B, 0xA2, 0x49, 0x6D, 0x8B, 0xD1, 0x25),
      Pick16(x & 0x0F, 0x72, 0xF8, 0xF6, 0x64, 0x86, 0x68, 0x98, 0x16, 0xD4, 0xA4, 0x5C, 0xCC, 0x5D, 0x65, 0xB6, 0x92),
      Pick16(x & 0x0F, 0x6C, 0x70, 0x48, 0x50, 0xFD, 0xED, 0xB9, 0xDA, 0x5E, 0x15, 0x46, 0x57, 0xA7, 0x8D, 0x9D, 0x84),
      Pick16(x & 0x0F, 0x90, 0xD8, 0xAB, 0x00, 0x8C, 0xBC, 0xD3, 0x0A, 0xF7, 0xE4, 0x58, 0x05, 0xB8, 0xB3, 0x45, 0x06),
      Pick16(x & 0x0F, 0xD0, 0x2C, 0x1E, 0x8F, 0xCA, 0x3F, 0x0F, 0x02, 0xC1, 0xAF, 0xBD, 0x03, 0x01, 0x13, 0x8A, 0x6B),
      Pick16(x & 0x0F, 0x3A, 0x91, 0x11, 0x41, 0x4F, 0x67, 0xDC, 0xEA, 0x97, 0xF2, 0xCF, 0xCE, 0xF0, 0xB4, 0xE6, 0x73),
      Pick16(x & 0x0F, 0x96, 0xAC, 0x74, 0x22, 0xE7, 0xAD, 0x35, 0x85, 0xE2, 0xF9, 0x37, 0xE8, 0x1C, 0x75, 0xDF, 0x6E),
      Pick16(x & 0x0F, 0x47, 0xF1, 0x1A, 0x71, 0x1D, 0x29, 0xC5, 0x89, 0x6F, 0xB7, 0x62, 0x0E, 0xAA, 0x18, 0xBE, 0x1B),
      Pick16(x & 0x0F, 0xFC, 0x56, 0x3E, 0x4B, 0xC6, 0xD2, 0x79, 0x20, 0x9A, 0xDB, 0xC0, 0xFE, 0x78, 0xCD, 0x5A, 0xF4),
      Pick16(x & 0x0F, 0x1F, 0xDD, 0xA8, 0x33, 0x88, 0x07, 0xC7, 0x31, 0xB1, 0x12, 0x10, 0x59, 0x27, 0x80, 0xEC, 0x5F),
      Pick16(x & 0x0F, 0x60, 0x51, 0x7F, 0xA9, 0x19, 0xB5, 0x4A, 0x0D, 0x2D, 0xE5, 0x7A, 0x9F, 0x93, 0xC9, 0x9C, 0xEF),
      Pick16(x & 0x0F, 0xA0, 0xE0, 0x3B, 0x4D, 0xAE, 0x2A, 0xF5, 0xB0, 0xC8, 0xEB, 0xBB, 0x3C, 0x83, 0x53, 0x99, 0x61),
      Pick16(x & 0x0F, 0x17, 0x2B, 0x04, 0x7E, 0xBA, 0x77, 0xD6, 0x26, 0xE1, 0x69, 0x14, 0x63, 0x55, 0x21, 0x0C, 0x7D))
  }

  // ----- The macros, computed in int and stored in a byte

  function Byte(w: bv16): bv8 { (w & 0xFF) as bv8 }

  function F2(x: bv8): bv8 {
    var w := x as bv16;
    Byte((w << 1) ^ (((w >> 7) & 1) * 0x011B))
  }

  function F4(x: bv8): bv8 {
    var w := x as bv16;
    Byte((w << 2) ^ (((w >> 6) & 1) * 0x011B) ^ (((w >> 6) & 2) * 0x011B))
  }

  function F8(x: bv8): bv8 {
    var w := x as bv16;
    Byte((w << 3) ^ (((w >> 5) & 1) * 0x011B) ^ (((w >> 5) & 2) * 0x011B) ^ (((w >> 5) & 4) * 0x011B))
  }

  function F3(x: bv8): bv8 { F2(x) ^ x }
  function F9(x: bv8): bv8 { F8(x) ^ x }
  function FB(x: bv8): bv8 { F8(x) ^ F2(x) ^ x }
  function FD(x: bv8): bv8 { F8(x) ^ F4(x) ^ x }
  function FE(x: bv8): bv8 { F8(x) ^ F4(x) ^ F2(x) }

  lemma Doubling(x: bv8)
    ensures F2(x) == XTime(x)
    ensures F4(x) == XTime(XTime(x))
    ensures F8(x) == XTime(XTime(XTime(x)))
  {}

  lemma MacrosMultiply(x: bv8)
    ensures F2(x) == GfMul(0x02, x) && F3(x) == GfMul(0x03, x)
  {}

  lemma Times9(x: bv8)
    ensures F9(x) == GfMul(0x09, x)
  {}

  lemma TimesB(x: bv8)
    ensures FB(x) == GfMul(0x0B, x)
  {}

  lemma TimesD(x: bv8)
    ensures FD(x) == GfMul(0x0D, x)
  {}

  lemma TimesE(x: bv8)
    ensures FE(x) == GfMul(0x0E, x)
  {}

  lemma SBoxRow(x: bv8)
    ensures x & 0xF0 == 0x00 ==> SBox(x) == SRow0(x & 0x0F)
    ensures x & 0xF0 == 0x10 ==> SBox(x) == SRow1(x & 0x0F)
    ensures x & 0xF0 == 0x20 ==> SBox(x) == SRow2(x & 0x0F)
    ensures x & 0xF0 == 0x30 ==> SBox(x) == SRow3(x & 0x0F)
    ensures x & 0xF0 == 0x40 ==> SBox(x) == SRow4(x & 0x0F)
    ensures x & 0xF0 == 0x50 ==> SBox(x) == SRow5(x & 0x0F)
    ensures x & 0xF0 == 0x60 ==> SBox(x) == SRow6(x & 0x0F)
    ensures x & 0xF0 == 0x70 ==> SBox(x) == SRow7(x & 0x0F)
    ensures x & 0xF0 == 0x80 ==> SBox(x) == SRow8(x & 0x0F)
    ensures x & 0xF0 == 0x90 ==> SBox(x) == SRow9(x & 0x0F)
    ensures x & 0xF0 == 0xA0 ==> SBox(x) == SRowA(x & 0x0F)
    ensures x & 0xF0 == 0xB0 ==> SBox(x) == SRowB(x & 0x0F)
    ensures x & 0xF0 == 0xC0 ==> SBox(x) == SRowC(x & 0x0F)
    ensures x & 0xF0 == 0xD0 ==> SBox(x) == SRowD(x & 0x0F)
    ensures x & 0xF0 == 0xE0 ==> SBox(x) == SRowE(x & 0x0F)
    ensures x & 0xF0 == 0xF0 ==> SBox(x) == SRowF(x & 0x0F)
  {
    hide SRow0, SRow1, SRow2, SRow3, SRow4, SRow5, SRow6, SRow7, SRow8, SRow9, SRowA, SRowB, SRowC, SRowD, SRowE, SRowF;
  }

  lemma Rows(x: bv8)
    ensures x & 0xF0 == 0x00 || x & 0xF0 == 0x10 || x & 0xF0 == 0x20 || x & 0xF0 == 0x30 || x & 0xF0 == 0x40 ||
            x & 0xF0 == 0x50 || x & 0xF0 == 0x60 || x & 0xF0 == 0x70
            || x & 0xF0 == 0x80 || x & 0xF0 == 0x90 || x & 0xF0 == 0xA0 || x & 0xF0 == 0xB0 || x & 0xF0 == 0xC0 ||
                x & 0xF0 == 0xD0 || x & 0xF0 == 0xE0 || x & 0xF0 == 0xF0
  {}

  // Every entry of the table is mapped by UnAffine to the inverse of its index; row by row.
  lemma RowInverts0(x: bv8)
    requires x & 0xF0 == 0x00 && x != 0
    ensures GfMul(x, UnAffine(SRow0(x & 0x0F))) == 1
  {}

  lemma RowInverts1(x: bv8)
    requires x & 0xF0 == 0x10
    ensures GfMul(x, UnAffine(SRow1(x & 0x0F))) == 1
  {}

  lemma RowInverts2(x: bv8)
    requires x & 0xF0 == 0x20
    ensures GfMul(x, UnAffine(SRow2(x & 0x0F))) == 1
  {}

  lemma RowInverts3(x: bv8)
    requires x & 0xF0 == 0x30
    ensures GfMul(x, UnAffine(SRow3(x & 0x0F))) == 1
  {}

  lemma RowInverts4(x: bv8)
    requires x & 0xF0 == 0x40
    ensures GfMul(x, UnAffine(SRow4(x & 0x0F))) == 1
  {}

  lemma RowInverts5(x: bv8)
    requires x & 0xF0 == 0x50
    ensures GfMul(x, UnAffine(SRow5(x & 0x0F))) == 1
  {}

  lemma RowInverts6(x: bv8)
    requires x & 0xF0 == 0x60
    ensures GfMul(x, UnAffine(SRow6(x & 0x0F))) == 1
  {}

  lemma RowInverts7(x: bv8)
    requires x & 0xF0 == 0x70
    ensures GfMul(x, UnAffine(SRow7(x & 0x0F))) == 1
  {}

  lemma RowInverts8(x: bv8)
    requires x & 0xF0 == 0x80
    ensures GfMul(x, UnAffine(SRow8(x & 0x0F))) == 1
  {}

  lemma RowInverts9(x: bv8)
    requires x & 0xF0 == 0x90
    ensures GfMul(x, UnAffine(SRow9(x & 0x0F))) == 1
  {}

  lemma RowInvertsA(x: bv8)
    requires x & 0xF0 == 0xA0
    ensures GfMul(x, UnAffine(SRowA(x & 0x0F))) == 1
  {}

  lemma RowInvertsB(x: bv8)
    requires x & 0xF0 == 0xB0
    ensures GfMul(x, UnAffine(SRowB(x & 0x0F))) == 1
  {}

  lemma RowInvertsC(x: bv8)
    requires x & 0xF0 == 0xC0
    ensures GfMul(x, UnAffine(SRowC(x & 0x0F))) == 1
  {}

  lemma RowInvertsD(x: bv8)
    requires x & 0xF0 == 0xD0
    ensures GfMul(x, UnAffine(SRowD(x & 0x0F))) == 1
  {}

  lemma RowInvertsE(x: bv8)
    requires x & 0xF0 == 0xE0
    ensures GfMul(x, UnAffine(SRowE(x & 0x0F))) == 1
  {}

  lemma RowInvertsF(x: bv8)
    requires x & 0xF0 == 0xF0
    ensures GfMul(x, UnAffine(SRowF(x & 0x0F))) == 1
  {}

  lemma SBoxZero()
    ensures UnAffine(SBox(0)) == 0
  {}

  lemma InverseIs(x: bv8, i: bv8)
    ensures IsInverse(x, i) <==> if x == 0 then i == 0 else GfMul(x, i) == 1
  {
    hide GfMul;
  }

  // Every table entry is the affine image of the inverse of its index (section 5.1.1 of FIPS 197).
  lemma SBoxIsAffineInverse(x: bv8)
    ensures IsInverse(x, UnAffine(SBox(x))) && Affine(UnAffine(SBox(x))) == SBox(x)
    ensures forall i :: IsInverse(x, i) ==> SBox(x) == Affine(i)
  {
    hide *;
    InverseIs(x, UnAffine(SBox(x)));
    SBoxZero();
    if x != 0 {
      Rows(x);
      SBoxRow(x);
      if x & 0xF0 == 0x00 { RowInverts0(x); }
      if x & 0xF0 == 0x10 { RowInverts1(x); }
      if x & 0xF0 == 0x20 { RowInverts2(x); }
      if x & 0xF0 == 0x30 { RowInverts3(x); }
      if x & 0xF0 == 0x40 { RowInverts4(x); }
      if x & 0xF0 == 0x50 { RowInverts5(x); }
      if x & 0xF0 == 0x60 { RowInverts6(x); }
      if x & 0xF0 == 0x70 { RowInverts7(x); }
      if x & 0xF0 == 0x80 { RowInverts8(x); }
      if x & 0xF0 == 0x90 { RowInverts9(x); }
      if x & 0xF0 == 0xA0 { RowInvertsA(x); }
      if x & 0xF0 == 0xB0 { RowInvertsB(x); }
      if x & 0xF0 == 0xC0 { RowInvertsC(x); }
      if x & 0xF0 == 0xD0 { RowInvertsD(x); }
      if x & 0xF0 == 0xE0 { RowInvertsE(x); }
      if x & 0xF0 == 0xF0 { RowInvertsF(x); }
    }
    AffineTwice(SBox(x));
    forall i | IsInverse(x, i) ensures SBox(x) == Affine(i) {
      InverseUnique(x, i, UnAffine(SBox(x)));
    }
  }

  lemma AffineTwice(s: bv8)
    ensures Affine(UnAffine(s)) == s
  {
    AffineInverse(s);
  }

  lemma ISBoxUndoes0(x: bv8)
    requires x & 0xC0 == 0x00
    ensures ISBox(SBox(x)) == x
  {
    hide SBox;
    SBoxRow(x);
    Rows(x);
  }

  lemma ISBoxUndoes1(x: bv8)
    requires x & 0xC0 == 0x40
    ensures ISBox(SBox(x)) == x
  {
    hide SBox;
    SBoxRow(x);
    Rows(x);
  }

  lemma ISBoxUndoes2(x: bv8)
    requires x & 0xC0 == 0x80
    ensures ISBox(SBox(x)) == x
  {
    hide SBox;
    SBoxRow(x);
    Rows(x);
  }

  lemma ISBoxUndoes3(x: bv8)
    requires x & 0xC0 == 0xC0
    ensures ISBox(SBox(x)) == x
  {
    hide SBox;
    SBoxRow(x);
    Rows(x);
  }

  lemma Quarters(x: bv8)
    ensures x & 0xC0 == 0x00 || x & 0xC0 == 0x40 || x & 0xC0 == 0x80 || x & 0xC0 == 0xC0
  {}

  // The second table undoes the first.
  lemma ISBoxUndoesSBox(x: bv8)
    ensures ISBox(SBox(x)) == x
  {
    hide SBox, ISBox;
    Quarters(x);
    if x & 0xC0 == 0x00 { ISBoxUndoes0(x); }
    if x & 0xC0 == 0x40 { ISBoxUndoes1(x); }
    if x & 0xC0 == 0x80 { ISBoxUndoes2(x); }
    if x & 0xC0 == 0xC0 { ISBoxUndoes3(x); }
  }
}
