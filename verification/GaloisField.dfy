/** Bytes as elements of GF(2^8): section 4 of FIPS 197, Advanced Encryption Standard. */
module GaloisField {

  // ----- Section 4.2: multiplication modulo x^8 + x^4 + x^3 + x + 1

  function XTime(b: bv8): bv8 {
    if b & 0x80 == 0 then b << 1 else (b << 1) ^ 0x1B
  }

  function Term(present: bool, value: bv8): bv8 { if present then value else 0 }

  // Section 4.1: addition.
  function Add(a: bv8, b: bv8): bv8 { a ^ b }

  function Add4(a: bv8, b: bv8, c: bv8, d: bv8): bv8 { Add(Add(a, b), Add(c, d)) }

  // The sum of the b * x^i with p_i set.
  function Combine(p0: bool, p1: bool, p2: bool, p3: bool, p4: bool, p5: bool, p6: bool, p7: bool, b: bv8): bv8 {
    var b1 := XTime(b);
    var b2 := XTime(b1);
    var b3 := XTime(b2);
    var b4 := XTime(b3);
    var b5 := XTime(b4);
    var b6 := XTime(b5);
    var b7 := XTime(b6);
    Add(Add4(Term(p0, b), Term(p1, b1), Term(p2, b2), Term(p3, b3)),
        Add4(Term(p4, b4), Term(p5, b5), Term(p6, b6), Term(p7, b7)))
  }

  function GfMul(a: bv8, b: bv8): bv8 {
    Combine(a & 0x01 != 0, a & 0x02 != 0, a & 0x04 != 0, a & 0x08 != 0,
            a & 0x10 != 0, a & 0x20 != 0, a & 0x40 != 0, a & 0x80 != 0, b)
  }

  ghost predicate IsInverse(x: bv8, i: bv8) {
    if x == 0 then i == 0 else GfMul(x, i) == 1
  }

  // ----- Section 5.1.1: the affine half of the S-box and its inverse

  // b_i + b_(i+4) + b_(i+5) + b_(i+6) + b_(i+7) + c_i, indices modulo 8.
  function Affine(b: bv8): bv8 {
    b ^ b.RotateLeft(1) ^ b.RotateLeft(2) ^ b.RotateLeft(3) ^ b.RotateLeft(4) ^ 0x63
  }

  function UnAffine(s: bv8): bv8 {
    s.RotateLeft(1) ^ s.RotateLeft(3) ^ s.RotateLeft(6) ^ 0x05
  }

  lemma AffineInverse(b: bv8)
    ensures UnAffine(Affine(b)) == b && Affine(UnAffine(b)) == b
  {}

  // ----- Linearity

  lemma AddLaws(a: bv8, b: bv8)
    ensures Add(a, a) == 0 && Add(a, 0) == a && Add(0, a) == a && Add(a, b) == Add(b, a)
    ensures Add(a, b) == 0 <==> a == b
  {}

  lemma AddAssoc(a: bv8, b: bv8, c: bv8)
    ensures Add(Add(a, b), c) == Add(a, Add(b, c))
  {}

  lemma AddExchange(a: bv8, b: bv8, c: bv8, d: bv8)
    ensures Add(Add(a, b), Add(c, d)) == Add(Add(a, c), Add(b, d))
  {
    hide Add;
    AddAssoc(a, b, Add(c, d));
    AddAssoc(b, c, d);
    AddLaws(b, c);
    AddAssoc(c, b, d);
    AddAssoc(a, c, Add(b, d));
  }

  lemma Add4Add(a: bv8, b: bv8, c: bv8, d: bv8, a': bv8, b': bv8, c': bv8, d': bv8)
    ensures Add4(Add(a, a'), Add(b, b'), Add(c, c'), Add(d, d')) == Add(Add4(a, b, c, d), Add4(a', b', c', d'))
  {
    hide Add;
    AddExchange(a, a', b, b');
    AddExchange(c, c', d, d');
    AddExchange(Add(a, b), Add(a', b'), Add(c, d), Add(c', d'));
  }

  lemma TopBit(a: bv8, b: bv8)
    ensures (a ^ b) & 0x80 == 0 <==> (a & 0x80 == 0 <==> b & 0x80 == 0)
    ensures (a ^ b) << 1 == (a << 1) ^ (b << 1)
  {}

  lemma XorLaws(u: bv8, v: bv8, c: bv8)
    ensures (u ^ v) ^ c == (u ^ c) ^ v && (u ^ v) ^ c == u ^ (v ^ c) && (u ^ c) ^ (v ^ c) == u ^ v
  {}

  lemma XTimeAdd(a: bv8, b: bv8)
    ensures XTime(Add(a, b)) == Add(XTime(a), XTime(b))
  {
    TopBit(a, b);
    XorLaws(a << 1, b << 1, 0x1B);
  }

  lemma TermAdd(p: bool, a: bv8, b: bv8)
    ensures Term(p, Add(a, b)) == Add(Term(p, a), Term(p, b))
  {}

  lemma CombineAdd(p0: bool, p1: bool, p2: bool, p3: bool, p4: bool, p5: bool, p6: bool, p7: bool, a: bv8, b: bv8)
    ensures Combine(p0, p1, p2, p3, p4, p5, p6, p7, Add(a, b)) ==
            Add(Combine(p0, p1, p2, p3, p4, p5, p6, p7, a), Combine(p0, p1, p2, p3, p4, p5, p6, p7, b))
  {
    hide XTime, Term, Add, Add4;
    var a1, b1 := XTime(a), XTime(b);
    var a2, b2 := XTime(a1), XTime(b1);
    var a3, b3 := XTime(a2), XTime(b2);
    var a4, b4 := XTime(a3), XTime(b3);
    var a5, b5 := XTime(a4), XTime(b4);
    var a6, b6 := XTime(a5), XTime(b5);
    var a7, b7 := XTime(a6), XTime(b6);
    XTimeAdd(a, b); XTimeAdd(a1, b1); XTimeAdd(a2, b2); XTimeAdd(a3, b3);
    XTimeAdd(a4, b4); XTimeAdd(a5, b5); XTimeAdd(a6, b6);
    TermAdd(p0, a, b); TermAdd(p1, a1, b1); TermAdd(p2, a2, b2); TermAdd(p3, a3, b3);
    TermAdd(p4, a4, b4); TermAdd(p5, a5, b5); TermAdd(p6, a6, b6); TermAdd(p7, a7, b7);
    Add4Add(Term(p0, a), Term(p1, a1), Term(p2, a2), Term(p3, a3), Term(p0, b), Term(p1, b1), Term(p2, b2),
        Term(p3, b3));
    Add4Add(Term(p4, a4), Term(p5, a5), Term(p6, a6), Term(p7, a7), Term(p4, b4), Term(p5, b5), Term(p6, b6),
        Term(p7, b7));
    AddExchange(Add4(Term(p0, a), Term(p1, a1), Term(p2, a2), Term(p3, a3)),
                Add4(Term(p0, b), Term(p1, b1), Term(p2, b2), Term(p3, b3)),
                Add4(Term(p4, a4), Term(p5, a5), Term(p6, a6), Term(p7, a7)),
                Add4(Term(p4, b4), Term(p5, b5), Term(p6, b6), Term(p7, b7)));
  }

  // Multiplication by a fixed byte is linear.
  lemma GfMulAdd(x: bv8, a: bv8, b: bv8)
    ensures GfMul(x, Add(a, b)) == Add(GfMul(x, a), GfMul(x, b))
  {
    hide Combine, Add;
    CombineAdd(x & 0x01 != 0, x & 0x02 != 0, x & 0x04 != 0, x & 0x08 != 0,
               x & 0x10 != 0, x & 0x20 != 0, x & 0x40 != 0, x & 0x80 != 0, a, b);
  }

  lemma NoZeroDivisorsLow(x: bv8, d: bv8)
    requires x != 0 && x & 0x80 == 0 && GfMul(x, d) == 0
    ensures d == 0
  {}

  lemma NoZeroDivisorsHigh(x: bv8, d: bv8)
    requires x & 0x80 != 0 && GfMul(x, d) == 0
    ensures d == 0
  {}

  lemma NoZeroDivisors(x: bv8, d: bv8)
    requires x != 0 && GfMul(x, d) == 0
    ensures d == 0
  {
    hide GfMul;
    if x & 0x80 == 0 { NoZeroDivisorsLow(x, d); } else { NoZeroDivisorsHigh(x, d); }
  }

  // There is at most one inverse.
  lemma InverseUnique(x: bv8, i: bv8, k: bv8)
    requires IsInverse(x, i) && IsInverse(x, k)
    ensures i == k
  {
    hide GfMul, Add;
    GfMulAdd(x, i, k);
    AddLaws(1, 1);
    AddLaws(i, k);
    if x != 0 { NoZeroDivisors(x, Add(i, k)); }
  }
}
