/** Bytes as numbers from 0 to 255: arithmetic modulo 256, and the fields of a byte. */
module ByteNumbers {

  lemma Sum(a: bv8, b: bv8)
    ensures (a + b) as int == (a as int + b as int) % 256
  {
    var wide := a as bv9 + b as bv9;
    NoOverflow(a, b);
    LowByte(wide);
    assert (a + b) as bv9 == wide & 0xFF;
    Widened(a + b);
  }

  lemma NoOverflow(a: bv8, b: bv8)
    ensures (a as bv9 + b as bv9) as int == a as int + b as int
  {}

  lemma LowByte(x: bv9)
    ensures (x & 0xFF) as int == x as int % 256
  {}

  lemma Widened(b: bv8)
    ensures (b as bv9) as int == b as int
  {}

  lemma Complement(b: bv8)
    ensures (!b) as int == 255 - b as int
  {}

  lemma {:induction false} Cast(n: nat)
    requires n < 256
    ensures (n as bv8) as int == n
  {
    if n > 0 {
      Cast(n - 1);
      Successor((n - 1) as bv8);
    }
  }

  lemma Successor(b: bv8)
    ensures b < 255 ==> (b + 1) as int == b as int + 1
  {}
}
