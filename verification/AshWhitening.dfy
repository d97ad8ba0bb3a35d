/** The whitening sequence: division by X in the field of 256 elements, from 0x42 through all 255 values other
    than zero before it repeats. */
module AshWhitening {
  import opened AshFraming

  // ----- One step

  // Multiplication by X modulo X^8 + X^6 + X^5 + X^4 + 1, bit k of a byte belonging to X^k.
  function TimesX(x: bv8): bv8 { if x & 0x80 != 0 then (x << 1) ^ 0x71 else x << 1 }

  // One step of the register divides by X.
  lemma StepDivides(x: bv8)
    ensures TimesX(LfsrNext(x)) == x && LfsrNext(TimesX(x)) == x
  {}

  function Steps(x: bv8, n: nat): bv8 { if n == 0 then x else LfsrNext(Steps(x, n - 1)) }

  lemma {:induction false} StepsAdd(x: bv8, m: nat, n: nat)
    ensures Steps(x, m + n) == Steps(Steps(x, m), n)
  {
    hide LfsrNext;
    if n > 0 { StepsAdd(x, m, n - 1); }
  }

  // Whitening XORs byte n with the n-th value of the register behind 0x42.
  lemma {:induction false} WhitenedAt(lfsr: bv8, d: seq<bv8>, n: nat)
    requires n < |d|
    ensures Whiten(lfsr, d)[n] == d[n] ^ Steps(lfsr, n)
    decreases n
  {
    hide LfsrNext;
    if n > 0 {
      WhitenedAt(LfsrNext(lfsr), d[1..], n - 1);
      StepsAdd(lfsr, 1, n - 1);
      assert Steps(lfsr, 1) == LfsrNext(Steps(lfsr, 0));
    }
  }

  // ----- Its period

  function FourOn(x: bv8): bv8 { LfsrNext(LfsrNext(LfsrNext(LfsrNext(x)))) }

  function SeventeenOn(x: bv8): bv8 { LfsrNext(FourOn(FourOn(FourOn(FourOn(x))))) }

  lemma FourSteps(x: bv8)
    ensures Steps(x, 4) == FourOn(x)
  {
    hide LfsrNext;
    assert Steps(x, 1) == LfsrNext(x) && Steps(x, 2) == LfsrNext(Steps(x, 1)) && Steps(x, 3) == LfsrNext(Steps(x, 2));
  }

  lemma Seventeen(x: bv8)
    ensures Steps(x, 17) == SeventeenOn(x)
  {
    hide LfsrNext, FourOn;
    FourSteps(x); FourSteps(FourOn(x)); FourSteps(FourOn(FourOn(x))); FourSteps(FourOn(FourOn(FourOn(x))));
    StepsAdd(x, 4, 4); StepsAdd(x, 8, 4); StepsAdd(x, 12, 4);
    assert Steps(x, 17) == LfsrNext(Steps(x, 16));
  }

  lemma Leap(k: nat, a: bv8, b: bv8)
    requires Steps(0x42, k) == a && SeventeenOn(a) == b
    ensures Steps(0x42, k + 17) == b
  {
    hide Steps, SeventeenOn;
    StepsAdd(0x42, k, 17);
    Seventeen(a);
  }

  // Every seventeenth value.
  lemma Values()
    ensures SeventeenOn(0x42) == 0x27 && SeventeenOn(0x27) == 0x6F && SeventeenOn(0x6F) == 0x75
    ensures SeventeenOn(0x75) == 0x65 && SeventeenOn(0x65) == 0x48 && SeventeenOn(0x48) == 0x1A
    ensures SeventeenOn(0x1A) == 0x10 && SeventeenOn(0x10) == 0x2D && SeventeenOn(0x2D) == 0x52
    ensures SeventeenOn(0x52) == 0x0A && SeventeenOn(0x0A) == 0x3D && SeventeenOn(0x3D) == 0x7F
    ensures SeventeenOn(0x7F) == 0x58 && SeventeenOn(0x58) == 0x37 && SeventeenOn(0x37) == 0x42
  {}

  // Back at 0x42 after 255 steps, but not after 85, 51 or 15 of them.
  lemma Cycle()
    ensures Steps(0x42, 255) == 0x42 && Steps(0x42, 85) != 0x42 && Steps(0x42, 51) != 0x42 && Steps(0x42, 15) != 0x42
  {
    hide Steps, SeventeenOn;
    Values();
    assert Steps(0x42, 0) == 0x42 by { NoSteps(); }
    Leap(0, 0x42, 0x27); Leap(17, 0x27, 0x6F); Leap(34, 0x6F, 0x75);
    Leap(51, 0x75, 0x65); Leap(68, 0x65, 0x48); Leap(85, 0x48, 0x1A);
    Leap(102, 0x1A, 0x10); Leap(119, 0x10, 0x2D); Leap(136, 0x2D, 0x52);
    Leap(153, 0x52, 0x0A); Leap(170, 0x0A, 0x3D); Leap(187, 0x3D, 0x7F);
    Leap(204, 0x7F, 0x58); Leap(221, 0x58, 0x37); Leap(238, 0x37, 0x42);
    Fifteen();
  }

  lemma NoSteps()
    ensures Steps(0x42, 0) == 0x42
  {}

  lemma Fifteen()
    ensures Steps(0x42, 15) != 0x42
  {
    hide Steps;
    FourSteps(0x42); FourSteps(FourOn(0x42)); FourSteps(FourOn(FourOn(0x42))); FourSteps(FourOn(FourOn(FourOn(0x42))));
    StepsAdd(0x42, 4, 4); StepsAdd(0x42, 8, 4); StepsAdd(0x42, 12, 4);
    if Steps(0x42, 15) == 0x42 {
      OneStep(15);
    }
  }

  lemma OneStep(n: nat)
    ensures Steps(0x42, n + 1) == LfsrNext(Steps(0x42, n))
  {}

  // Whole rounds lead back to the start.
  lemma {:induction false} Rounds(k: nat, q: nat)
    requires Steps(0x42, k) == 0x42
    ensures Steps(0x42, k * q) == 0x42
  {
    hide Steps;
    if q == 0 {
      NoSteps();
    } else {
      Rounds(k, q - 1);
      StepsAdd(0x42, k * (q - 1), k);
      assert k * q == k * (q - 1) + k;
    }
  }

  // The register passes every value but zero: it is not back at 0x42 before 255 steps.
  lemma {:induction false} FullPeriod(k: nat)
    requires 0 < k < 255
    ensures Steps(0x42, k) != 0x42 && Steps(0x42, 255) == 0x42
    decreases k
  {
    hide Steps;
    Cycle();
    if Steps(0x42, k) == 0x42 {
      var q, r := 255 / k, 255 % k;
      Rounds(k, q);
      assert k * q + r == 255;
      StepsAdd(0x42, k * q, r);
      if r > 0 {
        FullPeriod(r);
      } else {
        var m := Divisors(k, q);
        Rounds(k, m);
      }
    }
  }

  // A proper divisor of 255 divides 85, 51 or 15.
  lemma Divisors(k: nat, q: nat) returns (m: nat)
    requires k * q == 255 && 0 < k < 255
    ensures k * m == 85 || k * m == 51 || k * m == 15
  {
    assert q == 3 * (q / 3) + q % 3;
    if q % 3 == 0 { m := q / 3; }
    else if q % 5 == 0 { m := q / 5; }
    else { m := q / 17; }
  }
}
