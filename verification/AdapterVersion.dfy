/** Versions of EZSP adapters: packed numbers are cut into nibbles, and compared from the protocol down. */
module AdapterVersion {

  const UNKNOWN := 0
  const LEGRAND := 0x1021

  function HiByte(w: nat): nat { w / 256 % 256 }
  function LoByte(w: nat): nat { w % 256 }
  function HiNibble(b: nat): nat { b / 16 % 16 }
  function LoNibble(b: nat): nat { b % 16 }

  datatype Version = Version(
    protocol: nat, stackType: nat,
    stackMajor: nat, stackMinor: nat, stackRevision: nat, stackBugfix: nat,
    manufacturer: nat, hardware: nat, major: nat, minor: nat, revision: nat)

  class EzspAdapterVersion {
    var ezspProtocolVersion: nat
    var ezspStackType: nat
    var ezspStackMajorVersion: nat
    var ezspStackMinorVersion: nat
    var ezspStackRevisionVersion: nat
    var ezspStackBugfixVersion: nat
    var xncpManufacturerId: nat
    var xncpAdapterHardwareVersion: nat
    var xncpAdapterMajorVersion: nat
    var xncpAdapterMinorVersion: nat
    var xncpAdapterRevisionVersion: nat

    constructor ()
      ensures Value() == Version(0, 0, 0, 0, 0, 0, UNKNOWN, 0, 0, 0, 0)
    {
      ezspProtocolVersion, ezspStackType := 0, 0;
      ezspStackMajorVersion, ezspStackMinorVersion, ezspStackRevisionVersion, ezspStackBugfixVersion := 0, 0, 0, 0;
      xncpManufacturerId, xncpAdapterHardwareVersion := 0, 0;
      xncpAdapterMajorVersion, xncpAdapterMinorVersion, xncpAdapterRevisionVersion := 0, 0, 0;
    }

    function Value(): Version
      reads this
    {
      Version(ezspProtocolVersion, ezspStackType,
              ezspStackMajorVersion, ezspStackMinorVersion, ezspStackRevisionVersion, ezspStackBugfixVersion,
              xncpManufacturerId, xncpAdapterHardwareVersion,
              xncpAdapterMajorVersion, xncpAdapterMinorVersion, xncpAdapterRevisionVersion)
    }

    method SetStackVersion(stackVersion: nat)
      requires stackVersion < 0x1_0000
      modifies this
      ensures Value() == old(Value()).(stackMajor := ezspStackMajorVersion, stackMinor := ezspStackMinorVersion,
                                       stackRevision := ezspStackRevisionVersion, stackBugfix := ezspStackBugfixVersion)
      ensures StackWord(Value()) == stackVersion && StackFields(Value())
    {
      ezspStackMajorVersion := HiNibble(HiByte(stackVersion));
      ezspStackMinorVersion := LoNibble(HiByte(stackVersion));
      ezspStackRevisionVersion := HiNibble(LoByte(stackVersion));
      ezspStackBugfixVersion := LoNibble(LoByte(stackVersion));
      Nibbles(stackVersion);
    }

    method SetEzspVersionInfo(stackVersion: nat, protocol: nat, stackType: nat)
      requires stackVersion < 0x1_0000
      modifies this
      ensures ezspProtocolVersion == protocol && ezspStackType == stackType
      ensures StackWord(Value()) == stackVersion && StackFields(Value())
      ensures Value() == old(Value()).(protocol := protocol, stackType := stackType,
                                         stackMajor := ezspStackMajorVersion,
                                       stackMinor := ezspStackMinorVersion, stackRevision := ezspStackRevisionVersion,
                                       stackBugfix := ezspStackBugfixVersion)
    {
      SetStackVersion(stackVersion);
      ezspProtocolVersion := protocol;
      ezspStackType := stackType;
    }

    method SetXncpData(manufacturer: nat, versionNumber: nat)
      requires versionNumber < 0x1_0000
      modifies this
      ensures xncpManufacturerId == manufacturer && XncpFields(Value())
      ensures 0x1000 * xncpAdapterHardwareVersion + XncpWord(Value()) == versionNumber
      ensures Value() == old(Value()).(manufacturer := manufacturer, hardware := xncpAdapterHardwareVersion,
                                       major := xncpAdapterMajorVersion, minor := xncpAdapterMinorVersion,
                                       revision := xncpAdapterRevisionVersion)
    {
      xncpManufacturerId := manufacturer;
      xncpAdapterHardwareVersion := HiNibble(HiByte(versionNumber));
      xncpAdapterMajorVersion := LoNibble(HiByte(versionNumber));
      xncpAdapterMinorVersion := HiNibble(LoByte(versionNumber));
      xncpAdapterRevisionVersion := LoNibble(LoByte(versionNumber));
      Nibbles(versionNumber);
    }
  }

  lemma Nibbles(w: nat)
    requires w < 0x1_0000
    ensures 0x1000 * HiNibble(HiByte(w)) + 0x100 * LoNibble(HiByte(w)) + 0x10 * HiNibble(LoByte(w)) +
            LoNibble(LoByte(w)) == w
    ensures HiNibble(HiByte(w)) < 16 && LoNibble(HiByte(w)) < 16 && HiNibble(LoByte(w)) < 16 && LoNibble(LoByte(w)) < 16
  {}

  // The packed numbers that the fields stand for.
  function StackWord(v: Version): nat {
    0x1000 * v.stackMajor + 0x100 * v.stackMinor + 0x10 * v.stackRevision + v.stackBugfix
  }
  function XncpWord(v: Version): nat { 0x100 * v.major + 0x10 * v.minor + v.revision }

  predicate StackFields(v: Version) {
    v.stackMajor < 16 && v.stackMinor < 16 && v.stackRevision < 16 && v.stackBugfix < 16
  }
  predicate XncpFields(v: Version) { v.hardware < 16 && v.major < 16 && v.minor < 16 && v.revision < 16 }

  // ----- The comparison

  function Cmp(l: Version, r: Version): int {
    if l.protocol != 0 && r.protocol != 0 && l.protocol > r.protocol then 1
    else if l.protocol != 0 && r.protocol != 0 && l.protocol < r.protocol then -1
    else if l.stackType != 0 && r.stackType != 0 && l.stackType > r.stackType then 1
    else if l.stackType != 0 && r.stackType != 0 && l.stackType < r.stackType then -1
    else if l.manufacturer == LEGRAND && r.manufacturer == LEGRAND then
      if l.major > r.major then 1
      else if l.major < r.major then -1
      else if l.minor > r.minor then 1
      else if l.minor < r.minor then -1
      else if l.revision > r.revision then 1
      else if l.revision < r.revision then -1
      else 0
    else
      if l.stackMajor > r.stackMajor then 1
      else if l.stackMajor < r.stackMajor then -1
      else if l.stackMinor > r.stackMinor then 1
      else if l.stackMinor < r.stackMinor then -1
      else if l.stackRevision > r.stackRevision then 1
      else if l.stackRevision < r.stackRevision then -1
      else if l.stackBugfix > r.stackBugfix then 1
      else if l.stackBugfix < r.stackBugfix then -1
      else 0
  }

  // On all versions: the order of the arguments only turns the sign.
  lemma CmpAntisymmetric(l: Version, r: Version)
    ensures Cmp(l, r) == -Cmp(r, l)
  {}

  // ----- The order among versions with known protocol and stack type

  predicate Known(v: Version) { v.protocol != 0 && v.stackType != 0 && StackFields(v) && XncpFields(v) }

  // What a version is ordered by, Legrand or not, as one number of unbounded digits.
  datatype Key = Key(protocol: nat, stackType: nat, word: nat)

  function KeyOf(v: Version): Key {
    Key(v.protocol, v.stackType, if v.manufacturer == LEGRAND then XncpWord(v) else StackWord(v))
  }

  predicate Less(a: Key, b: Key) {
    a.protocol < b.protocol ||
    (a.protocol == b.protocol && (a.stackType < b.stackType || (a.stackType == b.stackType && a.word < b.word)))
  }

  predicate Alike(l: Version, r: Version) { l.manufacturer == 0x1021 <==> r.manufacturer == 0x1021 }

  lemma WordOrder(a: nat, b: nat, c: nat, d: nat, a': nat, b': nat, c': nat, d': nat)
    requires b < 16 && c < 16 && d < 16 && b' < 16 && c' < 16 && d' < 16
    ensures 0x1000 * a + 0x100 * b + 0x10 * c + d < 0x1000 * a' + 0x100 * b' + 0x10 * c' + d' <==>
            a < a' || (a == a' && (b < b' || (b == b' && (c < c' || (c == c' && d < d')))))
  {
    if a < a' {
      assert 0x1000 * a + 0x1000 <= 0x1000 * a';
    } else if a > a' {
      assert 0x1000 * a' + 0x1000 <= 0x1000 * a;
    }
  }

  // Among versions that are all Legrand's or all not, Cmp is the lexicographic order of protocol, stack
  // type and packed word: the 12 low bits of the XNCP word, or the 16-bit stack word.
  lemma CmpIsKeyOrder(l: Version, r: Version)
    requires Known(l) && Known(r) && Alike(l, r)
    ensures Cmp(l, r) < 0 <==> Less(KeyOf(l), KeyOf(r))
    ensures Cmp(l, r) == 0 <==> KeyOf(l) == KeyOf(r)
  {
    WordOrder(0, l.major, l.minor, l.revision, 0, r.major, r.minor, r.revision);
    WordOrder(0, r.major, r.minor, r.revision, 0, l.major, l.minor, l.revision);
    WordOrder(l.stackMajor, l.stackMinor, l.stackRevision, l.stackBugfix, r.stackMajor, r.stackMinor,
        r.stackRevision, r.stackBugfix);
    WordOrder(r.stackMajor, r.stackMinor, r.stackRevision, r.stackBugfix, l.stackMajor, l.stackMinor,
        l.stackRevision, l.stackBugfix);
  }

  predicate SameStack(l: Version, r: Version) { l.protocol == r.protocol && l.stackType == r.stackType }

  predicate Legrand(v: Version) { v.manufacturer == 0x1021 }

  // Exactly two of the three are from Legrand.
  predicate TwoLegrand(a: bool, b: bool, c: bool) {
    (a && b && !c) || (a && !b && c) || (!a && b && c)
  }

  predicate InOrder(a: Version, b: Version, c: Version) {
    && (Cmp(a, b) <= 0 && Cmp(b, c) <= 0 ==> Cmp(a, c) <= 0)
    && (Cmp(a, b) < 0 && Cmp(b, c) <= 0 ==> Cmp(a, c) < 0)
    && (Cmp(a, b) <= 0 && Cmp(b, c) < 0 ==> Cmp(a, c) < 0)
  }

  // Three versions compared by their stack words alone, as any with at most one from Legrand are.
  lemma StackWordOrder(l: Version, r: Version)
    requires Known(l) && Known(r) && SameStack(l, r) && !(Legrand(l) && Legrand(r))
    ensures Cmp(l, r) < 0 <==> StackWord(l) < StackWord(r)
    ensures Cmp(l, r) == 0 <==> StackWord(l) == StackWord(r)
  {
    WordOrder(l.stackMajor, l.stackMinor, l.stackRevision, l.stackBugfix,
              r.stackMajor, r.stackMinor, r.stackRevision, r.stackBugfix);
    WordOrder(r.stackMajor, r.stackMinor, r.stackRevision, r.stackBugfix,
              l.stackMajor, l.stackMinor, l.stackRevision, l.stackBugfix);
  }

  // So the comparison is transitive on all known versions but those of one protocol and stack type of which
  // exactly two are from Legrand.
  lemma CmpTransitive(a: Version, b: Version, c: Version)
    requires Known(a) && Known(b) && Known(c)
    requires !(SameStack(a, b) && SameStack(b, c) && TwoLegrand(Legrand(a), Legrand(b), Legrand(c)))
    ensures InOrder(a, b, c)
  {
    if Alike(a, b) && Alike(b, c) {
      hide Cmp, Known, XncpWord, StackWord;
      CmpIsKeyOrder(a, b);
      CmpIsKeyOrder(b, c);
      CmpIsKeyOrder(a, c);
    } else if SameStack(a, b) && SameStack(b, c) {
      hide Cmp, Known, XncpWord, StackWord;
      StackWordOrder(a, b);
      StackWordOrder(b, c);
      StackWordOrder(a, c);
    }
  }

  // A version of this protocol and stack type with a stack and a firmware number.
  function Sample(protocol: nat, stackType: nat, legrand: bool, stack: nat, firmware: nat): Version {
    Version(protocol, stackType, stack, 0, 0, 0, if legrand then LEGRAND else UNKNOWN, 0, firmware, 0, 0)
  }

  // For every protocol and stack type and each of the three places of the other maker it fails on some: the
  // two from Legrand compare by firmware, and each of them with the other by the stack.
  lemma TwoLegrandFail(protocol: nat, stackType: nat, la: bool, lb: bool, lc: bool)
    returns (a: Version, b: Version, c: Version)
    requires protocol != 0 && stackType != 0 && TwoLegrand(la, lb, lc)
    ensures Known(a) && Known(b) && Known(c)
    ensures a.protocol == b.protocol == c.protocol == protocol && a.stackType == b.stackType == c.stackType == stackType
    ensures Legrand(a) == la && Legrand(b) == lb && Legrand(c) == lc
    ensures Cmp(a, b) < 0 && Cmp(b, c) < 0 && Cmp(a, c) > 0
  {
    if !lb {
      a, b, c := Sample(protocol, stackType, la, 1, 2), Sample(protocol, stackType, lb, 2, 0),
                 Sample(protocol, stackType, lc, 3, 1);
    } else if !lc {
      a, b, c := Sample(protocol, stackType, la, 3, 1), Sample(protocol, stackType, lb, 1, 2),
                 Sample(protocol, stackType, lc, 2, 0);
    } else {
      a, b, c := Sample(protocol, stackType, la, 2, 0), Sample(protocol, stackType, lb, 3, 1),
                 Sample(protocol, stackType, lc, 1, 2);
    }
  }

  predicate Given(v: Version, protocol: nat, stackType: nat, legrand: bool) {
    Known(v) && v.protocol == protocol && v.stackType == stackType && Legrand(v) == legrand
  }

  // Transitive whatever the rest of the versions, given their stacks and makers.
  ghost predicate TransitiveOn(pa: nat, ta: nat, pb: nat, tb: nat, pc: nat, tc: nat, la: bool, lb: bool, lc: bool) {
    forall a, b, c ::
      Given(a, pa, ta, la) && Given(b, pb, tb, lb) && Given(c, pc, tc, lc) ==> InOrder(a, b, c)
  }

  // The exact condition, by protocol, stack type and maker.
  lemma TransitiveExactly(pa: nat, ta: nat, pb: nat, tb: nat, pc: nat, tc: nat, la: bool, lb: bool, lc: bool)
    requires pa != 0 && pb != 0 && pc != 0 && ta != 0 && tb != 0 && tc != 0
    ensures TransitiveOn(pa, ta, pb, tb, pc, tc, la, lb, lc) <==>
            !(pa == pb == pc && ta == tb == tc && TwoLegrand(la, lb, lc))
  {
    hide Cmp, Known;
    if pa == pb == pc && ta == tb == tc && TwoLegrand(la, lb, lc) {
      var a, b, c := TwoLegrandFail(pa, ta, la, lb, lc);
      assert Given(a, pa, ta, la) && Given(b, pb, tb, lb) && Given(c, pc, tc, lc);
      assert !InOrder(a, b, c);
    } else {
      forall a, b, c |
        Given(a, pa, ta, la) && Given(b, pb, tb, lb) && Given(c, pc, tc, lc)
        ensures InOrder(a, b, c)
      {
        CmpTransitive(a, b, c);
      }
    }
  }

  // ----- Unknown protocols and stack types

  // A protocol or stack type that is not known on both sides does not count: the comparison is as if both sides
  // had the same, whichever.
  lemma UnknownSkipped(l: Version, r: Version, n: nat)
    ensures l.protocol == 0 || r.protocol == 0 ==> Cmp(l, r) == Cmp(l.(protocol := n), r.(protocol := n))
    ensures l.stackType == 0 || r.stackType == 0 ==> Cmp(l, r) == Cmp(l.(stackType := n), r.(stackType := n))
  {}

  // So an unknown protocol between two known ones can close a circle.
  lemma UnknownFails(low: nat, high: nat, stackType: nat) returns (a: Version, b: Version, c: Version)
    requires 0 < low < high && stackType != 0
    ensures a.protocol == high && b.protocol == 0 && c.protocol == low && !Legrand(a) && !Legrand(b) && !Legrand(c)
    ensures a.stackType == b.stackType == c.stackType == stackType
    ensures Cmp(a, b) < 0 && Cmp(b, c) < 0 && Cmp(a, c) > 0
  {
    a, b, c := Sample(high, stackType, false, 1, 0), Sample(0, stackType, false, 2, 0),
               Sample(low, stackType, false, 3, 0);
  }
}
