/**
 The 16-bit frame check sequence: the engine's table-free update, the bit-serial register of
 appendix C of RFC 1662 that it refines, and the error-detection algebra both ends rely on.

 The algebra is proved on the bit-serial form and carried over to the engine's form. `hide` keeps
 the solver from expanding bit-vector definitions in proofs that only need an equation.
 */
module Crc {
  type Octet = bv8

  const CRC_PRESET: bv16 := 0xffff
  const CRC_GOOD: bv16 := 0xf0b8

  /** One step of the engine's register: the octet is mixed into the low half, and spread. */
  function Update(crc: bv16, octet: Octet): bv16 { Spread(Mixed(crc, octet), High(crc)) }

  function Mixed(crc: bv16, octet: Octet): Octet { octet ^ ((crc & 0xff) as bv8) }

  function High(crc: bv16): bv16 { crc >> 8 }

  function Spread(octet: Octet, high: bv16): bv16 {
    var o := octet ^ (octet << 4);
    (((o as bv16) << 8) | (high & 0xff)) ^ ((o >> 4) as bv16) ^ ((o as bv16) << 3)
  }

  /** The register after a whole sequence of octets. */
  function Fold(crc: bv16, octets: seq<Octet>): bv16 {
    if octets == [] then crc
    else Update(Fold(crc, octets[..|octets| - 1]), octets[|octets| - 1])
  }

  lemma FoldSnoc(crc: bv16, octets: seq<Octet>, octet: Octet)
    ensures Fold(crc, octets + [octet]) == Update(Fold(crc, octets), octet)
  {
    hide Update;
    assert (octets + [octet])[..|octets|] == octets;
  }

  lemma {:induction false} FoldConcat(crc: bv16, left: seq<Octet>, right: seq<Octet>)
    ensures Fold(crc, left + right) == Fold(Fold(crc, left), right)
    decreases |right|
  {
    hide Update;
    if right == [] {
      assert left + right == left;
    } else {
      var n := |right| - 1;
      assert left + right == (left + right[..n]) + [right[n]];
      FoldSnoc(crc, left + right[..n], right[n]);
      FoldConcat(crc, left, right[..n]);
    }
  }

  // ----- The bit-serial reference register (polynomial 0x8408, least significant bit first) -----

  function Sum(a: bv16, b: bv16): bv16 { a ^ b }

  function LowBit(crc: bv16): bool { crc & 1 == 1 }

  function Half(crc: bv16): bv16 { crc >> 1 }

  function Wide(octet: Octet): bv16 { octet as bv16 }

  function Shift(crc: bv16): bv16 {
    if LowBit(crc) then Sum(Half(crc), 0x8408) else Half(crc)
  }

  function Shifts(crc: bv16, n: nat): bv16 {
    if n == 0 then crc else Shift(Shifts(crc, n - 1))
  }

  function Load(crc: bv16, octet: Octet): bv16 { Sum(crc, Wide(octet)) }

  function SerialUpdate(crc: bv16, octet: Octet): bv16 {
    Shifts(Load(crc, octet), 8)
  }

  function SerialFold(crc: bv16, octets: seq<Octet>): bv16 {
    if octets == [] then crc
    else SerialUpdate(SerialFold(crc, octets[..|octets| - 1]), octets[|octets| - 1])
  }

  lemma EightShifts(crc: bv16)
    ensures Shifts(crc, 8) == Shift(Shift(Shift(Shift(Shift(Shift(Shift(Shift(crc))))))))
  {
    hide Shift;
    var c2, c4 := Shift(Shift(crc)), Shift(Shift(Shift(Shift(crc))));
    assert Shifts(crc, 1) == Shift(crc) && Shifts(crc, 2) == c2;
    assert Shifts(crc, 3) == Shift(c2) && Shifts(crc, 4) == c4;
    assert Shifts(crc, 5) == Shift(c4) && Shifts(crc, 6) == Shift(Shift(c4));
    assert Shifts(crc, 7) == Shift(Shift(Shift(c4)));
  }

  /** One shift without a branch: the form the solver can compose. */
  function Masked(crc: bv16): bv16 { (crc >> 1) ^ (0x8408 & -(crc & 1)) }

  lemma MaskedIsShift(crc: bv16)
    ensures Masked(crc) == Shift(crc)
  {
    if LowBit(crc) {
      assert crc & 1 == 1;
    } else {
      assert crc & 1 == 0;
    }
  }

  /** Four shifts at once. */
  function Nibble(crc: bv16): bv16 { Cross(Upper(crc), Lowest(crc)) }

  function Upper(crc: bv16): bv16 { crc >> 4 }

  function Lowest(crc: bv16): bv16 { crc & 0xf }

  function Cross(rest: bv16, low: bv16): bv16 { rest ^ (low << 12) ^ (low << 7) ^ low }

  lemma FourShifts(crc: bv16)
    ensures Nibble(crc) == Shift(Shift(Shift(Shift(crc))))
  {
    hide Nibble, Masked, Shift;
    MaskedIsNibble(crc);
    MaskedIsShift(crc);
    MaskedIsShift(Shift(crc));
    MaskedIsShift(Shift(Shift(crc)));
    MaskedIsShift(Shift(Shift(Shift(crc))));
  }

  lemma MaskedIsNibble(crc: bv16)
    ensures Nibble(crc) == Masked(Masked(Masked(Masked(crc))))
  {}

  lemma UpperOfNibble(crc: bv16)
    ensures Upper(Nibble(crc)) == (crc >> 8) ^ ((crc & 0xf) << 8) ^ ((crc & 0xf) << 3)
  {}

  lemma LowestOfNibble(crc: bv16)
    ensures Lowest(Nibble(crc)) == ((crc >> 4) ^ crc) & 0xf
  {}

  lemma UpdateZeroCrosses(crc: bv16)
    ensures Update(crc, 0)
         == Cross((crc >> 8) ^ ((crc & 0xf) << 8) ^ ((crc & 0xf) << 3), ((crc >> 4) ^ crc) & 0xf)
  {}

  lemma UpdateZeroIsNibbles(crc: bv16)
    ensures Update(crc, 0) == Nibble(Nibble(crc))
  {
    hide Update, Cross, Upper, Lowest;
    UpdateZeroCrosses(crc);
    UpperOfNibble(crc);
    LowestOfNibble(crc);
  }

  lemma UpdateZeroIsSerial(crc: bv16)
    ensures Update(crc, 0) == Shifts(crc, 8)
  {
    hide Update, Nibble, Shift;
    UpdateZeroIsNibbles(crc);
    EightShifts(crc);
    FourShifts(crc);
    FourShifts(Shift(Shift(Shift(Shift(crc)))));
  }

  lemma LoadedMixed(crc: bv16, octet: Octet)
    ensures Mixed(Load(crc, octet), 0) == Mixed(crc, octet)
  {}

  lemma LoadedHigh(crc: bv16, octet: Octet)
    ensures High(Load(crc, octet)) == High(crc)
  {}

  lemma UpdateLoads(crc: bv16, octet: Octet)
    ensures Update(crc, octet) == Update(Load(crc, octet), 0)
  {
    hide Load, Spread, Mixed, High;
    LoadedMixed(crc, octet);
    LoadedHigh(crc, octet);
  }

  lemma UpdateIsSerial(crc: bv16, octet: Octet)
    ensures Update(crc, octet) == SerialUpdate(crc, octet)
  {
    hide Update, Shifts;
    UpdateLoads(crc, octet);
    UpdateZeroIsSerial(Load(crc, octet));
  }

  /** The engine's register and the bit-serial one agree on every input. */
  lemma {:induction false} FoldIsSerial(crc: bv16, octets: seq<Octet>)
    ensures Fold(crc, octets) == SerialFold(crc, octets)
  {
    hide Update, SerialUpdate;
    if octets != [] {
      var n := |octets| - 1;
      FoldIsSerial(crc, octets[..n]);
      UpdateIsSerial(Fold(crc, octets[..n]), octets[n]);
    }
  }

  // ----- Linearity over exclusive or -----

  function OctetSum(a: Octet, b: Octet): Octet { a ^ b }

  function Xor(a: seq<Octet>, b: seq<Octet>): seq<Octet>
    requires |a| == |b|
  {
    seq(|a|, i requires 0 <= i < |a| => OctetSum(a[i], b[i]))
  }

  lemma HalfSum(c: bv16, d: bv16)
    ensures Half(Sum(c, d)) == Sum(Half(c), Half(d))
  {}

  lemma LowBitSum(c: bv16, d: bv16)
    ensures LowBit(Sum(c, d)) == (LowBit(c) != LowBit(d))
  {}

  lemma WideSum(x: Octet, y: Octet)
    ensures Wide(OctetSum(x, y)) == Sum(Wide(x), Wide(y))
  {}

  lemma SumComm(a: bv16, b: bv16)
    ensures Sum(a, b) == Sum(b, a)
  {}

  lemma SumAssoc(a: bv16, b: bv16, c: bv16)
    ensures Sum(Sum(a, b), c) == Sum(a, Sum(b, c))
  {}

  lemma SumCancel(a: bv16, b: bv16)
    ensures Sum(Sum(a, b), b) == a
  {}

  lemma SumZero(a: bv16, b: bv16)
    ensures Sum(a, b) == 0 <==> a == b
  {
    if Sum(a, b) == 0 {
      SumCancel(a, b);
      SumZeroLeft(b);
    }
  }

  lemma SumZeroLeft(a: bv16)
    ensures Sum(0, a) == a
  {}

  lemma SumZeroRight(a: bv16)
    ensures Sum(a, 0) == a
  {}

  lemma SumSwap(a: bv16, b: bv16, c: bv16, d: bv16)
    ensures Sum(Sum(a, b), Sum(c, d)) == Sum(Sum(a, c), Sum(b, d))
  {
    hide Sum;
    SumAssoc(a, b, Sum(c, d));
    SumAssoc(b, c, d);
    SumComm(b, c);
    SumAssoc(c, b, d);
    SumAssoc(a, c, Sum(b, d));
  }

  lemma ShiftLinear(c: bv16, d: bv16)
    ensures Shift(Sum(c, d)) == Sum(Shift(c), Shift(d))
  {
    hide Sum, LowBit, Half;
    HalfSum(c, d);
    LowBitSum(c, d);
    var h, k, p := Half(c), Half(d), 0x8408;
    SumAssoc(h, k, p);
    SumComm(k, p);
    SumAssoc(h, p, k);
    SumAssoc(h, p, Sum(k, p));
    SumComm(p, Sum(k, p));
    SumCancel(k, p);
  }

  lemma {:induction false} ShiftsLinear(c: bv16, d: bv16, n: nat)
    ensures Shifts(Sum(c, d), n) == Sum(Shifts(c, n), Shifts(d, n))
  {
    hide Sum, Shift;
    if n != 0 {
      ShiftsLinear(c, d, n - 1);
      ShiftLinear(Shifts(c, n - 1), Shifts(d, n - 1));
    }
  }

  lemma UpdateLinear(c: bv16, d: bv16, x: Octet, y: Octet)
    ensures Update(Sum(c, d), OctetSum(x, y)) == Sum(Update(c, x), Update(d, y))
  {
    hide Update, Shifts, Sum, OctetSum, Wide;
    UpdateIsSerial(Sum(c, d), OctetSum(x, y));
    UpdateIsSerial(c, x);
    UpdateIsSerial(d, y);
    WideSum(x, y);
    SumSwap(c, d, Wide(x), Wide(y));
    ShiftsLinear(Load(c, x), Load(d, y), 8);
  }

  lemma {:induction false} FoldLinear(c: bv16, d: bv16, a: seq<Octet>, b: seq<Octet>)
    requires |a| == |b|
    ensures Fold(Sum(c, d), Xor(a, b)) == Sum(Fold(c, a), Fold(d, b))
    decreases |a|
  {
    hide Update, Sum, OctetSum;
    if a != [] {
      var n := |a| - 1;
      FoldLinear(c, d, a[..n], b[..n]);
      assert Xor(a, b)[..n] == Xor(a[..n], b[..n]);
      UpdateLinear(Fold(c, a[..n]), Fold(d, b[..n]), a[n], b[n]);
    }
  }

  /** Two equally long octet sequences leave the same register iff their difference leaves zero. */
  lemma SameFold(c: bv16, a: seq<Octet>, b: seq<Octet>)
    requires |a| == |b|
    ensures Fold(c, a) == Fold(c, b) <==> Fold(0, Xor(a, b)) == 0
  {
    hide Fold, Xor, Sum;
    FoldLinear(c, c, a, b);
    SumZero(c, c);
    SumZero(Fold(c, a), Fold(c, b));
  }

  // ----- Odd numbers of bit errors -----

  function Ones(c: bv16): nat {
    if c == 0 then 0 else (if LowBit(c) then 1 else 0) + Ones(Half(c))
  }

  /** Number of ones in a sequence of octets. */
  function Weight(octets: seq<Octet>): nat {
    if octets == [] then 0
    else Weight(octets[..|octets| - 1]) + Ones(Wide(octets[|octets| - 1]))
  }

  /** Number of bit positions in which two sequences of the same length differ. */
  function BitDistance(a: seq<Octet>, b: seq<Octet>): nat
    requires |a| == |b|
  {
    Weight(Xor(a, b))
  }

  predicate Odd(c: bv16) {
    c != 0 && (LowBit(c) != Odd(Half(c)))
  }

  lemma {:induction false} OddIsOnes(c: bv16)
    ensures Odd(c) <==> Ones(c) % 2 == 1
  {
    if c != 0 {
      OddIsOnes(Half(c));
    }
  }

  lemma HalfShrinks(c: bv16)
    requires c != 0
    ensures Half(c) < c
  {}

  lemma OddUnfold(c: bv16)
    ensures Odd(c) == (LowBit(c) != Odd(Half(c)))
  {
    assert !LowBit(0) && Half(0) == 0;
  }

  lemma {:induction false} OddSum(c: bv16, d: bv16)
    ensures Odd(Sum(c, d)) == (Odd(c) != Odd(d))
    decreases c
  {
    hide Half, LowBit, Sum;
    if c == 0 {
      SumComm(c, d);
      SumZeroRight(d);
    } else {
      HalfShrinks(c);
      OddUnfold(d);
      OddUnfold(Sum(c, d));
      HalfSum(c, d);
      LowBitSum(c, d);
      OddSum(Half(c), Half(d));
    }
  }

  lemma PolynomialIsOdd()
    ensures Odd(0x8408)
  {
    assert Odd(0x2) && Odd(0x8) && Odd(0x10);
    assert !Odd(0x21) && !Odd(0x84) && !Odd(0x210) && !Odd(0x840);
    assert Odd(0x2102);
  }

  lemma ShiftKeepsParity(c: bv16)
    ensures Odd(Shift(c)) == Odd(c)
  {
    PolynomialIsOdd();
    OddSum(Half(c), 0x8408);
    OddUnfold(c);
    hide Half, LowBit, Sum;
  }

  lemma {:induction false} ShiftsKeepParity(c: bv16, n: nat)
    ensures Odd(Shifts(c, n)) == Odd(c)
  {
    hide Shift, Odd;
    if n != 0 {
      ShiftsKeepParity(c, n - 1);
      ShiftKeepsParity(Shifts(c, n - 1));
    }
  }

  lemma UpdateParity(c: bv16, x: Octet)
    ensures Odd(Update(c, x)) == (Odd(c) != Odd(Wide(x)))
  {
    hide Update, Shifts, Odd, Sum, Wide;
    UpdateIsSerial(c, x);
    ShiftsKeepParity(Load(c, x), 8);
    OddSum(c, Wide(x));
  }

  lemma SumParity(m: nat, n: nat)
    ensures (m + n) % 2 == 1 <==> (m % 2 == 1) != (n % 2 == 1)
  {}

  lemma {:induction false} FoldParity(c: bv16, octets: seq<Octet>)
    ensures Odd(Fold(c, octets)) == (Odd(c) != (Weight(octets) % 2 == 1))
  {
    hide Update, Odd, Ones, Wide;
    if octets != [] {
      var n := |octets| - 1;
      FoldParity(c, octets[..n]);
      UpdateParity(Fold(c, octets[..n]), octets[n]);
      OddIsOnes(Wide(octets[n]));
      SumParity(Weight(octets[..n]), Ones(Wide(octets[n])));
    }
  }

  /** Any odd number of inverted bits changes the register, whatever the length. */
  lemma DetectsOddErrors(c: bv16, a: seq<Octet>, b: seq<Octet>)
    requires |a| == |b|
    requires BitDistance(a, b) % 2 == 1
    ensures Fold(c, a) != Fold(c, b)
  {
    hide Fold, Weight, Xor;
    FoldParity(0, Xor(a, b));
    SameFold(c, a, b);
  }

  // ----- Bursts -----

  /** The three octets are zero outside a window of sixteen consecutive bits that starts at bit
      `k` of the first one, or behind it (bits leave an octet least significant first). */
  predicate InWindow(x: Octet, y: Octet, z: Octet, k: nat)
    requires k <= 8
  {
    x & ((1 << k) - 1) == 0 && z >> k == 0
  }

  lemma UpdateZeroInjective(c: bv16)
    requires Update(c, 0) == 0
    ensures c == 0
  {}

  lemma WindowVisible(x: Octet, y: Octet, z: Octet, k: nat)
    requires k <= 8 && InWindow(x, y, z, k)
    requires Update(Update(Update(0, x), y), z) == 0
    ensures x == 0 && y == 0 && z == 0
  {
    // One goal for each of the nine alignments of the window.
    if k == 0 {} else if k == 1 {} else if k == 2 {} else if k == 3 {}
    else if k == 4 {} else if k == 5 {} else if k == 6 {} else if k == 7 {} else {}
  }

  lemma {:induction false} ZerosKeepRegister(c: bv16, octets: seq<Octet>)
    requires forall i :: 0 <= i < |octets| ==> octets[i] == 0
    ensures Fold(c, octets) == 0 <==> c == 0
  {
    assert Update(0, 0) == 0;
    hide Update;
    if octets != [] {
      var n := |octets| - 1;
      ZerosKeepRegister(c, octets[..n]);
      if Fold(c, octets) == 0 {
        UpdateZeroInjective(Fold(c, octets[..n]));
      }
    }
  }

  /** `a` and `b` differ, and only inside sixteen consecutive bits starting in octet `at`. */
  ghost predicate Burst(a: seq<Octet>, b: seq<Octet>, at: nat, k: nat) {
    && |a| == |b| && a != b && k <= 8 && at + 2 < |a|
    && (forall i :: 0 <= i < |a| && !(at <= i <= at + 2) ==> a[i] == b[i])
    && InWindow(Xor(a, b)[at], Xor(a, b)[at + 1], Xor(a, b)[at + 2], k)
  }

  lemma FoldThree(x: Octet, y: Octet, z: Octet)
    ensures Fold(0, [x, y, z]) == Update(Update(Update(0, x), y), z)
  {
    hide Update;
    assert [x, y] + [z] == [x, y, z] && [x] + [y] == [x, y] && [] + [x] == [x];
    FoldSnoc(0, [], x);
    FoldSnoc(0, [x], y);
    FoldSnoc(0, [x, y], z);
  }

  /** Every error burst of at most sixteen bits changes the register, whatever the length. */
  lemma DetectsBursts(c: bv16, a: seq<Octet>, b: seq<Octet>, at: nat, k: nat)
    requires Burst(a, b, at, k)
    ensures Fold(c, a) != Fold(c, b)
  {
    hide Fold, Update, InWindow, OctetSum;
    var d := Xor(a, b);
    var x, y, z := d[at], d[at + 1], d[at + 2];
    assert d == d[..at] + ([x, y, z] + d[at + 3..]);
    FoldConcat(0, d[..at], [x, y, z] + d[at + 3..]);
    OutsideIsZero(a, b, at, k);
    ZerosKeepRegister(0, d[..at]);
    FoldConcat(0, [x, y, z], d[at + 3..]);
    FoldThree(x, y, z);
    ZerosKeepRegister(Fold(0, [x, y, z]), d[at + 3..]);
    SameFold(c, a, b);
    if Fold(c, a) == Fold(c, b) {
      WindowVisible(x, y, z, k);
      WindowEmpty(a, b, at, k);
    }
  }

  lemma OutsideIsZero(a: seq<Octet>, b: seq<Octet>, at: nat, k: nat)
    requires Burst(a, b, at, k)
    ensures forall i :: 0 <= i < |a| && !(at <= i <= at + 2) ==> Xor(a, b)[i] == 0
  {
    forall i | 0 <= i < |a| && !(at <= i <= at + 2) ensures Xor(a, b)[i] == 0 {
      assert a[i] == b[i];
    }
  }

  lemma OctetSumZero(a: Octet, b: Octet)
    requires OctetSum(a, b) == 0
    ensures a == b
  {}

  lemma WindowEmpty(a: seq<Octet>, b: seq<Octet>, at: nat, k: nat)
    requires Burst(a, b, at, k)
    ensures Xor(a, b)[at] != 0 || Xor(a, b)[at + 1] != 0 || Xor(a, b)[at + 2] != 0
  {
    hide OctetSum;
    var i :| 0 <= i < |a| && a[i] != b[i];
    if Xor(a, b)[i] == 0 {
      OctetSumZero(a[i], b[i]);
    }
  }

  // ----- The good residue -----

  function CheckLow(crc: bv16): Octet { (!crc & 0xff) as bv8 }

  function CheckHigh(crc: bv16): Octet { (!crc >> 8) as bv8 }

  lemma LastOctet(d: bv16, y: Octet)
    ensures Update(d, y) == CRC_GOOD <==> d & 0xff00 == 0x0f00 && y == 0x87 ^ ((d & 0xff) as bv8)
  {}

  lemma NextToLastOctet(crc: bv16, x: Octet)
    ensures Update(crc, x) & 0xff00 == 0x0f00 <==> x == CheckLow(crc)
  {}

  lemma AfterCheckLow(crc: bv16)
    ensures 0x87 ^ ((Update(crc, CheckLow(crc)) & 0xff) as bv8) == CheckHigh(crc)
  {}

  /** The register reaches the good value exactly when it is fed its own complement. */
  lemma GoodResidue(crc: bv16, x: Octet, y: Octet)
    ensures Update(Update(crc, x), y) == CRC_GOOD <==> x == CheckLow(crc) && y == CheckHigh(crc)
  {
    hide Update, CheckLow, CheckHigh;
    LastOctet(Update(crc, x), y);
    NextToLastOctet(crc, x);
    AfterCheckLow(crc);
  }
}
