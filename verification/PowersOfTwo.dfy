/** NextPowerOfTwo in 64-bit words: the smallest power of two not below its argument, while there
    is one. */
module PowersOfTwo {

  predicate IsPowerOfTwo(x: bv64) {
    x != 0 && x & (x - 1) == 0
  }

  /** x has every bit of v, and shifting it down by one brings no new bit but those of v >> n: the
      bits of v are spread over the n - 1 places below each. */
  predicate Spread(v: bv64, x: bv64, n: nat)
    requires n <= 64
  {
    v & !x == 0 && (x >> 1) & !(x | (v >> n)) == 0
  }

  lemma SpreadOnce(v: bv64)
    ensures Spread(v, v | (v >> 1), 2)
  {
  }

  lemma SpreadTo4(v: bv64, x: bv64)
    requires Spread(v, x, 2)
    ensures Spread(v, x | (x >> 2), 4)
  {
  }

  lemma SpreadTo8(v: bv64, x: bv64)
    requires Spread(v, x, 4)
    ensures Spread(v, x | (x >> 4), 8)
  {
  }

  lemma SpreadTo16(v: bv64, x: bv64)
    requires Spread(v, x, 8)
    ensures Spread(v, x | (x >> 8), 16)
  {
  }

  lemma SpreadTo32(v: bv64, x: bv64)
    requires Spread(v, x, 16)
    ensures Spread(v, x | (x >> 16), 32)
  {
  }

  lemma SpreadTo64(v: bv64, x: bv64)
    requires Spread(v, x, 32)
    ensures v & !(x | (x >> 32)) == 0
    ensures ((x | (x >> 32)) >> 1) & !(x | (x >> 32)) == 0
  {
  }

  /** Bits that go on to the bottom make the number below a power of two. */
  lemma MaskPlusOne(x: bv64)
    requires (x >> 1) & !x == 0
    ensures x & (x + 1) == 0
  {
  }

  function Half(v: bv64): bv64 {
    var a := v | (v >> 1);
    var b := a | (a >> 2);
    b | (b >> 4)
  }

  function Rest(c: bv64): bv64 {
    var d := c | (c >> 8);
    d | (d >> 16)
  }

  function Spreading(v: bv64): bv64 {
    var e := Rest(Half(v));
    e | (e >> 32)
  }

  lemma HalfSpreads(v: bv64)
    ensures Spread(v, Half(v), 8)
  {
    var a := v | (v >> 1);
    SpreadOnce(v);
    SpreadTo4(v, a);
    SpreadTo8(v, a | (a >> 2));
  }

  lemma RestSpreads(v: bv64, c: bv64)
    requires Spread(v, c, 8)
    ensures Spread(v, Rest(c), 32)
  {
    SpreadTo16(v, c);
    SpreadTo32(v, c | (c >> 8));
  }

  lemma AllButTheLastStep(v: bv64)
    ensures Spread(v, Rest(Half(v)), 32)
  {
    HalfSpreads(v);
    RestSpreads(v, Half(v));
  }

  lemma SpreadingIsMask(v: bv64)
    ensures (Spreading(v) >> 1) & !Spreading(v) == 0
  {
    AllButTheLastStep(v);
    SpreadTo64(v, Rest(Half(v)));
  }

  lemma SpreadingIsAtLeast(v: bv64)
    ensures v <= Spreading(v)
  {
  }

  lemma SpreadingStaysBelow(v: bv64, p: bv64)
    requires IsPowerOfTwo(p) && v < p
    ensures Spreading(v) < p
  {
  }

  lemma SpreadingOfHuge(v: bv64)
    requires v >= 0x8000_0000_0000_0000
    ensures Spreading(v) == 0xFFFF_FFFF_FFFF_FFFF
  {
  }

  /** p is at least v, said without adding to p. */
  predicate Reaches(p: bv64, v: bv64) {
    v == 0 || v - 1 < p
  }

  /** The least power of two that is at least v and at least 2. */
  ghost predicate IsRoundedUp(v: bv64, r: bv64) {
    IsPowerOfTwo(r) && r >= 2 && r >= v && NoneBetween(v, r)
  }

  ghost predicate NoneBetween(v: bv64, r: bv64) {
    forall p: bv64 :: IsPowerOfTwo(p) && p >= 2 && Reaches(p, v) ==> r <= p
  }

  /** x is below every power of two above u. */
  ghost predicate BelowAll(u: bv64, x: bv64) {
    forall p: bv64 :: IsPowerOfTwo(p) && u < p ==> x < p
  }

  lemma SpreadingIsBelow(u: bv64)
    ensures BelowAll(u, Spreading(u))
  {
    forall p: bv64 | IsPowerOfTwo(p) && u < p
      ensures Spreading(u) < p
    {
      SpreadingStaysBelow(u, p);
    }
  }

  lemma OneMore(v: bv64, x: bv64)
    requires v >= 2 && x >= v - 1 && x != 0xFFFF_FFFF_FFFF_FFFF && (x >> 1) & !x == 0
    ensures IsPowerOfTwo(x + 1) && x + 1 >= 2 && x + 1 >= v
  {
    MaskPlusOne(x);
  }

  lemma NoneBetweenOneMore(v: bv64, x: bv64)
    requires v >= 2 && BelowAll(v - 1, x)
    ensures NoneBetween(v, x + 1)
  {
    forall p: bv64 | IsPowerOfTwo(p) && p >= 2 && Reaches(p, v)
      ensures x + 1 <= p
    {
      assert x < p;
    }
  }

  lemma SpreadingFits(v: bv64)
    requires v < 0x8000_0000_0000_0000
    ensures Spreading(v) != 0xFFFF_FFFF_FFFF_FFFF
  {
    SpreadingStaysBelow(v, 0x8000_0000_0000_0000);
  }

  /** What RoundedUp needs of x, the word below the answer. */
  ghost predicate JustBelow(v: bv64, x: bv64) {
    v - 1 <= x && x != 0xFFFF_FFFF_FFFF_FFFF && (x >> 1) & !x == 0
  }

  lemma SpreadingIsJustBelow(v: bv64)
    requires 2 <= v <= 0x8000_0000_0000_0000
    ensures JustBelow(v, Spreading(v - 1))
  {
    SpreadingIsAtLeast(v - 1);
    SpreadingIsMask(v - 1);
    SpreadingFits(v - 1);
  }

  lemma RoundedUp(v: bv64, x: bv64)
    requires v >= 2 && JustBelow(v, x) && BelowAll(v - 1, x)
    ensures IsRoundedUp(v, x + 1)
  {
    OneMore(v, x);
    NoneBetweenOneMore(v, x);
  }

  lemma SpreadingRoundsUp(v: bv64, x: bv64)
    requires 2 <= v <= 0x8000_0000_0000_0000 && x == Spreading(v - 1)
    ensures IsRoundedUp(v, x + 1)
  {
    assert JustBelow(v, x) by { SpreadingIsJustBelow(v); }
    assert BelowAll(v - 1, x) by { SpreadingIsBelow(v - 1); }
    RoundedUp(v, x);
  }

  lemma ZeroIsNoPower(v: bv64)
    ensures !IsRoundedUp(v, 0)
  {
  }

  method SpreadBits(v0: bv64) returns (v: bv64)
    ensures v == Spreading(v0)
  {
    v := SpreadOver8(v0);
    v := SpreadOver16(v);
    v := v | (v >> 16);
    v := v | (v >> 32);
  }

  method SpreadOver8(v0: bv64) returns (v: bv64)
    ensures v == Half(v0)
  {
    v := v0;
    v := v | (v >> 1);
    v := v | (v >> 2);
    v := v | (v >> 4);
  }

  method SpreadOver16(v0: bv64) returns (v: bv64)
    ensures v == v0 | (v0 >> 8)
  {
    v := v0;
    v := v | (v >> 8);
  }

  /** The result is right exactly up to 2^63. Above that the addition wraps and the result is 0,
      which is no capacity at all. */
  method NextPowerOfTwo(v: bv64) returns (r: bv64)
    ensures IsRoundedUp(v, r) <==> v <= 0x8000_0000_0000_0000
    ensures v > 0x8000_0000_0000_0000 ==> r == 0
  {
    if v < 2 {
      LeastIsTwo(v);
      return 2;
    }
    var x := SpreadBits(v - 1);
    r := x + 1;
    if v <= 0x8000_0000_0000_0000 {
      SpreadingRoundsUp(v, x);
    } else {
      SpreadingOfHuge(v - 1);
      ZeroIsNoPower(v);
    }
  }

  lemma LeastIsTwo(v: bv64)
    requires v < 2
    ensures IsRoundedUp(v, 2)
  {
  }
}
