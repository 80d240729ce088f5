/** Bitwise operations on naturals, just enough to read `x & (2^k - 1)` and `x & ~(2^k - 1)`
    as the remainder and the round-down that the engine's masks stand for. */
module Bits {

  function Pow2(k: nat): (p: nat)
    ensures p >= 1
  {
    if k == 0 then 1 else 2 * Pow2(k - 1)
  }

  ghost predicate IsPow2(n: nat) {
    exists k: nat :: Pow2(k) == n
  }

  function BitAnd(x: nat, y: nat): (r: nat)
    ensures r <= x && r <= y
  {
    if x == 0 || y == 0 then 0
    else 2 * BitAnd(x / 2, y / 2) + if x % 2 == 1 && y % 2 == 1 then 1 else 0
  }

  /** Masking with one less than a power of two splits off a multiple of it. */
  lemma {:induction false} MaskSplits(x: nat, k: nat) returns (q: nat)
    ensures x == Pow2(k) * q + BitAnd(x, Pow2(k) - 1) && BitAnd(x, Pow2(k) - 1) < Pow2(k)
  {
    if k == 0 {
      q := x;
    } else {
      q := MaskSplits(x / 2, k - 1);
      BitAndOdd(x, Pow2(k - 1) - 1);
      SplitDoubles(x, Pow2(k - 1), Pow2(k), q, BitAnd(x / 2, Pow2(k - 1) - 1));
    }
  }

  lemma SplitDoubles(x: nat, half: nat, whole: nat, q: nat, r: nat)
    requires whole == 2 * half && x / 2 == half * q + r
    ensures x == whole * q + (2 * r + x % 2)
  {
    assert whole * q == 2 * (half * q);
  }

  /** So it keeps the remainder. */
  lemma MaskIsRemainder(x: nat, k: nat)
    ensures BitAnd(x, Pow2(k) - 1) == x % Pow2(k)
  {
    var q := MaskSplits(x, k);
    DivModUnique(x, Pow2(k), q, BitAnd(x, Pow2(k) - 1));
  }

  lemma BitAndOdd(x: nat, y: nat)
    ensures BitAnd(x, 2 * y + 1) == 2 * BitAnd(x / 2, y) + x % 2
  {
    assert (2 * y + 1) / 2 == y && (2 * y + 1) % 2 == 1;
  }

  lemma MulBounds(m: int, d: int)
    requires m > 0
    ensures d >= 1 ==> m * d >= m
    ensures d <= -1 ==> m * d <= -m
  {
  }

  lemma DivModUnique(x: int, m: int, q: int, r: int)
    requires m > 0 && 0 <= r < m && x == m * q + r
    ensures x / m == q && x % m == r
  {
    MulBounds(m, x / m - q);
    assert m * (x / m - q) == r - x % m;
  }

  /** Two different indices less than one lap apart never share a slot. */
  lemma DistinctSlots(i: int, j: int, cap: int)
    requires 0 < cap && i < j < i + cap
    ensures i % cap != j % cap
  {
    MulBounds(cap, j / cap - i / cap);
    assert cap * (j / cap - i / cap) == (j - j % cap) - (i - i % cap);
  }

  /** x & ~y: the bits of x that y does not have. */
  function BitClear(x: nat, y: nat): (r: nat)
    ensures r <= x
  {
    if x == 0 then 0
    else 2 * BitClear(x / 2, y / 2) + if x % 2 == 1 && y % 2 == 0 then 1 else 0
  }

  lemma {:induction false} ClearedAndKept(x: nat, y: nat)
    ensures BitClear(x, y) + BitAnd(x, y) == x
  {
    if y == 0 {
      ClearNothing(x);
    } else if x > 0 {
      ClearedAndKept(x / 2, y / 2);
    }
  }

  lemma {:induction false} ClearNothing(x: nat)
    ensures BitClear(x, 0) == x
  {
    if x > 0 {
      ClearNothing(x / 2);
    }
  }

  /** Clearing the low k bits rounds down to a multiple of 2^k. */
  lemma ClearRoundsDown(x: nat, k: nat)
    ensures BitClear(x, Pow2(k) - 1) == x - x % Pow2(k)
  {
    ClearedAndKept(x, Pow2(k) - 1);
    MaskIsRemainder(x, k);
  }
}
