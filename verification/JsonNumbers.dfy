/**
 * Unsigned integers that go through a cache as JSON numbers: written in decimal, read back as the nearest IEEE 754
 * double (ties to the even significand) and converted to uint64 again.
 */
module JsonNumbers {
  import opened Common

  /** Every natural number up to here is a double. */
  const TWO_53: int := 0x20_0000_0000_0000

  /** The distance between neighbouring doubles at n, at least 1. */
  function Spacing(n: nat): (gap: nat)
    ensures gap >= 1
  {
    if n < TWO_53 then 1 else 2 * Spacing(n / 2)
  }

  function Nearest(n: nat): nat {
    var (gap, q, r) := (Spacing(n), n / Spacing(n), n % Spacing(n));
    if 2 * r < gap || (2 * r == gap && q % 2 == 0) then q * gap else (q + 1) * gap
  }

  /** overflow is what the platform makes of the one double, 2^64, that does not fit. */
  function ReadBack(n: uint64, overflow: uint64): uint64 {
    if Nearest(n) < TWO_64 then Nearest(n) else overflow
  }

  predicate IsDouble(n: nat) {
    n % Spacing(n) == 0
  }

  lemma NearestBounds(n: nat)
    ensures -1 * Spacing(n) <= 2 * (Nearest(n) - n) <= Spacing(n)
    ensures Nearest(n) == n <==> IsDouble(n)
  {
    var (gap, q, r) := (Spacing(n), n / Spacing(n), n % Spacing(n));
    assert n == q * gap + r;
    assert (q + 1) * gap == q * gap + gap;
  }

  /** Up to 2^53 every watermark comes back as it was stored. */
  lemma SmallComesBack(n: uint64, overflow: uint64)
    requires n <= TWO_53
    ensures ReadBack(n, overflow) == n
  {
    assert Spacing(n / 2) == 1;
  }

  /** A stored number comes back unchanged if and only if it is a double; else off by at most half a gap. */
  lemma ComesBackIff(n: uint64, overflow: uint64)
    requires Nearest(n) < TWO_64
    ensures ReadBack(n, overflow) == n <==> IsDouble(n)
    ensures -1 * Spacing(n) <= 2 * (ReadBack(n, overflow) - n) <= Spacing(n)
  {
    NearestBounds(n);
  }

  /** Just above 2^53 a number may come back smaller or greater. */
  lemma LargeNumbersMove(overflow: uint64)
    ensures ReadBack(TWO_53 + 1, overflow) == TWO_53
    ensures ReadBack(TWO_53 + 3, overflow) == TWO_53 + 4
  {
    assert Spacing((TWO_53 + 1) / 2) == 1 && Spacing((TWO_53 + 3) / 2) == 1;
  }
}
