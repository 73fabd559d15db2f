/** Go's int64 and uint64: conversions and products that wrap. */
module Int64 {
  const TWO_63: int := 0x8000_0000_0000_0000
  const TWO_64: int := 0x1_0000_0000_0000_0000

  predicate IsInt64(x: int) {
    -TWO_63 <= x < TWO_63
  }

  /** `uint64(x)`: the residue modulo 2^64. */
  function Uint64(x: int): (u: nat)
    ensures u < TWO_64
  {
    x % TWO_64
  }

  /** The int64 with the same low 64 bits as x: what int64 arithmetic leaves of an exact result. */
  function Wrap64(x: int): (w: int)
    ensures IsInt64(w)
    ensures IsInt64(x) <==> w == x
    ensures Uint64(w) == Uint64(x)
  {
    if x % TWO_64 < TWO_63 then x % TWO_64 else x % TWO_64 - TWO_64
  }

  /** Only residues matter to a wrapped result. */
  lemma WrapResidue(x: int, y: int, q: int)
    requires x == y + q * TWO_64
    ensures Wrap64(x) == Wrap64(y)
  {
    assert x % TWO_64 == y % TWO_64;
  }

  lemma WrapOfSum(s: int, a: int)
    ensures Wrap64(Wrap64(s) + a) == Wrap64(s + Uint64(a))
  {
    var q := s / TWO_64 + (if s % TWO_64 < TWO_63 then 0 else 1);
    assert Wrap64(s) == s - q * TWO_64;
    assert Uint64(a) == a - (a / TWO_64) * TWO_64;
    WrapResidue(Wrap64(s) + a, s + Uint64(a), a / TWO_64 - q);
  }

  /** Cents to 6-decimal USDC, `cents * 10_000` in int64. */
  const MICRO_PER_CENT: nat := 10_000

  function ToMicro(cents: int): int {
    Wrap64(cents * MICRO_PER_CENT)
  }

  /** The most cents whose micro-USDC is an int64. */
  const MAX_CENTS := 922337203685477

  /** The exact sum. */
  function SumOf(amounts: seq<int>): int {
    if amounts == [] then 0 else SumOf(amounts[..|amounts| - 1]) + amounts[|amounts| - 1]
  }

  /** `total += amounts[i]` in int64 over the first n amounts. */
  function WrappedSum(amounts: seq<int>, n: nat): int
    requires n <= |amounts|
  {
    if n == 0 then 0 else Wrap64(WrappedSum(amounts, n - 1) + amounts[n - 1])
  }
}
