/** 64-bit unsigned arithmetic and the signed reading of differences that the scheduler uses to
    compare wrapped clocks and virtual times. */
module Wrap64 {

  const M: int := 0x1_0000_0000_0000_0000
  const HALF: int := 0x8000_0000_0000_0000

  type u64 = x: int | 0 <= x < 0x1_0000_0000_0000_0000

  function U64(x: int): u64 {
    x % M
  }

  /** `(s64)x`. */
  function S64(x: int): (r: int)
    ensures -HALF <= r < HALF
  {
    if x % M < HALF then x % M else x % M - M
  }

  /** While two unwrapped values are less than half the range apart, the signed difference of
      their wrapped values is their difference. */
  lemma SignedDifference(a: int, b: int)
    requires -HALF <= a - b < HALF
    ensures S64(U64(a) - U64(b)) == a - b
  {
    var d := U64(a) - U64(b);
    var k := a / M - b / M;
    assert a - b == d + k * M;
    assert k == 0 || k == 1 || k == -1;
  }

  /** Adding to a wrapped value is wrapping the sum. */
  lemma WrapAdd(a: int, b: int)
    ensures U64(U64(a) + b) == U64(a + b)
  {
    assert U64(a) + b == a + b - M * (a / M);
  }

  lemma WrapSub(a: int, b: int)
    ensures U64(a - U64(b)) == U64(a - b)
  {
    assert a - U64(b) == a - b + M * (b / M);
  }
}
