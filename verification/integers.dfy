/** Go's int64. */
module Integers {

  const MAX_INT64 := 0x7FFF_FFFF_FFFF_FFFF
  const MIN_INT64 := -0x8000_0000_0000_0000

  predicate IsInt64(n: int) {
    MIN_INT64 <= n <= MAX_INT64
  }

  type Int64 = n: int | IsInt64(n)

  /** Addition wraps around. */
  function Plus(a: Int64, b: Int64): (c: Int64)
    ensures IsInt64(a + b) <==> c == a + b
  {
    assert IsInt64(a) && IsInt64(b);
    var sum := a + b;
    if sum > MAX_INT64 then sum - 0x1_0000_0000_0000_0000
    else if sum < MIN_INT64 then sum + 0x1_0000_0000_0000_0000
    else sum
  }

  function Increment(n: int): int {
    if n == MAX_INT64 then MIN_INT64 else n + 1
  }
}
