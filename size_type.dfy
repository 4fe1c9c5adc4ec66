/** The unsigned integer `size_type` (std::size_t) that both FIFO adapters use for
    their cursors and for `size()`, taken to be 64 bits wide, and `std::min`. */
module SizeType {

  /** 2^64: one more than the largest `size_type` value. */
  const Modulus: nat := 0x1_0000_0000_0000_0000

  /** True when `x` is representable as a `size_type`. */
  predicate IsSize(x: int) {
    0 <= x < Modulus
  }

  /** `a - b` evaluated in `size_type`: wraps around modulo 2^64 when `b > a`. */
  function Sub(a: nat, b: nat): (r: nat)
    requires IsSize(a) && IsSize(b)
    ensures IsSize(r)
    ensures b <= a ==> r == a - b
    ensures a < b ==> r == Modulus - (b - a)
    ensures r == 0 <==> a == b
  {
    (a - b) % Modulus
  }

  /** `std::min`. */
  function Min(a: nat, b: nat): (r: nat)
    ensures r <= a && r <= b
    ensures r == a || r == b
  {
    if a <= b then a else b
  }
}
