/** The few pieces of Rust's standard library that the modelled code relies on:
    `Option`, `Result`, and the fixed-width integer types. An arithmetic result
    that leaves its type's range panics in a debug build; the models turn that
    into a precondition, which the subset types below make Dafny check. */
module RustStd {

  datatype Option<+T> = None | Some(value: T)

  datatype Result<+T, +E> = Ok(value: T) | Err(error: E)

  const U8_MAX: int := 0xFF
  const U32_MAX: int := 0xFFFF_FFFF
  const U64_MAX: int := 0xFFFF_FFFF_FFFF_FFFF
  const I32_MIN: int := -0x8000_0000
  const I32_MAX: int := 0x7FFF_FFFF

  type u8 = x: int | 0 <= x <= U8_MAX
  type u32 = x: int | 0 <= x <= U32_MAX
  type u64 = x: int | 0 <= x <= U64_MAX
  /** `usize` on a 64-bit target. */
  type usize = x: int | 0 <= x <= U64_MAX
  type i32 = x: int | I32_MIN <= x <= I32_MAX

  /** Rust's `%` on signed integers: the remainder takes the sign of the
      dividend (truncated division), unlike Dafny's Euclidean `%`; like any
      remainder it differs from the dividend by a multiple of the divisor. */
  function TruncRem(x: int, k: int): (r: int)
    requires k > 0
    ensures -k < r < k
    ensures x >= 0 ==> r >= 0
    ensures x < 0 ==> r <= 0
    ensures (x - r) % k == 0
  {
    if x >= 0 then
      ModUnique(x - x % k, k, x / k, 0);
      x % k
    else
      ModUnique(x + (-x) % k, k, -((-x) / k), 0);
      -((-x) % k)
  }

  /** Euclidean division is unique: a decomposition with a remainder in
      range is the one `/` and `%` give. */
  lemma ModUnique(x: int, k: int, q: int, r: int)
    requires k > 0 && 0 <= r < k && x == q * k + r
    ensures x % k == r
  {
    var d := q - x / k;
    assert d * k == x % k - r by {
      assert x == (x / k) * k + x % k;
      assert q * k - (x / k) * k == d * k;
    }
  }

  /** A truncated remainder is zero exactly when the Euclidean one is, so a
      divisibility test reads the same in Rust and in Dafny. */
  lemma TruncRemZero(x: int, k: int)
    requires k > 0
    ensures TruncRem(x, k) == 0 <==> x % k == 0
  {
    if x < 0 {
      var q := (-x) / k;
      assert -x == q * k + (-x) % k;
      if (-x) % k == 0 {
        ModUnique(x, k, -q, 0);
      } else {
        ModUnique(x, k, -q - 1, k - (-x) % k);
      }
    }
  }
}
