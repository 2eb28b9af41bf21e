/** Go's int64. */
module Int64 {

  const INT64_MIN: int := -0x8000_0000_0000_0000
  const INT64_MAX: int := 0x7fff_ffff_ffff_ffff
  const TWO_64: int := 0x1_0000_0000_0000_0000

  /** What an int64 operation makes of the exact result. */
  function Wrap64(a: int): (r: int)
    ensures INT64_MIN <= r <= INT64_MAX
    ensures INT64_MIN <= a <= INT64_MAX ==> r == a
    ensures INT64_MAX < a <= INT64_MAX + TWO_64 ==> r == a - TWO_64
  {
    (a - INT64_MIN) % TWO_64 + INT64_MIN
  }
}
