/** Go's int64: wrap-around, and division that truncates toward zero. */
module Int64 {
  const MIN: int := -0x8000_0000_0000_0000
  const MAX: int := 0x7FFF_FFFF_FFFF_FFFF

  /** The value an int64 holds after an operation whose exact result is x. */
  function Wrap(x: int): (r: int)
    ensures MIN <= r <= MAX
    ensures MIN <= x <= MAX ==> r == x
  {
    (x - MIN) % 0x1_0000_0000_0000_0000 + MIN
  }

  /** a / b in Go, for a positive divisor. */
  function Quotient(a: int, b: int): int
    requires b > 0
  {
    if a >= 0 then a / b else -((-a) / b)
  }
}
