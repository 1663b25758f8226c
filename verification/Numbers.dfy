// Small arithmetic shared by the bout and its clock.
module Numbers {
  import opened Options

  function Max(a: int, b: int): int
  {
    if a > b then a else b
  }

  /** A missing number counts as nothing. */
  function OrZero(n: Option<int>): int
  {
    if n.Some? then n.value else 0
  }
}
