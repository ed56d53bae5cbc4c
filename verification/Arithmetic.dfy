module Arithmetic {
  function Max(x: int, y: int): int {
    if x < y then y else x
  }

  lemma MulLe(c: int, x: int, y: int)
    requires c >= 0 && x <= y
    ensures c * x <= c * y
  {
  }
}
