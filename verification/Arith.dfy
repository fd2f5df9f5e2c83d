/** Integer arithmetic as Go does it. */
module Arith {
  /** Division truncates toward zero. */
  function TruncDiv(a: int, b: int): int
    requires b != 0
  {
    if a >= 0 then a / b else -((-a) / b)
  }
}
