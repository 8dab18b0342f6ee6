/** Integer arithmetic shared by the downloaders and the planner. */
module Arithmetic {
  function Min(a: int, b: int): int { if a <= b then a else b }
  function Max(a: int, b: int): int { if a >= b then a else b }

  /** The smallest integer that is at least a / b. */
  function CeilDiv(a: int, b: int): (q: int)
    requires b > 0
    ensures a >= 0 ==> q >= 0
  {
    (a + b - 1) / b
  }

  lemma CeilDivBounds(a: int, b: int)
    requires b > 0
    ensures a <= b * CeilDiv(a, b) < a + b
  {
    var q := CeilDiv(a, b);
    assert a + b - 1 == b * q + (a + b - 1) % b;
  }
}
