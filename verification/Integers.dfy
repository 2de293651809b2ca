/** `Math.min`, `Math.max` and `Math.ceil` of a quotient, on integers. */
module Integers {

  function Min(a: int, b: int): int { if b < a then b else a }

  function Max(a: int, b: int): int { if a < b then b else a }

  function CeilDiv(a: int, b: int): int
    requires b > 0
  {
    -((-a) / b)
  }

  lemma CeilBounds(a: int, b: int)
    requires b > 0
    ensures (CeilDiv(a, b) - 1) * b < a <= CeilDiv(a, b) * b
  {
    var q := (-a) / b;
    assert (-q - 1) * b == -(q * b) - b;
    assert (-q) * b == -(q * b);
  }
}
