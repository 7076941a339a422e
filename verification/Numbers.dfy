/** Small arithmetic shared by the models. */
module Numbers {
  function Max(x: int, y: int): int { if x >= y then x else y }

  function Min(x: int, y: int): int { if x <= y then x else y }

  function MaxReal(x: real, y: real): real { if x >= y then x else y }

  function MinReal(x: real, y: real): real { if x <= y then x else y }

  /** A limit read as a count: a negative one admits nothing. */
  function Cap(limit: int): nat { if limit < 0 then 0 else limit }

  // ---------------------------------------------------------------- multiples

  lemma DivMul(x: int, d: int)
    requires d > 0
    ensures x / d * d <= x < x / d * d + d
  {
  }

  lemma Ordered(i: int, j: int, d: int)
    requires d > 0
    ensures i <= j ==> i * d <= j * d
  {
  }

  lemma Divided(x: int, d: int, p: int)
    requires d > 0 && p == x / d
    ensures p * d + x % d == x && 0 <= x % d < d && (p + 1) * d == p * d + d
  {
  }

  lemma Remainder(q: int, d: int)
    requires d > 0
    ensures q * d % d == 0
  {
    var x := q * d;
    var p := x / d;
    Divided(x, d, p);
    if p < q { Ordered(p + 1, q, d); }
    if q < p { Ordered(q, p, d); }
    Ordered(p, q, d);
  }

  /** The quotient is the greatest number of times the divisor fits. */
  lemma QuotientIff(x: int, d: int, q: int)
    requires d > 0
    ensures x / d == q <==> q * d <= x < q * d + d
  {
    var p := x / d;
    Divided(x, d, p);
    if q * d <= x < q * d + d {
      if p < q { Ordered(p + 1, q, d); }
      if q < p { Ordered(q + 1, p, d); Distribute(q, d); }
    }
  }

  lemma Distribute(q: int, d: int)
    ensures (q + 1) * d == q * d + d
  {
  }
}
