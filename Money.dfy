/** Integer money arithmetic of the exchange: USD cents and satoshis are integers,
    prices are USD cents per satoshi, and Go's `int64(x)` conversion of a float
    truncates toward zero. Floats are modelled as exact reals. */
module Money {

  /** Go's `int64(x)` for a finite float `x`: rounds toward zero. */
  function Trunc(x: real): int {
    if x >= 0.0 then x.Floor else -((-x).Floor)
  }

  /** Truncation is the floor for non-negative amounts, and stays within one of `x`
      on the side of zero. */
  lemma TruncBounds(x: real)
    ensures 0.0 <= x ==> Trunc(x) == x.Floor && 0 <= Trunc(x) && Trunc(x) as real <= x < Trunc(x) as real + 1.0
    ensures x < 0.0 ==> Trunc(x) <= 0 && x <= Trunc(x) as real < x + 1.0
  {
  }

  /** The USD cents `q` satoshis cost at `p` cents per satoshi, truncated
      (market_order.go:65-66, standing_order.go:123). */
  function Cost(q: int, p: real): int {
    Trunc(q as real * p)
  }

  /** How many satoshis `u` USD cents buy at `p` cents per satoshi, truncated
      (market_order.go:50, standing_order.go:206). */
  function Quota(u: int, p: real): int
    requires p != 0.0
  {
    Trunc(u as real / p)
  }

  /** The average of `count` amounts adding up to `total`. */
  function Average(total: int, count: int): (a: real)
    requires count != 0
    ensures a * count as real == total as real
  {
    total as real / count as real
  }

  lemma ProductNonNegative(q: int, p: real)
    ensures 0 <= q && 0.0 <= p ==> 0.0 <= q as real * p
  {
  }

  lemma MulLeft(a: real, b: real, p: real)
    requires a <= b && p > 0.0
    ensures a * p <= b * p
  {
  }

  /** Buying at most `Trunc(u / p)` units at price `p` costs at most `u`:
      the cap of market_order.go:50 keeps the payment of market_order.go:65-67 covered. */
  lemma PaymentWithinCap(q: int, u: int, p: real)
    requires 0 <= u && p > 0.0
    requires 0 <= q <= Quota(u, p)
    ensures 0 <= Cost(q, p) <= u
  {
    var y := u as real / p;
    assert q as real <= y;
    MulLeft(q as real, y, p);
    assert y * p == u as real;
  }

  /** Whatever the sign of `q`, a quantity admitted by the cap `Trunc(u / p)` costs
      at most `u` (standing_order.go:205-207). */
  lemma CostWithinCap(q: int, u: int, p: real)
    requires 0 <= u && p > 0.0
    requires q <= Quota(u, p)
    ensures Cost(q, p) <= u
  {
    if q >= 0 {
      PaymentWithinCap(q, u, p);
    } else {
      assert q as real * p < 0.0;
    }
  }

  /** Truncating a non-negative amount never gains: Trunc(a) + Trunc(b) <= Trunc(a + b). */
  lemma TruncSuperadditive(a: real, b: real)
    requires 0.0 <= a && 0.0 <= b
    ensures Trunc(a) + Trunc(b) <= Trunc(a + b)
  {
    assert (Trunc(a) + Trunc(b)) as real <= a + b;
  }

  /** Paying for two non-negative quantities separately costs no more than paying
      for both at once. */
  lemma CostSplit(a: int, b: int, p: real)
    requires 0 <= a && 0 <= b && 0.0 <= p
    ensures Cost(a, p) + Cost(b, p) <= Cost(a + b, p)
  {
    ProductNonNegative(a, p);
    ProductNonNegative(b, p);
    assert (a + b) as real * p == a as real * p + b as real * p;
    TruncSuperadditive(a as real * p, b as real * p);
  }
}
