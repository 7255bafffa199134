/** Weighted average cost at database scale, rounded half to even once. */
module AverageCost {
  import opened Outcomes
  import opened LedgerTables

  /** Quantising outside a local context keeps at most 28 digits, inside one at most 80. */
  const OPENING_LIMIT: int := 10_000_000_000_000_000_000_000_000_000
  const INCREASE_LIMIT: int := OPENING_LIMIT * OPENING_LIMIT * 1_000_000_000_000_000_000_000_000

  datatype Holding = Holding(quantity: nat, averageCost: Price)

  function RoundHalfEven(n: nat, d: nat): nat
    requires d > 0
  {
    var q, r := n / d, n % d;
    if 2 * r < d || (2 * r == d && q % 2 == 0) then q else q + 1
  }

  function Weighted(q1: nat, p1: Price, q2: nat, p2: Price): nat {
    q1 * p1 + q2 * p2
  }

  /** The unrounded 18-decimal average of two lots, rounded to the nearest unit. */
  function AveragePrice(q1: nat, p1: Price, q2: nat, p2: Price): (average: Price)
    requires q1 + q2 > 0
    ensures (p1 <= average <= p2) || (p2 <= average <= p1)
  {
    WeightedBetween(q1, p1, q2, p2);
    RoundingStaysBetween(Weighted(q1, p1, q2, p2), q1 + q2, if p1 < p2 then p1 else p2, if p1 < p2 then p2 else p1);
    RoundHalfEven(Weighted(q1, p1, q2, p2), q1 + q2)
  }

  /** `calculate_buy_position`: None when the average cannot be represented. */
  function BuyPosition(current: Option<Holding>, quantity: nat, price: Price): Option<Holding>
    requires quantity > 0
  {
    match current
    case None => if price >= OPENING_LIMIT then None else Some(Holding(quantity, price))
    case Some(held) =>
      var average := AveragePrice(held.quantity, held.averageCost, quantity, price);
      if average >= INCREASE_LIMIT then None else Some(Holding(held.quantity + quantity, average))
  }

  lemma WeightedBetween(q1: nat, p1: Price, q2: nat, p2: Price)
    ensures p1 <= p2 ==> p1 * (q1 + q2) <= Weighted(q1, p1, q2, p2) <= p2 * (q1 + q2)
    ensures p2 <= p1 ==> p2 * (q1 + q2) <= Weighted(q1, p1, q2, p2) <= p1 * (q1 + q2)
    ensures Weighted(q1, p1, q2, p2) >= 0
  {
  }

  /** A multiple of the divisor that bounds the numerator bounds the rounded quotient. */
  lemma RoundingStaysBetween(n: nat, d: nat, low: int, high: int)
    requires d > 0 && low * d <= n <= high * d
    ensures low <= RoundHalfEven(n, d) <= high
  {
    var q, r := n / d, n % d;
    assert n == q * d + r && 0 <= r < d;
    assert (q + 1) * d == q * d + d && (high + 1) * d == high * d + d;
    if q < low {
      Times(q + 1, low, d);
      assert false;
    }
    if high < q {
      Times(high + 1, q, d);
      assert false;
    }
    if high == q {
      assert r == 0;
    }
  }

  lemma Times(a: int, b: int, d: nat)
    requires a <= b
    ensures a * d <= b * d
  {
  }

  /** The rounded quotient is a nearest integer, and the even one on a tie. */
  lemma NearestInteger(n: nat, d: nat)
    requires d > 0
    ensures var a := RoundHalfEven(n, d);
            && -(d as int) <= 2 * (a * d - n) <= d
            && (2 * (a * d - n) == d || 2 * (a * d - n) == -(d as int) ==> a % 2 == 0)
  {
    var q, r := n / d, n % d;
    assert n == q * d + r;
    assert (q + 1) * d == q * d + d;
  }

  /** The average is the nearest one to the weighted cost, and of two equally near the even one. */
  lemma AverageIsNearest(q1: nat, p1: Price, q2: nat, p2: Price)
    requires q1 + q2 > 0
    ensures var drift := AveragePrice(q1, p1, q2, p2) * (q1 + q2) - Weighted(q1, p1, q2, p2);
            && -((q1 + q2) as int) <= 2 * drift <= q1 + q2
            && (2 * drift == q1 + q2 || 2 * drift == -((q1 + q2) as int) ==> AveragePrice(q1, p1, q2, p2) % 2 == 0)
  {
    WeightedBetween(q1, p1, q2, p2);
    NearestInteger(Weighted(q1, p1, q2, p2), q1 + q2);
  }

  // ---------------------------------------------------------------------------
  // The limits are numbers of digits
  // ---------------------------------------------------------------------------

  function Digits(n: nat): nat {
    if n < 10 then 1 else 1 + Digits(n / 10)
  }

  function PowerOfTen(k: nat): nat {
    if k == 0 then 1 else 10 * PowerOfTen(k - 1)
  }

  lemma {:induction false} FewDigits(n: nat, k: nat)
    requires k > 0
    ensures Digits(n) <= k <==> n < PowerOfTen(k)
  {
    if k == 1 {
      assert PowerOfTen(1) == 10 * PowerOfTen(0);
    } else if n >= 10 {
      FewDigits(n / 10, k - 1);
    } else {
      FewDigits(n, k - 1);
    }
  }

  lemma {:induction false} PowersMultiply(j: nat, k: nat)
    ensures PowerOfTen(j + k) == PowerOfTen(j) * PowerOfTen(k)
  {
    if j > 0 {
      PowersMultiply(j - 1, k);
      assert 10 * (PowerOfTen(j - 1) * PowerOfTen(k)) == 10 * PowerOfTen(j - 1) * PowerOfTen(k);
    }
  }

  lemma LimitPowers()
    ensures PowerOfTen(28) == OPENING_LIMIT && PowerOfTen(80) == INCREASE_LIMIT
  {
    assert PowerOfTen(4) == 10_000 by {
      assert PowerOfTen(1) == 10 && PowerOfTen(2) == 100 && PowerOfTen(3) == 1_000;
    }
    PowersMultiply(4, 4);
    PowersMultiply(8, 4);
    PowersMultiply(12, 12);
    PowersMultiply(24, 4);
    PowersMultiply(28, 28);
    PowersMultiply(56, 24);
    hide PowerOfTen;
  }

  /** A first price may have twenty-eight digits in the 18-decimal unit, a later average eighty. */
  lemma LimitsAreDigits(quantity: nat, price: Price, held: Holding)
    requires quantity > 0
    ensures BuyPosition(None, quantity, price).Some? <==> Digits(price) <= 28
    ensures BuyPosition(Some(held), quantity, price).Some?
            <==> Digits(AveragePrice(held.quantity, held.averageCost, quantity, price)) <= 80
  {
    hide AveragePrice, Digits, PowerOfTen;
    LimitPowers();
    FewDigits(price, 28);
    FewDigits(AveragePrice(held.quantity, held.averageCost, quantity, price), 80);
  }
}
