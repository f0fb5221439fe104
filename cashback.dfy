/** `calculate_cashback` (src/utils.py): one per cent of an amount, to the kopeck. */
module Cashback {
  import opened Records

  /**
   * `n / 100` rounded to the nearest integer, an exact tie going to the even
   * neighbour: round-half-even on the exact decimal value. The two ensures
   * clauses pin the result down uniquely (RoundedHundredthUnique).
   */
  function RoundedHundredth(n: int): (q: int)
    ensures -50 <= n - 100 * q <= 50
    ensures n - 100 * q == 50 || n - 100 * q == -50 ==> q % 2 == 0
  {
    var floor, rem := n / 100, n % 100;
    if rem < 50 then floor
    else if rem > 50 then floor + 1
    else if floor % 2 == 0 then floor
    else floor + 1
  }

  /** Any integer within half a unit of `n / 100`, even on a tie, is the rounded value. */
  lemma RoundedHundredthUnique(n: int, q: int)
    requires -50 <= n - 100 * q <= 50
    requires n - 100 * q == 50 || n - 100 * q == -50 ==> q % 2 == 0
    ensures q == RoundedHundredth(n)
  {
    var r := RoundedHundredth(n);
    if q < r - 1 || q > r + 1 {
      assert false;
    }
  }

  /** Ties to even make rounding symmetric about zero, so refunds mirror purchases. */
  lemma RoundedHundredthOdd(n: int)
    ensures RoundedHundredth(-n) == -RoundedHundredth(n)
  {
    RoundedHundredthUnique(-n, -RoundedHundredth(n));
  }

  /**
   * `calculate_cashback(amount)`: a zero (falsy) amount gives 0, any other
   * gives `round(amount / 100, 2)`. In kopecks that is the amount divided
   * by 100 and rounded to a whole kopeck.
   */
  function CalculateCashback(amount: Kopecks): (c: Kopecks)
    ensures amount == 0 ==> c == 0
    ensures -50 <= amount - 100 * c <= 50
    ensures amount - 100 * c == 50 || amount - 100 * c == -50 ==> c % 2 == 0
  {
    if amount != 0 then RoundedHundredth(amount) else 0
  }

  /** 150 -> 1.50, 2068.56 -> 20.69, 0 -> 0, and the per-record values behind the card totals. */
  lemma CalculateCashbackExamples()
    ensures CalculateCashback(15000) == 150
    ensures CalculateCashback(206856) == 2069
    ensures CalculateCashback(0) == 0
    ensures CalculateCashback(3400) == 34 && CalculateCashback(17269) == 173 && CalculateCashback(4292) == 43
  {
  }
}
