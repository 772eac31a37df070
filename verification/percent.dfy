/** The one percentage formula of the system: `Math.round(k / n * 100)` for a
    non-negative count `k` out of a positive total `n`, computed exactly in
    integers. `Math.round` rounds halves up, so the result is
    `floor(100k/n + 1/2)`, which is `(200k + n) div (2n)`. */
module Percent {

  /** `Math.round(k / n * 100)`; the result is the integer nearest to
      `100k/n`, halves rounded up. */
  function RoundPercent(k: nat, n: nat): (p: nat)
    requires n > 0
    ensures 2 * n * p <= 200 * k + n < 2 * n * p + 2 * n
  {
    (200 * k + n) / (2 * n)
  }

  /** Any value meeting the nearest-integer contract is the rounded value:
      the contract pins the result down. */
  lemma RoundPercentUnique(k: nat, n: nat, q: int)
    requires n > 0
    requires 2 * n * q <= 200 * k + n < 2 * n * q + 2 * n
    ensures q == RoundPercent(k, n)
  {
    var p := RoundPercent(k, n);
    assert 2 * n * q < 2 * n * (p + 1);
    MulCancelLess(2 * n, q, p + 1);
    assert 2 * n * p < 2 * n * (q + 1);
    MulCancelLess(2 * n, p, q + 1);
  }

  /** Cancelling a positive factor on both sides of a strict inequality. */
  lemma MulCancelLess(c: int, a: int, b: int)
    requires c > 0 && c * a < c * b
    ensures a < b
  {
  }

  /** A share of at most the whole never shows more than 100%. */
  lemma AtMostHundred(k: nat, n: nat)
    requires n > 0 && k <= n
    ensures RoundPercent(k, n) <= 100
  {
    var p := RoundPercent(k, n);
    assert 2 * n * p <= 200 * k + n <= 201 * n;
    assert 2 * n * p < 2 * n * 101;
    MulCancelLess(2 * n, p, 101);
  }

  /** The whole shows exactly 100%. */
  lemma FullIsHundred(n: nat)
    requires n > 0
    ensures RoundPercent(n, n) == 100
  {
    RoundPercentUnique(n, n, 100);
  }

  /** Below 200 items, 100% is shown only for the whole: `k < n` rounds to at
      most 99. */
  lemma PartialBelowHundred(k: nat, n: nat)
    requires 0 < n < 200 && k < n
    ensures RoundPercent(k, n) < 100
  {
    var p := RoundPercent(k, n);
    assert 200 * k + n <= 200 * n - 200 + n;
    assert 200 * k + n < 2 * n * 100;
    assert 2 * n * p < 2 * n * 100;
    MulCancelLess(2 * n, p, 100);
  }

  /** From 200 items on, one missing item still rounds to 100%:
      199 of 200 is 99.5, which `Math.round` takes up. */
  lemma NearlyAllRoundsToHundred()
    ensures RoundPercent(199, 200) == 100
  {
  }

  /** More completed items never show a smaller percentage. */
  lemma RoundPercentMonotone(k: nat, k': nat, n: nat)
    requires n > 0 && k <= k'
    ensures RoundPercent(k, n) <= RoundPercent(k', n)
  {
    var p, p' := RoundPercent(k, n), RoundPercent(k', n);
    assert 2 * n * p <= 200 * k + n <= 200 * k' + n < 2 * n * (p' + 1);
    MulCancelLess(2 * n, p, p' + 1);
  }

  /** `100% iff k == n` holds exactly when the total stays below 200 and the
      share never exceeds the whole. */
  lemma HundredIffComplete(k: nat, n: nat)
    requires 0 < n < 200 && k <= n
    ensures RoundPercent(k, n) == 100 <==> k == n
  {
    if k < n {
      PartialBelowHundred(k, n);
    } else {
      FullIsHundred(n);
    }
  }
}
