/** The platform fee, with the source's int64 product and truncating division. */
module Fees {
  import opened Int64
  import opened Sums
  import opened Domain
  import opened Ledger

  datatype FeeConfig = FeeConfig(percent: int, minAmount: int)

  /** The largest amount the risk check lets through. */
  const MAX_AMOUNT: int := 100_000_000

  function Percentage(cfg: FeeConfig, amount: int): int {
    TruncDiv(Wrap(amount * cfg.percent), 100)
  }

  function ComputeFee(cfg: FeeConfig, amount: int): int {
    var fee := Percentage(cfg, amount);
    if fee < cfg.minAmount then cfg.minAmount else fee
  }

  /** The collection of an intent through a provider, with the fee on its amount. */
  function CollectionRows(cfg: FeeConfig, id: nat, pi: Intent, psp: string): seq<Entry> {
    CollectionGroup(pi.merchant, id, psp, pi.amount, pi.currency, ComputeFee(cfg, pi.amount))
  }

  predicate Sane(cfg: FeeConfig) {
    0 <= cfg.percent <= 100 && 0 <= cfg.minAmount
  }

  predicate Admitted(amount: int) {
    0 < amount <= MAX_AMOUNT
  }

  /** On admitted amounts the product never leaves int64, so the fee is the exact percentage. */
  lemma PercentageExact(cfg: FeeConfig, amount: int)
    requires Sane(cfg) && Admitted(amount)
    ensures Fits(amount * cfg.percent)
    ensures Percentage(cfg, amount) == amount * cfg.percent / 100
    ensures 0 <= cfg.percent * amount - 100 * Percentage(cfg, amount) <= 99
    ensures 0 <= Percentage(cfg, amount) <= amount
  {
    assert 0 <= amount * cfg.percent <= amount * 100;
  }

  /** The fee of an admitted amount is the larger of the minimum and the percentage rounded down. */
  lemma FeeIsLarger(cfg: FeeConfig, amount: int)
    requires Sane(cfg) && Admitted(amount)
    ensures var fee := ComputeFee(cfg, amount);
            fee >= cfg.minAmount && 100 * fee > cfg.percent * amount - 100 &&
            (fee == cfg.minAmount || 100 * fee <= cfg.percent * amount)
  {
    PercentageExact(cfg, amount);
  }

  /** The cap of the risk check: one million units. */
  lemma AdmittedRange(amount: int)
    ensures Admitted(amount) <==> 0 < amount <= 100_000_000
  {
  }

  lemma ProductMonotone(x: int, y: int, p: int)
    requires x <= y && p >= 0
    ensures x * p <= y * p && x * p / 100 <= y * p / 100
  {
  }

  lemma FeeMonotone(cfg: FeeConfig, x: int, y: int)
    requires Sane(cfg) && Admitted(x) && Admitted(y) && x <= y
    ensures ComputeFee(cfg, x) <= ComputeFee(cfg, y)
  {
    PercentageExact(cfg, x);
    PercentageExact(cfg, y);
    ProductMonotone(x, y, cfg.percent);
  }

  /** The merchant is left with a non-negative net exactly when the amount reaches the minimum fee. */
  lemma NetNonNegativeIff(cfg: FeeConfig, amount: int)
    requires Sane(cfg) && Admitted(amount)
    ensures amount - ComputeFee(cfg, amount) >= 0 <==> amount >= cfg.minAmount
  {
    PercentageExact(cfg, amount);
  }

  function Identity(): int -> int {
    (x: int) => x
  }

  function Fee(cfg: FeeConfig): int -> int {
    (x: int) => ComputeFee(cfg, x)
  }

  lemma OneMore(p: int, a: int, f: int, x: int, y: int, n: nat)
    requires 0 <= p * a - 100 * f <= 99 * n
    requires 0 <= p * x - 100 * y <= 99
    ensures 0 <= p * (a + x) - 100 * (f + y) <= 99 * (n + 1)
  {
    assert p * (a + x) == p * a + p * x;
  }

  predicate ChargedAboveMinimum(cfg: FeeConfig, amount: int) {
    Admitted(amount) && Percentage(cfg, amount) >= cfg.minAmount
  }

  /** Over any number of payments charged above the minimum, truncation costs the platform less
      than one unit each. */
  lemma {:induction false} FeeTotals(cfg: FeeConfig, amounts: seq<int>)
    requires Sane(cfg)
    requires forall x :: x in amounts ==> ChargedAboveMinimum(cfg, x)
    ensures 0 <= cfg.percent * Sum(amounts, Identity()) - 100 * Sum(amounts, Fee(cfg)) <= 99 * |amounts|
  {
    if |amounts| == 0 {
    } else {
      var n := |amounts| - 1;
      var x := amounts[n];
      FeeTotals(cfg, amounts[..n]);
      assert ChargedAboveMinimum(cfg, x);
      PercentageExact(cfg, x);
      OneMore(cfg.percent, Sum(amounts[..n], Identity()), Sum(amounts[..n], Fee(cfg)), x, ComputeFee(cfg, x), n);
    }
  }
}
