/**
 * The payout arithmetic of `utils/cuts.py`: a cut is a rate in basis points
 * (1/10000) of an amount, computed by the AVM's `WideRatio`, which forms the
 * 128-bit product `amount * cut` and fails (aborting the whole call) when the
 * quotient does not fit in 64 bits.
 */
module Cuts {
  import opened Types

  /** Ten thousand basis points make one hundred percent. */
  const BasisPointMultiplier: nat := 100 * 100

  /** The rate the contract starts with: 98 of every 100 units go to the finder. */
  const DefaultCut: Uint64 := 9800

  /** `calculate_cut(amount, cut)`: the floor of `amount * cut / 10000`, or None when it exceeds a uint64. */
  function CalculateCut(amount: Uint64, cut: Uint64): (r: Option<Uint64>)
    ensures r.Some? <==> amount * cut < (MaxUint64 + 1) * BasisPointMultiplier
    ensures r.Some? ==> r.value * BasisPointMultiplier <= amount * cut < (r.value + 1) * BasisPointMultiplier
  {
    var q := amount * cut / BasisPointMultiplier;
    if q <= MaxUint64 then Some(q) else None
  }

  /** Multiplying both sides by the same factor keeps an inequality. */
  lemma MulMonotone(a: nat, b: nat, k: nat)
    requires a <= b
    ensures a * k <= b * k
  {
    assert b * k == a * k + (b - a) * k;
  }

  /** Dividing both sides by ten thousand keeps a non-strict inequality. */
  lemma DivMonotone(x: nat, y: nat)
    requires x <= y
    ensures x / BasisPointMultiplier <= y / BasisPointMultiplier
  {
  }

  /** At a rate of at most 100% the cut exists and never exceeds the amount. */
  lemma CutWithinAmount(amount: Uint64, cut: Uint64)
    requires cut <= BasisPointMultiplier
    ensures CalculateCut(amount, cut).Some?
    ensures CalculateCut(amount, cut).value <= amount
  {
    MulMonotone(cut, BasisPointMultiplier, amount);
    DivMonotone(amount * cut, amount * BasisPointMultiplier);
    assert amount * BasisPointMultiplier / BasisPointMultiplier == amount;
  }

  /** `WideRatio` can only fail when the rate is above 100%. */
  lemma CutFailsOnlyAboveFullRate(amount: Uint64, cut: Uint64)
    requires CalculateCut(amount, cut).None?
    ensures cut > BasisPointMultiplier
  {
    if cut <= BasisPointMultiplier {
      CutWithinAmount(amount, cut);
      assert false;
    }
  }

  /** A payout of nothing for nothing. */
  lemma CutOfZeroAmount(cut: Uint64)
    ensures CalculateCut(0, cut) == Some(0)
  {
  }

  /** A zero rate pays nothing. */
  lemma CutAtZeroRate(amount: Uint64)
    ensures CalculateCut(amount, 0) == Some(0)
  {
  }

  /** The full rate of 10000 basis points pays the whole amount. */
  lemma CutAtFullRate(amount: Uint64)
    ensures CalculateCut(amount, BasisPointMultiplier) == Some(amount)
  {
    assert amount * BasisPointMultiplier / BasisPointMultiplier == amount;
  }

  /** With the default rate, a payment of 1000 units pays 980 to the finder. */
  lemma CutAtDefaultRate()
    ensures CalculateCut(1000, DefaultCut) == Some(980)
  {
    assert 1000 * DefaultCut / BasisPointMultiplier == 980;
  }

  /** For a fixed rate, a smaller amount succeeds wherever the larger does, and never yields a larger cut. */
  lemma CutMonotoneInAmount(a1: Uint64, a2: Uint64, cut: Uint64)
    requires a1 <= a2
    requires CalculateCut(a2, cut).Some?
    ensures CalculateCut(a1, cut).Some?
    ensures CalculateCut(a1, cut).value <= CalculateCut(a2, cut).value
  {
    MulMonotone(a1, a2, cut);
    DivMonotone(a1 * cut, a2 * cut);
  }

  /** For a fixed amount, a smaller rate succeeds wherever the larger does, and never yields a larger cut. */
  lemma CutMonotoneInRate(amount: Uint64, c1: Uint64, c2: Uint64)
    requires c1 <= c2
    requires CalculateCut(amount, c2).Some?
    ensures CalculateCut(amount, c1).Some?
    ensures CalculateCut(amount, c1).value <= CalculateCut(amount, c2).value
  {
    MulMonotone(c1, c2, amount);
    assert amount * c1 <= amount * c2;
    DivMonotone(amount * c1, amount * c2);
  }

  /**
   * Since `set_cut` accepts any uint64, a rate above 100% makes the payout
   * larger than the payment as soon as the payment is at least 10000 units.
   */
  lemma CutAboveFullRateExceedsAmount(amount: Uint64, cut: Uint64)
    requires cut > BasisPointMultiplier && amount >= BasisPointMultiplier
    requires CalculateCut(amount, cut).Some?
    ensures CalculateCut(amount, cut).value > amount
  {
    MulMonotone(BasisPointMultiplier + 1, cut, amount);
    assert (BasisPointMultiplier + 1) * amount == amount * BasisPointMultiplier + amount;
    assert (amount + 1) * BasisPointMultiplier <= amount * cut;
    DivMonotone((amount + 1) * BasisPointMultiplier, amount * cut);
    assert (amount + 1) * BasisPointMultiplier / BasisPointMultiplier == amount + 1;
  }
}
