// How far the per-tier rounding can move a tiered total, for any tier list.
module RoundingBounds {
  import opened Numbers
  import opened UsagePricing
  import opened TieredPricing

  // The lines of the first k tiers before rounding.
  function ExactTotals(tiers: seq<PricingTier>, k: nat, quantity: real): real
    requires k <= |tiers|
  {
    if k == 0 then 0.0
    else
      ExactTotals(tiers, k - 1, quantity)
      + tiers[k - 1].Fee() + Times(Share(tiers, k - 1, quantity), tiers[k - 1].unitAmount)
  }

  function ExactTotal(tiers: seq<PricingTier>, quantity: real): real
    requires tiers != []
  {
    ExactTotals(tiers, VolumeIndex(tiers, quantity) + 1, quantity)
  }

  function TiersEntered(tiers: seq<PricingTier>, quantity: real): nat {
    |Breakdown(tiers, quantity)|
  }

  lemma {:induction false} PrefixRounding(tiers: seq<PricingTier>, quantity: real, k: nat)
    requires k <= |tiers|
    ensures Abs(Totals(tiers, k, quantity) - ExactTotals(tiers, k, quantity)) <= k as real / 2.0
  {
    if k > 0 {
      PrefixRounding(tiers, quantity, k - 1);
    }
  }

  // At most half a currency unit for each tier entered.
  lemma TieredRounding(tiers: seq<PricingTier>, quantity: real)
    requires tiers != [] && 0.0 < quantity
    ensures Abs(TieredTotal(tiers, quantity) - ExactTotal(tiers, quantity))
      <= TiersEntered(tiers, quantity) as real / 2.0
  {
    BreakdownIsSlices(tiers, quantity);
    TieredTotalIsTotals(tiers, quantity);
    PrefixRounding(tiers, quantity, TiersEntered(tiers, quantity));
  }

  // ---------- One common rate ----------

  predicate CommonRate(tiers: seq<PricingTier>, rate: real) {
    forall i | 0 <= i < |tiers| :: tiers[i].unitAmount == rate
  }

  lemma {:induction false} PrefixAtCommonRate(tiers: seq<PricingTier>, rate: real, quantity: real, k: nat)
    requires NoFees(tiers) && CommonRate(tiers, rate)
    requires 1 <= k <= |tiers| && Passed(tiers, k - 1, quantity)
    ensures ExactTotals(tiers, k, quantity) == Times(UpTo(quantity, tiers[k - 1].upTo), rate)
  {
    TimesAdds(Start(tiers, k - 1), Share(tiers, k - 1, quantity), rate);
    if k == 1 {
      TimesZero(rate);
      assert ExactTotals(tiers, 0, quantity) == 0.0;
    } else {
      PrefixAtCommonRate(tiers, rate, quantity, k - 1);
    }
  }

  // Splitting a single rate into tiers moves the price of what the tiers can hold by at most half a unit per
  // tier entered, plus the half unit by which the per-unit price itself was rounded.
  lemma TieredNearPerUnit(tiers: seq<PricingTier>, rate: real, quantity: real)
    requires tiers != [] && NoFees(tiers) && CommonRate(tiers, rate) && 0.0 < quantity
    ensures Abs(TieredTotal(tiers, quantity) - Amount(Priced(tiers, quantity), rate))
      <= (TiersEntered(tiers, quantity) + 1) as real / 2.0
  {
    TieredRounding(tiers, quantity);
    PrefixAtCommonRate(tiers, rate, quantity, VolumeIndex(tiers, quantity) + 1);
  }
}
