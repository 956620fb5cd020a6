// What flat amounts add to a price, for any tier list and any quantity.
module FlatAmounts {
  import opened Wrappers
  import opened UsagePricing
  import opened TieredPricing

  function WithoutFees(tiers: seq<PricingTier>): (bare: seq<PricingTier>)
    ensures |bare| == |tiers|
  {
    seq(|tiers|, i requires 0 <= i < |tiers| => tiers[i].(flatAmount := None))
  }

  function FlatAmount(tier: PricingTier): real {
    match tier.flatAmount
    case Some(amount) => amount
    case None => 0.0
  }

  // The flat amounts of the first k tiers.
  function FlatAmounts(tiers: seq<PricingTier>, k: nat): real
    requires k <= |tiers|
  {
    if k == 0 then 0.0 else FlatAmounts(tiers, k - 1) + FlatAmount(tiers[k - 1])
  }

  lemma SameTierWithoutFees(tiers: seq<PricingTier>, quantity: real)
    requires tiers != []
    ensures VolumeIndex(WithoutFees(tiers), quantity) == VolumeIndex(tiers, quantity)
  {
    var bare := WithoutFees(tiers);
    var n, m := VolumeIndex(tiers, quantity), VolumeIndex(bare, quantity);
    assert bare[n] == tiers[n].(flatAmount := None) && bare[m] == tiers[m].(flatAmount := None);
  }

  lemma {:induction false} TotalsWithoutFees(tiers: seq<PricingTier>, k: nat, quantity: real)
    requires k <= |tiers|
    ensures Totals(tiers, k, quantity) == Totals(WithoutFees(tiers), k, quantity) + FlatAmounts(tiers, k)
  {
    if k > 0 {
      TotalsWithoutFees(tiers, k - 1, quantity);
      assert Start(WithoutFees(tiers), k - 1) == Start(tiers, k - 1);
    }
  }

  // Tiered pricing adds the flat amount of every tier that the loop enters, whatever share the tier takes.
  lemma TieredFlatAmounts(tiers: seq<PricingTier>, quantity: real)
    ensures |Breakdown(tiers, quantity)| <= |tiers|
    ensures TieredTotal(tiers, quantity)
      == TieredTotal(WithoutFees(tiers), quantity) + FlatAmounts(tiers, |Breakdown(tiers, quantity)|)
  {
    if tiers != [] && 0.0 < quantity {
      BreakdownIsSlices(tiers, quantity);
      SameTierWithoutFees(tiers, quantity);
      TieredTotalIsTotals(tiers, quantity);
      TieredTotalIsTotals(WithoutFees(tiers), quantity);
      TotalsWithoutFees(tiers, VolumeIndex(tiers, quantity) + 1, quantity);
    } else {
      assert Breakdown(tiers, quantity) == Breakdown(WithoutFees(tiers), quantity) == [];
    }
  }

  // Volume pricing adds the flat amount of the one tier that it picks.
  lemma VolumeFlatAmount(tiers: seq<PricingTier>, quantity: real)
    requires tiers != []
    ensures VolumeTotal(tiers, quantity)
      == VolumeTotal(WithoutFees(tiers), quantity) + FlatAmount(tiers[VolumeIndex(tiers, quantity)])
  {
    SameTierWithoutFees(tiers, quantity);
  }

  // Taking the flat amounts out of a configuration changes the price by those of the tiers reported, all of
  // them under tiered and the only one under volume pricing, and changes nothing under the other models.
  lemma FlatAmountsAdded(quantity: real, config: UsagePricingConfig, metricKey: string)
    requires config.HasTiers() && !config.model.Unknown?
    ensures var tiers := config.tiers.value;
      var price := Price(quantity, config, metricKey).value;
      var bare := Price(quantity, config.(tiers := Some(WithoutFees(tiers))), metricKey).value;
      match config.model
      case Tiered =>
        && price.tierBreakdown.Some? && |price.tierBreakdown.value| <= |tiers|
        && price.totalPrice - bare.totalPrice == FlatAmounts(tiers, |price.tierBreakdown.value|)
      case Volume =>
        && price.tierBreakdown.Some? && |price.tierBreakdown.value| == 1
        && price.tierBreakdown.value[0].tierIndex < |tiers|
        && price.totalPrice - bare.totalPrice == FlatAmount(tiers[price.tierBreakdown.value[0].tierIndex])
      case _ => price == bare
  {
    hide TieredTotal;
    hide VolumeTotal;
    TieredFlatAmounts(config.tiers.value, quantity);
    VolumeFlatAmount(config.tiers.value, quantity);
  }
}
