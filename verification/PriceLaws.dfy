// What every price says about its request, and how its parts fit together, under any model.
module PriceLaws {
  import opened Wrappers
  import opened Numbers
  import opened UsagePricing
  import opened TieredPricing
  import opened FlatAmounts

  // The model that a price is reported under: without tiers the two tier models fall back to per-unit pricing.
  function ReportedModel(config: UsagePricingConfig): PricingModel {
    if (config.model.Tiered? || config.model.Volume?) && (config.tiers == None || config.tiers == Some([])) then
      PerUnit
    else
      config.model
  }

  // Every price repeats its request, and is an error exactly for an unknown model.
  lemma PriceRepeatsRequest(quantity: real, config: UsagePricingConfig, metricKey: string)
    ensures Price(quantity, config, metricKey).Err? <==> config.model.Unknown?
    ensures config.model.Unknown? ==>
      Price(quantity, config, metricKey).error == "Unknown pricing model: " + config.model.name
    ensures Price(quantity, config, metricKey).Ok? ==>
      var price := Price(quantity, config, metricKey).value;
      && price.metricKey == metricKey && price.quantity == quantity && price.currency == config.currency
      && price.pricingModel == ReportedModel(config)
      && (price.tierBreakdown.Some? <==> ReportedModel(config).Tiered? || ReportedModel(config).Volume?)
  {
  }

  // The lines reported add up to the total, and the unit price reported explains it: exactly under tiered
  // pricing, up to the rounding of the total under per-unit pricing, and up to the flat amount of its one
  // line and that rounding under volume pricing. A flat price is its amount, with a unit price of 0.
  lemma PriceIsExplained(quantity: real, config: UsagePricingConfig, metricKey: string)
    requires Price(quantity, config, metricKey).Ok?
    ensures var price := Price(quantity, config, metricKey).value;
      && (price.tierBreakdown.Some? ==> price.totalPrice == SumOfTotals(price.tierBreakdown.value))
      && match price.pricingModel
         case Flat => price.totalPrice == config.amount && price.unitPrice == 0.0
         case PerUnit =>
           && price.unitPrice == config.amount && IsInteger(price.totalPrice)
           && Abs(price.totalPrice - Times(quantity, config.amount)) <= 0.5
         case Tiered =>
           if quantity > 0.0 then Times(price.unitPrice, quantity) == price.totalPrice else price.unitPrice == 0.0
         case Volume =>
           && price.tierBreakdown.Some? && |price.tierBreakdown.value| == 1
           && var line := price.tierBreakdown.value[0];
           && line.tierIndex < |config.tiers.value|
           && line.from == 0.0 && line.quantity == quantity && line.unitPrice == price.unitPrice
           && var tier := config.tiers.value[line.tierIndex];
           && line.to == tier.upTo && line.unitPrice == tier.unitAmount
           && Abs(price.totalPrice - FlatAmount(tier) - Times(quantity, price.unitPrice)) <= 0.5
         case Unknown(_) => false
  {
    var price := Price(quantity, config, metricKey).value;
    if price.pricingModel.Tiered? {
      if quantity > 0.0 {
        QuotientTimes(price.totalPrice, quantity);
      }
    } else if price.pricingModel.Volume? {
      assert price.tierBreakdown.value[..0] == [];
    }
  }

  lemma QuotientTimes(total: real, quantity: real)
    requires quantity > 0.0
    ensures Times(total / quantity, quantity) == total
  {
  }

  // One unbounded tier at a rate: tiered, volume and per-unit pricing come to the same, for any quantity.
  lemma OneTierIsPerUnit(quantity: real, rate: real, config: UsagePricingConfig, metricKey: string)
    requires 0.0 <= quantity
    ensures var tiers := Some([PricingTier(None, rate, None)]);
      Price(quantity, config.(model := Tiered, tiers := tiers), metricKey).value.totalPrice
      == Price(quantity, config.(model := Volume, tiers := tiers), metricKey).value.totalPrice
      == Price(quantity, config.(model := PerUnit, amount := rate), metricKey).value.totalPrice
  {
    var tiers := [PricingTier(None, rate, None)];
    TimesZero(rate);
    if 0.0 < quantity {
      TieredTotalIsTotals(tiers, quantity);
      assert Totals(tiers, 1, quantity) == Totals(tiers, 0, quantity) + Amount(quantity, rate);
    }
  }
}
