// What both subscription services report of a subscription, and what the lines of a preview account for.
module SubscriptionLaws {
  import opened Wrappers
  import opened Numbers
  import opened UsagePricing
  import opened PriceLaws
  import opened Subscriptions
  import opened SubscriptionUsage
  import opened HybridPricing

  // No such subscription in the workspace, or none with a pricing.
  predicate NothingToPrice(found: Option<Subscription>, workspaceId: string) {
    match found
    case None => true
    case Some(subscription) =>
      || subscription.workspaceId != workspaceId
      || subscription.offerConfig == None
      || subscription.offerConfig.value.pricing == None
  }

  // The pricing's own currency, else the workspace's, else US dollars; an empty one counts as missing.
  predicate CurrencyApplies(currency: string, pricing: Pricing, workspaceDefault: Option<string>) {
    && (pricing.currency != "" ==> currency == pricing.currency)
    && (pricing.currency == "" && workspaceDefault.Some? && workspaceDefault.value != "" ==>
          currency == workspaceDefault.value)
    && (pricing.currency == "" && (workspaceDefault == None || workspaceDefault == Some("")) ==> currency == "usd")
  }

  // Of a subscription of another workspace neither service reports anything, whatever it holds. Otherwise both
  // report its own data and the currency that applies, and charge usage only if the pricing is metered or there
  // are components.
  lemma SubscriptionIsReported(
      found: Option<Subscription>, workspaceId: string, workspaceDefault: Option<string>, usage: Usage)
    ensures SubscriptionPrice(found, workspaceId, workspaceDefault, usage) == Ok(None)
      <==> NothingToPrice(found, workspaceId)
    ensures HybridPrice(found, workspaceId, workspaceDefault, usage) == Ok(None)
      <==> NothingToPrice(found, workspaceId)
    ensures match SubscriptionPrice(found, workspaceId, workspaceDefault, usage)
      case Ok(Some(price)) =>
        && var pricing := found.value.offerConfig.value.pricing.value;
        && price.subscriptionId == found.value.id && price.customerId == found.value.customerId
        && price.periodStart == found.value.periodStart && price.periodEnd == found.value.periodEnd
        && CurrencyApplies(price.currency, pricing, workspaceDefault)
        && price.basePrice
           == (if pricing.usageType == Some(Metered) && pricing.model != Flat then 0.0 else pricing.amount)
        && price.totalUsagePrice == SumOfCharges(price.usageCharges)
        && price.totalPrice == price.basePrice + price.totalUsagePrice
        && (pricing.usageType != Some(Metered) ==> price.usageCharges == [] && price.totalPrice == pricing.amount)
      case _ => true
    ensures match HybridPrice(found, workspaceId, workspaceDefault, usage)
      case Ok(Some(price)) =>
        && var config := found.value.offerConfig.value;
        && var pricing := config.pricing.value;
        && price.subscriptionId == found.value.id && price.customerId == found.value.customerId
        && price.periodStart == found.value.periodStart && price.periodEnd == found.value.periodEnd
        && CurrencyApplies(price.currency, pricing, workspaceDefault)
        && price.basePrice == (if pricing.usageType == Some(Metered) then 0.0 else pricing.amount)
        && price.totalUsagePrice == SumOfCalculations(price.usageComponents)
        && price.totalPrice == price.basePrice + price.totalUsagePrice
        && (pricing.usageType != Some(Metered) && config.usageComponents == [] ==>
              price.usageComponents == [] && price.totalPrice == pricing.amount)
        && Some(price.interval) == (if pricing.interval in {None, Some("")} then Some("month") else pricing.interval)
        && Some(price.intervalCount)
           == (if pricing.intervalCount in {None, Some(0)} then Some(1) else pricing.intervalCount)
      case _ => true
  {
    hide Price;
  }

  // ---------- The usage in a preview ----------

  // All usage recorded for these metrics, where there is any.
  function Recorded(keys: seq<string>, usage: Usage): real {
    if keys == [] then 0.0
    else Recorded(keys[..|keys| - 1], usage) + Max(0.0, usage(keys[|keys| - 1]))
  }

  function SumOfCharged(charges: seq<UsagePriceCalculation>): real {
    if charges == [] then 0.0 else SumOfCharged(charges[..|charges| - 1]) + charges[|charges| - 1].quantity
  }

  predicate IsPriceUnder(config: UsagePricingConfig, charge: UsagePriceCalculation) {
    Price(charge.quantity, config, charge.metricKey) == Ok(charge) && charge.quantity > 0.0
  }

  lemma PriceIsCharge(quantity: real, config: UsagePricingConfig, key: string)
    requires quantity > 0.0 && Price(quantity, config, key).Ok?
    ensures var charge := Price(quantity, config, key).value;
      IsPriceUnder(config, charge) && charge.quantity == quantity && charge.metricKey == key
  {
    PriceRepeatsRequest(quantity, config, key);
    hide Price;
  }

  lemma ChargedOneMore(charges: seq<UsagePriceCalculation>, charge: UsagePriceCalculation)
    ensures SumOfCharged(charges + [charge]) == SumOfCharged(charges) + charge.quantity
  {
    assert (charges + [charge])[..|charges|] == charges;
  }

  lemma {:induction false} ChargesArePrices(keys: seq<string>, config: UsagePricingConfig, usage: Usage)
    requires MeteredCharges(keys, config, usage).Ok?
    ensures var charges := MeteredCharges(keys, config, usage).value;
      && SumOfCharged(charges) == Recorded(keys, usage)
      && forall i | 0 <= i < |charges| ::
           IsPriceUnder(config, charges[i]) && charges[i].quantity == usage(charges[i].metricKey)
  {
    hide Price;
    hide IsPriceUnder;
    hide SumOfCharged;
    if keys == [] {
      NothingCharged();
    } else {
      var n := |keys| - 1;
      ChargesArePrices(keys[..n], config, usage);
      if usage(keys[n]) > 0.0 {
        PriceIsCharge(usage(keys[n]), config, keys[n]);
        ChargedOneMore(
          MeteredCharges(keys[..n], config, usage).value, Price(usage(keys[n]), config, keys[n]).value);
      }
    }
  }

  lemma NothingCharged()
    ensures SumOfCharged([]) == 0.0
  {
  }

  lemma {:induction false} UsageInLines(charges: seq<UsagePriceCalculation>)
    ensures SumOfUsage(UsageLines(charges)) == SumOfCharged(charges)
  {
    if charges == [] {
      assert UsageLines(charges) == [];
    } else {
      var n := |charges| - 1;
      UsageInLines(charges[..n]);
      assert UsageLines(charges)[..n] == UsageLines(charges[..n]);
    }
  }

  // A usage line comes to quantity times unit amount: exactly under tiered pricing and up to the rounding of the
  // amount under per-unit pricing; under flat pricing units are free.
  predicate MultipliesOut(line: LineItem, model: PricingModel) {
    match model
    case Flat => line.unitAmount == 0.0
    case PerUnit => Abs(line.amount - Times(line.quantity, line.unitAmount)) <= 0.5
    case Tiered => Times(line.unitAmount, line.quantity) == line.amount
    case _ => true
  }

  predicate IsLineOf(line: LineItem, charge: UsagePriceCalculation) {
    && line.kind == UsageLine && line.description == charge.metricKey + " usage"
    && line.quantity == charge.quantity && line.amount == charge.totalPrice
  }

  lemma LineMultipliesOut(config: UsagePricingConfig, charge: UsagePriceCalculation)
    requires IsPriceUnder(config, charge)
    ensures MultipliesOut(UsageLineOf(charge), ReportedModel(config))
    ensures IsLineOf(UsageLineOf(charge), charge)
  {
    PriceRepeatsRequest(charge.quantity, config, charge.metricKey);
    PriceIsExplained(charge.quantity, config, charge.metricKey);
    hide Price;
  }

  // The configuration that metered usage is priced with.
  function Configured(pricing: Pricing): UsagePricingConfig {
    UsagePricingConfig(pricing.model, pricing.currency, pricing.amount, pricing.tiers)
  }

  // A preview is a base line for a positive base price and then one line for each charge, in order. Each line
  // shows its charge and comes to quantity times unit amount.
  lemma PreviewShowsCharges(price: SubscriptionUsagePricing, config: UsagePricingConfig)
    requires forall charge | charge in price.usageCharges :: IsPriceUnder(config, charge)
    ensures var lines, first := PreviewLines(price), if price.basePrice > 0.0 then 1 else 0;
      && |lines| == first + |price.usageCharges|
      && (first == 1 ==>
            lines[0] == LineItem("Base subscription", 1.0, price.basePrice, price.basePrice, Base, None))
      && forall i | 0 <= i < |price.usageCharges| ::
           IsLineOf(lines[first + i], price.usageCharges[i]) && MultipliesOut(lines[first + i], ReportedModel(config))
  {
    hide IsLineOf;
    hide MultipliesOut;
    hide IsPriceUnder;
    hide UsageLineOf;
    var lines, first := PreviewLines(price), if price.basePrice > 0.0 then 1 else 0;
    forall i | 0 <= i < |price.usageCharges|
      ensures IsLineOf(lines[first + i], price.usageCharges[i])
      ensures MultipliesOut(lines[first + i], ReportedModel(config))
    {
      LineMultipliesOut(config, price.usageCharges[i]);
      assert lines[first + i] == UsageLineOf(price.usageCharges[i]);
    }
  }

  // With metered pricing the charges are priced under its own configuration, and the usage lines of a preview
  // account for all usage recorded for the entitlements; otherwise for none.
  lemma PreviewAccountsForUsage(
      found: Option<Subscription>, workspaceId: string, workspaceDefault: Option<string>, usage: Usage)
    requires SubscriptionPrice(found, workspaceId, workspaceDefault, usage).Ok?
    requires SubscriptionPrice(found, workspaceId, workspaceDefault, usage).value.Some?
    ensures var price := SubscriptionPrice(found, workspaceId, workspaceDefault, usage).value.value;
      var config := found.value.offerConfig.value;
      var pricing := config.pricing.value;
      && SumOfUsage(PreviewLines(price))
         == (if pricing.usageType == Some(Metered) then Recorded(config.entitlements, usage) else 0.0)
      && (forall charge | charge in price.usageCharges ::
            IsPriceUnder(Configured(pricing), charge) && charge.quantity == usage(charge.metricKey))
  {
    hide Price;
    hide IsPriceUnder;
    var price := SubscriptionPrice(found, workspaceId, workspaceDefault, usage).value.value;
    var pricing := found.value.offerConfig.value.pricing.value;
    var baseLines := if price.basePrice > 0.0 then [PreviewBaseLine(price.basePrice)] else [];
    assert SumOfUsage(baseLines) == 0.0 by {
      if price.basePrice > 0.0 {
        assert baseLines[..0] == [];
      }
    }
    UsageInLines(price.usageCharges);
    SumsAdd(baseLines, UsageLines(price.usageCharges));
    if pricing.IsMetered() {
      ChargesArePrices(found.value.offerConfig.value.entitlements, pricing.UsageConfig(), usage);
    }
  }
}
