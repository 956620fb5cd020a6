// What hybrid invoices conserve, where the two subscription services agree, and what estimates promise.
module InvoiceLaws {
  import opened Wrappers
  import opened Numbers
  import opened UsagePricing
  import opened TieredPricing
  import opened PriceMonotonicity
  import opened PriceLaws
  import opened Subscriptions
  import opened SubscriptionUsage
  import opened HybridPricing

  // ---------- Every calculation that a hybrid price is made of ----------

  // Nothing is charged for usage that is not billable.
  predicate IsCalculation(c: ComponentCalculation) {
    && c.billableQuantity == Max(0.0, c.quantity - c.includedQuantity)
    && (c.billableQuantity == 0.0 ==> c.totalPrice == 0.0)
  }

  // A quantity to bill is priced under a configuration; without one its amount is shown as the unit price.
  predicate IsPricedBy(c: ComponentCalculation, config: UsagePricingConfig) {
    if c.billableQuantity > 0.0 then
      match Price(c.billableQuantity, config, c.metricKey)
      case Ok(price) =>
        c.unitPrice == price.unitPrice && c.totalPrice == price.totalPrice && c.tierBreakdown == price.tierBreakdown
      case Err(_) => false
    else
      c.unitPrice == config.amount && c.totalPrice == 0.0 && c.tierBreakdown.None?
  }

  function ConfigOfComponent(component: UsageComponent): UsagePricingConfig {
    UsagePricingConfig(component.model, component.currency, component.amount, component.tiers)
  }

  function ConfigOfPricing(pricing: Pricing): UsagePricingConfig {
    UsagePricingConfig(pricing.model, pricing.currency, pricing.amount, pricing.tiers)
  }

  // What a component is configured to include.
  function IncludedField(component: UsageComponent): real {
    match component.includedQuantity
    case Some(included) => included
    case None => 0.0
  }

  lemma {:induction false} ComponentsAreCalculations(components: seq<UsageComponent>, usage: Usage)
    requires ComponentCharges(components, usage).Ok?
    ensures var charges := ComponentCharges(components, usage).value;
      && |charges| == |components|
      && forall i | 0 <= i < |charges| ::
           && IsCalculation(charges[i])
           && charges[i].metricKey == components[i].metricKey
           && charges[i].quantity == usage(components[i].metricKey)
           && charges[i].includedQuantity == IncludedField(components[i])
           && charges[i].displayName == components[i].displayName
           && IsPricedBy(charges[i], ConfigOfComponent(components[i]))
  {
    if components != [] {
      ComponentsAreCalculations(components[..|components| - 1], usage);
    }
  }

  // The entitlements that are charged on their own: with usage, and not covered by a component.
  function Uncovered(keys: seq<string>, components: seq<UsageComponent>, usage: Usage): seq<string> {
    if keys == [] then []
    else
      Uncovered(keys[..|keys| - 1], components, usage)
      + if IsCovered(components, keys[|keys| - 1]) || usage(keys[|keys| - 1]) <= 0.0 then []
        else [keys[|keys| - 1]]
  }

  lemma {:induction false} UncoveredOnly(keys: seq<string>, components: seq<UsageComponent>, usage: Usage)
    ensures forall key | key in Uncovered(keys, components, usage) ::
      key in keys && !IsCovered(components, key) && usage(key) > 0.0
  {
    if keys != [] {
      UncoveredOnly(keys[..|keys| - 1], components, usage);
    }
  }

  lemma EntitlementIsCalculation(config: UsagePricingConfig, key: string, quantity: real)
    requires quantity > 0.0 && EntitlementCharge(config, key, quantity).Ok?
    ensures var c := EntitlementCharge(config, key, quantity).value;
      && IsCalculation(c) && IsPricedBy(c, config)
      && c.metricKey == key && c.displayName == key && c.quantity == quantity && c.includedQuantity == 0.0
  {
    hide Price;
  }

  lemma {:induction false} EntitlementsAreCalculations(
      keys: seq<string>, components: seq<UsageComponent>, config: UsagePricingConfig, usage: Usage)
    requires EntitlementCharges(keys, components, config, usage).Ok?
    ensures var charges, charged :=
        EntitlementCharges(keys, components, config, usage).value, Uncovered(keys, components, usage);
      && |charges| == |charged|
      && forall i | 0 <= i < |charges| ::
           && IsCalculation(charges[i])
           && charges[i].metricKey == charged[i]
           && charges[i].quantity == usage(charged[i])
           && charges[i].includedQuantity == 0.0
           && charges[i].displayName == charged[i]
           && IsPricedBy(charges[i], config)
  {
    hide EntitlementCharge;
    hide IsCalculation;
    hide IsPricedBy;
    hide IsCovered;
    if keys != [] {
      var n := |keys| - 1;
      EntitlementsAreCalculations(keys[..n], components, config, usage);
      if !IsCovered(components, keys[n]) && usage(keys[n]) > 0.0 {
        EntitlementIsCalculation(config, keys[n], usage(keys[n]));
      }
    }
  }

  function ChargedKeys(config: OfferConfig, pricing: Pricing, usage: Usage): seq<string> {
    seq(|config.usageComponents|, i requires 0 <= i < |config.usageComponents| =>
      config.usageComponents[i].metricKey)
    + if pricing.IsMetered() then Uncovered(config.entitlements, config.usageComponents, usage) else []
  }

  lemma ChargesAreCalculations(config: OfferConfig, pricing: Pricing, usage: Usage)
    requires AllCharges(config, pricing, usage).Ok?
    ensures var charges, keys := AllCharges(config, pricing, usage).value, ChargedKeys(config, pricing, usage);
      && |charges| == |keys|
      && forall i | 0 <= i < |charges| ::
           && IsCalculation(charges[i])
           && charges[i].metricKey == keys[i]
           && charges[i].quantity == usage(keys[i])
           && charges[i].includedQuantity
              == (if i < |config.usageComponents| then IncludedField(config.usageComponents[i]) else 0.0)
           && charges[i].displayName
              == (if i < |config.usageComponents| then config.usageComponents[i].displayName else keys[i])
           && IsPricedBy(
                charges[i],
                if i < |config.usageComponents| then ConfigOfComponent(config.usageComponents[i])
                else ConfigOfPricing(pricing))
  {
    ComponentsAreCalculations(config.usageComponents, usage);
    if pricing.IsMetered() {
      EntitlementsAreCalculations(config.entitlements, config.usageComponents, pricing.UsageConfig(), usage);
    }
  }

  // ---------- Conservation of money and quantity ----------

  lemma SumOfOneMore(calculations: seq<ComponentCalculation>, c: ComponentCalculation)
    ensures SumOfCalculations(calculations + [c]) == SumOfCalculations(calculations) + c.totalPrice
  {
    assert (calculations + [c])[..|calculations|] == calculations;
  }

  lemma {:induction false} SumOfBoth(left: seq<ComponentCalculation>, right: seq<ComponentCalculation>)
    ensures SumOfCalculations(left + right) == SumOfCalculations(left) + SumOfCalculations(right)
  {
    if right == [] {
      assert left + right == left;
    } else {
      var n := |right| - 1;
      assert left + right == (left + right[..n]) + [right[n]];
      SumOfOneMore(left + right[..n], right[n]);
      SumOfBoth(left, right[..n]);
    }
  }

  function SumOfRecorded(components: seq<ComponentCalculation>): real {
    if components == [] then 0.0
    else SumOfRecorded(components[..|components| - 1]) + components[|components| - 1].quantity
  }

  lemma OneLine(line: LineItem)
    ensures SumOfAmounts([line]) == line.amount
    ensures SumOfUsage([line]) == if line.kind.Base? then 0.0 else line.quantity
  {
    assert [line][..0] == [];
  }

  lemma IncludedLinesHold(c: ComponentCalculation)
    ensures SumOfAmounts(IncludedLines(c)) == 0.0
    ensures SumOfUsage(IncludedLines(c))
      == if c.includedQuantity > 0.0 && c.quantity > 0.0 then Min(c.quantity, c.includedQuantity) else 0.0
  {
    OneLine(IncludedLine(c));
  }

  lemma ChargedLinesHold(c: ComponentCalculation)
    requires IsCalculation(c)
    ensures SumOfAmounts(ChargedLines(c)) == c.totalPrice
    ensures SumOfUsage(ChargedLines(c)) == c.billableQuantity
    ensures forall i | 0 <= i < |ChargedLines(c)| :: ChargedLines(c)[i].kind.Overage?
  {
    OneLine(OverageLine(c));
  }

  // The included and the overage line of one component.
  lemma ComponentConserves(c: ComponentCalculation)
    requires IsCalculation(c)
    ensures SumOfAmounts(ComponentLines(c)) == c.totalPrice
    ensures 0.0 <= c.quantity ==> (SumOfUsage(ComponentLines(c)) == c.quantity <==> 0.0 <= c.includedQuantity)
    ensures forall i | 0 <= i < |ComponentLines(c)| ::
      ComponentLines(c)[i].kind.Included? || ComponentLines(c)[i].kind.Overage?
  {
    IncludedLinesHold(c);
    ChargedLinesHold(c);
    SumsAdd(IncludedLines(c), ChargedLines(c));
    hide SumOfAmounts;
    hide SumOfUsage;
    hide ChargedLines;
  }

  lemma UsageConserves(c: ComponentCalculation)
    requires IsCalculation(c) && IsNonNegative(c)
    ensures SumOfUsage(ComponentLines(c)) == c.quantity
  {
    ComponentConserves(c);
  }

  lemma {:induction false} ComponentsConserve(components: seq<ComponentCalculation>)
    requires forall i | 0 <= i < |components| :: IsCalculation(components[i])
    ensures SumOfAmounts(AllComponentLines(components)) == SumOfCalculations(components)
    ensures forall line | line in AllComponentLines(components) :: line.kind.Included? || line.kind.Overage?
  {
    hide ComponentLines;
    hide IsCalculation;
    if components != [] {
      var n := |components| - 1;
      ComponentsConserve(components[..n]);
      ComponentConserves(components[n]);
      SumsAdd(AllComponentLines(components[..n]), ComponentLines(components[n]));
    }
  }

  predicate IsNonNegative(c: ComponentCalculation) {
    0.0 <= c.quantity && 0.0 <= c.includedQuantity
  }

  lemma {:induction false} QuantitiesConserve(components: seq<ComponentCalculation>)
    requires forall i | 0 <= i < |components| :: IsCalculation(components[i]) && IsNonNegative(components[i])
    ensures SumOfUsage(AllComponentLines(components)) == SumOfRecorded(components)
  {
    hide IsCalculation;
    hide IsNonNegative;
    hide ComponentLines;
    if components != [] {
      var n := |components| - 1;
      QuantitiesConserve(components[..n]);
      UsageConserves(components[n]);
      SumsAdd(AllComponentLines(components[..n]), ComponentLines(components[n]));
    }
  }

  // A line that stands for part of a component's usage: what is included of it, for nothing, or what is billed.
  predicate IsLineFor(line: LineItem, c: ComponentCalculation) {
    && line.metricKey == Some(c.metricKey)
    && 0.0 < line.quantity <= c.quantity - (if line.kind.Overage? then c.includedQuantity else 0.0)
    && match line.kind
       case Included =>
         line.description == c.displayName + " - included" && line.unitAmount == 0.0 == line.amount
       case Overage =>
         && line.description == c.displayName + " - overage"
         && line.quantity == c.billableQuantity && line.unitAmount == c.unitPrice && line.amount == c.totalPrice
       case _ => false
  }

  lemma LinesOfComponent(c: ComponentCalculation)
    requires IsCalculation(c)
    ensures forall line | line in ComponentLines(c) :: IsLineFor(line, c)
  {
  }

  lemma {:induction false} LinesOfComponents(components: seq<ComponentCalculation>)
    requires forall i | 0 <= i < |components| :: IsCalculation(components[i])
    ensures forall line | line in AllComponentLines(components) ::
      exists i | 0 <= i < |components| :: IsLineFor(line, components[i])
  {
    hide IsCalculation;
    hide IsLineFor;
    hide ComponentLines;
    if components != [] {
      var n := |components| - 1;
      LinesOfComponents(components[..n]);
      LinesOfComponent(components[n]);
      forall line | line in AllComponentLines(components)
        ensures exists i | 0 <= i < |components| :: IsLineFor(line, components[i])
      {
        if line in AllComponentLines(components[..n]) {
          var i :| 0 <= i < n && IsLineFor(line, components[..n][i]);
          assert IsLineFor(line, components[i]);
        } else {
          assert IsLineFor(line, components[n]);
        }
      }
    }
  }

  // Every line of an invoice is the base line, or stands for part of some component's usage and is not empty.
  lemma InvoiceLinesStandFor(
      found: Option<Subscription>, workspaceId: string, workspaceDefault: Option<string>, usage: Usage)
    requires HybridPrice(found, workspaceId, workspaceDefault, usage).Ok?
    requires HybridPrice(found, workspaceId, workspaceDefault, usage).value.Some?
    ensures var pricing := HybridPrice(found, workspaceId, workspaceDefault, usage).value.value;
      forall line | line in InvoiceLines(pricing) ::
        || line == LineItem(
             "Base subscription (" + pricing.interval + "ly)", 1.0, pricing.basePrice, pricing.basePrice, Base, None)
        || exists i | 0 <= i < |pricing.usageComponents| :: IsLineFor(line, pricing.usageComponents[i])
  {
    hide IsLineFor;
    hide AllComponentLines;
    var config := found.value.offerConfig.value;
    ChargesAreCalculations(config, config.pricing.value, usage);
    LinesOfComponents(HybridPrice(found, workspaceId, workspaceDefault, usage).value.value.usageComponents);
  }

  lemma InvoiceOf(pricing: HybridPricingResult)
    requires forall i | 0 <= i < |pricing.usageComponents| :: IsCalculation(pricing.usageComponents[i])
    ensures SumOfAmounts(InvoiceLines(pricing))
      == Max(0.0, pricing.basePrice) + SumOfCalculations(pricing.usageComponents)
    ensures SumOfUsage(InvoiceLines(pricing)) == SumOfUsage(AllComponentLines(pricing.usageComponents))
    ensures forall line | line in InvoiceLines(pricing) :: !line.kind.UsageLine?
  {
    var baseLines := if pricing.basePrice > 0.0 then [BaseLine(pricing.basePrice, pricing.interval)] else [];
    OneLine(BaseLine(pricing.basePrice, pricing.interval));
    SumsAdd(baseLines, AllComponentLines(pricing.usageComponents));
    ComponentsConserve(pricing.usageComponents);
  }

  // For every subscription the invoice lines add up to the total price exactly when the base price is not
  // negative, and no line is a plain usage line.
  lemma InvoiceConservesMoney(
      found: Option<Subscription>, workspaceId: string, workspaceDefault: Option<string>, usage: Usage)
    requires HybridPrice(found, workspaceId, workspaceDefault, usage).Ok?
    requires HybridPrice(found, workspaceId, workspaceDefault, usage).value.Some?
    ensures var pricing := HybridPrice(found, workspaceId, workspaceDefault, usage).value.value;
      && (SumOfAmounts(InvoiceLines(pricing)) == pricing.totalPrice <==> 0.0 <= pricing.basePrice)
      && (forall line | line in InvoiceLines(pricing) :: !line.kind.UsageLine?)
  {
    var config := found.value.offerConfig.value;
    ChargesAreCalculations(config, config.pricing.value, usage);
    InvoiceOf(HybridPrice(found, workspaceId, workspaceDefault, usage).value.value);
  }

  // With no negative usage and no negative included quantity, the lines account for all recorded usage.
  lemma InvoiceConservesQuantity(
      found: Option<Subscription>, workspaceId: string, workspaceDefault: Option<string>, usage: Usage)
    requires HybridPrice(found, workspaceId, workspaceDefault, usage).Ok?
    requires HybridPrice(found, workspaceId, workspaceDefault, usage).value.Some?
    requires forall key :: 0.0 <= usage(key)
    requires forall component | component in found.value.offerConfig.value.usageComponents ::
      component.includedQuantity.Some? ==> 0.0 <= component.includedQuantity.value
    ensures var pricing := HybridPrice(found, workspaceId, workspaceDefault, usage).value.value;
      SumOfUsage(InvoiceLines(pricing)) == SumOfRecorded(pricing.usageComponents)
  {
    hide IsPricedBy;
    hide IsCalculation;
    hide InvoiceLines;
    hide AllComponentLines;
    var config := found.value.offerConfig.value;
    var pricing := HybridPrice(found, workspaceId, workspaceDefault, usage).value.value;
    ChargesAreCalculations(config, config.pricing.value, usage);
    InvoiceOf(pricing);
    QuantitiesConserve(pricing.usageComponents);
  }

  // ---------- No metric is charged twice ----------

  predicate Distinct(keys: seq<string>) {
    forall i, j | 0 <= i < j < |keys| :: keys[i] != keys[j]
  }

  predicate DistinctMetrics(charges: seq<ComponentCalculation>) {
    forall i, j | 0 <= i < j < |charges| :: charges[i].metricKey != charges[j].metricKey
  }

  predicate DistinctComponents(components: seq<UsageComponent>) {
    forall i, j | 0 <= i < j < |components| :: components[i].metricKey != components[j].metricKey
  }

  // An entitlement never repeats a component's metric, so repetition can only come from the configuration.
  lemma MetricsChargedOnce(config: OfferConfig, pricing: Pricing, usage: Usage)
    requires AllCharges(config, pricing, usage).Ok?
    ensures DistinctMetrics(AllCharges(config, pricing, usage).value)
      <==> && DistinctComponents(config.usageComponents)
           && (pricing.IsMetered() ==> Distinct(Uncovered(config.entitlements, config.usageComponents, usage)))
  {
    hide IsCalculation;
    hide IsPricedBy;
    hide IncludedField;
    var charges := AllCharges(config, pricing, usage).value;
    var keys := ChargedKeys(config, pricing, usage);
    var n := |config.usageComponents|;
    ChargesAreCalculations(config, pricing, usage);
    var uncovered := Uncovered(config.entitlements, config.usageComponents, usage);
    UncoveredOnly(config.entitlements, config.usageComponents, usage);
    assert forall i | 0 <= i < n :: keys[i] == config.usageComponents[i].metricKey;
    if pricing.IsMetered() {
      assert |keys| == n + |uncovered|;
      assert forall i | n <= i < |keys| :: keys[i] == uncovered[i - n];
      assert forall i | 0 <= i < |uncovered| :: uncovered[i] == keys[n + i];
    }
    assert DistinctMetrics(charges) <==> Distinct(keys);
    forall i, j | 0 <= i < n <= j < |keys|
      ensures keys[i] != keys[j]
    {
      assert uncovered[j - n] in uncovered;
      assert !IsCovered(config.usageComponents, keys[j]);
    }
    if Distinct(keys) {
      assert forall i, j | 0 <= i < j < n :: keys[i] != keys[j];
    }
  }

  lemma {:induction false} UncoveredDistinct(keys: seq<string>, components: seq<UsageComponent>, usage: Usage)
    requires Distinct(keys)
    ensures Distinct(Uncovered(keys, components, usage))
  {
    if keys != [] {
      var n := |keys| - 1;
      UncoveredDistinct(keys[..n], components, usage);
      UncoveredOnly(keys[..n], components, usage);
      var before := Uncovered(keys[..n], components, usage);
      forall i | 0 <= i < |before|
        ensures before[i] != keys[n]
      {
        assert before[i] in before;
      }
    }
  }

  // ---------- The two services agree ----------

  lemma {:induction false} SameMeteredCharges(
      keys: seq<string>, config: UsagePricingConfig, usage: Usage)
    ensures match MeteredCharges(keys, config, usage)
      case Err(error) => EntitlementCharges(keys, [], config, usage) == Err(error)
      case Ok(charges) =>
        && EntitlementCharges(keys, [], config, usage).Ok?
        && SumOfCalculations(EntitlementCharges(keys, [], config, usage).value) == SumOfCharges(charges)
  {
    if keys != [] {
      var n := |keys| - 1;
      SameMeteredCharges(keys[..n], config, usage);
      var metered := MeteredCharges(keys[..n], config, usage);
      var entitled := EntitlementCharges(keys[..n], [], config, usage);
      assert !IsCovered([], keys[n]);
      if metered.Ok? && usage(keys[n]) > 0.0 && Price(usage(keys[n]), config, keys[n]).Ok? {
        var price := Price(usage(keys[n]), config, keys[n]).value;
        var charge := EntitlementCharge(config, keys[n], usage(keys[n])).value;
        assert (metered.value + [price])[..|metered.value|] == metered.value;
        assert (entitled.value + [charge])[..|entitled.value|] == entitled.value;
      }
    }
  }

  // Both fail alike, both find nothing, or both give the same base, usage and total price.
  predicate Agree(
      simple: Result<Option<SubscriptionUsagePricing>>, hybrid: Result<Option<HybridPricingResult>>)
  {
    match (simple, hybrid)
    case (Err(e), Err(f)) => e == f
    case (Ok(None), Ok(None)) => true
    case (Ok(Some(s)), Ok(Some(h))) =>
      && s.basePrice == h.basePrice
      && s.totalUsagePrice == h.totalUsagePrice
      && s.totalPrice == h.totalPrice
      && s.currency == h.currency
    case _ => false
  }

  // Without usage components the services part in one case only: a metered flat price that is not zero,
  // which the simple service also charges as a base price.
  lemma ServicesAgreeExactly(
      found: Option<Subscription>, workspaceId: string, workspaceDefault: Option<string>, usage: Usage)
    requires IsPriced(found, workspaceId) ==> found.value.offerConfig.value.usageComponents == []
    ensures Agree(
        SubscriptionPrice(found, workspaceId, workspaceDefault, usage),
        HybridPrice(found, workspaceId, workspaceDefault, usage))
      <==> !(IsPriced(found, workspaceId) && ChargesFlatTwice(found.value.offerConfig.value.pricing.value))
  {
    if IsPriced(found, workspaceId) {
      var config := found.value.offerConfig.value;
      var pricing := config.pricing.value;
      assert ComponentCharges(config.usageComponents, usage) == Ok([]);
      if pricing.IsMetered() {
        SameMeteredCharges(config.entitlements, pricing.UsageConfig(), usage);
        var entitled := EntitlementCharges(config.entitlements, [], pricing.UsageConfig(), usage);
        if entitled.Ok? {
          assert [] + entitled.value == entitled.value;
        }
        if pricing.model.Flat? {
          FlatNeverFails(config.entitlements, pricing.UsageConfig(), usage);
        }
      }
    }
  }

  predicate ChargesFlatTwice(pricing: Pricing) {
    pricing.model.Flat? && pricing.IsMetered() && pricing.amount != 0.0
  }

  lemma {:induction false} FlatNeverFails(keys: seq<string>, config: UsagePricingConfig, usage: Usage)
    requires config.model.Flat?
    ensures MeteredCharges(keys, config, usage).Ok?
  {
    if keys != [] {
      FlatNeverFails(keys[..|keys| - 1], config, usage);
    }
  }

  // ---------- Estimates ----------

  // What a component would be charged for no billable usage at all, if it were priced.
  function PriceOfNothing(component: UsageComponent): real {
    match component.model
    case Flat => component.amount
    case Volume =>
      if component.UsageConfig().HasTiers() then
        var tiers := component.tiers.value;
        tiers[VolumeIndex(tiers, 0.0)].flatAmount.GetOr(0.0)
      else
        0.0
    case _ => 0.0
  }

  lemma PriceAtZero(component: UsageComponent)
    ensures component.model.Unknown? <==> Price(0.0, component.UsageConfig(), component.metricKey).Err?
    ensures !component.model.Unknown? ==>
      Price(0.0, component.UsageConfig(), component.metricKey).value.totalPrice == PriceOfNothing(component)
  {
    var config := component.UsageConfig();
    TimesZero(config.amount);
    if config.HasTiers() {
      TimesZero(config.tiers.value[VolumeIndex(config.tiers.value, 0.0)].unitAmount);
    }
  }

  // The estimated total is what the hybrid price charges for that quantity, exactly when some of it is
  // billable or the model charges nothing for nothing.
  lemma EstimateMatchesCharge(component: UsageComponent, from: real, additional: real)
    requires !component.model.Unknown?
    ensures EstimateUsageCost(component, from, additional).Ok? && ComponentCharge(component, from + additional).Ok?
    ensures EstimateUsageCost(component, from, additional).value.totalCost
        == ComponentCharge(component, from + additional).value.totalPrice
      <==> component.Billable(from + additional) > 0.0 || PriceOfNothing(component) == 0.0
  {
    PriceAtZero(component);
  }

  // The parts of an estimate: what is billed now, what is billed then, the difference between the two, and
  // that difference for each further unit.
  lemma EstimateParts(component: UsageComponent, from: real, additional: real)
    requires EstimateUsageCost(component, from, additional).Ok?
    ensures var estimate := EstimateUsageCost(component, from, additional).value;
      && estimate.currentCost + estimate.additionalCost == estimate.totalCost
      && EstimateUsageCost(component, from, 0.0).value.totalCost == estimate.currentCost
      && (additional > 0.0 ==> Times(estimate.effectiveUnitPrice, additional) == estimate.additionalCost)
      && (additional <= 0.0 ==> estimate.effectiveUnitPrice == 0.0)
  {
    hide Price;
    assert from + 0.0 == from;
    if additional > 0.0 {
      QuotientTimes(EstimateUsageCost(component, from, additional).value.additionalCost, additional);
    }
  }

  ghost predicate EstimatesNonNegative(component: UsageComponent)
    requires !component.model.Unknown?
  {
    forall from, additional | 0.0 <= additional ::
      0.0 <= EstimateUsageCost(component, from, additional).value.additionalCost
  }

  lemma TieredEstimate(component: UsageComponent, from: real, additional: real)
    requires component.model.Tiered? && component.UsageConfig().HasTiers()
    ensures var tiers := component.tiers.value;
      EstimateUsageCost(component, from, additional).value.additionalCost
      == TieredTotal(tiers, component.Billable(from + additional)) - TieredTotal(tiers, component.Billable(from))
  {
  }

  // An estimate for more of a tiered component can be negative exactly when its tiers drop somewhere.
  lemma TieredEstimateNonNegativeExactly(component: UsageComponent)
    requires component.model.Tiered? && component.UsageConfig().HasTiers()
    requires NonNegative(component.tiers.value)
    ensures EstimatesNonNegative(component) <==> NoDrop(component.tiers.value)
  {
    hide TieredTotal;
    hide NoDrop;
    var tiers := component.tiers.value;
    if NoDrop(tiers) {
      forall from, additional | 0.0 <= additional
        ensures 0.0 <= EstimateUsageCost(component, from, additional).value.additionalCost
      {
        TieredEstimate(component, from, additional);
        TieredClimbs(tiers, component.Billable(from), component.Billable(from + additional));
      }
    } else {
      var q, r := DropExists(tiers);
      TieredEstimate(component, component.Included() + q, r - q);
    }
  }

  lemma VolumeEstimate(component: UsageComponent, from: real, additional: real)
    requires component.model.Volume? && component.UsageConfig().HasTiers()
    ensures var tiers := component.tiers.value;
      EstimateUsageCost(component, from, additional).value.additionalCost
      == VolumeTotal(tiers, component.Billable(from + additional)) - VolumeTotal(tiers, component.Billable(from))
  {
  }

  // An estimate for more of a volume-priced component can be negative exactly when some bound is a cliff.
  lemma VolumeEstimateNonNegativeExactly(component: UsageComponent)
    requires component.model.Volume? && component.UsageConfig().HasTiers()
    requires NonNegative(component.tiers.value)
    ensures EstimatesNonNegative(component) <==> NoCliff(component.tiers.value)
  {
    hide VolumeTotal;
    hide IsCliff;
    var tiers := component.tiers.value;
    if NoCliff(tiers) {
      forall from, additional | 0.0 <= additional
        ensures 0.0 <= EstimateUsageCost(component, from, additional).value.additionalCost
      {
        VolumeEstimate(component, from, additional);
        VolumeClimbs(tiers, component.Billable(from), component.Billable(from + additional));
      }
    } else {
      var q, r := CliffExists(tiers);
      VolumeEstimate(component, component.Included() + q, r - q);
    }
  }
}
