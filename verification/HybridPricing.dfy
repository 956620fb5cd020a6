// A base price plus usage components, the invoice lines made from them, and estimates of further usage
// (packages/api/src/billing/hybrid-pricing.service.ts).
module HybridPricing {
  import opened Wrappers
  import opened Numbers
  import opened UsagePricing
  import opened Subscriptions
  import opened SubscriptionUsage

  datatype ComponentCalculation = ComponentCalculation(
    metricKey: string,
    displayName: string,
    quantity: real,
    includedQuantity: real,
    billableQuantity: real,
    unitPrice: real,
    totalPrice: real,
    tierBreakdown: Option<seq<TierBreakdown>>)

  datatype HybridPricingResult = HybridPricingResult(
    subscriptionId: string,
    customerId: string,
    periodStart: int,
    periodEnd: int,
    basePrice: real,
    usageComponents: seq<ComponentCalculation>,
    totalUsagePrice: real,
    totalPrice: real,
    currency: string,
    interval: string,
    intervalCount: int)

  function SumOfCalculations(calculations: seq<ComponentCalculation>): real {
    if calculations == [] then 0.0
    else SumOfCalculations(calculations[..|calculations| - 1]) + calculations[|calculations| - 1].totalPrice
  }

  // Nothing is priced, and no unknown model noticed, while the usage stays within what is included.
  function ComponentCharge(component: UsageComponent, quantity: real): Result<ComponentCalculation> {
    var billable := component.Billable(quantity);
    if billable > 0.0 then
      var price :- Price(billable, component.UsageConfig(), component.metricKey);
      Ok(ComponentCalculation(
        component.metricKey, component.displayName, quantity, component.Included(), billable,
        price.unitPrice, price.totalPrice, price.tierBreakdown))
    else
      Ok(ComponentCalculation(
        component.metricKey, component.displayName, quantity, component.Included(), billable,
        component.amount, 0.0, None))
  }

  function ComponentCharges(components: seq<UsageComponent>, usage: Usage): Result<seq<ComponentCalculation>> {
    if components == [] then
      Ok([])
    else
      var component := components[|components| - 1];
      var before :- ComponentCharges(components[..|components| - 1], usage);
      var charge :- ComponentCharge(component, usage(component.metricKey));
      Ok(before + [charge])
  }

  predicate IsCovered(components: seq<UsageComponent>, key: string) {
    exists i | 0 <= i < |components| :: components[i].metricKey == key
  }

  function EntitlementCharge(config: UsagePricingConfig, key: string, quantity: real): Result<ComponentCalculation> {
    var price :- Price(quantity, config, key);
    Ok(ComponentCalculation(
      key, key, quantity, 0.0, quantity, price.unitPrice, price.totalPrice, price.tierBreakdown))
  }

  // Entitlements with usage that no component covers, priced like the subscription itself.
  function EntitlementCharges(
      keys: seq<string>, components: seq<UsageComponent>, config: UsagePricingConfig, usage: Usage)
    : Result<seq<ComponentCalculation>>
  {
    if keys == [] then
      Ok([])
    else
      var key := keys[|keys| - 1];
      var before :- EntitlementCharges(keys[..|keys| - 1], components, config, usage);
      if IsCovered(components, key) || usage(key) <= 0.0 then
        Ok(before)
      else
        var charge :- EntitlementCharge(config, key, usage(key));
        Ok(before + [charge])
  }

  function AllCharges(config: OfferConfig, pricing: Pricing, usage: Usage): Result<seq<ComponentCalculation>> {
    var components :- ComponentCharges(config.usageComponents, usage);
    if pricing.IsMetered() then
      var entitled :-
        EntitlementCharges(config.entitlements, config.usageComponents, pricing.UsageConfig(), usage);
      Ok(components + entitled)
    else
      Ok(components)
  }

  function HybridBasePrice(pricing: Pricing): real {
    if pricing.IsMetered() then 0.0 else pricing.amount
  }

  function HybridPrice(
      found: Option<Subscription>, workspaceId: string, workspaceDefault: Option<string>, usage: Usage)
    : Result<Option<HybridPricingResult>>
  {
    if !IsPriced(found, workspaceId) then
      Ok(None)
    else
      var subscription, config := found.value, found.value.offerConfig.value;
      var pricing := config.pricing.value;
      var charges :- AllCharges(config, pricing, usage);
      var interval := if pricing.interval.GetOr("") != "" then pricing.interval.value else "month";
      var intervalCount := if pricing.intervalCount.GetOr(0) != 0 then pricing.intervalCount.value else 1;
      Ok(Some(HybridPricingResult(
        subscription.id, subscription.customerId, subscription.periodStart, subscription.periodEnd,
        HybridBasePrice(pricing), charges, SumOfCalculations(charges),
        HybridBasePrice(pricing) + SumOfCalculations(charges),
        Currency(pricing, workspaceDefault), interval, intervalCount)))
  }

  lemma {:induction false} ComponentFailureStays(components: seq<UsageComponent>, k: nat, usage: Usage)
    requires k <= |components| && ComponentCharges(components[..k], usage).Err?
    ensures ComponentCharges(components, usage) == Err(ComponentCharges(components[..k], usage).error)
  {
    if k == |components| {
      assert components[..k] == components;
    } else {
      assert components[..|components| - 1][..k] == components[..k];
      ComponentFailureStays(components[..|components| - 1], k, usage);
    }
  }

  lemma {:induction false} EntitlementFailureStays(
      keys: seq<string>, k: nat, components: seq<UsageComponent>, config: UsagePricingConfig, usage: Usage)
    requires k <= |keys| && EntitlementCharges(keys[..k], components, config, usage).Err?
    ensures EntitlementCharges(keys, components, config, usage)
      == Err(EntitlementCharges(keys[..k], components, config, usage).error)
  {
    if k == |keys| {
      assert keys[..k] == keys;
    } else {
      assert keys[..|keys| - 1][..k] == keys[..k];
      EntitlementFailureStays(keys[..|keys| - 1], k, components, config, usage);
    }
  }

  method CalculateComponents(components: seq<UsageComponent>, usage: Usage)
    returns (result: Result<seq<ComponentCalculation>>)
    ensures result == ComponentCharges(components, usage)
  {
    var calculations: seq<ComponentCalculation> := [];
    for i := 0 to |components|
      invariant ComponentCharges(components[..i], usage) == Ok(calculations)
    {
      assert components[..i + 1][..i] == components[..i];
      var component := components[i];
      var rawQuantity := usage(component.metricKey);
      var includedQuantity := component.Included();
      var billableQuantity := Max(0.0, rawQuantity - includedQuantity);
      var unitPrice, totalPrice, tierBreakdown := component.amount, 0.0, None;
      if billableQuantity > 0.0 {
        var calculation := CalculatePrice(billableQuantity, component.UsageConfig(), component.metricKey);
        if calculation.Err? {
          ComponentFailureStays(components, i + 1, usage);
          return Err(calculation.error);
        }
        unitPrice := calculation.value.unitPrice;
        totalPrice := calculation.value.totalPrice;
        tierBreakdown := calculation.value.tierBreakdown;
      }
      calculations := calculations + [ComponentCalculation(
        component.metricKey, component.displayName, rawQuantity, includedQuantity, billableQuantity,
        unitPrice, totalPrice, tierBreakdown)];
    }
    assert components[..|components|] == components;
    result := Ok(calculations);
  }

  method CalculateEntitlements(
      keys: seq<string>, components: seq<UsageComponent>, config: UsagePricingConfig, usage: Usage)
    returns (result: Result<seq<ComponentCalculation>>)
    ensures result == EntitlementCharges(keys, components, config, usage)
  {
    var calculations: seq<ComponentCalculation> := [];
    for i := 0 to |keys|
      invariant EntitlementCharges(keys[..i], components, config, usage) == Ok(calculations)
    {
      assert keys[..i + 1][..i] == keys[..i];
      if IsCovered(components, keys[i]) {
        continue;
      }
      var totalQuantity := usage(keys[i]);
      if totalQuantity > 0.0 {
        var calculation := CalculatePrice(totalQuantity, config, keys[i]);
        if calculation.Err? {
          EntitlementFailureStays(keys, i + 1, components, config, usage);
          return Err(calculation.error);
        }
        calculations := calculations + [ComponentCalculation(
          keys[i], keys[i], totalQuantity, 0.0, totalQuantity,
          calculation.value.unitPrice, calculation.value.totalPrice, calculation.value.tierBreakdown)];
      }
    }
    assert keys[..|keys|] == keys;
    result := Ok(calculations);
  }

  method CalculateHybridPricing(
      found: Option<Subscription>, workspaceId: string, workspaceDefault: Option<string>, usage: Usage)
    returns (result: Result<Option<HybridPricingResult>>)
    ensures result == HybridPrice(found, workspaceId, workspaceDefault, usage)
  {
    if !IsPriced(found, workspaceId) {
      return Ok(None);
    }
    var subscription, config := found.value, found.value.offerConfig.value;
    var pricing := config.pricing.value;
    var basePrice := 0.0;
    if pricing.usageType != Some(Metered) {
      basePrice := pricing.amount;
    }
    var calculations := CalculateComponents(config.usageComponents, usage);
    if calculations.Err? {
      return Err(calculations.error);
    }
    var usageCalculations := calculations.value;
    if pricing.usageType == Some(Metered) {
      var entitled :=
        CalculateEntitlements(config.entitlements, config.usageComponents, pricing.UsageConfig(), usage);
      if entitled.Err? {
        return Err(entitled.error);
      }
      usageCalculations := usageCalculations + entitled.value;
    }
    var totalUsagePrice := SumOfCalculations(usageCalculations);
    var interval := if pricing.interval.GetOr("") != "" then pricing.interval.value else "month";
    var intervalCount := if pricing.intervalCount.GetOr(0) != 0 then pricing.intervalCount.value else 1;
    result := Ok(Some(HybridPricingResult(
      subscription.id, subscription.customerId, subscription.periodStart, subscription.periodEnd,
      basePrice, usageCalculations, totalUsagePrice, basePrice + totalUsagePrice,
      Currency(pricing, workspaceDefault), interval, intervalCount)));
  }

  // ---------- Invoice lines ----------

  function BaseLine(basePrice: real, interval: string): LineItem {
    LineItem("Base subscription (" + interval + "ly)", 1.0, basePrice, basePrice, Base, None)
  }

  function IncludedLine(c: ComponentCalculation): LineItem {
    LineItem(
      c.displayName + " - included", Min(c.quantity, c.includedQuantity), 0.0, 0.0, Included, Some(c.metricKey))
  }

  function OverageLine(c: ComponentCalculation): LineItem {
    LineItem(
      c.displayName + " - overage", c.billableQuantity, c.unitPrice, c.totalPrice, Overage, Some(c.metricKey))
  }

  function PureUsageLine(c: ComponentCalculation): LineItem {
    LineItem(c.displayName, c.quantity, c.unitPrice, c.totalPrice, UsageLine, Some(c.metricKey))
  }

  function IncludedLines(c: ComponentCalculation): seq<LineItem> {
    if c.includedQuantity > 0.0 && c.quantity > 0.0 then [IncludedLine(c)] else []
  }

  function ChargedLines(c: ComponentCalculation): seq<LineItem> {
    if c.billableQuantity > 0.0 then [OverageLine(c)]
    else if c.quantity > 0.0 && c.includedQuantity == 0.0 then [PureUsageLine(c)]
    else []
  }

  function ComponentLines(c: ComponentCalculation): seq<LineItem> {
    IncludedLines(c) + ChargedLines(c)
  }

  function AllComponentLines(components: seq<ComponentCalculation>): seq<LineItem> {
    if components == [] then []
    else AllComponentLines(components[..|components| - 1]) + ComponentLines(components[|components| - 1])
  }

  function InvoiceLines(pricing: HybridPricingResult): seq<LineItem> {
    (if pricing.basePrice > 0.0 then [BaseLine(pricing.basePrice, pricing.interval)] else [])
    + AllComponentLines(pricing.usageComponents)
  }

  method GenerateInvoiceLineItems(pricing: HybridPricingResult) returns (lineItems: seq<LineItem>)
    ensures lineItems == InvoiceLines(pricing)
  {
    lineItems := [];
    if pricing.basePrice > 0.0 {
      lineItems := lineItems + [BaseLine(pricing.basePrice, pricing.interval)];
    }
    ghost var baseLines := lineItems;
    var components := pricing.usageComponents;
    hide IncludedLine;
    hide OverageLine;
    hide PureUsageLine;
    for i := 0 to |components|
      invariant lineItems == baseLines + AllComponentLines(components[..i])
    {
      var component := components[i];
      ghost var before := lineItems;
      if component.includedQuantity > 0.0 && component.quantity > 0.0 {
        lineItems := lineItems + [IncludedLine(component)];
      }
      assert lineItems == before + IncludedLines(component);
      if component.billableQuantity > 0.0 {
        lineItems := lineItems + [OverageLine(component)];
      } else if component.quantity > 0.0 && component.includedQuantity == 0.0 {
        lineItems := lineItems + [PureUsageLine(component)];
      }
      assert lineItems == before + IncludedLines(component) + ChargedLines(component);
      MoreLines(baseLines, components, i);
    }
    assert components[..|components|] == components;
  }

  lemma MoreLines(baseLines: seq<LineItem>, components: seq<ComponentCalculation>, i: nat)
    requires i < |components|
    ensures baseLines + AllComponentLines(components[..i + 1])
      == baseLines + AllComponentLines(components[..i]) + IncludedLines(components[i]) + ChargedLines(components[i])
  {
    assert components[..i + 1][..i] == components[..i];
  }

  // ---------- Estimates ----------

  datatype CostEstimate = CostEstimate(
    currentCost: real, additionalCost: real, totalCost: real, effectiveUnitPrice: real)

  function EstimateUsageCost(component: UsageComponent, currentQuantity: real, additionalQuantity: real)
    : Result<CostEstimate>
  {
    var current :- Price(component.Billable(currentQuantity), component.UsageConfig(), component.metricKey);
    var after :-
      Price(component.Billable(currentQuantity + additionalQuantity), component.UsageConfig(), component.metricKey);
    var additionalCost := after.totalPrice - current.totalPrice;
    Ok(CostEstimate(
      current.totalPrice, additionalCost, after.totalPrice,
      EffectiveUnitPrice(additionalCost, additionalQuantity)))
  }
}
