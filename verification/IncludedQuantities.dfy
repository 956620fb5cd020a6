// Included quantities act as a shift of usage: what a component includes is taken off its usage before it is
// priced, in charges, whole subscriptions and estimates alike.
module IncludedQuantities {
  import opened Wrappers
  import opened UsagePricing
  import opened Subscriptions
  import opened HybridPricing
  import opened InvoiceLaws

  // The same money for the same billable quantity.
  predicate SameCharge(c: ComponentCalculation, d: ComponentCalculation) {
    && c.metricKey == d.metricKey
    && c.displayName == d.displayName
    && c.billableQuantity == d.billableQuantity
    && c.unitPrice == d.unitPrice
    && c.totalPrice == d.totalPrice
    && c.tierBreakdown == d.tierBreakdown
  }

  predicate SameOutcome(left: Result<ComponentCalculation>, right: Result<ComponentCalculation>) {
    match (left, right)
    case (Ok(c), Ok(d)) => SameCharge(c, d)
    case (Err(e), Err(f)) => e == f
    case _ => false
  }

  function Including(component: UsageComponent, included: real): UsageComponent {
    component.(includedQuantity := Some(included))
  }

  function IncludingNothing(component: UsageComponent): UsageComponent {
    component.(includedQuantity := None)
  }

  // With an included quantity the charge at q is that of the same component without one at q less that
  // quantity. Up to it nothing is charged under any model, from it on all the rest is billable.
  lemma ChargeShifts(component: UsageComponent, included: real, quantity: real)
    ensures var charge := ComponentCharge(Including(component, included), quantity);
      && SameOutcome(charge, ComponentCharge(IncludingNothing(component), quantity - included))
      && (charge.Ok? ==> charge.value.quantity == quantity && charge.value.includedQuantity == included)
      && (quantity <= included ==> charge.Ok? && charge.value.totalPrice == 0.0 && charge.value.billableQuantity == 0.0)
      && (included <= quantity && charge.Ok? ==> quantity - charge.value.billableQuantity == included)
  {
    hide Price;
  }

  // ---------- A whole subscription ----------

  // What the component of a metric includes; nothing where there is none.
  function IncludedFor(components: seq<UsageComponent>, key: string): real {
    if components == [] then 0.0
    else
      var last := components[|components| - 1];
      if last.metricKey == key then IncludedField(last) else IncludedFor(components[..|components| - 1], key)
  }

  function AllIncludingNothing(components: seq<UsageComponent>): (others: seq<UsageComponent>)
    ensures |others| == |components|
    ensures forall i | 0 <= i < |components| :: others[i] == IncludingNothing(components[i])
  {
    seq(|components|, i requires 0 <= i < |components| => IncludingNothing(components[i]))
  }

  // The usage that is left when every component's included quantity has been taken off.
  function Beyond(components: seq<UsageComponent>, usage: Usage): Usage {
    (key: string) => usage(key) - IncludedFor(components, key)
  }

  lemma {:induction false} IncludedForComponent(components: seq<UsageComponent>, i: nat)
    requires i < |components| && DistinctComponents(components)
    ensures IncludedFor(components, components[i].metricKey) == IncludedField(components[i])
  {
    if i < |components| - 1 {
      IncludedForComponent(components[..|components| - 1], i);
    }
  }

  lemma {:induction false} IncludedForOthers(components: seq<UsageComponent>, key: string)
    requires !IsCovered(components, key)
    ensures IncludedFor(components, key) == 0.0
  {
    if components != [] {
      assert !IsCovered(components[..|components| - 1], key);
      IncludedForOthers(components[..|components| - 1], key);
    }
  }

  // One component in a whole subscription, whether it includes something or not.
  lemma ComponentShifts(components: seq<UsageComponent>, i: nat, usage: Usage)
    requires i < |components| && DistinctComponents(components)
    ensures var key := components[i].metricKey;
      SameOutcome(
        ComponentCharge(components[i], usage(key)),
        ComponentCharge(IncludingNothing(components[i]), Beyond(components, usage)(key)))
  {
    IncludedForComponent(components, i);
    var component, key := components[i], components[i].metricKey;
    match component.includedQuantity
    case Some(included) =>
      ChargeShifts(component, included, usage(key));
      assert Including(component, included) == component;
    case None =>
      assert IncludingNothing(component) == component;
  }

  predicate SameCharges(left: Result<seq<ComponentCalculation>>, right: Result<seq<ComponentCalculation>>) {
    match (left, right)
    case (Ok(cs), Ok(ds)) =>
      && |cs| == |ds| && SumOfCalculations(cs) == SumOfCalculations(ds)
      && forall i | 0 <= i < |cs| :: SameCharge(cs[i], ds[i])
    case (Err(e), Err(f)) => e == f
    case _ => false
  }

  lemma OneMoreCharge(
      cs: seq<ComponentCalculation>, ds: seq<ComponentCalculation>, c: ComponentCalculation, d: ComponentCalculation)
    requires SameCharges(Ok(cs), Ok(ds)) && SameCharge(c, d)
    ensures SameCharges(Ok(cs + [c]), Ok(ds + [d]))
  {
    assert (cs + [c])[..|cs|] == cs && (ds + [d])[..|ds|] == ds;
  }

  lemma {:induction false} ComponentsShift(
      components: seq<UsageComponent>, others: seq<UsageComponent>, usage: Usage, shifted: Usage)
    requires |others| == |components|
    requires forall i | 0 <= i < |components| ::
      && others[i].metricKey == components[i].metricKey
      && SameOutcome(
           ComponentCharge(components[i], usage(components[i].metricKey)),
           ComponentCharge(others[i], shifted(components[i].metricKey)))
    ensures SameCharges(ComponentCharges(components, usage), ComponentCharges(others, shifted))
  {
    hide ComponentCharge;
    hide SameCharge;
    if components != [] {
      var n := |components| - 1;
      var key := components[n].metricKey;
      ComponentsShift(components[..n], others[..n], usage, shifted);
      var left, right := ComponentCharges(components[..n], usage), ComponentCharges(others[..n], shifted);
      var c, d := ComponentCharge(components[n], usage(key)), ComponentCharge(others[n], shifted(key));
      if left.Ok? && c.Ok? {
        OneMoreCharge(left.value, right.value, c.value, d.value);
      }
    }
  }

  lemma {:induction false} SameEntitled(
      keys: seq<string>, components: seq<UsageComponent>, others: seq<UsageComponent>, config: UsagePricingConfig,
      usage: Usage, shifted: Usage)
    requires forall key ::
      && (IsCovered(components, key) <==> IsCovered(others, key))
      && (IsCovered(components, key) || usage(key) == shifted(key))
    ensures EntitlementCharges(keys, components, config, usage) == EntitlementCharges(keys, others, config, shifted)
  {
    hide EntitlementCharge;
    hide IsCovered;
    if keys != [] {
      SameEntitled(keys[..|keys| - 1], components, others, config, usage, shifted);
    }
  }

  lemma SameCovered(components: seq<UsageComponent>, others: seq<UsageComponent>, key: string)
    requires |others| == |components|
    requires forall i | 0 <= i < |components| :: others[i].metricKey == components[i].metricKey
    ensures IsCovered(components, key) <==> IsCovered(others, key)
  {
    if IsCovered(components, key) {
      var i :| 0 <= i < |components| && components[i].metricKey == key;
      assert others[i].metricKey == key;
    }
    if IsCovered(others, key) {
      var i :| 0 <= i < |others| && others[i].metricKey == key;
      assert components[i].metricKey == key;
    }
  }

  lemma AllChargesShift(config: OfferConfig, pricing: Pricing, usage: Usage)
    requires DistinctComponents(config.usageComponents)
    ensures SameCharges(
      AllCharges(config, pricing, usage),
      AllCharges(
        config.(usageComponents := AllIncludingNothing(config.usageComponents)), pricing,
        Beyond(config.usageComponents, usage)))
  {
    hide ComponentCharge;
    hide EntitlementCharges;
    hide SumOfCalculations;
    var components, keys := config.usageComponents, config.entitlements;
    var others, shifted := AllIncludingNothing(components), Beyond(components, usage);
    forall i | 0 <= i < |components|
      ensures SameOutcome(
        ComponentCharge(components[i], usage(components[i].metricKey)),
        ComponentCharge(others[i], shifted(components[i].metricKey)))
    {
      ComponentShifts(components, i, usage);
    }
    ComponentsShift(components, others, usage, shifted);
    forall key
      ensures IsCovered(components, key) <==> IsCovered(others, key)
      ensures IsCovered(components, key) || usage(key) == shifted(key)
    {
      SameCovered(components, others, key);
      if !IsCovered(components, key) {
        IncludedForOthers(components, key);
      }
    }
    SameEntitled(keys, components, others, pricing.UsageConfig(), usage, shifted);
    var left, right := ComponentCharges(components, usage), ComponentCharges(others, shifted);
    var entitled := EntitlementCharges(keys, components, pricing.UsageConfig(), usage);
    if left.Ok? && entitled.Ok? {
      SumOfBoth(left.value, entitled.value);
      SumOfBoth(right.value, entitled.value);
    }
  }

  function WithoutIncluded(subscription: Subscription): Subscription
    requires subscription.offerConfig.Some?
  {
    var config := subscription.offerConfig.value;
    subscription.(offerConfig := Some(config.(usageComponents := AllIncludingNothing(config.usageComponents))))
  }

  // For any subscription whose components have distinct metrics: it costs what it would cost if nothing were
  // included and every component's usage were smaller by what it includes, charge by charge and in total, and
  // fails or finds nothing alike.
  lemma HybridPriceShifts(
      subscription: Subscription, workspaceId: string, workspaceDefault: Option<string>, usage: Usage)
    requires subscription.offerConfig.Some? && DistinctComponents(subscription.offerConfig.value.usageComponents)
    ensures var components := subscription.offerConfig.value.usageComponents;
      var price := HybridPrice(Some(subscription), workspaceId, workspaceDefault, usage);
      var shifted :=
        HybridPrice(Some(WithoutIncluded(subscription)), workspaceId, workspaceDefault, Beyond(components, usage));
      match (price, shifted)
      case (Ok(Some(p)), Ok(Some(s))) =>
        && p.basePrice == s.basePrice && p.totalUsagePrice == s.totalUsagePrice && p.totalPrice == s.totalPrice
        && SameCharges(Ok(p.usageComponents), Ok(s.usageComponents))
      case (Ok(None), Ok(None)) => true
      case (Err(e), Err(f)) => e == f
      case _ => false
  {
    hide AllCharges;
    hide SameCharge;
    if IsPriced(Some(subscription), workspaceId) {
      var config := subscription.offerConfig.value;
      AllChargesShift(config, config.pricing.value, usage);
    }
  }

  // An estimate, too, is that of the same component without an included quantity from that much lower usage.
  lemma EstimateShifts(component: UsageComponent, included: real, from: real, additional: real)
    ensures EstimateUsageCost(Including(component, included), from, additional)
      == EstimateUsageCost(IncludingNothing(component), from - included, additional)
  {
    assert from + additional - included == from - included + additional;
  }
}
