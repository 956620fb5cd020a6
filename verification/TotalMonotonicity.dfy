// The price of a whole subscription as its usage grows.
module TotalMonotonicity {
  import opened Wrappers
  import opened Numbers
  import opened UsagePricing
  import opened TieredPricing
  import opened PriceMonotonicity
  import opened Subscriptions
  import opened HybridPricing
  import opened InvoiceLaws

  // Whether the price is read off the tiers.
  predicate UsesTiers(config: UsagePricingConfig) {
    (config.model.Tiered? || config.model.Volume?) && config.HasTiers()
  }

  // The tiers that the API accepts.
  predicate Accepted(config: UsagePricingConfig) {
    UsesTiers(config) ==> NonNegative(config.tiers.value)
  }

  // A pricing under which more usage never costs less.
  predicate Steady(config: UsagePricingConfig) {
    if config.model.Unknown? then true
    else if !UsesTiers(config) then 0.0 <= config.amount
    else if config.model.Tiered? then NoDrop(config.tiers.value)
    else NoPositiveCliff(config.tiers.value)
  }

  // What both services charge: nothing unless there is something to bill.
  function Charged(config: UsagePricingConfig, key: string, quantity: real): Result<real> {
    if quantity > 0.0 then
      var price :- Price(quantity, config, key);
      Ok(price.totalPrice)
    else
      Ok(0.0)
  }

  lemma PerUnitSteady(amount: real, q: real, r: real)
    requires 0.0 <= amount && 0.0 < q <= r
    ensures 0.0 <= Amount(q, amount) <= Amount(r, amount)
  {
    AmountMonotone(0.0, q, amount);
    AmountMonotone(q, r, amount);
    TimesZero(amount);
  }

  lemma TieredSteady(tiers: seq<PricingTier>, q: real, r: real)
    requires tiers != [] && NonNegative(tiers) && NoDrop(tiers) && q <= r
    ensures 0.0 <= TieredTotal(tiers, q) <= TieredTotal(tiers, r)
  {
    TieredClimbs(tiers, q, r);
    TieredClimbs(tiers, Min(0.0, q), q);
    assert Breakdown(tiers, Min(0.0, q)) == [];
  }

  lemma VolumeSteady(tiers: seq<PricingTier>, q: real, r: real)
    requires tiers != [] && NonNegative(tiers) && NoPositiveCliff(tiers) && 0.0 < q <= r
    ensures 0.0 <= VolumeTotal(tiers, q) <= VolumeTotal(tiers, r)
  {
    VolumeClimbs(tiers, q, r);
    PerUnitSteady(tiers[VolumeIndex(tiers, q)].unitAmount, q, q);
  }

  lemma SteadyFromOn(config: UsagePricingConfig, key: string, q: real, r: real)
    requires Accepted(config) && Steady(config) && 0.0 < q <= r && Price(r, config, key).Ok?
    ensures Price(q, config, key).Ok?
    ensures 0.0 <= Price(q, config, key).value.totalPrice <= Price(r, config, key).value.totalPrice
  {
    if config.model.Tiered? && config.HasTiers() {
      TieredSteady(config.tiers.value, q, r);
    } else if UsesTiers(config) {
      VolumeSteady(config.tiers.value, q, r);
    } else if !config.model.Flat? {
      PerUnitSteady(config.amount, q, r);
    }
  }

  lemma ChargedMonotone(config: UsagePricingConfig, key: string, q: real, r: real)
    requires Accepted(config) && Steady(config) && q <= r && Charged(config, key, r).Ok?
    ensures Charged(config, key, q).Ok?
    ensures 0.0 <= Charged(config, key, q).value <= Charged(config, key, r).value
  {
    hide Price;
    hide Accepted;
    hide Steady;
    if 0.0 < q {
      SteadyFromOn(config, key, q, r);
    } else if 0.0 < r {
      SteadyFromOn(config, key, r, r);
    }
  }

  lemma FallsAtNegativeAmount(config: UsagePricingConfig, key: string) returns (q: real, r: real)
    requires !config.model.Unknown? && !UsesTiers(config) && config.amount < 0.0
    ensures 0.0 <= q < r && Charged(config, key, q).Ok? && Charged(config, key, r).Ok?
    ensures Charged(config, key, r).value < Charged(config, key, q).value
  {
    q, r := 0.0, 1.0 / -config.amount;
    assert Times(r, config.amount) == -1.0;
    RoundOfInteger(-1);
  }

  lemma ChargedTiered(config: UsagePricingConfig, key: string, quantity: real)
    requires config.model.Tiered? && config.HasTiers()
    ensures Charged(config, key, quantity) == Ok(TieredTotal(config.tiers.value, quantity))
  {
    if quantity <= 0.0 {
      assert Breakdown(config.tiers.value, quantity) == [];
    }
  }

  lemma ChargedVolume(config: UsagePricingConfig, key: string, quantity: real)
    requires config.model.Volume? && config.HasTiers() && 0.0 < quantity
    ensures Charged(config, key, quantity) == Ok(VolumeTotal(config.tiers.value, quantity))
  {
  }

  // An accepted pricing that is not steady charges less for more somewhere.
  lemma UnsteadyFalls(config: UsagePricingConfig, key: string) returns (q: real, r: real)
    requires Accepted(config) && !Steady(config)
    ensures 0.0 <= q < r && Charged(config, key, q).Ok? && Charged(config, key, r).Ok?
    ensures Charged(config, key, r).value < Charged(config, key, q).value
  {
    hide Charged;
    hide NoDrop;
    hide NonNegative;
    hide IsCliff;
    hide TieredTotal;
    hide VolumeTotal;
    if !UsesTiers(config) {
      q, r := FallsAtNegativeAmount(config, key);
    } else if config.model.Tiered? {
      q, r := DropExists(config.tiers.value);
      ChargedTiered(config, key, q);
      ChargedTiered(config, key, r);
    } else {
      var tiers := config.tiers.value;
      var i: nat :| i < |tiers| && tiers[i].upTo.Some? && 0.0 < tiers[i].upTo.value && IsCliff(tiers, i);
      q, r := CliffIsReached(tiers, i);
      ChargedVolume(config, key, q);
      ChargedVolume(config, key, r);
    }
  }

  // ---------- Sums of charges ----------

  ghost predicate NoLess(usage: Usage, larger: Usage) {
    forall key :: usage(key) <= larger(key)
  }

  predicate AcceptedComponents(components: seq<UsageComponent>) {
    forall i | 0 <= i < |components| :: Accepted(components[i].UsageConfig())
  }

  predicate SteadyComponents(components: seq<UsageComponent>) {
    forall i | 0 <= i < |components| :: Steady(components[i].UsageConfig())
  }

  lemma ComponentChargeIs(component: UsageComponent, quantity: real)
    ensures var charged := Charged(component.UsageConfig(), component.metricKey, component.Billable(quantity));
      match ComponentCharge(component, quantity)
      case Err(error) => charged == Err(error)
      case Ok(calculation) => charged == Ok(calculation.totalPrice)
  {
    hide Price;
  }

  lemma ComponentMonotone(component: UsageComponent, q: real, r: real)
    requires Accepted(component.UsageConfig()) && Steady(component.UsageConfig())
    requires q <= r && ComponentCharge(component, r).Ok?
    ensures ComponentCharge(component, q).Ok?
    ensures ComponentCharge(component, q).value.totalPrice <= ComponentCharge(component, r).value.totalPrice
  {
    hide Accepted;
    hide Steady;
    hide Charged;
    hide ComponentCharge;
    ComponentChargeIs(component, q);
    ComponentChargeIs(component, r);
    ChargedMonotone(
      component.UsageConfig(), component.metricKey, component.Billable(q), component.Billable(r));
  }

  lemma {:induction false} ComponentsMonotone(components: seq<UsageComponent>, usage: Usage, larger: Usage)
    requires NoLess(usage, larger) && AcceptedComponents(components) && SteadyComponents(components)
    requires ComponentCharges(components, larger).Ok?
    ensures ComponentCharges(components, usage).Ok?
    ensures SumOfCalculations(ComponentCharges(components, usage).value)
      <= SumOfCalculations(ComponentCharges(components, larger).value)
  {
    hide Accepted;
    hide Steady;
    hide ComponentCharge;
    if components != [] {
      var n := |components| - 1;
      var key := components[n].metricKey;
      ComponentsMonotone(components[..n], usage, larger);
      ComponentMonotone(components[n], usage(key), larger(key));
      SumOfOneMore(
        ComponentCharges(components[..n], usage).value, ComponentCharge(components[n], usage(key)).value);
      SumOfOneMore(
        ComponentCharges(components[..n], larger).value, ComponentCharge(components[n], larger(key)).value);
    }
  }

  // The charges of metered entitlements, summed without listing them.
  function EntitlementTotal(
      keys: seq<string>, components: seq<UsageComponent>, config: UsagePricingConfig, usage: Usage): Result<real>
  {
    if keys == [] then
      Ok(0.0)
    else
      var key := keys[|keys| - 1];
      var before :- EntitlementTotal(keys[..|keys| - 1], components, config, usage);
      var charged :- Charged(config, key, if IsCovered(components, key) then 0.0 else usage(key));
      Ok(before + charged)
  }

  lemma {:induction false} EntitlementTotalIsSum(
      keys: seq<string>, components: seq<UsageComponent>, config: UsagePricingConfig, usage: Usage)
    ensures match EntitlementCharges(keys, components, config, usage)
      case Err(error) => EntitlementTotal(keys, components, config, usage) == Err(error)
      case Ok(charges) => EntitlementTotal(keys, components, config, usage) == Ok(SumOfCalculations(charges))
  {
    hide Price;
    if keys != [] {
      var n := |keys| - 1;
      EntitlementTotalIsSum(keys[..n], components, config, usage);
      var before := EntitlementCharges(keys[..n], components, config, usage);
      if before.Ok? && !IsCovered(components, keys[n]) && EntitlementCharge(config, keys[n], usage(keys[n])).Ok? {
        SumOfOneMore(before.value, EntitlementCharge(config, keys[n], usage(keys[n])).value);
      }
    }
  }

  predicate AllCovered(keys: seq<string>, components: seq<UsageComponent>) {
    forall key | key in keys :: IsCovered(components, key)
  }

  lemma {:induction false} EntitlementsMonotone(
      keys: seq<string>, components: seq<UsageComponent>, config: UsagePricingConfig, usage: Usage, larger: Usage)
    requires NoLess(usage, larger) && Accepted(config) && (AllCovered(keys, components) || Steady(config))
    requires EntitlementTotal(keys, components, config, larger).Ok?
    ensures EntitlementTotal(keys, components, config, usage).Ok?
    ensures EntitlementTotal(keys, components, config, usage).value
      <= EntitlementTotal(keys, components, config, larger).value
  {
    hide Price;
    hide Accepted;
    hide Steady;
    hide IsCovered;
    if keys != [] {
      var n := |keys| - 1;
      EntitlementsMonotone(keys[..n], components, config, usage, larger);
      if !IsCovered(components, keys[n]) {
        ChargedMonotone(config, keys[n], usage(keys[n]), larger(keys[n]));
      }
    }
  }

  // ---------- The whole subscription ----------

  predicate AcceptedOffer(config: OfferConfig) {
    && AcceptedComponents(config.usageComponents)
    && (config.pricing.Some? && config.pricing.value.IsMetered() ==> Accepted(config.pricing.value.UsageConfig()))
  }

  predicate SteadyOffer(config: OfferConfig) {
    && SteadyComponents(config.usageComponents)
    && (config.pricing.Some? && config.pricing.value.IsMetered() ==>
          AllCovered(config.entitlements, config.usageComponents) || Steady(config.pricing.value.UsageConfig()))
  }

  lemma AllChargesMonotone(config: OfferConfig, pricing: Pricing, usage: Usage, larger: Usage)
    requires NoLess(usage, larger) && AcceptedOffer(config) && SteadyOffer(config) && config.pricing == Some(pricing)
    requires AllCharges(config, pricing, larger).Ok?
    ensures AllCharges(config, pricing, usage).Ok?
    ensures SumOfCalculations(AllCharges(config, pricing, usage).value)
      <= SumOfCalculations(AllCharges(config, pricing, larger).value)
  {
    hide Accepted;
    hide Steady;
    hide AllCovered;
    var components, keys := config.usageComponents, config.entitlements;
    ComponentsMonotone(components, usage, larger);
    if pricing.IsMetered() {
      var metered := pricing.UsageConfig();
      EntitlementTotalIsSum(keys, components, metered, usage);
      EntitlementTotalIsSum(keys, components, metered, larger);
      EntitlementsMonotone(keys, components, metered, usage, larger);
      AllChargesTotal(config, pricing, usage);
      AllChargesTotal(config, pricing, larger);
    }
  }

  // The sum of all charges, component by component and entitlement by entitlement.
  lemma AllChargesTotal(config: OfferConfig, pricing: Pricing, usage: Usage)
    requires pricing.IsMetered()
    requires ComponentCharges(config.usageComponents, usage).Ok?
    ensures var entitled :=
        EntitlementTotal(config.entitlements, config.usageComponents, pricing.UsageConfig(), usage);
      && (AllCharges(config, pricing, usage).Ok? <==> entitled.Ok?)
      && (entitled.Ok? ==>
            SumOfCalculations(AllCharges(config, pricing, usage).value)
            == SumOfCalculations(ComponentCharges(config.usageComponents, usage).value) + entitled.value)
  {
    hide Price;
    var keys, components, metered := config.entitlements, config.usageComponents, pricing.UsageConfig();
    EntitlementTotalIsSum(keys, components, metered, usage);
    var charges := EntitlementCharges(keys, components, metered, usage);
    if charges.Ok? {
      SumOfBoth(ComponentCharges(components, usage).value, charges.value);
    }
  }

  ghost predicate NoDearer(
      less: Result<Option<HybridPricingResult>>, more: Result<Option<HybridPricingResult>>)
  {
    more.Ok? ==>
      && less.Ok? && (less.value.Some? <==> more.value.Some?)
      && (less.value.Some? ==> less.value.value.totalPrice <= more.value.value.totalPrice)
  }

  // With steady pricing, usage that is nowhere smaller never makes a subscription cheaper; and a
  // subscription that can be priced at the larger usage can be priced at the smaller.
  lemma SubscriptionMonotone(
      found: Option<Subscription>, workspaceId: string, workspaceDefault: Option<string>, usage: Usage, larger: Usage)
    requires NoLess(usage, larger)
    requires IsPriced(found, workspaceId) ==>
      AcceptedOffer(found.value.offerConfig.value) && SteadyOffer(found.value.offerConfig.value)
    ensures NoDearer(
      HybridPrice(found, workspaceId, workspaceDefault, usage),
      HybridPrice(found, workspaceId, workspaceDefault, larger))
  {
    if IsPriced(found, workspaceId) {
      hide AllCharges;
      hide AcceptedOffer;
      hide SteadyOffer;
      var config := found.value.offerConfig.value;
      if AllCharges(config, config.pricing.value, larger).Ok? {
        AllChargesMonotone(config, config.pricing.value, usage, larger);
      }
    }
  }

  // ---------- Exactly when the total never falls ----------

  // Usage of one metric, with all others at a level that bills nothing.
  function OnlyAt(key: string, quantity: real, level: real): Usage {
    (k: string) => if k == key then quantity else level
  }

  function IdleLevel(components: seq<UsageComponent>): (level: real)
    ensures level <= 0.0
    ensures forall i | 0 <= i < |components| :: level <= components[i].Included()
  {
    if components == [] then 0.0
    else Min(IdleLevel(components[..|components| - 1]), components[|components| - 1].Included())
  }

  predicate Idle(component: UsageComponent, usage: Usage) {
    usage(component.metricKey) <= component.Included()
  }

  lemma IdleIsFree(component: UsageComponent, usage: Usage)
    requires Idle(component, usage)
    ensures ComponentCharge(component, usage(component.metricKey)).Ok?
    ensures ComponentCharge(component, usage(component.metricKey)).value.totalPrice == 0.0
  {
  }

  lemma {:induction false} IdleAreFree(components: seq<UsageComponent>, usage: Usage)
    requires forall i | 0 <= i < |components| :: Idle(components[i], usage)
    ensures ComponentCharges(components, usage).Ok?
    ensures SumOfCalculations(ComponentCharges(components, usage).value) == 0.0
  {
    hide Idle;
    hide ComponentCharge;
    if components != [] {
      var n := |components| - 1;
      IdleAreFree(components[..n], usage);
      IdleIsFree(components[n], usage);
      SumOfOneMore(
        ComponentCharges(components[..n], usage).value,
        ComponentCharge(components[n], usage(components[n].metricKey)).value);
    }
  }

  lemma {:induction false} OnlyOneCharges(components: seq<UsageComponent>, k: nat, usage: Usage)
    requires k < |components|
    requires forall i | 0 <= i < |components| && i != k :: Idle(components[i], usage)
    requires ComponentCharge(components[k], usage(components[k].metricKey)).Ok?
    ensures ComponentCharges(components, usage).Ok?
    ensures SumOfCalculations(ComponentCharges(components, usage).value)
      == ComponentCharge(components[k], usage(components[k].metricKey)).value.totalPrice
  {
    hide Idle;
    hide ComponentCharge;
    var n := |components| - 1;
    if k == n {
      IdleAreFree(components[..n], usage);
    } else {
      OnlyOneCharges(components[..n], k, usage);
      IdleIsFree(components[n], usage);
    }
    SumOfOneMore(
      ComponentCharges(components[..n], usage).value,
      ComponentCharge(components[n], usage(components[n].metricKey)).value);
  }

  lemma {:induction false} NothingEntitled(
      keys: seq<string>, components: seq<UsageComponent>, config: UsagePricingConfig, usage: Usage)
    requires forall key :: IsCovered(components, key) || usage(key) <= 0.0
    ensures EntitlementTotal(keys, components, config, usage) == Ok(0.0)
  {
    hide Price;
    hide IsCovered;
    if keys != [] {
      NothingEntitled(keys[..|keys| - 1], components, config, usage);
    }
  }

  // One component at usage included + quantity and nothing else billed.
  lemma TotalAtComponent(config: OfferConfig, pricing: Pricing, k: nat, quantity: real)
    requires k < |config.usageComponents| && DistinctComponents(config.usageComponents) && 0.0 <= quantity
    requires var component := config.usageComponents[k];
      Charged(component.UsageConfig(), component.metricKey, quantity).Ok?
    ensures var component := config.usageComponents[k];
      var charges := AllCharges(
        config, pricing,
        OnlyAt(component.metricKey, component.Included() + quantity, IdleLevel(config.usageComponents)));
      && charges.Ok?
      && SumOfCalculations(charges.value)
         == Charged(component.UsageConfig(), component.metricKey, quantity).value
  {
    hide Charged;
    hide AllCharges;
    var components := config.usageComponents;
    var component := components[k];
    var usage := OnlyAt(component.metricKey, component.Included() + quantity, IdleLevel(components));
    ComponentChargeIs(component, component.Included() + quantity);
    OnlyOneCharges(components, k, usage);
    assert IsCovered(components, component.metricKey);
    if pricing.IsMetered() {
      NothingEntitled(config.entitlements, components, pricing.UsageConfig(), usage);
      AllChargesTotal(config, pricing, usage);
    } else {
      LicensedCharges(config, pricing, usage);
    }
  }

  lemma LicensedCharges(config: OfferConfig, pricing: Pricing, usage: Usage)
    requires !pricing.IsMetered()
    ensures AllCharges(config, pricing, usage) == ComponentCharges(config.usageComponents, usage)
  {
  }

  function Occurrences(keys: seq<string>, key: string): (n: nat)
    ensures key in keys ==> n > 0
  {
    if keys == [] then 0
    else Occurrences(keys[..|keys| - 1], key) + if keys[|keys| - 1] == key then 1 else 0
  }

  lemma {:induction false} OnlyOneEntitled(
      keys: seq<string>, components: seq<UsageComponent>, config: UsagePricingConfig, key: string,
      quantity: real, level: real)
    requires !IsCovered(components, key) && level <= 0.0 && Charged(config, key, quantity).Ok?
    ensures EntitlementTotal(keys, components, config, OnlyAt(key, quantity, level))
      == Ok(Times(Occurrences(keys, key) as real, Charged(config, key, quantity).value))
  {
    hide Price;
    hide IsCovered;
    var charged := Charged(config, key, quantity).value;
    if keys == [] {
      TimesZero(charged);
    } else {
      var n := |keys| - 1;
      OnlyOneEntitled(keys[..n], components, config, key, quantity, level);
      TimesAdds(Occurrences(keys[..n], key) as real, 1.0, charged);
      assert Times(1.0, charged) == charged;
    }
  }

  lemma TotalAtEntitlement(config: OfferConfig, pricing: Pricing, key: string, quantity: real)
    requires pricing.IsMetered() && !IsCovered(config.usageComponents, key)
    requires Charged(pricing.UsageConfig(), key, quantity).Ok?
    ensures var charges := AllCharges(config, pricing, OnlyAt(key, quantity, IdleLevel(config.usageComponents)));
      && charges.Ok?
      && SumOfCalculations(charges.value)
         == Times(Occurrences(config.entitlements, key) as real, Charged(pricing.UsageConfig(), key, quantity).value)
  {
    hide Charged;
    hide AllCharges;
    var components := config.usageComponents;
    var usage := OnlyAt(key, quantity, IdleLevel(components));
    IdleAreFree(components, usage);
    OnlyOneEntitled(config.entitlements, components, pricing.UsageConfig(), key, quantity, IdleLevel(components));
    AllChargesTotal(config, pricing, usage);
  }

  // Where an offer is not steady, more usage of a single metric makes it cheaper.
  lemma UnsteadyOfferFalls(config: OfferConfig, pricing: Pricing)
    returns (metric: string, usage: Usage, larger: Usage)
    requires config.pricing == Some(pricing) && DistinctComponents(config.usageComponents)
    requires AcceptedOffer(config) && !SteadyOffer(config)
    ensures NoLess(usage, larger) && forall key | key != metric :: usage(key) == larger(key)
    ensures AllCharges(config, pricing, usage).Ok? && AllCharges(config, pricing, larger).Ok?
    ensures SumOfCalculations(AllCharges(config, pricing, larger).value)
      < SumOfCalculations(AllCharges(config, pricing, usage).value)
  {
    hide AllCharges;
    hide Charged;
    hide Accepted;
    hide Steady;
    hide IsCovered;
    var components := config.usageComponents;
    var level := IdleLevel(components);
    if !SteadyComponents(components) {
      var k: nat :| k < |components| && !Steady(components[k].UsageConfig());
      var included := components[k].Included();
      metric := components[k].metricKey;
      var q, r := UnsteadyFalls(components[k].UsageConfig(), metric);
      usage, larger := OnlyAt(metric, included + q, level), OnlyAt(metric, included + r, level);
      TotalAtComponent(config, pricing, k, q);
      TotalAtComponent(config, pricing, k, r);
    } else {
      metric :| metric in config.entitlements && !IsCovered(components, metric);
      var metered := pricing.UsageConfig();
      var q, r := UnsteadyFalls(metered, metric);
      usage, larger := OnlyAt(metric, q, level), OnlyAt(metric, r, level);
      TotalAtEntitlement(config, pricing, metric, q);
      TotalAtEntitlement(config, pricing, metric, r);
      TimesIncreases(
        Occurrences(config.entitlements, metric) as real,
        Charged(metered, metric, r).value, Charged(metered, metric, q).value);
    }
  }

  lemma TimesIncreases(n: real, x: real, y: real)
    requires 0.0 < n && x < y
    ensures Times(n, x) < Times(n, y)
  {
    assert 0.0 < n * (y - x);
  }

  ghost predicate NeverFalls(found: Option<Subscription>, workspaceId: string, workspaceDefault: Option<string>) {
    forall usage: Usage, larger: Usage | NoLess(usage, larger) ::
      NoDearer(
        HybridPrice(found, workspaceId, workspaceDefault, usage),
        HybridPrice(found, workspaceId, workspaceDefault, larger))
  }

  // With distinct component metrics, the total of a subscription never falls as usage grows exactly when every
  // component, and the subscription's own pricing where an entitlement is charged by it, is steady.
  lemma SubscriptionMonotoneExactly(
      found: Option<Subscription>, workspaceId: string, workspaceDefault: Option<string>)
    requires IsPriced(found, workspaceId)
    requires DistinctComponents(found.value.offerConfig.value.usageComponents)
    requires AcceptedOffer(found.value.offerConfig.value)
    ensures NeverFalls(found, workspaceId, workspaceDefault) <==> SteadyOffer(found.value.offerConfig.value)
  {
    hide AllCharges;
    hide NoLess;
    hide AcceptedOffer;
    hide SteadyOffer;
    var config := found.value.offerConfig.value;
    if SteadyOffer(config) {
      forall usage: Usage, larger: Usage | NoLess(usage, larger)
        ensures NoDearer(
          HybridPrice(found, workspaceId, workspaceDefault, usage),
          HybridPrice(found, workspaceId, workspaceDefault, larger))
      {
        SubscriptionMonotone(found, workspaceId, workspaceDefault, usage, larger);
      }
    } else {
      var _, usage, larger := UnsteadyOfferFalls(config, config.pricing.value);
      assert !NoDearer(
        HybridPrice(found, workspaceId, workspaceDefault, usage),
        HybridPrice(found, workspaceId, workspaceDefault, larger));
    }
  }
}
