// The records that the two subscription pricing services read: a subscription with the configuration of
// its offer version, and the usage recorded for its customer in the current period.
module Subscriptions {
  import opened Wrappers
  import opened Numbers
  import opened UsagePricing

  datatype UsageType = Licensed | Metered

  datatype Pricing = Pricing(
    model: PricingModel,
    amount: real,
    currency: string,  // empty when missing
    interval: Option<string>,
    intervalCount: Option<int>,
    usageType: Option<UsageType>,
    tiers: Option<seq<PricingTier>>)
  {
    predicate IsMetered() {
      usageType == Some(Metered)
    }

    function UsageConfig(): UsagePricingConfig {
      UsagePricingConfig(model, currency, amount, tiers)
    }
  }

  datatype UsageComponent = UsageComponent(
    metricKey: string,
    displayName: string,
    model: PricingModel,
    amount: real,
    tiers: Option<seq<PricingTier>>,
    includedQuantity: Option<real>,
    currency: string)
  {
    function Included(): real {
      includedQuantity.GetOr(0.0)
    }

    function Billable(quantity: real): real {
      Max(0.0, quantity - Included())
    }

    function UsageConfig(): UsagePricingConfig {
      UsagePricingConfig(model, currency, amount, tiers)
    }
  }

  // entitlements holds the feature keys; a missing list counts as empty, for components too.
  datatype OfferConfig = OfferConfig(
    pricing: Option<Pricing>,
    usageComponents: seq<UsageComponent>,
    entitlements: seq<string>)

  datatype Subscription = Subscription(
    id: string,
    workspaceId: string,
    customerId: string,
    periodStart: int,
    periodEnd: int,
    offerConfig: Option<OfferConfig>)

  // The usage of each metric in the period, as the usage service reports it.
  type Usage = string -> real

  // Both services give up on a subscription of another workspace, without an offer version or without pricing.
  predicate IsPriced(found: Option<Subscription>, workspaceId: string) {
    && found.Some?
    && found.value.workspaceId == workspaceId
    && found.value.offerConfig.Some?
    && found.value.offerConfig.value.pricing.Some?
  }

  function Currency(pricing: Pricing, workspaceDefault: Option<string>): string {
    if pricing.currency != "" then pricing.currency
    else if workspaceDefault.GetOr("") != "" then workspaceDefault.value
    else "usd"
  }
}
