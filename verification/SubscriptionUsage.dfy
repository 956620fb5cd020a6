// The metered price of a subscription and its invoice preview
// (packages/api/src/billing/usage-pricing.service.ts).
module SubscriptionUsage {
  import opened Wrappers
  import opened Numbers
  import opened UsagePricing
  import opened Subscriptions

  datatype SubscriptionUsagePricing = SubscriptionUsagePricing(
    subscriptionId: string,
    customerId: string,
    periodStart: int,
    periodEnd: int,
    basePrice: real,
    usageCharges: seq<UsagePriceCalculation>,
    totalUsagePrice: real,
    totalPrice: real,
    currency: string)

  function SumOfCharges(charges: seq<UsagePriceCalculation>): real {
    if charges == [] then 0.0
    else SumOfCharges(charges[..|charges| - 1]) + charges[|charges| - 1].totalPrice
  }

  // One charge for each entitlement with usage, in order; the first failing price fails them all.
  function MeteredCharges(keys: seq<string>, config: UsagePricingConfig, usage: Usage)
    : Result<seq<UsagePriceCalculation>>
  {
    if keys == [] then
      Ok([])
    else
      var key := keys[|keys| - 1];
      var before :- MeteredCharges(keys[..|keys| - 1], config, usage);
      if usage(key) > 0.0 then
        var charge :- Price(usage(key), config, key);
        Ok(before + [charge])
      else
        Ok(before)
  }

  lemma {:induction false} FailureStays(keys: seq<string>, k: nat, config: UsagePricingConfig, usage: Usage)
    requires k <= |keys| && MeteredCharges(keys[..k], config, usage).Err?
    ensures MeteredCharges(keys, config, usage) == Err(MeteredCharges(keys[..k], config, usage).error)
  {
    if k == |keys| {
      assert keys[..k] == keys;
    } else {
      assert keys[..|keys| - 1][..k] == keys[..k];
      FailureStays(keys[..|keys| - 1], k, config, usage);
    }
  }

  // The base price is charged for flat models even when they are metered.
  function BasePrice(pricing: Pricing): real {
    if pricing.model.Flat? || !pricing.IsMetered() then pricing.amount else 0.0
  }

  function SubscriptionPrice(
      found: Option<Subscription>, workspaceId: string, workspaceDefault: Option<string>, usage: Usage)
    : Result<Option<SubscriptionUsagePricing>>
  {
    if !IsPriced(found, workspaceId) then
      Ok(None)
    else
      var subscription, config := found.value, found.value.offerConfig.value;
      var pricing := config.pricing.value;
      var charges :-
        if pricing.IsMetered() then MeteredCharges(config.entitlements, pricing.UsageConfig(), usage) else Ok([]);
      Ok(Some(SubscriptionUsagePricing(
        subscription.id, subscription.customerId, subscription.periodStart, subscription.periodEnd,
        BasePrice(pricing), charges, SumOfCharges(charges), BasePrice(pricing) + SumOfCharges(charges),
        Currency(pricing, workspaceDefault))))
  }

  method CalculateMeteredCharges(keys: seq<string>, config: UsagePricingConfig, usage: Usage)
    returns (result: Result<seq<UsagePriceCalculation>>)
    ensures result == MeteredCharges(keys, config, usage)
  {
    var usageCharges: seq<UsagePriceCalculation> := [];
    for i := 0 to |keys|
      invariant MeteredCharges(keys[..i], config, usage) == Ok(usageCharges)
    {
      assert keys[..i + 1][..i] == keys[..i];
      var totalQuantity := usage(keys[i]);
      if totalQuantity > 0.0 {
        var calculation := CalculatePrice(totalQuantity, config, keys[i]);
        if calculation.Err? {
          FailureStays(keys, i + 1, config, usage);
          return Err(calculation.error);
        }
        usageCharges := usageCharges + [calculation.value];
      }
    }
    assert keys[..|keys|] == keys;
    result := Ok(usageCharges);
  }

  method CalculateSubscriptionUsage(
      found: Option<Subscription>, workspaceId: string, workspaceDefault: Option<string>, usage: Usage)
    returns (result: Result<Option<SubscriptionUsagePricing>>)
    ensures result == SubscriptionPrice(found, workspaceId, workspaceDefault, usage)
  {
    if !IsPriced(found, workspaceId) {
      return Ok(None);
    }
    var subscription, config := found.value, found.value.offerConfig.value;
    var pricing := config.pricing.value;
    var usageCharges: seq<UsagePriceCalculation> := [];
    var basePrice := 0.0;
    if pricing.model.Flat? || pricing.usageType != Some(Metered) {
      basePrice := pricing.amount;
    }
    if pricing.usageType == Some(Metered) {
      var charges := CalculateMeteredCharges(config.entitlements, pricing.UsageConfig(), usage);
      if charges.Err? {
        return Err(charges.error);
      }
      usageCharges := charges.value;
    }
    var totalUsagePrice := SumOfCharges(usageCharges);
    result := Ok(Some(SubscriptionUsagePricing(
      subscription.id, subscription.customerId, subscription.periodStart, subscription.periodEnd,
      basePrice, usageCharges, totalUsagePrice, basePrice + totalUsagePrice,
      Currency(pricing, workspaceDefault))));
  }

  // ---------- Invoice preview ----------

  datatype LineType = Base | UsageLine | Included | Overage

  datatype LineItem = LineItem(
    description: string,
    quantity: real,
    unitAmount: real,
    amount: real,
    kind: LineType,
    metricKey: Option<string>)

  function SumOfAmounts(lines: seq<LineItem>): real {
    if lines == [] then 0.0 else SumOfAmounts(lines[..|lines| - 1]) + lines[|lines| - 1].amount
  }

  // The quantities of all lines but the base line.
  function SumOfUsage(lines: seq<LineItem>): real {
    if lines == [] then 0.0
    else
      SumOfUsage(lines[..|lines| - 1])
      + if lines[|lines| - 1].kind.Base? then 0.0 else lines[|lines| - 1].quantity
  }

  lemma {:induction false} SumsAdd(left: seq<LineItem>, right: seq<LineItem>)
    ensures SumOfAmounts(left + right) == SumOfAmounts(left) + SumOfAmounts(right)
    ensures SumOfUsage(left + right) == SumOfUsage(left) + SumOfUsage(right)
  {
    if right == [] {
      assert left + right == left;
    } else {
      var n := |right| - 1;
      assert (left + right)[..|left + right| - 1] == left + right[..n];
      SumsAdd(left, right[..n]);
    }
  }

  function UsageLineOf(charge: UsagePriceCalculation): LineItem {
    LineItem(charge.metricKey + " usage", charge.quantity, charge.unitPrice, charge.totalPrice, UsageLine, None)
  }

  function UsageLines(charges: seq<UsagePriceCalculation>): seq<LineItem> {
    seq(|charges|, i requires 0 <= i < |charges| => UsageLineOf(charges[i]))
  }

  function PreviewBaseLine(basePrice: real): LineItem {
    LineItem("Base subscription", 1.0, basePrice, basePrice, Base, None)
  }

  // A base price that is not positive gets no line.
  function PreviewLines(pricing: SubscriptionUsagePricing): seq<LineItem> {
    (if pricing.basePrice > 0.0 then [PreviewBaseLine(pricing.basePrice)] else [])
    + UsageLines(pricing.usageCharges)
  }

  method GetInvoicePreview(
      found: Option<Subscription>, workspaceId: string, workspaceDefault: Option<string>, usage: Usage)
    returns (preview: Result<Option<(SubscriptionUsagePricing, seq<LineItem>)>>)
    ensures match SubscriptionPrice(found, workspaceId, workspaceDefault, usage)
      case Err(error) => preview == Err(error)
      case Ok(None) => preview == Ok(None)
      case Ok(Some(pricing)) => preview == Ok(Some((pricing, PreviewLines(pricing))))
  {
    var result := CalculateSubscriptionUsage(found, workspaceId, workspaceDefault, usage);
    if result.Err? {
      return Err(result.error);
    }
    if result.value.None? {
      return Ok(None);
    }
    var pricing := result.value.value;
    var lineItems: seq<LineItem> := [];
    if pricing.basePrice > 0.0 {
      lineItems := lineItems + [PreviewBaseLine(pricing.basePrice)];
    }
    ghost var baseLines := if pricing.basePrice > 0.0 then [PreviewBaseLine(pricing.basePrice)] else [];
    for i := 0 to |pricing.usageCharges|
      invariant lineItems == baseLines + UsageLines(pricing.usageCharges[..i])
    {
      assert UsageLines(pricing.usageCharges[..i + 1])
          == UsageLines(pricing.usageCharges[..i]) + [UsageLineOf(pricing.usageCharges[i])];
      lineItems := lineItems + [UsageLineOf(pricing.usageCharges[i])];
    }
    assert pricing.usageCharges[..|pricing.usageCharges|] == pricing.usageCharges;
    assert lineItems == PreviewLines(pricing);
    preview := Ok(Some((pricing, lineItems)));
  }

  lemma {:induction false} UsageLinesSum(charges: seq<UsagePriceCalculation>)
    ensures SumOfAmounts(UsageLines(charges)) == SumOfCharges(charges)
  {
    if charges == [] {
      assert UsageLines(charges) == [];
    } else {
      var n := |charges| - 1;
      UsageLinesSum(charges[..n]);
      var lines := UsageLines(charges);
      assert lines[..n] == UsageLines(charges[..n]);
      assert lines[|lines| - 1] == UsageLineOf(charges[n]);
    }
  }

  // The preview lines add up to the total exactly when the base price is not negative.
  lemma PreviewConservesMoney(
      found: Option<Subscription>, workspaceId: string, workspaceDefault: Option<string>, usage: Usage)
    requires SubscriptionPrice(found, workspaceId, workspaceDefault, usage).Ok?
    requires SubscriptionPrice(found, workspaceId, workspaceDefault, usage).value.Some?
    ensures var pricing := SubscriptionPrice(found, workspaceId, workspaceDefault, usage).value.value;
      SumOfAmounts(PreviewLines(pricing)) == pricing.totalPrice <==> 0.0 <= pricing.basePrice
  {
    var pricing := SubscriptionPrice(found, workspaceId, workspaceDefault, usage).value.value;
    UsageLinesSum(pricing.usageCharges);
    var baseLines := if pricing.basePrice > 0.0 then [PreviewBaseLine(pricing.basePrice)] else [];
    assert SumOfAmounts(baseLines) == Max(0.0, pricing.basePrice) by {
      if pricing.basePrice > 0.0 {
        assert baseLines[..0] == [];
      }
    }
    SumsAdd(baseLines, UsageLines(pricing.usageCharges));
  }
}
