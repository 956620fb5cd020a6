// The price of a quantity under the flat, per-unit, tiered and volume models
// (packages/api/src/billing/usage-pricing.service.ts).
module UsagePricing {
  import opened Wrappers
  import opened Numbers

  // A configuration is stored as JSON, so its model may be none of the four declared names.
  datatype PricingModel = Flat | PerUnit | Tiered | Volume | Unknown(name: string)

  // upTo is None for the source's null, the unbounded tier.
  datatype PricingTier = PricingTier(upTo: Option<real>, unitAmount: real, flatAmount: Option<real>) {
    function Fee(): real {
      flatAmount.GetOr(0.0)
    }
  }

  datatype UsagePricingConfig = UsagePricingConfig(
    model: PricingModel,
    currency: string,
    amount: real,
    tiers: Option<seq<PricingTier>>)
  {
    // A missing tier list and an empty one are treated alike.
    predicate HasTiers() {
      tiers.Some? && tiers.value != []
    }
  }

  datatype TierBreakdown = TierBreakdown(
    tierIndex: nat,
    from: real,
    to: Option<real>,
    quantity: real,
    unitPrice: real,
    tierTotal: real)

  datatype UsagePriceCalculation = UsagePriceCalculation(
    metricKey: string,
    quantity: real,
    unitPrice: real,
    totalPrice: real,
    currency: string,
    pricingModel: PricingModel,
    tierBreakdown: Option<seq<TierBreakdown>>)

  // ---------- Flat and per-unit prices ----------

  function FlatPrice(quantity: real, config: UsagePricingConfig, metricKey: string): UsagePriceCalculation {
    UsagePriceCalculation(metricKey, quantity, 0.0, config.amount, config.currency, Flat, None)
  }

  // A quantity at a rate, rounded to whole currency units.
  function Amount(quantity: real, rate: real): real {
    Round(Times(quantity, rate)) as real
  }

  function PerUnitPrice(quantity: real, config: UsagePricingConfig, metricKey: string): UsagePriceCalculation {
    UsagePriceCalculation(
      metricKey, quantity, config.amount, Amount(quantity, config.amount), config.currency, PerUnit, None)
  }

  // ---------- Tiered price ----------

  // The room of a tier that starts at start, as taken by what remains to be priced.
  function TakenBy(remaining: real, start: real, upTo: Option<real>): real {
    if upTo.None? then remaining else Min(remaining, upTo.value - start)
  }

  function Line(tier: PricingTier, i: nat, start: real, remaining: real): TierBreakdown {
    var taken := TakenBy(remaining, start, tier.upTo);
    TierBreakdown(i, start, tier.upTo, taken, tier.unitAmount, tier.Fee() + Amount(taken, tier.unitAmount))
  }

  // What is left to report when the loop stands before tier i. The previous bound is None once an
  // unbounded tier has been priced (the source's Infinity), after which nothing remains.
  function BreakdownFrom(tiers: seq<PricingTier>, i: nat, previousUpTo: Option<real>, remaining: real)
    : seq<TierBreakdown>
    requires i <= |tiers|
    decreases |tiers| - i
  {
    if i == |tiers| || remaining <= 0.0 || previousUpTo.None? then
      []
    else
      var line := Line(tiers[i], i, previousUpTo.value, remaining);
      [line] + BreakdownFrom(tiers, i + 1, line.to, remaining - line.quantity)
  }

  function Breakdown(tiers: seq<PricingTier>, quantity: real): seq<TierBreakdown> {
    BreakdownFrom(tiers, 0, Some(0.0), quantity)
  }

  function SumOfTotals(lines: seq<TierBreakdown>): real {
    if lines == [] then 0.0 else SumOfTotals(lines[..|lines| - 1]) + lines[|lines| - 1].tierTotal
  }

  function SumOfQuantities(lines: seq<TierBreakdown>): real {
    if lines == [] then 0.0 else SumOfQuantities(lines[..|lines| - 1]) + lines[|lines| - 1].quantity
  }

  function TieredTotal(tiers: seq<PricingTier>, quantity: real): real {
    SumOfTotals(Breakdown(tiers, quantity))
  }

  function EffectiveUnitPrice(total: real, quantity: real): real {
    if quantity > 0.0 then total / quantity else 0.0
  }

  function TieredPrice(quantity: real, config: UsagePricingConfig, metricKey: string): UsagePriceCalculation {
    if !config.HasTiers() then
      PerUnitPrice(quantity, config, metricKey)
    else
      var total := TieredTotal(config.tiers.value, quantity);
      UsagePriceCalculation(
        metricKey, quantity, EffectiveUnitPrice(total, quantity), total, config.currency,
        Tiered, Some(Breakdown(config.tiers.value, quantity)))
  }

  lemma AppendLine(lines: seq<TierBreakdown>, line: TierBreakdown)
    ensures SumOfTotals(lines + [line]) == SumOfTotals(lines) + line.tierTotal
    ensures SumOfQuantities(lines + [line]) == SumOfQuantities(lines) + line.quantity
  {
    assert (lines + [line])[..|lines|] == lines;
  }

  // One turn of the loop moves one line from what is left to what has been reported.
  lemma TierStep(
      done: seq<TierBreakdown>, tiers: seq<PricingTier>, i: nat, previousUpTo: Option<real>, remaining: real)
    requires i < |tiers| && remaining > 0.0 && previousUpTo.Some?
    ensures var line := Line(tiers[i], i, previousUpTo.value, remaining);
      done + BreakdownFrom(tiers, i, previousUpTo, remaining)
      == (done + [line]) + BreakdownFrom(tiers, i + 1, line.to, remaining - line.quantity)
  {
  }

  method CalculateTieredPrice(quantity: real, config: UsagePricingConfig, metricKey: string)
    returns (price: UsagePriceCalculation)
    ensures price == TieredPrice(quantity, config, metricKey)
  {
    if !config.HasTiers() {
      return PerUnitPrice(quantity, config, metricKey);
    }
    var tiers := config.tiers.value;
    var tierBreakdown: seq<TierBreakdown> := [];
    var remaining := quantity;
    var totalPrice := 0.0;
    var previousUpTo := Some(0.0);
    var i := 0;
    while i < |tiers| && remaining > 0.0
      invariant 0 <= i <= |tiers|
      invariant previousUpTo.None? ==> remaining == 0.0
      invariant Breakdown(tiers, quantity) == tierBreakdown + BreakdownFrom(tiers, i, previousUpTo, remaining)
      invariant totalPrice == SumOfTotals(tierBreakdown)
    {
      TierStep(tierBreakdown, tiers, i, previousUpTo, remaining);
      var tier := tiers[i];
      var tierStart := previousUpTo.value;
      var tierQuantity := TakenBy(remaining, tierStart, tier.upTo);
      var tierTotal := tier.Fee() + Amount(tierQuantity, tier.unitAmount);
      var line := TierBreakdown(i, tierStart, tier.upTo, tierQuantity, tier.unitAmount, tierTotal);
      AppendLine(tierBreakdown, line);
      tierBreakdown := tierBreakdown + [line];
      totalPrice := totalPrice + tierTotal;
      remaining := remaining - tierQuantity;
      previousUpTo := tier.upTo;
      i := i + 1;
    }
    assert Breakdown(tiers, quantity) == tierBreakdown;
    price := UsagePriceCalculation(
      metricKey, quantity, EffectiveUnitPrice(totalPrice, quantity), totalPrice, config.currency, Tiered,
      Some(tierBreakdown));
  }

  // ---------- Volume price ----------

  // The tier the whole quantity falls into; the last one when it lies beyond every bound.
  function VolumeIndexFrom(tiers: seq<PricingTier>, quantity: real, i: nat): (index: nat)
    requires i <= |tiers| && tiers != []
    ensures index < |tiers|
    ensures forall j | i <= j < index :: tiers[j].upTo.Some? && tiers[j].upTo.value < quantity
    ensures index < |tiers| - 1 ==> tiers[index].upTo.None? || quantity <= tiers[index].upTo.value
    decreases |tiers| - i
  {
    if i == |tiers| then |tiers| - 1
    else if tiers[i].upTo.None? || quantity <= tiers[i].upTo.value then i
    else VolumeIndexFrom(tiers, quantity, i + 1)
  }

  function VolumeIndex(tiers: seq<PricingTier>, quantity: real): (index: nat)
    requires tiers != []
    ensures index < |tiers|
    ensures forall j | 0 <= j < index :: tiers[j].upTo.Some? && tiers[j].upTo.value < quantity
    ensures index < |tiers| - 1 ==> tiers[index].upTo.None? || quantity <= tiers[index].upTo.value
  {
    VolumeIndexFrom(tiers, quantity, 0)
  }

  function VolumeTotal(tiers: seq<PricingTier>, quantity: real): real
    requires tiers != []
  {
    var tier := tiers[VolumeIndex(tiers, quantity)];
    tier.Fee() + Amount(quantity, tier.unitAmount)
  }

  function VolumePrice(quantity: real, config: UsagePricingConfig, metricKey: string): UsagePriceCalculation {
    if !config.HasTiers() then
      PerUnitPrice(quantity, config, metricKey)
    else
      var tiers := config.tiers.value;
      var index := VolumeIndex(tiers, quantity);
      var tier := tiers[index];
      var total := VolumeTotal(tiers, quantity);
      UsagePriceCalculation(
        metricKey, quantity, tier.unitAmount, total, config.currency, Volume,
        Some([TierBreakdown(index, 0.0, tier.upTo, quantity, tier.unitAmount, total)]))
  }

  method CalculateVolumePrice(quantity: real, config: UsagePricingConfig, metricKey: string)
    returns (price: UsagePriceCalculation)
    ensures price == VolumePrice(quantity, config, metricKey)
  {
    if !config.HasTiers() {
      return PerUnitPrice(quantity, config, metricKey);
    }
    var tiers := config.tiers.value;
    var applicable := |tiers| - 1;
    for i := 0 to |tiers|
      invariant applicable == |tiers| - 1
      invariant VolumeIndex(tiers, quantity) == VolumeIndexFrom(tiers, quantity, i)
    {
      if tiers[i].upTo.None? || quantity <= tiers[i].upTo.value {
        applicable := i;
        break;
      }
    }
    var tier := tiers[applicable];
    var totalPrice := tier.Fee() + Amount(quantity, tier.unitAmount);
    price := UsagePriceCalculation(
      metricKey, quantity, tier.unitAmount, totalPrice, config.currency, Volume,
      Some([TierBreakdown(applicable, 0.0, tier.upTo, quantity, tier.unitAmount, totalPrice)]));
  }

  // ---------- The dispatch over the four models ----------

  function Price(quantity: real, config: UsagePricingConfig, metricKey: string): Result<UsagePriceCalculation> {
    match config.model
    case Flat => Ok(FlatPrice(quantity, config, metricKey))
    case PerUnit => Ok(PerUnitPrice(quantity, config, metricKey))
    case Tiered => Ok(TieredPrice(quantity, config, metricKey))
    case Volume => Ok(VolumePrice(quantity, config, metricKey))
    case Unknown(name) => Err("Unknown pricing model: " + name)
  }

  method CalculatePrice(quantity: real, config: UsagePricingConfig, metricKey: string)
    returns (price: Result<UsagePriceCalculation>)
    ensures price == Price(quantity, config, metricKey)
  {
    match config.model {
      case Flat =>
        price := Ok(FlatPrice(quantity, config, metricKey));
      case PerUnit =>
        price := Ok(PerUnitPrice(quantity, config, metricKey));
      case Tiered =>
        var tiered := CalculateTieredPrice(quantity, config, metricKey);
        price := Ok(tiered);
      case Volume =>
        var volume := CalculateVolumePrice(quantity, config, metricKey);
        price := Ok(volume);
      case Unknown(name) =>
        price := Err("Unknown pricing model: " + name);
    }
  }
}
