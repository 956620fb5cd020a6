// The tier ranges sent to Zuora: an export that keeps the meaning of tiered pricing
// (packages/adapters/zuora/src/zuora.adapter.ts, buildChargeData).
module ZuoraTiers {
  import opened Wrappers
  import opened UsagePricing
  import opened TieredPricing
  import opened UnitPricing
  import opened FlatAmounts

  // One entry of the exported Tiers list; its PriceFormat is always Per_Unit.
  datatype ZuoraTier = ZuoraTier(tier: nat, startingUnit: real, endingUnit: Option<real>, price: real)

  // Prices go from cents to dollars; a range starts at the previous bound, or at 0 when that is missing.
  function Export(tiers: seq<PricingTier>): (exported: seq<ZuoraTier>)
    ensures |exported| == |tiers|
  {
    seq(|tiers|, index requires 0 <= index < |tiers| =>
      ZuoraTier(
        index + 1,
        if index == 0 then 0.0 else tiers[index - 1].upTo.GetOr(0.0),
        tiers[index].upTo,
        tiers[index].unitAmount / 100.0))
  }

  // ---------- Reading the exported list on its own ----------

  predicate InRange(range: ZuoraTier, at: real) {
    range.startingUnit <= at && (range.endingUnit.None? || at < range.endingUnit.value)
  }

  // The prices of all ranges that hold a unit; adding over all of them would expose any overlap.
  function PricesAt(ranges: seq<ZuoraTier>, at: real): real {
    if ranges == [] then 0.0
    else
      PricesAt(ranges[..|ranges| - 1], at)
      + if InRange(ranges[|ranges| - 1], at) then ranges[|ranges| - 1].price else 0.0
  }

  function ZuoraCharge(ranges: seq<ZuoraTier>, units: nat): real {
    if units == 0 then 0.0 else ZuoraCharge(ranges, units - 1) + PricesAt(ranges, (units - 1) as real)
  }

  // The tiers as they can be recovered from the exported list: bounds and rates, but no flat amounts.
  function Rebuild(ranges: seq<ZuoraTier>): seq<PricingTier> {
    seq(|ranges|, index requires 0 <= index < |ranges| =>
      PricingTier(ranges[index].endingUnit, ranges[index].price * 100.0, None))
  }

  // ---------- What the export keeps ----------

  lemma RebuildsTiers(tiers: seq<PricingTier>)
    ensures Rebuild(Export(tiers)) == WithoutFees(tiers)
    ensures Rebuild(Export(tiers)) == tiers <==> forall tier | tier in tiers :: tier.flatAmount.None?
  {
    var rebuilt := Rebuild(Export(tiers));
    assert rebuilt == WithoutFees(tiers);
    if rebuilt == tiers {
      forall tier | tier in tiers
        ensures tier.flatAmount.None?
      {
        var i :| 0 <= i < |tiers| && tiers[i] == tier;
        assert rebuilt[i].flatAmount.None?;
      }
    } else if forall tier | tier in tiers :: tier.flatAmount.None? {
      forall i | 0 <= i < |tiers|
        ensures rebuilt[i] == tiers[i]
      {
        assert tiers[i] in tiers;
      }
      assert false;
    }
  }

  predicate SameRange(line: TierBreakdown, range: ZuoraTier) {
    line.from == range.startingUnit && line.to == range.endingUnit
  }

  lemma ExportedRange(tiers: seq<PricingTier>, i: nat)
    requires i < |tiers|
    ensures Export(tiers)[i] ==
      ZuoraTier(i + 1, Start(tiers, i), tiers[i].upTo, tiers[i].unitAmount / 100.0)
  {
  }

  // They are the from and to that the tiered loop reports for the same tiers, in whatever order the bounds are.
  lemma ExportMatchesBreakdown(tiers: seq<PricingTier>, quantity: real)
    requires tiers != []
    ensures var lines, ranges := Breakdown(tiers, quantity), Export(tiers);
      && |lines| <= |ranges|
      && forall i | 0 <= i < |lines| :: SameRange(lines[i], ranges[i])
  {
    var lines, ranges := Breakdown(tiers, quantity), Export(tiers);
    if quantity > 0.0 {
      BreakdownIsSlices(tiers, quantity);
    }
    forall i | 0 <= i < |lines|
      ensures SameRange(lines[i], ranges[i])
    {
      assert lines[i] == Slice(tiers, i, quantity);
      ExportedRange(tiers, i);
    }
  }

  lemma {:induction false} PriceOfUnit(tiers: seq<PricingTier>, at: nat, k: nat)
    requires WellFormed(tiers) && k <= |tiers|
    ensures 100.0 * PricesAt(Export(tiers)[..k], at as real)
      == if TierOf(tiers, at as real, 0) < k then UnitRate(tiers, at) else 0.0
  {
    hide TierOf;
    hide Export;
    if k > 0 {
      var ranges := Export(tiers)[..k];
      PriceOfUnit(tiers, at, k - 1);
      assert ranges[..k - 1] == Export(tiers)[..k - 1];
      HoldsIsTierOf(tiers, k - 1, at as real);
      ExportedRange(tiers, k - 1);
    }
  }

  lemma PriceOfAnyUnit(tiers: seq<PricingTier>, at: nat)
    requires WellFormed(tiers)
    ensures 100.0 * PricesAt(Export(tiers), at as real) == UnitRate(tiers, at)
  {
    PriceOfUnit(tiers, at, |tiers|);
    assert Export(tiers)[..|tiers|] == Export(tiers);
  }

  // Two ways of pricing single units that agree on each unit agree on any number of them.
  lemma {:induction false} ChargesAddUp(ranges: seq<ZuoraTier>, tiers: seq<PricingTier>, units: nat)
    requires forall at: nat | at < units :: 100.0 * PricesAt(ranges, at as real) == UnitRate(tiers, at)
    ensures 100.0 * ZuoraCharge(ranges, units) == UnitByUnit(tiers, units)
  {
    if units > 0 {
      ChargesAddUp(ranges, tiers, units - 1);
      var last := units - 1;
      assert 100.0 * PricesAt(ranges, last as real) == UnitRate(tiers, last);
    }
  }

  lemma ZuoraChargeIsUnitByUnit(tiers: seq<PricingTier>, units: nat)
    requires WellFormed(tiers)
    ensures 100.0 * ZuoraCharge(Export(tiers), units) == UnitByUnit(tiers, units)
  {
    var ranges := Export(tiers);
    forall at: nat | at < units
      ensures 100.0 * PricesAt(ranges, at as real) == UnitRate(tiers, at)
    {
      PriceOfAnyUnit(tiers, at);
    }
    ChargesAddUp(ranges, tiers, units);
  }

  // Pricing whole units over the exported ranges gives the tiered total in dollars, less the flat amounts,
  // which the export does not carry.
  lemma ExportKeepsMeaning(tiers: seq<PricingTier>, units: nat)
    requires WellFormed(tiers) && Integral(tiers)
    ensures 100.0 * ZuoraCharge(Export(tiers), units)
      == TieredTotal(tiers, units as real) - EntryFees(tiers, |tiers|, units as real)
  {
    TieredIsUnitByUnit(tiers, units);
    ZuoraChargeIsUnitByUnit(tiers, units);
  }

  lemma {:induction false} FeesOfEnteredTiers(tiers: seq<PricingTier>, k: nat, quantity: real)
    requires WellFormed(tiers) && NonNegative(tiers) && k <= |tiers|
    ensures 0.0 <= EntryFees(tiers, k, quantity)
    ensures EntryFees(tiers, k, quantity) == 0.0
      <==> forall i | 0 <= i < k && Entered(tiers, i, quantity) && tiers[i].flatAmount.Some? ::
             tiers[i].flatAmount.value == 0.0
  {
    if k > 0 {
      FeesOfEnteredTiers(tiers, k - 1, quantity);
    }
  }

  // Zuora bills what the tiered loop bills exactly when no tier entered has a flat amount.
  lemma ExportAgreesExactly(tiers: seq<PricingTier>, units: nat)
    requires WellFormed(tiers) && Integral(tiers) && NonNegative(tiers)
    ensures ZuoraCharge(Export(tiers), units) == TieredTotal(tiers, units as real) / 100.0
      <==> forall i | 0 <= i < |tiers| && Entered(tiers, i, units as real) && tiers[i].flatAmount.Some? ::
             tiers[i].flatAmount.value == 0.0
  {
    ExportKeepsMeaning(tiers, units);
    FeesOfEnteredTiers(tiers, |tiers|, units as real);
  }
}
