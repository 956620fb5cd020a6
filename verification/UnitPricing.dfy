// "Each unit is priced at its tier rate": the tiered loop refines pricing the units one by one.
module UnitPricing {
  import opened Numbers
  import opened UsagePricing
  import opened TieredPricing

  // The first tier from i on whose bound lies beyond position at; |tiers| when there is none.
  function TierOf(tiers: seq<PricingTier>, at: real, i: nat): (tier: nat)
    requires i <= |tiers|
    ensures i <= tier <= |tiers|
    ensures forall j | i <= j < tier :: tiers[j].upTo.Some? && tiers[j].upTo.value <= at
    ensures tier < |tiers| ==> tiers[tier].upTo.None? || at < tiers[tier].upTo.value
    decreases |tiers| - i
  {
    if i == |tiers| || tiers[i].upTo.None? || at < tiers[i].upTo.value then i else TierOf(tiers, at, i + 1)
  }

  // The rate of the unit [at, at + 1); units beyond a bounded last tier are free.
  function UnitRate(tiers: seq<PricingTier>, at: nat): real {
    var tier := TierOf(tiers, at as real, 0);
    if tier < |tiers| then tiers[tier].unitAmount else 0.0
  }

  function UnitByUnit(tiers: seq<PricingTier>, quantity: nat): real {
    if quantity == 0 then 0.0 else UnitByUnit(tiers, quantity - 1) + UnitRate(tiers, quantity - 1)
  }

  // The flat amount of a tier, if it has one and quantity enters the tier.
  function EntryFee(tiers: seq<PricingTier>, i: nat, quantity: real): real
    requires i < |tiers|
  {
    match tiers[i].flatAmount
    case Some(amount) => if Entered(tiers, i, quantity) then amount else 0.0
    case None => 0.0
  }

  // The flat amounts of those of the first k tiers that quantity enters.
  function EntryFees(tiers: seq<PricingTier>, k: nat, quantity: real): real
    requires k <= |tiers|
  {
    if k == 0 then 0.0
    else EntryFees(tiers, k - 1, quantity) + EntryFee(tiers, k - 1, quantity)
  }

  predicate Holds(tiers: seq<PricingTier>, i: nat, at: real)
    requires i < |tiers|
  {
    Start(tiers, i) <= at && (tiers[i].upTo.None? || at < tiers[i].upTo.value)
  }

  lemma HoldsIsTierOf(tiers: seq<PricingTier>, i: nat, at: real)
    requires WellFormed(tiers) && i < |tiers| && 0.0 <= at
    ensures Holds(tiers, i, at) <==> i == TierOf(tiers, at, 0)
  {
    var n := TierOf(tiers, at, 0);
    if n < i {
      assert Start(tiers, n + 1) > at;
      if n + 1 < i {
        StartsIncrease(tiers, n + 1, i);
      }
    } else if i == n && 0 < i {
      assert tiers[i - 1].upTo.value <= at;
    }
  }

  // An integer part of a quantity at an integer rate can be priced apart from the rest.
  lemma AmountSplits(x: real, y: real, rate: real)
    requires IsInteger(y) && IsInteger(rate)
    ensures Amount(x + y, rate) == Amount(x, rate) + Times(y, rate)
  {
    IntegerTimes(y, rate);
    TimesAdds(x, y, rate);
    RoundSplits(Times(x + y, rate), Times(x, rate), Times(y, rate));
  }

  lemma IntegerNotBelow(x: real, n: int)
    requires IsInteger(x) && x > n as real
    ensures x >= (n + 1) as real
  {
    var m := x.Floor;
    assert m > n;
    assert m as real >= (n + 1) as real;
  }

  lemma StartIsInteger(tiers: seq<PricingTier>, i: nat)
    requires WellFormed(tiers) && Integral(tiers) && i < |tiers|
    ensures IsInteger(Start(tiers, i))
  {
    if i == 0 {
      assert IsInteger(0.0);
    } else {
      assert tiers[i - 1].upTo.Some?;
    }
  }

  // How far the share of a tier grows when the quantity goes from n to n + 1.
  lemma UnitsStep(tiers: seq<PricingTier>, i: nat, n: nat)
    requires WellFormed(tiers) && Integral(tiers) && i < |tiers|
    ensures Units(tiers, i, (n + 1) as real) ==
      Units(tiers, i, n as real) + if Holds(tiers, i, n as real) then 1.0 else 0.0
    ensures Entered(tiers, i, (n + 1) as real) <==> Start(tiers, i) <= n as real
  {
    StartIsInteger(tiers, i);
    if Start(tiers, i) > n as real {
      IntegerNotBelow(Start(tiers, i), n);
    }
    if tiers[i].upTo.Some? && tiers[i].upTo.value > n as real {
      IntegerNotBelow(tiers[i].upTo.value, n);
    }
  }

  lemma ChargeStep(tiers: seq<PricingTier>, i: nat, n: nat)
    requires WellFormed(tiers) && Integral(tiers) && i < |tiers|
    ensures Charge(tiers, i, (n + 1) as real) == Charge(tiers, i, n as real)
      + (if Holds(tiers, i, n as real) then tiers[i].unitAmount else 0.0)
      + EntryFee(tiers, i, (n + 1) as real) - EntryFee(tiers, i, n as real)
  {
    UnitsStep(tiers, i, n);
    AmountSplits(Units(tiers, i, n as real), 1.0, tiers[i].unitAmount);
    RoundOfInteger(0);
  }

  lemma {:induction false} ChargesStep(tiers: seq<PricingTier>, k: nat, n: nat)
    requires WellFormed(tiers) && Integral(tiers) && k <= |tiers|
    ensures Charges(tiers, k, (n + 1) as real) - EntryFees(tiers, k, (n + 1) as real)
      == Charges(tiers, k, n as real) - EntryFees(tiers, k, n as real)
       + if TierOf(tiers, n as real, 0) < k then UnitRate(tiers, n) else 0.0
  {
    hide EntryFee;
    hide Charge;
    if k > 0 {
      ChargesStep(tiers, k - 1, n);
      ChargeStep(tiers, k - 1, n);
      HoldsIsTierOf(tiers, k - 1, n as real);
      UnitsStep(tiers, k - 1, n);
    }
  }

  lemma {:induction false} NothingAtZero(tiers: seq<PricingTier>, k: nat)
    requires WellFormed(tiers) && k <= |tiers|
    ensures Charges(tiers, k, 0.0) == 0.0 && EntryFees(tiers, k, 0.0) == 0.0
  {
    if k > 0 {
      NothingAtZero(tiers, k - 1);
      StartsNonNegative(tiers, k - 1);
    }
  }

  lemma {:induction false} ChargesAreUnits(tiers: seq<PricingTier>, n: nat)
    requires WellFormed(tiers) && Integral(tiers)
    ensures Charges(tiers, |tiers|, n as real) == UnitByUnit(tiers, n) + EntryFees(tiers, |tiers|, n as real)
  {
    if n == 0 {
      NothingAtZero(tiers, |tiers|);
    } else {
      ChargesAreUnits(tiers, n - 1);
      ChargesStep(tiers, |tiers|, n - 1);
    }
  }

  // The loop charges every unit the rate of the tier that holds it, and every tier entered its flat amount.
  lemma TieredIsUnitByUnit(tiers: seq<PricingTier>, n: nat)
    requires WellFormed(tiers) && Integral(tiers)
    ensures TieredTotal(tiers, n as real) == UnitByUnit(tiers, n) + EntryFees(tiers, |tiers|, n as real)
  {
    TieredTotalIsCharges(tiers, n as real);
    ChargesAreUnits(tiers, n);
  }
}
