// Volume pricing against tiered pricing, for any tier list.
module VolumePricing {
  import opened Wrappers
  import opened Numbers
  import opened UsagePricing
  import opened TieredPricing
  import opened UnitPricing
  import opened RoundingBounds

  // The search picks the tier in which the tiered loop ends.
  lemma VolumeTierIsLastEntered(tiers: seq<PricingTier>, quantity: real)
    requires tiers != [] && quantity > 0.0
    ensures VolumeIndex(tiers, quantity) == TiersEntered(tiers, quantity) - 1
  {
    BreakdownIsSlices(tiers, quantity);
  }

  // What the first k tiers add when each of them is passed: its fee, and all units up to its bound at the
  // fall of the rate from this tier to the next.
  function Excess(tiers: seq<PricingTier>, k: nat): real
    requires k < |tiers|
  {
    if k == 0 then 0.0 else Excess(tiers, k - 1) + ExcessAt(tiers, k - 1)
  }

  function ExcessAt(tiers: seq<PricingTier>, i: nat): real
    requires i + 1 < |tiers|
  {
    tiers[i].Fee() + Times(Start(tiers, i + 1), tiers[i].unitAmount - tiers[i + 1].unitAmount)
  }

  lemma AmountOfIntegers(x: real, rate: real)
    requires IsInteger(x) && IsInteger(rate)
    ensures Amount(x, rate) == Times(x, rate)
  {
    IntegerTimes(x, rate);
    RoundSplits(Times(x, rate), 0.0, Times(x, rate));
  }

  lemma BoundIsInteger(tiers: seq<PricingTier>, i: nat)
    requires Integral(tiers) && i <= |tiers|
    ensures IsInteger(Start(tiers, i))
  {
    if i == 0 || tiers[i - 1].upTo.None? {
      assert IsInteger(0.0);
    }
  }

  lemma PassedTier(tiers: seq<PricingTier>, i: nat, quantity: real)
    requires Integral(tiers) && i + 1 < |tiers| && Passed(tiers, i + 1, quantity)
    ensures Slice(tiers, i, quantity).tierTotal + Times(Start(tiers, i), tiers[i].unitAmount)
      == ExcessAt(tiers, i) + Times(Start(tiers, i + 1), tiers[i + 1].unitAmount)
  {
    var from, to := Start(tiers, i), Start(tiers, i + 1);
    BoundIsInteger(tiers, i);
    BoundIsInteger(tiers, i + 1);
    IntegerDifference(to, from);
    AmountOfIntegers(to - from, tiers[i].unitAmount);
    TwoRates(from, to, tiers[i].unitAmount, tiers[i + 1].unitAmount);
  }

  lemma TwoRates(from: real, to: real, rate: real, next: real)
    ensures Times(to - from, rate) + Times(from, rate) == Times(to, rate - next) + Times(to, next)
  {
  }

  lemma {:induction false} PassedTiers(tiers: seq<PricingTier>, k: nat, quantity: real)
    requires Integral(tiers) && k < |tiers| && Passed(tiers, k, quantity)
    ensures Totals(tiers, k, quantity) == Excess(tiers, k) + Times(Start(tiers, k), tiers[k].unitAmount)
  {
    if k == 0 {
      TimesZero(tiers[0].unitAmount);
    } else {
      PassedTiers(tiers, k - 1, quantity);
      PassedTier(tiers, k - 1, quantity);
    }
  }

  // At the last tier the tiered loop prices what is left of Priced, volume pricing the whole quantity.
  lemma AtLastTier(tiers: seq<PricingTier>, quantity: real)
    requires tiers != [] && Integral(tiers) && 0.0 < quantity
    ensures var n, priced := VolumeIndex(tiers, quantity), Priced(tiers, quantity);
      Slice(tiers, n, quantity).tierTotal + Times(Start(tiers, n), tiers[n].unitAmount)
        + Amount(quantity - priced, tiers[n].unitAmount)
      == VolumeTotal(tiers, quantity)
  {
    var n, priced := VolumeIndex(tiers, quantity), Priced(tiers, quantity);
    var rate := tiers[n].unitAmount;
    BoundIsInteger(tiers, n);
    AmountSplits(priced - Start(tiers, n), Start(tiers, n), rate);
    if priced == quantity {
      TimesZero(rate);
    } else {
      AmountSplits(quantity - priced, priced, rate);
      AmountOfIntegers(priced, rate);
    }
  }

  // With whole-number bounds and rates, the tiered total falls short of the volume total by the price of the
  // units beyond every bound, and exceeds it by what the tiers passed add.
  lemma TieredMinusVolume(tiers: seq<PricingTier>, quantity: real)
    requires tiers != [] && Integral(tiers) && 0.0 < quantity
    ensures var n := VolumeIndex(tiers, quantity);
      TieredTotal(tiers, quantity) + Amount(quantity - Priced(tiers, quantity), tiers[n].unitAmount)
      == VolumeTotal(tiers, quantity) + Excess(tiers, n)
  {
    hide Amount;
    TieredTotalIsTotals(tiers, quantity);
    PassedTiers(tiers, VolumeIndex(tiers, quantity), quantity);
    AtLastTier(tiers, quantity);
  }

  // ---------- Comparisons ----------

  predicate RatesNeverRise(tiers: seq<PricingTier>) {
    forall i, j | 0 <= i < j < |tiers| :: tiers[j].unitAmount <= tiers[i].unitAmount
  }

  predicate RatesNeverFall(tiers: seq<PricingTier>) {
    forall i, j | 0 <= i < j < |tiers| :: tiers[i].unitAmount <= tiers[j].unitAmount
  }

  // Bounds in any order, but none below zero.
  predicate NoNegativeBound(tiers: seq<PricingTier>) {
    forall i | 0 <= i < |tiers| && tiers[i].upTo.Some? :: 0.0 <= tiers[i].upTo.value
  }

  lemma {:induction false} ExcessNonNegative(tiers: seq<PricingTier>, k: nat)
    requires NoNegativeBound(tiers) && RatesNeverRise(tiers) && NonNegative(tiers) && k < |tiers|
    ensures 0.0 <= Excess(tiers, k)
  {
    if k > 0 {
      ExcessNonNegative(tiers, k - 1);
      TimesSign(Start(tiers, k), tiers[k - 1].unitAmount - tiers[k].unitAmount);
    }
  }

  lemma {:induction false} ExcessNonPositive(tiers: seq<PricingTier>, k: nat)
    requires NoNegativeBound(tiers) && RatesNeverFall(tiers) && NoFees(tiers) && k < |tiers|
    ensures Excess(tiers, k) <= 0.0
  {
    if k > 0 {
      ExcessNonPositive(tiers, k - 1);
      TimesSign(Start(tiers, k), tiers[k - 1].unitAmount - tiers[k].unitAmount);
    }
  }

  // Which of the two is cheaper depends on whether the units beyond every bound, which tiered pricing leaves
  // out, are worth more than what the tiers passed add.
  lemma CheaperExactly(tiers: seq<PricingTier>, quantity: real)
    requires tiers != [] && Integral(tiers) && 0.0 < quantity
    ensures var n := VolumeIndex(tiers, quantity);
      var beyond := Amount(quantity - Priced(tiers, quantity), tiers[n].unitAmount);
      && (VolumeTotal(tiers, quantity) <= TieredTotal(tiers, quantity) <==> beyond <= Excess(tiers, n))
      && (TieredTotal(tiers, quantity) <= VolumeTotal(tiers, quantity) <==> Excess(tiers, n) <= beyond)
  {
    TieredMinusVolume(tiers, quantity);
  }

  lemma BeyondBounds(tiers: seq<PricingTier>, quantity: real)
    requires tiers != []
    ensures var beyond := Amount(quantity - Priced(tiers, quantity), tiers[VolumeIndex(tiers, quantity)].unitAmount);
      && (Priced(tiers, quantity) == quantity ==> beyond == 0.0)
      && (NonNegative(tiers) ==> 0.0 <= beyond)
  {
    var rate := tiers[VolumeIndex(tiers, quantity)].unitAmount;
    TimesZero(rate);
    if NonNegative(tiers) {
      AmountMonotone(0.0, quantity - Priced(tiers, quantity), rate);
    }
  }

  // So falling rates make volume pricing the cheaper one for every quantity that the tiers can hold, and
  // rising rates make it the dearer one for every quantity.
  lemma VolumeAgainstTiered(tiers: seq<PricingTier>, quantity: real)
    requires tiers != [] && Integral(tiers) && NoNegativeBound(tiers) && 0.0 < quantity
    ensures RatesNeverRise(tiers) && NonNegative(tiers) && Priced(tiers, quantity) == quantity ==>
      VolumeTotal(tiers, quantity) <= TieredTotal(tiers, quantity)
    ensures RatesNeverFall(tiers) && NoFees(tiers) && (NonNegative(tiers) || Priced(tiers, quantity) == quantity) ==>
      TieredTotal(tiers, quantity) <= VolumeTotal(tiers, quantity)
  {
    hide Amount;
    hide VolumeTotal;
    hide TieredTotal;
    var n := VolumeIndex(tiers, quantity);
    CheaperExactly(tiers, quantity);
    BeyondBounds(tiers, quantity);
    if RatesNeverRise(tiers) && NonNegative(tiers) {
      ExcessNonNegative(tiers, n);
    }
    if RatesNeverFall(tiers) && NoFees(tiers) {
      ExcessNonPositive(tiers, n);
    }
  }

  // Beyond every bound falling rates do not help: 2000 units cost 5500 tiered and 10000 by volume.
  lemma VolumeDearerBeyondBounds()
    ensures var tiers := [PricingTier(Some(100.0), 10.0, None), PricingTier(Some(1000.0), 5.0, None)];
      && WellFormed(tiers) && Integral(tiers) && NonNegative(tiers) && NoFees(tiers) && RatesNeverRise(tiers)
      && TieredTotal(tiers, 2000.0) == 5500.0 && VolumeTotal(tiers, 2000.0) == 10000.0
  {
    var tiers := [PricingTier(Some(100.0), 10.0, None), PricingTier(Some(1000.0), 5.0, None)];
    assert VolumeIndex(tiers, 2000.0) == 1;
    IntegerValue(10.0, 10);
    IntegerValue(5.0, 5);
    IntegerValue(100.0, 100);
    IntegerValue(1000.0, 1000);
    TieredMinusVolume(tiers, 2000.0);
    AmountOfIntegers(1000.0, 5.0);
    IntegerValue(2000.0, 2000);
    AmountOfIntegers(2000.0, 5.0);
    assert Excess(tiers, 1) == ExcessAt(tiers, 0) == 500.0;
  }

  // One whole-number rate and no fees: volume pricing is per-unit pricing, tiered pricing is per-unit pricing
  // of what the tiers can hold, and they agree exactly when the units beyond every bound are worth nothing.
  lemma CommonIntegerRate(tiers: seq<PricingTier>, rate: real, quantity: real)
    requires tiers != [] && Integral(tiers) && NoFees(tiers) && CommonRate(tiers, rate) && 0.0 < quantity
    ensures VolumeTotal(tiers, quantity) == Amount(quantity, rate)
    ensures TieredTotal(tiers, quantity) == Amount(Priced(tiers, quantity), rate)
    ensures TieredTotal(tiers, quantity) == VolumeTotal(tiers, quantity)
      <==> Amount(quantity - Priced(tiers, quantity), rate) == 0.0
  {
    var priced := Priced(tiers, quantity);
    TieredMinusVolume(tiers, quantity);
    NoExcess(tiers, rate, VolumeIndex(tiers, quantity));
    if priced == quantity {
      TimesZero(rate);
    } else {
      AmountSplits(quantity - priced, priced, rate);
      AmountOfIntegers(priced, rate);
    }
  }

  lemma {:induction false} NoExcess(tiers: seq<PricingTier>, rate: real, k: nat)
    requires NoFees(tiers) && CommonRate(tiers, rate) && k < |tiers|
    ensures Excess(tiers, k) == 0.0
  {
    if k > 0 {
      NoExcess(tiers, rate, k - 1);
      TimesZero(Start(tiers, k));
    }
  }
}
