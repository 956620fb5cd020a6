// What the tiered loop computes: a reference meaning that prices every tier, or every unit, on its own,
// and the laws that follow from it.
module TieredPricing {
  import opened Wrappers
  import opened Numbers
  import opened UsagePricing

  // ---------- Tier lists and their ranges ----------

  function Start(tiers: seq<PricingTier>, i: nat): real
    requires i <= |tiers|
  {
    if i == 0 then 0.0 else tiers[i - 1].upTo.GetOr(0.0)
  }

  // Positive, strictly increasing bounds; only the last tier may be unbounded.
  predicate WellFormed(tiers: seq<PricingTier>) {
    && tiers != []
    && (forall i | 0 <= i < |tiers| - 1 :: tiers[i].upTo.Some?)
    && (forall i | 0 <= i < |tiers| :: tiers[i].upTo.Some? ==> 0.0 < tiers[i].upTo.value)
    && (forall i, j | 0 <= i < j < |tiers| && tiers[j].upTo.Some? :: tiers[i].upTo.value < tiers[j].upTo.value)
  }

  // The charges that the API accepts: no negative rate and no negative fee.
  predicate NonNegative(tiers: seq<PricingTier>) {
    forall i | 0 <= i < |tiers| ::
      0.0 <= tiers[i].unitAmount && (tiers[i].flatAmount.Some? ==> 0.0 <= tiers[i].flatAmount.value)
  }

  predicate NoFees(tiers: seq<PricingTier>) {
    forall i | 0 <= i < |tiers| :: tiers[i].flatAmount.Some? ==> tiers[i].flatAmount.value == 0.0
  }

  // Whole-number bounds and rates; fees may be any amount.
  predicate Integral(tiers: seq<PricingTier>) {
    forall i | 0 <= i < |tiers| ::
      IsInteger(tiers[i].unitAmount) && (tiers[i].upTo.Some? ==> IsInteger(tiers[i].upTo.value))
  }

  function UpTo(quantity: real, bound: Option<real>): real {
    if bound.None? then quantity else Min(quantity, bound.value)
  }

  lemma StartsIncrease(tiers: seq<PricingTier>, i: nat, j: nat)
    requires WellFormed(tiers) && i < j < |tiers|
    ensures Start(tiers, i) < Start(tiers, j)
  {
    assert tiers[j - 1].upTo.Some?;
  }

  lemma StartsNonNegative(tiers: seq<PricingTier>, i: nat)
    requires WellFormed(tiers) && i < |tiers|
    ensures 0.0 <= Start(tiers, i)
  {
    if 0 < i {
      StartsIncrease(tiers, 0, i);
    }
  }

  // ---------- The closed form of the breakdown, for any tier list ----------

  // The part of the quantity that the list can price: all of it, unless it lies beyond every bound.
  function Priced(tiers: seq<PricingTier>, quantity: real): real
    requires tiers != []
  {
    UpTo(quantity, tiers[VolumeIndex(tiers, quantity)].upTo)
  }

  // What tier i takes when the loop reaches it; negative when its bound lies below the previous one.
  function Share(tiers: seq<PricingTier>, i: nat, quantity: real): real
    requires i < |tiers|
  {
    UpTo(quantity, tiers[i].upTo) - Start(tiers, i)
  }

  function Slice(tiers: seq<PricingTier>, i: nat, quantity: real): TierBreakdown
    requires i < |tiers|
  {
    TierBreakdown(
      i, Start(tiers, i), tiers[i].upTo, Share(tiers, i, quantity), tiers[i].unitAmount,
      tiers[i].Fee() + Amount(Share(tiers, i, quantity), tiers[i].unitAmount))
  }

  // Lines for the tiers from i up to the last one, each with its own share.
  ghost predicate SlicesFrom(tiers: seq<PricingTier>, i: nat, quantity: real, lines: seq<TierBreakdown>)
    requires tiers != []
  {
    && i + |lines| == VolumeIndex(tiers, quantity) + 1
    && forall k | i <= k < i + |lines| :: lines[k - i] == Slice(tiers, k, quantity)
  }

  // Every tier before i has been filled and passed.
  predicate Passed(tiers: seq<PricingTier>, i: nat, quantity: real)
    requires i <= |tiers|
  {
    forall j | 0 <= j < i :: tiers[j].upTo.Some? && tiers[j].upTo.value < quantity
  }

  lemma StartIsPassed(tiers: seq<PricingTier>, i: nat, quantity: real)
    requires i < |tiers| && 0.0 < quantity && Passed(tiers, i, quantity)
    ensures Start(tiers, i) < quantity && i <= VolumeIndex(tiers, quantity)
  {
  }

  // At a tier it reaches, the loop has quantity - Start(i) left, takes the tier's share, and goes on exactly
  // when this is not the last tier.
  lemma LineIsSlice(tiers: seq<PricingTier>, i: nat, quantity: real)
    requires i < |tiers| && 0.0 < quantity && Passed(tiers, i, quantity)
    ensures var line := Line(tiers[i], i, Start(tiers, i), quantity - Start(tiers, i));
      var left := quantity - Start(tiers, i) - line.quantity;
      && line == Slice(tiers, i, quantity)
      && (i < VolumeIndex(tiers, quantity) ==>
            && Passed(tiers, i + 1, quantity)
            && line.to == Some(Start(tiers, i + 1)) && left == quantity - Start(tiers, i + 1))
      && (i == VolumeIndex(tiers, quantity) ==> i + 1 == |tiers| || left <= 0.0)
  {
    StartIsPassed(tiers, i, quantity);
    assert TakenBy(quantity - Start(tiers, i), Start(tiers, i), tiers[i].upTo) == Share(tiers, i, quantity);
  }

  lemma SlicesCons(tiers: seq<PricingTier>, i: nat, quantity: real, rest: seq<TierBreakdown>)
    requires i < |tiers| && SlicesFrom(tiers, i + 1, quantity, rest)
    ensures SlicesFrom(tiers, i, quantity, [Slice(tiers, i, quantity)] + rest)
  {
    var lines := [Slice(tiers, i, quantity)] + rest;
    forall k | i <= k < i + |lines|
      ensures lines[k - i] == Slice(tiers, k, quantity)
    {
      if i < k {
        assert lines[k - i] == rest[k - (i + 1)];
      }
    }
  }

  lemma {:induction false} BreakdownFromIsSlices(tiers: seq<PricingTier>, i: nat, quantity: real)
    requires i < |tiers| && 0.0 < quantity && Passed(tiers, i, quantity)
    ensures SlicesFrom(
      tiers, i, quantity, BreakdownFrom(tiers, i, Some(Start(tiers, i)), quantity - Start(tiers, i)))
    decreases |tiers| - i
  {
    var left := quantity - Start(tiers, i);
    var line := Slice(tiers, i, quantity);
    StartIsPassed(tiers, i, quantity);
    LineIsSlice(tiers, i, quantity);
    TierStep([], tiers, i, Some(Start(tiers, i)), left);
    var rest := BreakdownFrom(tiers, i + 1, line.to, left - line.quantity);
    if i < VolumeIndex(tiers, quantity) {
      BreakdownFromIsSlices(tiers, i + 1, quantity);
    } else {
      assert rest == [];
    }
    SlicesCons(tiers, i, quantity, rest);
  }

  // For any tier list the loop reports the tiers up to the first that can hold the quantity, or else all of
  // them, each from the previous bound to its own or to the quantity.
  lemma BreakdownIsSlices(tiers: seq<PricingTier>, quantity: real)
    requires tiers != [] && 0.0 < quantity
    ensures SlicesFrom(tiers, 0, quantity, Breakdown(tiers, quantity))
  {
    BreakdownFromIsSlices(tiers, 0, quantity);
  }

  // ---------- The breakdown tiles the quantity ----------

  lemma {:induction false} PrefixQuantities(tiers: seq<PricingTier>, quantity: real, k: nat)
    requires tiers != [] && 0.0 < quantity && 1 <= k <= |Breakdown(tiers, quantity)|
    ensures k <= |tiers|
    ensures SumOfQuantities(Breakdown(tiers, quantity)[..k]) == UpTo(quantity, tiers[k - 1].upTo)
  {
    var lines := Breakdown(tiers, quantity);
    BreakdownIsSlices(tiers, quantity);
    assert lines[k - 1] == Slice(tiers, k - 1, quantity);
    assert lines[..k] == lines[..k - 1] + [lines[k - 1]];
    AppendLine(lines[..k - 1], lines[k - 1]);
    if k > 1 {
      PrefixQuantities(tiers, quantity, k - 1);
    }
  }

  // For any tier list: the lines start at 0 and each ends where the next begins, every line but the last
  // holds the width of its tier, and together they hold what the last tier reached allows of the quantity.
  lemma BreakdownTiles(tiers: seq<PricingTier>, quantity: real)
    requires tiers != [] && 0.0 < quantity
    ensures var lines := Breakdown(tiers, quantity);
      && |lines| == VolumeIndex(tiers, quantity) + 1
      && lines[0].from == 0.0
      && (forall i | 0 <= i < |lines| - 1 ::
            lines[i].to == Some(lines[i + 1].from) && lines[i].quantity == lines[i + 1].from - lines[i].from)
      && (forall i | 0 <= i < |lines| :: lines[i].tierIndex == i)
      && SumOfQuantities(lines) == Priced(tiers, quantity)
  {
    var lines := Breakdown(tiers, quantity);
    BreakdownIsSlices(tiers, quantity);
    forall i | 0 <= i < |lines|
      ensures lines[i].tierIndex == i
      ensures i < |lines| - 1 ==>
        lines[i].to == Some(lines[i + 1].from) && lines[i].quantity == lines[i + 1].from - lines[i].from
    {
      assert lines[i] == Slice(tiers, i, quantity);
      if i < |lines| - 1 {
        assert lines[i + 1] == Slice(tiers, i + 1, quantity);
      }
    }
    assert lines[0] == Slice(tiers, 0, quantity);
    assert lines[..|lines|] == lines;
    PrefixQuantities(tiers, quantity, |lines|);
  }

  // In a well-formed list no line is empty or negative.
  lemma LinesArePositive(tiers: seq<PricingTier>, quantity: real)
    requires WellFormed(tiers) && 0.0 < quantity
    ensures forall i | 0 <= i < |Breakdown(tiers, quantity)| :: Breakdown(tiers, quantity)[i].quantity > 0.0
  {
    var lines := Breakdown(tiers, quantity);
    BreakdownIsSlices(tiers, quantity);
    forall i | 0 <= i < |lines|
      ensures lines[i].quantity > 0.0
    {
      assert lines[i] == Slice(tiers, i, quantity);
      if 0 < i {
        assert tiers[i - 1].upTo.value < quantity;
      }
    }
  }

  predicate CanHold(tier: PricingTier, quantity: real) {
    tier.upTo.None? || quantity <= tier.upTo.value
  }

  // Every unit is charged exactly when some tier can hold the quantity.
  lemma AllUnitsPriced(tiers: seq<PricingTier>, quantity: real)
    requires tiers != [] && 0.0 < quantity
    ensures SumOfQuantities(Breakdown(tiers, quantity)) == quantity
      <==> exists i | 0 <= i < |tiers| :: CanHold(tiers[i], quantity)
  {
    BreakdownTiles(tiers, quantity);
    var n := VolumeIndex(tiers, quantity);
    if Priced(tiers, quantity) == quantity {
      assert CanHold(tiers[n], quantity);
    }
  }

  // ---------- The total as a sum over the tiers ----------

  // The lines of the first k tiers.
  function Totals(tiers: seq<PricingTier>, k: nat, quantity: real): real
    requires k <= |tiers|
  {
    if k == 0 then 0.0 else Totals(tiers, k - 1, quantity) + Slice(tiers, k - 1, quantity).tierTotal
  }

  lemma {:induction false} PrefixTotals(tiers: seq<PricingTier>, quantity: real, k: nat)
    requires tiers != [] && 0.0 < quantity && k <= |Breakdown(tiers, quantity)|
    ensures k <= |tiers| && SumOfTotals(Breakdown(tiers, quantity)[..k]) == Totals(tiers, k, quantity)
  {
    var lines := Breakdown(tiers, quantity);
    BreakdownIsSlices(tiers, quantity);
    if k > 0 {
      assert lines[k - 1] == Slice(tiers, k - 1, quantity);
      assert lines[..k] == lines[..k - 1] + [lines[k - 1]];
      AppendLine(lines[..k - 1], lines[k - 1]);
      PrefixTotals(tiers, quantity, k - 1);
    }
  }

  lemma TieredTotalIsTotals(tiers: seq<PricingTier>, quantity: real)
    requires tiers != [] && 0.0 < quantity
    ensures TieredTotal(tiers, quantity) == Totals(tiers, VolumeIndex(tiers, quantity) + 1, quantity)
  {
    var lines := Breakdown(tiers, quantity);
    BreakdownIsSlices(tiers, quantity);
    PrefixTotals(tiers, quantity, |lines|);
    assert lines[..|lines|] == lines;
  }

  // ---------- Independent charges, for well-formed lists ----------

  // How much of [0, quantity) lies in the range of tier i.
  function Units(tiers: seq<PricingTier>, i: nat, quantity: real): real
    requires i < |tiers|
  {
    Max(0.0, Share(tiers, i, quantity))
  }

  predicate Entered(tiers: seq<PricingTier>, i: nat, quantity: real)
    requires i < |tiers|
  {
    Start(tiers, i) < quantity
  }

  // The charge of a tier, seen on its own.
  function Charge(tiers: seq<PricingTier>, i: nat, quantity: real): real
    requires i < |tiers|
  {
    if Entered(tiers, i, quantity) then
      tiers[i].Fee() + Amount(Units(tiers, i, quantity), tiers[i].unitAmount)
    else
      0.0
  }

  function Charges(tiers: seq<PricingTier>, k: nat, quantity: real): real
    requires k <= |tiers|
  {
    if k == 0 then 0.0 else Charges(tiers, k - 1, quantity) + Charge(tiers, k - 1, quantity)
  }

  lemma EnteredIsReached(tiers: seq<PricingTier>, i: nat, quantity: real)
    requires WellFormed(tiers) && i < |tiers|
    ensures Entered(tiers, i, quantity) <==> 0.0 < quantity && i <= VolumeIndex(tiers, quantity)
    ensures Entered(tiers, i, quantity) ==> Units(tiers, i, quantity) == Share(tiers, i, quantity)
  {
    StartsNonNegative(tiers, i);
    var n := VolumeIndex(tiers, quantity);
    if n < i {
      assert tiers[i - 1].upTo.Some?;
    } else if 0 < i {
      assert tiers[i - 1].upTo.Some?;
    }
  }

  lemma {:induction false} ChargesAreTotals(tiers: seq<PricingTier>, k: nat, quantity: real)
    requires WellFormed(tiers) && k <= |tiers|
    ensures Charges(tiers, k, quantity) ==
      if quantity <= 0.0 then 0.0
      else if k <= VolumeIndex(tiers, quantity) then Totals(tiers, k, quantity)
      else Totals(tiers, VolumeIndex(tiers, quantity) + 1, quantity)
  {
    if k > 0 {
      ChargesAreTotals(tiers, k - 1, quantity);
      EnteredIsReached(tiers, k - 1, quantity);
    }
  }

  // The running loop and the tier-by-tier reference agree.
  lemma TieredTotalIsCharges(tiers: seq<PricingTier>, quantity: real)
    requires WellFormed(tiers)
    ensures TieredTotal(tiers, quantity) == Charges(tiers, |tiers|, quantity)
  {
    ChargesAreTotals(tiers, |tiers|, quantity);
    if 0.0 < quantity {
      TieredTotalIsTotals(tiers, quantity);
    }
  }

  lemma AmountMonotone(x: real, y: real, rate: real)
    requires x <= y && 0.0 <= rate
    ensures Amount(x, rate) <= Amount(y, rate)
  {
    TimesMonotone(x, y, rate);
    RoundMonotone(Times(x, rate), Times(y, rate));
  }
}
