// When more usage can cost less: exact conditions for tiered and for volume pricing, for any tier list
// without negative rates or fees.
module PriceMonotonicity {
  import opened Wrappers
  import opened Numbers
  import opened UsagePricing
  import opened TieredPricing
  import opened VolumePricing

  // ---------- Just above a quantity ----------

  // The tier that holds the quantities just above the given one: the first whose bound lies beyond it, or
  // the last tier.
  function IndexAboveFrom(tiers: seq<PricingTier>, quantity: real, i: nat): (index: nat)
    requires i <= |tiers| && tiers != []
    ensures index < |tiers|
    ensures forall j | i <= j < index :: tiers[j].upTo.Some? && tiers[j].upTo.value <= quantity
    ensures index < |tiers| - 1 ==> tiers[index].upTo.None? || quantity < tiers[index].upTo.value
    decreases |tiers| - i
  {
    if i == |tiers| then |tiers| - 1
    else if tiers[i].upTo.None? || quantity < tiers[i].upTo.value then i
    else IndexAboveFrom(tiers, quantity, i + 1)
  }

  function IndexAbove(tiers: seq<PricingTier>, quantity: real): (index: nat)
    requires tiers != []
    ensures index < |tiers|
    ensures forall j | 0 <= j < index :: tiers[j].upTo.Some? && tiers[j].upTo.value <= quantity
    ensures index < |tiers| - 1 ==> tiers[index].upTo.None? || quantity < tiers[index].upTo.value
  {
    IndexAboveFrom(tiers, quantity, 0)
  }

  // The quantity itself, priced through that tier, with the full lines of all tiers passed on the way.
  function TieredAbove(tiers: seq<PricingTier>, quantity: real): real
    requires tiers != []
  {
    Totals(tiers, IndexAbove(tiers, quantity) + 1, quantity)
  }

  function AtTier(tiers: seq<PricingTier>, i: nat, quantity: real): real
    requires i < |tiers|
  {
    tiers[i].Fee() + Amount(quantity, tiers[i].unitAmount)
  }

  function VolumeAbove(tiers: seq<PricingTier>, quantity: real): real
    requires tiers != []
  {
    AtTier(tiers, IndexAbove(tiers, quantity), quantity)
  }

  // Between a quantity and a larger one lies no other tier, or else a bound at which the next tier starts.
  lemma TiersBetween(tiers: seq<PricingTier>, q: real, r: real)
    requires tiers != [] && q < r
    ensures var m, n := IndexAbove(tiers, q), VolumeIndex(tiers, r);
      && m <= n
      && (m < n ==>
            && tiers[m].upTo.Some? && q < tiers[m].upTo.value < r
            && VolumeIndex(tiers, tiers[m].upTo.value) == m && m < IndexAbove(tiers, tiers[m].upTo.value))
  {
    var m, n := IndexAbove(tiers, q), VolumeIndex(tiers, r);
    if m < n {
      var bound := tiers[m].upTo.value;
      assert m < |tiers| - 1;
      assert VolumeIndex(tiers, bound) == m;
    }
  }

  // A quantity that is no bound is priced like those just above it.
  lemma SameTierAbove(tiers: seq<PricingTier>, q: real)
    requires tiers != []
    requires forall i | 0 <= i < |tiers| && tiers[i].upTo.Some? :: tiers[i].upTo.value != q
    ensures IndexAbove(tiers, q) == VolumeIndex(tiers, q)
  {
  }

  // Rounding is constant just to the right of any point.
  lemma RoundingHolds(x: real, rate: real, room: real) returns (step: real)
    requires 0.0 <= rate && 0.0 < room
    ensures 0.0 < step <= room && Amount(x + step, rate) == Amount(x, rate)
  {
    var gap := Amount(x, rate) + 0.5 - Times(x, rate);
    if rate == 0.0 {
      step := room;
    } else {
      var d := gap / (2.0 * rate);
      assert Times(d, rate) == gap / 2.0;
      step := Min(room, d);
      TimesSign(step, rate);
      TimesMonotone(step, d, rate);
    }
    TimesAdds(x, step, rate);
    RoundIsTheOnly(Times(x + step, rate), Round(Times(x, rate)));
  }

  // How far above q the same tier still holds.
  function Room(tiers: seq<PricingTier>, q: real): (room: real)
    requires tiers != []
    ensures room > 0.0
    ensures var m := IndexAbove(tiers, q);
      tiers[m].upTo.Some? && q < tiers[m].upTo.value ==> q + room == tiers[m].upTo.value
  {
    var upTo := tiers[IndexAbove(tiers, q)].upTo;
    if upTo.Some? && q < upTo.value then upTo.value - q else 1.0
  }

  lemma JustAbove(tiers: seq<PricingTier>, q: real, step: real)
    requires tiers != [] && 0.0 < step <= Room(tiers, q)
    ensures VolumeIndex(tiers, q + step) == IndexAbove(tiers, q)
  {
  }

  // ---------- Tiered pricing ----------

  predicate Drops(tiers: seq<PricingTier>, at: real)
    requires tiers != []
  {
    TieredTotal(tiers, at) > TieredAbove(tiers, at)
  }

  // A finite check: no drop at 0, nor at any positive bound.
  predicate NoDrop(tiers: seq<PricingTier>)
    requires tiers != []
  {
    && !Drops(tiers, 0.0)
    && forall i | 0 <= i < |tiers| && tiers[i].upTo.Some? && 0.0 < tiers[i].upTo.value ::
         !Drops(tiers, tiers[i].upTo.value)
  }

  ghost predicate TieredIsMonotone(tiers: seq<PricingTier>) {
    forall q, r | q <= r :: TieredTotal(tiers, q) <= TieredTotal(tiers, r)
  }

  // Tiers passed at q are passed with the same lines at any larger quantity.
  lemma {:induction false} SameTotals(tiers: seq<PricingTier>, k: nat, q: real, r: real)
    requires k <= |tiers| && q <= r
    requires forall j | 0 <= j < k :: tiers[j].upTo.Some? && tiers[j].upTo.value <= q
    ensures Totals(tiers, k, q) == Totals(tiers, k, r)
  {
    if k > 0 {
      SameTotals(tiers, k - 1, q, r);
      assert Share(tiers, k - 1, q) == Share(tiers, k - 1, r);
    }
  }

  lemma WithinTier(tiers: seq<PricingTier>, q: real, r: real)
    requires tiers != [] && NonNegative(tiers) && 0.0 <= q < r
    requires IndexAbove(tiers, q) == VolumeIndex(tiers, r)
    ensures TieredAbove(tiers, q) <= TieredTotal(tiers, r)
  {
    var m := VolumeIndex(tiers, r);
    TieredTotalIsTotals(tiers, r);
    SameTotals(tiers, m, q, r);
    AmountMonotone(Share(tiers, m, q), Share(tiers, m, r), tiers[m].unitAmount);
  }

  lemma {:induction false} ClimbFromAbove(tiers: seq<PricingTier>, q: real, r: real)
    requires tiers != [] && NonNegative(tiers) && NoDrop(tiers) && 0.0 <= q < r
    ensures TieredAbove(tiers, q) <= TieredTotal(tiers, r)
    decreases |tiers| - IndexAbove(tiers, q)
  {
    TiersBetween(tiers, q, r);
    var m := IndexAbove(tiers, q);
    if m == VolumeIndex(tiers, r) {
      WithinTier(tiers, q, r);
    } else {
      var bound := tiers[m].upTo.value;
      WithinTier(tiers, q, bound);
      assert !Drops(tiers, bound);
      ClimbFromAbove(tiers, bound, r);
    }
  }

  lemma NoDropAnywhere(tiers: seq<PricingTier>, q: real)
    requires tiers != [] && NoDrop(tiers) && 0.0 <= q
    ensures TieredTotal(tiers, q) <= TieredAbove(tiers, q)
  {
    if 0.0 < q && forall i | 0 <= i < |tiers| && tiers[i].upTo.Some? :: tiers[i].upTo.value != q {
      SameTierAbove(tiers, q);
      TieredTotalIsTotals(tiers, q);
    } else if 0.0 < q {
      var i :| 0 <= i < |tiers| && tiers[i].upTo.Some? && tiers[i].upTo.value == q;
      assert !Drops(tiers, tiers[i].upTo.value);
    }
  }

  lemma TieredClimbs(tiers: seq<PricingTier>, q: real, r: real)
    requires tiers != [] && NonNegative(tiers) && NoDrop(tiers) && q <= r
    ensures TieredTotal(tiers, q) <= TieredTotal(tiers, r)
  {
    if q < r && 0.0 < r {
      var from := Max(0.0, q);
      assert TieredTotal(tiers, q) == TieredTotal(tiers, from);
      NoDropAnywhere(tiers, from);
      ClimbFromAbove(tiers, from, r);
    } else if q < r {
      assert Breakdown(tiers, q) == Breakdown(tiers, r) == [];
    }
  }

  lemma DropIsReached(tiers: seq<PricingTier>, q: real) returns (r: real)
    requires tiers != [] && NonNegative(tiers) && 0.0 <= q && Drops(tiers, q)
    ensures q < r && TieredTotal(tiers, r) < TieredTotal(tiers, q)
  {
    var m := IndexAbove(tiers, q);
    var step := RoundingHolds(Share(tiers, m, q), tiers[m].unitAmount, Room(tiers, q));
    r := q + step;
    JustAbove(tiers, q, step);
    TieredTotalIsTotals(tiers, r);
    SameTotals(tiers, m, q, r);
    if tiers[m].upTo.None? || q < tiers[m].upTo.value {
      assert Share(tiers, m, r) == Share(tiers, m, q) + step;
    } else {
      assert Share(tiers, m, r) == Share(tiers, m, q);
    }
  }

  // For any tier list: more usage never costs less exactly when there is no drop at 0 or at a positive bound.
  lemma TieredMonotoneExactly(tiers: seq<PricingTier>)
    requires tiers != [] && NonNegative(tiers)
    ensures TieredIsMonotone(tiers) <==> NoDrop(tiers)
  {
    if NoDrop(tiers) {
      forall q, r | q <= r
        ensures TieredTotal(tiers, q) <= TieredTotal(tiers, r)
      {
        TieredClimbs(tiers, q, r);
      }
    } else {
      var q, r := DropExists(tiers);
    }
  }

  lemma DropExists(tiers: seq<PricingTier>) returns (q: real, r: real)
    requires tiers != [] && NonNegative(tiers) && !NoDrop(tiers)
    ensures 0.0 <= q < r && TieredTotal(tiers, r) < TieredTotal(tiers, q)
  {
    if Drops(tiers, 0.0) {
      q := 0.0;
    } else {
      var i :| 0 <= i < |tiers| && tiers[i].upTo.Some? && 0.0 < tiers[i].upTo.value
        && Drops(tiers, tiers[i].upTo.value);
      q := tiers[i].upTo.value;
    }
    r := DropIsReached(tiers, q);
  }

  lemma NoDropAtBound(tiers: seq<PricingTier>, i: nat)
    requires WellFormed(tiers) && NonNegative(tiers) && i < |tiers| && tiers[i].upTo.Some?
    ensures !Drops(tiers, tiers[i].upTo.value)
  {
    var bound := tiers[i].upTo.value;
    TieredTotalIsTotals(tiers, bound);
    assert VolumeIndex(tiers, bound) == i;
    if i < |tiers| - 1 {
      assert tiers[i + 1].upTo.Some? ==> bound < tiers[i + 1].upTo.value;
      assert IndexAbove(tiers, bound) == i + 1;
      assert Share(tiers, i + 1, bound) == 0.0;
      TimesZero(tiers[i + 1].unitAmount);
    } else {
      assert IndexAbove(tiers, bound) == i;
    }
  }

  lemma NoDropAtZero(tiers: seq<PricingTier>)
    requires WellFormed(tiers) && NonNegative(tiers)
    ensures !Drops(tiers, 0.0)
  {
    assert IndexAbove(tiers, 0.0) == 0;
    assert Share(tiers, 0, 0.0) == 0.0;
    TimesZero(tiers[0].unitAmount);
    assert Totals(tiers, 0, 0.0) == 0.0;
  }

  // A well-formed list never drops.
  lemma TieredMonotone(tiers: seq<PricingTier>)
    requires WellFormed(tiers) && NonNegative(tiers)
    ensures NoDrop(tiers) && TieredIsMonotone(tiers)
  {
    NoDropAtZero(tiers);
    forall i | 0 <= i < |tiers| && tiers[i].upTo.Some? && 0.0 < tiers[i].upTo.value
      ensures !Drops(tiers, tiers[i].upTo.value)
    {
      NoDropAtBound(tiers, i);
    }
    TieredMonotoneExactly(tiers);
  }

  // A list that is accepted, and under which the 101st unit takes 145 off the price.
  lemma UnorderedTiersDrop()
    ensures var tiers := [
        PricingTier(Some(100.0), 10.0, None), PricingTier(Some(50.0), 8.0, None), PricingTier(Some(1000.0), 5.0, None)];
      NonNegative(tiers) && TieredTotal(tiers, 100.0) == 1000.0 && TieredTotal(tiers, 101.0) == 855.0
  {
    var tiers := [
      PricingTier(Some(100.0), 10.0, None), PricingTier(Some(50.0), 8.0, None), PricingTier(Some(1000.0), 5.0, None)];
    TieredTotalIsTotals(tiers, 100.0);
    TieredTotalIsTotals(tiers, 101.0);
    assert VolumeIndex(tiers, 100.0) == 0 && VolumeIndex(tiers, 101.0) == 2;
    WholeLine(tiers, 0, 100.0, 1000);
    WholeLine(tiers, 0, 101.0, 1000);
    WholeLine(tiers, 1, 101.0, -400);
    WholeLine(tiers, 2, 101.0, 255);
    assert Totals(tiers, 1, 100.0) == Totals(tiers, 1, 101.0) == 1000.0;
    assert Totals(tiers, 2, 101.0) == 600.0;
  }

  lemma WholeLine(tiers: seq<PricingTier>, i: nat, quantity: real, whole: int)
    requires i < |tiers| && Times(Share(tiers, i, quantity), tiers[i].unitAmount) == whole as real
    ensures Slice(tiers, i, quantity).tierTotal == tiers[i].Fee() + whole as real
  {
    RoundOfInteger(whole);
  }

  // ---------- Volume pricing ----------

  // A bound at which the next tier that can hold more charges that same quantity less.
  predicate IsCliff(tiers: seq<PricingTier>, i: nat)
    requires i < |tiers|
  {
    && tiers[i].upTo.Some? && 0.0 <= tiers[i].upTo.value
    && VolumeTotal(tiers, tiers[i].upTo.value) > VolumeAbove(tiers, tiers[i].upTo.value)
  }

  predicate NoCliff(tiers: seq<PricingTier>) {
    forall i: nat | i < |tiers| :: !IsCliff(tiers, i)
  }

  // Enough where nothing is charged for nothing.
  predicate NoPositiveCliff(tiers: seq<PricingTier>) {
    forall i: nat | i < |tiers| && tiers[i].upTo.Some? && 0.0 < tiers[i].upTo.value :: !IsCliff(tiers, i)
  }

  ghost predicate VolumeIsMonotone(tiers: seq<PricingTier>)
    requires tiers != []
  {
    forall q, r | 0.0 <= q <= r :: VolumeTotal(tiers, q) <= VolumeTotal(tiers, r)
  }

  lemma {:induction false} VolumeClimbsFromAbove(tiers: seq<PricingTier>, q: real, r: real)
    requires tiers != [] && NonNegative(tiers) && NoPositiveCliff(tiers) && 0.0 <= q < r
    ensures VolumeAbove(tiers, q) <= VolumeTotal(tiers, r)
    decreases |tiers| - IndexAbove(tiers, q)
  {
    TiersBetween(tiers, q, r);
    var m := IndexAbove(tiers, q);
    if m == VolumeIndex(tiers, r) {
      AmountMonotone(q, r, tiers[m].unitAmount);
    } else {
      var bound := tiers[m].upTo.value;
      AmountMonotone(q, bound, tiers[m].unitAmount);
      assert !IsCliff(tiers, m);
      VolumeClimbsFromAbove(tiers, bound, r);
    }
  }

  lemma VolumeClimbs(tiers: seq<PricingTier>, q: real, r: real)
    requires tiers != [] && NonNegative(tiers) && NoPositiveCliff(tiers) && 0.0 <= q <= r
    requires q == 0.0 ==> NoCliff(tiers)
    ensures VolumeTotal(tiers, q) <= VolumeTotal(tiers, r)
  {
    if q < r {
      if forall i | 0 <= i < |tiers| && tiers[i].upTo.Some? :: tiers[i].upTo.value != q {
        SameTierAbove(tiers, q);
      } else {
        var i: nat :| i < |tiers| && tiers[i].upTo.Some? && tiers[i].upTo.value == q;
        assert !IsCliff(tiers, i);
      }
      VolumeClimbsFromAbove(tiers, q, r);
    }
  }

  lemma CliffIsReached(tiers: seq<PricingTier>, i: nat) returns (q: real, r: real)
    requires NonNegative(tiers) && i < |tiers| && IsCliff(tiers, i)
    ensures tiers[i].upTo == Some(q) && 0.0 <= q < r && VolumeTotal(tiers, q) > VolumeTotal(tiers, r)
  {
    q := tiers[i].upTo.value;
    var step := RoundingHolds(q, tiers[IndexAbove(tiers, q)].unitAmount, Room(tiers, q));
    r := q + step;
    JustAbove(tiers, q, step);
  }

  lemma CliffExists(tiers: seq<PricingTier>) returns (q: real, r: real)
    requires NonNegative(tiers) && tiers != [] && !NoCliff(tiers)
    ensures 0.0 <= q <= r && VolumeTotal(tiers, q) > VolumeTotal(tiers, r)
  {
    var i: nat :| i < |tiers| && IsCliff(tiers, i);
    q, r := CliffIsReached(tiers, i);
  }

  // For any tier list: volume pricing never charges less for more exactly when no bound is a cliff.
  lemma VolumeMonotoneExactly(tiers: seq<PricingTier>)
    requires tiers != [] && NonNegative(tiers)
    ensures VolumeIsMonotone(tiers) <==> NoCliff(tiers)
  {
    if NoCliff(tiers) {
      forall q, r | 0.0 <= q <= r
        ensures VolumeTotal(tiers, q) <= VolumeTotal(tiers, r)
      {
        VolumeClimbs(tiers, q, r);
      }
    } else {
      var q, r := CliffExists(tiers);
    }
  }

  predicate FeesNeverFall(tiers: seq<PricingTier>) {
    forall i, j | 0 <= i < j < |tiers| :: tiers[i].Fee() <= tiers[j].Fee()
  }

  lemma AmountRisesWithRate(quantity: real, rate: real, higher: real)
    requires 0.0 <= quantity && rate <= higher
    ensures Amount(quantity, rate) <= Amount(quantity, higher)
  {
    TimesMonotone(rate, higher, quantity);
    assert Times(quantity, rate) == Times(rate, quantity) && Times(quantity, higher) == Times(higher, quantity);
    RoundMonotone(Times(quantity, rate), Times(quantity, higher));
  }

  // In particular when neither rates nor fees fall from tier to tier, whatever the order of the bounds.
  lemma RisingTiersAreMonotone(tiers: seq<PricingTier>)
    requires tiers != [] && NonNegative(tiers) && RatesNeverFall(tiers) && FeesNeverFall(tiers)
    ensures VolumeIsMonotone(tiers)
  {
    forall i: nat | i < |tiers|
      ensures !IsCliff(tiers, i)
    {
      if tiers[i].upTo.Some? && 0.0 <= tiers[i].upTo.value {
        var q := tiers[i].upTo.value;
        var n, m := VolumeIndex(tiers, q), IndexAbove(tiers, q);
        assert n <= m;
        AmountRisesWithRate(q, tiers[n].unitAmount, tiers[m].unitAmount);
      }
    }
    VolumeMonotoneExactly(tiers);
  }
}
