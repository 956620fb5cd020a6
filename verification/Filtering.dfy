// What it means that a list is another one reduced to the items that meet a condition.
module Filtering {

  // The kept items are those at the given positions, which ascend and are exactly those that meet the condition:
  // so order and multiplicity are kept, and nothing else is.
  ghost predicate Picks<T>(kept: seq<T>, items: seq<T>, keep: T -> bool, positions: seq<nat>) {
    && |positions| == |kept|
    && (forall i, j | 0 <= i < j < |positions| :: positions[i] < positions[j])
    && (forall i | 0 <= i < |kept| :: positions[i] < |items| && kept[i] == items[positions[i]])
    && (forall k: nat | k < |items| :: k in positions <==> keep(items[k]))
  }

  ghost predicate IsFilter<T>(kept: seq<T>, items: seq<T>, keep: T -> bool) {
    exists positions: seq<nat> :: Picks(kept, items, keep, positions)
  }

  lemma NothingToFilter<T>(keep: T -> bool)
    ensures IsFilter([], [], keep)
  {
    assert Picks([], [], keep, []);
  }

  lemma PicksLast<T>(kept: seq<T>, items: seq<T>, item: T, keep: T -> bool, positions: seq<nat>)
    requires Picks(kept, items, keep, positions) && keep(item)
    ensures Picks(kept + [item], items + [item], keep, positions + [|items|])
  {
    var all: seq<nat> := positions + [|items|];
    forall k: nat | k < |items| + 1
      ensures k in all <==> keep((items + [item])[k])
    {
      assert k in all <==> k in positions || k == |items|;
    }
  }

  lemma PicksSkipLast<T>(kept: seq<T>, items: seq<T>, item: T, keep: T -> bool, positions: seq<nat>)
    requires Picks(kept, items, keep, positions) && !keep(item)
    ensures Picks(kept, items + [item], keep, positions)
  {
    assert |items| !in positions;
  }

  lemma FilterAppends<T>(kept: seq<T>, items: seq<T>, item: T, keep: T -> bool)
    requires IsFilter(kept, items, keep)
    ensures IsFilter(if keep(item) then kept + [item] else kept, items + [item], keep)
  {
    hide Picks;
    var positions: seq<nat> :| Picks(kept, items, keep, positions);
    if keep(item) {
      PicksLast(kept, items, item, keep, positions);
    } else {
      PicksSkipLast(kept, items, item, keep, positions);
    }
  }

  function Shifted(positions: seq<nat>): (shifted: seq<nat>)
    ensures |shifted| == |positions|
  {
    seq(|positions|, i requires 0 <= i < |positions| => positions[i] + 1)
  }

  lemma InShifted(positions: seq<nat>, k: nat)
    ensures k in Shifted(positions) <==> k > 0 && k - 1 in positions
  {
    if k > 0 && k - 1 in positions {
      var i :| 0 <= i < |positions| && positions[i] == k - 1;
      assert Shifted(positions)[i] == k;
    }
  }

  // Positions in a list, carried over to the list with one more item in front.
  lemma PicksShifted<T>(kept: seq<T>, items: seq<T>, item: T, keep: T -> bool, positions: seq<nat>)
    requires Picks(kept, items, keep, positions)
    ensures var longer, shifted := [item] + items, Shifted(positions);
      && |shifted| == |kept|
      && (forall i, j | 0 <= i < j < |shifted| :: shifted[i] < shifted[j])
      && (forall i | 0 <= i < |kept| :: 0 < shifted[i] < |longer| && kept[i] == longer[shifted[i]])
      && (forall k: nat | 0 < k < |longer| :: k in shifted <==> keep(longer[k]))
      && 0 !in shifted
  {
    var longer := [item] + items;
    InShifted(positions, 0);
    forall k: nat | 0 < k < |longer|
      ensures k in Shifted(positions) <==> keep(longer[k])
    {
      InShifted(positions, k);
      assert longer[k] == items[k - 1];
    }
  }

  lemma PicksFirst<T>(kept: seq<T>, items: seq<T>, keep: T -> bool, positions: seq<nat>)
    requires items != [] && keep(items[0]) && |positions| == |kept|
    requires forall i, j | 0 <= i < j < |positions| :: positions[i] < positions[j]
    requires forall i | 0 <= i < |kept| :: 0 < positions[i] < |items| && kept[i] == items[positions[i]]
    requires forall k: nat | 0 < k < |items| :: k in positions <==> keep(items[k])
    ensures Picks([items[0]] + kept, items, keep, [0] + positions)
  {
    var all: seq<nat> := [0] + positions;
    forall k: nat | k < |items|
      ensures k in all <==> keep(items[k])
    {
      assert k in all <==> k == 0 || k in positions;
    }
  }

  lemma PicksSkipFirst<T>(kept: seq<T>, items: seq<T>, keep: T -> bool, positions: seq<nat>)
    requires items != [] && !keep(items[0]) && |positions| == |kept|
    requires forall i, j | 0 <= i < j < |positions| :: positions[i] < positions[j]
    requires forall i | 0 <= i < |kept| :: 0 < positions[i] < |items| && kept[i] == items[positions[i]]
    requires forall k: nat | 0 < k < |items| :: k in positions <==> keep(items[k])
    requires 0 !in positions
    ensures Picks(kept, items, keep, positions)
  {
  }

  lemma FilterPrepends<T>(kept: seq<T>, items: seq<T>, item: T, keep: T -> bool)
    requires IsFilter(kept, items, keep)
    ensures IsFilter(if keep(item) then [item] + kept else kept, [item] + items, keep)
  {
    hide Picks;
    var longer := [item] + items;
    var positions: seq<nat> :| Picks(kept, items, keep, positions);
    PicksShifted(kept, items, item, keep, positions);
    if keep(item) {
      PicksFirst(kept, longer, keep, Shifted(positions));
    } else {
      PicksSkipFirst(kept, longer, keep, Shifted(positions));
    }
  }

  lemma FilteredItems<T>(kept: seq<T>, items: seq<T>, keep: T -> bool, item: T)
    requires IsFilter(kept, items, keep)
    ensures item in kept <==> item in items && keep(item)
  {
    var positions: seq<nat> :| Picks(kept, items, keep, positions);
    if item in kept {
      var i :| 0 <= i < |kept| && kept[i] == item;
      assert positions[i] in positions;
    }
    if item in items && keep(item) {
      var k: nat :| k < |items| && items[k] == item;
      assert k in positions;
      var i :| 0 <= i < |positions| && positions[i] == k;
      assert kept[i] == item;
    }
  }
}
