// Sums of a measure over a sequence.
module Sums {

  function Sum<T>(items: seq<T>, measure: T -> int): int {
    if items == [] then 0 else Sum(items[..|items| - 1], measure) + measure(items[|items| - 1])
  }

  lemma {:induction false} SumIsLinear<T>(items: seq<T>, whole: T -> int, left: T -> int, right: T -> int)
    requires forall item | item in items :: whole(item) == left(item) + right(item)
    ensures Sum(items, whole) == Sum(items, left) + Sum(items, right)
  {
    if items != [] {
      SumIsLinear(items[..|items| - 1], whole, left, right);
    }
  }

  lemma {:induction false} SumIsMonotone<T>(items: seq<T>, small: T -> int, large: T -> int)
    requires forall item | item in items :: small(item) <= large(item)
    ensures Sum(items, small) <= Sum(items, large)
  {
    if items != [] {
      SumIsMonotone(items[..|items| - 1], small, large);
    }
  }

  lemma {:induction false} SumAppends<T>(items: seq<T>, more: seq<T>, measure: T -> int)
    ensures Sum(items + more, measure) == Sum(items, measure) + Sum(more, measure)
  {
    if more == [] {
      assert items + more == items;
    } else {
      var n := |more| - 1;
      assert (items + more)[..|items + more| - 1] == items + more[..n];
      SumAppends(items, more[..n], measure);
    }
  }

  lemma {:induction false} SumUpdates<T>(items: seq<T>, i: nat, item: T, measure: T -> int)
    requires i < |items|
    ensures Sum(items[i := item], measure) == Sum(items, measure) - measure(items[i]) + measure(item)
  {
    var n := |items| - 1;
    if i == n {
      assert items[i := item][..n] == items[..n];
    } else {
      assert items[i := item][..n] == items[..n][i := item];
      SumUpdates(items[..n], i, item, measure);
    }
  }

  lemma {:induction false} SumRemoves<T>(items: seq<T>, i: nat, measure: T -> int)
    requires i < |items|
    ensures Sum(items, measure) == Sum(items[..i] + items[i + 1..], measure) + measure(items[i])
  {
    var n := |items| - 1;
    if i == n {
      assert items[..i] + items[i + 1..] == items[..n];
    } else {
      var rest := items[..i] + items[i + 1..];
      assert rest[..|rest| - 1] == items[..n][..i] + items[..n][i + 1..];
      SumRemoves(items[..n], i, measure);
    }
  }

  // A further item, wherever it is put in.
  lemma SumInserts<T>(items: seq<T>, i: nat, item: T, measure: T -> int)
    requires i <= |items|
    ensures Sum(items[..i] + [item] + items[i..], measure) == Sum(items, measure) + measure(item)
  {
    SumAppends(items[..i] + [item], items[i..], measure);
    SumAppends(items[..i], [item], measure);
    SumAppends(items[..i], items[i..], measure);
    assert items[..i] + items[i..] == items;
    assert [item][..0] == [];
  }

  // A measure that is 1 on chosen positions and 0 on all others counts the chosen ones.
  lemma {:induction false} SumCounts<T>(items: seq<T>, measure: T -> int, chosen: set<nat>)
    requires forall i | i in chosen :: i < |items|
    requires forall i: nat | i < |items| :: measure(items[i]) == if i in chosen then 1 else 0
    ensures Sum(items, measure) == |chosen|
  {
    if items == [] {
      assert chosen == {};
    } else {
      var n := |items| - 1;
      var before := chosen - {n};
      SumCounts(items[..n], measure, before);
      if n in chosen {
        assert chosen == before + {n};
      } else {
        assert chosen == before;
      }
    }
  }

  lemma Without<T>(items: seq<T>, i: nat)
    requires i < |items|
    ensures multiset(items[..i] + items[i + 1..]) == multiset(items) - multiset{items[i]}
  {
    assert items == items[..i] + [items[i]] + items[i + 1..];
  }

  // A sum does not depend on the order of its items.
  lemma {:induction false} SumPermutes<T>(items: seq<T>, others: seq<T>, measure: T -> int)
    requires multiset(items) == multiset(others)
    ensures Sum(items, measure) == Sum(others, measure)
  {
    if items == [] {
      assert |multiset(others)| == 0;
    } else {
      var n := |items| - 1;
      assert items[..n] + items[n + 1..] == items[..n];
      Without(items, n);
      assert items[n] in multiset(others);
      var i :| 0 <= i < |others| && others[i] == items[n];
      Without(others, i);
      SumRemoves(others, i, measure);
      SumPermutes(items[..n], others[..i] + others[i + 1..], measure);
    }
  }
}
