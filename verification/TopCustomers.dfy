// Customers ranked by MRR: grouping, sorting and slicing lose and invent no revenue
// (packages/api/src/analytics/revenue-analytics.service.ts, getTopCustomers).
module TopCustomers {
  import opened Wrappers
  import opened Numbers
  import opened Sums
  import opened Filtering
  import opened OrderedMaps
  import opened Mrr

  datatype CustomerRow = CustomerRow(customerId: string, customerEmail: string, mrr: int, subscriptionCount: int)

  type Customers = OrderedMap<string, CustomerRow>

  // ---------- Grouping ----------

  // Adds a subscription to its customer's row; the first subscription decides the email.
  function Add(customers: Customers, subscription: SubscriptionRow): (result: Customers)
    requires customers.Valid()
    ensures result.Valid()
  {
    var id := subscription.customerId;
    var existing := customers.Get(id).GetOr(CustomerRow(id, subscription.customerEmail, 0, 0));
    customers.Set(
      id,
      existing.(
        mrr := existing.mrr + MonthlyAmount(subscription), subscriptionCount := existing.subscriptionCount + 1))
  }

  function Grouped(subscriptions: seq<SubscriptionRow>): (customers: Customers)
    ensures customers.Valid()
  {
    if subscriptions == [] then Empty()
    else Add(Grouped(subscriptions[..|subscriptions| - 1]), subscriptions[|subscriptions| - 1])
  }

  // The rows in order of first appearance.
  function Rows(subscriptions: seq<SubscriptionRow>): seq<CustomerRow> {
    Grouped(subscriptions).values
  }

  // ---------- Sorting and slicing ----------

  // Descending by MRR; an element goes behind all those that are not smaller, so equal ones keep their order.
  function Insert(row: CustomerRow, sorted: seq<CustomerRow>): seq<CustomerRow> {
    if sorted == [] || sorted[|sorted| - 1].mrr >= row.mrr then
      sorted + [row]
    else
      Insert(row, sorted[..|sorted| - 1]) + [sorted[|sorted| - 1]]
  }

  // The built-in stable sort with the comparator that subtracts a row's MRR from that of the next.
  function SortedByMrr(rows: seq<CustomerRow>): seq<CustomerRow> {
    if rows == [] then [] else Insert(rows[|rows| - 1], SortedByMrr(rows[..|rows| - 1]))
  }

  method GroupByCustomer(subscriptions: seq<SubscriptionRow>) returns (customerMrr: Customers)
    ensures customerMrr == Grouped(subscriptions)
  {
    hide MonthlyAmount;
    customerMrr := Empty();
    for i := 0 to |subscriptions|
      invariant customerMrr == Grouped(subscriptions[..i])
    {
      assert subscriptions[..i + 1][..i] == subscriptions[..i];
      var id := subscriptions[i].customerId;
      var monthlyAmount := MonthlyAmount(subscriptions[i]);
      var existing := customerMrr.Get(id).GetOr(CustomerRow(id, subscriptions[i].customerEmail, 0, 0));
      existing := existing.(mrr := existing.mrr + monthlyAmount, subscriptionCount := existing.subscriptionCount + 1);
      customerMrr := customerMrr.Set(id, existing);
    }
    assert subscriptions[..|subscriptions|] == subscriptions;
  }

  method GetTopCustomers(subscriptions: seq<SubscriptionRow>, workspaceId: string, limit: int)
    returns (top: seq<CustomerRow>)
    ensures var rows := Rows(ActiveOf(subscriptions, workspaceId));
      |SortedByMrr(rows)| == |rows| && top == SortedByMrr(rows)[..SliceLength(|rows|, limit)]
  {
    var customerMrr := GroupByCustomer(ActiveOf(subscriptions, workspaceId));
    var sorted := SortedByMrr(customerMrr.values);
    SortIsPermutation(customerMrr.values);
    top := sorted[..SliceLength(|sorted|, limit)];
  }

  // ---------- Each row against a plain filter of the subscriptions ----------

  function MrrOf(subscriptions: seq<SubscriptionRow>, id: string): int {
    Sum(subscriptions, (s: SubscriptionRow) => if s.customerId == id then MonthlyAmount(s) else 0)
  }

  function CountFor(subscriptions: seq<SubscriptionRow>, id: string): int {
    Sum(subscriptions, (s: SubscriptionRow) => if s.customerId == id then 1 else 0)
  }

  predicate Appears(subscriptions: seq<SubscriptionRow>, id: string) {
    exists i | 0 <= i < |subscriptions| :: subscriptions[i].customerId == id
  }

  lemma AppearsStep(subscriptions: seq<SubscriptionRow>, id: string)
    requires subscriptions != []
    ensures var n := |subscriptions| - 1;
      Appears(subscriptions, id) <==> Appears(subscriptions[..n], id) || subscriptions[n].customerId == id
  {
    var n := |subscriptions| - 1;
    if Appears(subscriptions[..n], id) {
      var i :| 0 <= i < n && subscriptions[..n][i].customerId == id;
      assert subscriptions[i].customerId == id;
    }
    if Appears(subscriptions, id) && subscriptions[n].customerId != id {
      var i :| 0 <= i < |subscriptions| && subscriptions[i].customerId == id;
      assert subscriptions[..n][i].customerId == id;
    }
  }

  lemma AddChangesOneRow(customers: Customers, subscription: SubscriptionRow, id: string)
    requires customers.Valid()
    ensures var after, own := Add(customers, subscription), subscription.customerId;
      && (after.Has(id) <==> id == own || customers.Has(id))
      && (id != own ==> after.Get(id) == customers.Get(id))
      && (id == own ==>
            var row := customers.Get(id).GetOr(CustomerRow(id, subscription.customerEmail, 0, 0));
            after.Get(id) == Some(row.(
              mrr := row.mrr + MonthlyAmount(subscription), subscriptionCount := row.subscriptionCount + 1)))
  {
    hide MonthlyAmount;
    var own := subscription.customerId;
    var row := customers.Get(own).GetOr(CustomerRow(own, subscription.customerEmail, 0, 0));
    GetAfterSet(
      customers, own,
      row.(mrr := row.mrr + MonthlyAmount(subscription), subscriptionCount := row.subscriptionCount + 1), id);
  }

  // There is one row for each customer with a subscription, and it adds up exactly that customer's.
  lemma {:induction false} RowsArePerCustomer(subscriptions: seq<SubscriptionRow>, id: string)
    ensures Grouped(subscriptions).Has(id) <==> Appears(subscriptions, id)
    ensures !Appears(subscriptions, id) ==> MrrOf(subscriptions, id) == 0 && CountFor(subscriptions, id) == 0
    ensures Appears(subscriptions, id) ==>
      var row := Grouped(subscriptions).Get(id).value;
      row.customerId == id && row.mrr == MrrOf(subscriptions, id)
      && row.subscriptionCount == CountFor(subscriptions, id)
  {
    hide MonthlyAmount;
    if subscriptions != [] {
      var n := |subscriptions| - 1;
      RowsArePerCustomer(subscriptions[..n], id);
      AppearsStep(subscriptions, id);
      AddChangesOneRow(Grouped(subscriptions[..n]), subscriptions[n], id);
    }
  }

  // ---------- The rows themselves ----------

  // Where a customer appears first.
  function FirstIndex(subscriptions: seq<SubscriptionRow>, id: string): (index: nat)
    requires Appears(subscriptions, id)
    ensures index < |subscriptions| && subscriptions[index].customerId == id
    ensures forall i | 0 <= i < index :: subscriptions[i].customerId != id
  {
    AppearsStep(subscriptions, id);
    var n := |subscriptions| - 1;
    if Appears(subscriptions[..n], id) then FirstIndex(subscriptions[..n], id) else n
  }

  // The row of a customer and its place: the email is that of the customer's first subscription, and rows come in
  // the order in which their customers first appear.
  ghost predicate FollowFirst(customers: Customers, subscriptions: seq<SubscriptionRow>) {
    && |customers.keys| == |customers.values|
    && (forall i | 0 <= i < |customers.keys| ::
          && Appears(subscriptions, customers.keys[i])
          && customers.values[i].customerId == customers.keys[i]
          && customers.values[i].customerEmail
             == subscriptions[FirstIndex(subscriptions, customers.keys[i])].customerEmail)
    && (forall i, j | 0 <= i < j < |customers.keys| ::
          FirstIndex(subscriptions, customers.keys[i]) < FirstIndex(subscriptions, customers.keys[j]))
  }

  // A customer's first subscription stays the first when one more comes in.
  lemma FirstIndexStays(subscriptions: seq<SubscriptionRow>, row: SubscriptionRow, id: string)
    requires Appears(subscriptions, id)
    ensures Appears(subscriptions + [row], id)
    ensures FirstIndex(subscriptions + [row], id) == FirstIndex(subscriptions, id)
  {
    assert (subscriptions + [row])[..|subscriptions|] == subscriptions;
    AppearsStep(subscriptions + [row], id);
  }

  lemma FollowsWithOneMore(customers: Customers, subscriptions: seq<SubscriptionRow>, row: SubscriptionRow)
    requires FollowFirst(customers, subscriptions)
    ensures FollowFirst(customers, subscriptions + [row])
  {
    hide FirstIndex;
    hide Appears;
    forall i | 0 <= i < |customers.keys|
      ensures Appears(subscriptions + [row], customers.keys[i])
      ensures FirstIndex(subscriptions + [row], customers.keys[i]) == FirstIndex(subscriptions, customers.keys[i])
    {
      FirstIndexStays(subscriptions, row, customers.keys[i]);
    }
  }

  lemma NewRowFollows(customers: Customers, subscriptions: seq<SubscriptionRow>, row: CustomerRow)
    requires FollowFirst(customers, subscriptions) && subscriptions != []
    requires var last := subscriptions[|subscriptions| - 1];
      && row.customerId == last.customerId && row.customerEmail == last.customerEmail
      && !Appears(subscriptions[..|subscriptions| - 1], row.customerId)
    requires forall i | 0 <= i < |customers.keys| :: Appears(subscriptions[..|subscriptions| - 1], customers.keys[i])
    ensures FollowFirst(
      OrderedMap(customers.keys + [row.customerId], customers.values + [row]), subscriptions)
  {
    var n := |subscriptions| - 1;
    AppearsStep(subscriptions, row.customerId);
    assert FirstIndex(subscriptions, row.customerId) == n;
    forall i | 0 <= i < |customers.keys|
      ensures FirstIndex(subscriptions, customers.keys[i]) < n
    {
      AppearsStep(subscriptions, customers.keys[i]);
    }
  }

  lemma ChangedRowFollows(customers: Customers, subscriptions: seq<SubscriptionRow>, i: nat, row: CustomerRow)
    requires FollowFirst(customers, subscriptions) && i < |customers.values|
    requires row.customerId == customers.values[i].customerId && row.customerEmail == customers.values[i].customerEmail
    ensures FollowFirst(OrderedMap(customers.keys, customers.values[i := row]), subscriptions)
  {
    hide FirstIndex;
    hide Appears;
  }

  lemma AddFollows(customers: Customers, subscriptions: seq<SubscriptionRow>, last: SubscriptionRow)
    requires customers.Valid() && FollowFirst(customers, subscriptions)
    requires customers.Has(last.customerId) <==> Appears(subscriptions, last.customerId)
    ensures FollowFirst(Add(customers, last), subscriptions + [last])
  {
    hide MonthlyAmount;
    hide FirstIndex;
    hide Appears;
    var id, all := last.customerId, subscriptions + [last];
    FollowsWithOneMore(customers, subscriptions, last);
    if customers.Has(id) {
      var i := IndexOf(customers.keys, id);
      ChangedRowFollows(customers, all, i, Add(customers, last).values[i]);
    } else {
      assert all[..|subscriptions|] == subscriptions;
      NewRowFollows(customers, all, CustomerRow(id, last.customerEmail, MonthlyAmount(last), 1));
    }
  }

  lemma {:induction false} RowsFollowFirst(subscriptions: seq<SubscriptionRow>)
    ensures FollowFirst(Grouped(subscriptions), subscriptions)
  {
    hide Add;
    if subscriptions != [] {
      var n := |subscriptions| - 1;
      RowsFollowFirst(subscriptions[..n]);
      RowsArePerCustomer(subscriptions[..n], subscriptions[n].customerId);
      AddFollows(Grouped(subscriptions[..n]), subscriptions[..n], subscriptions[n]);
      assert subscriptions[..n] + [subscriptions[n]] == subscriptions;
    }
  }

  // The customers of a workspace with a subscription that counts.
  function CustomersIn(subscriptions: seq<SubscriptionRow>, workspaceId: string): set<string> {
    set row | row in subscriptions && row.workspaceId == workspaceId && row.status in {"active", "trialing"} ::
      row.customerId
  }

  lemma {:induction false} DistinctSize(keys: seq<string>, ids: set<string>)
    requires forall i, j | 0 <= i < j < |keys| :: keys[i] != keys[j]
    requires forall id :: id in ids <==> id in keys
    ensures |ids| == |keys|
  {
    if keys == [] {
      assert ids == {};
    } else {
      var n := |keys| - 1;
      forall id
        ensures id in ids - {keys[n]} <==> id in keys[..n]
      {
      }
      DistinctSize(keys[..n], ids - {keys[n]});
    }
  }

  // The list is as long as the limit allows, one row for each such customer: at most limit rows, or for a
  // negative limit all but that many.
  lemma TopHasTheLimit(subscriptions: seq<SubscriptionRow>, workspaceId: string, limit: int)
    ensures var customers := |CustomersIn(subscriptions, workspaceId)|;
      var rows := Rows(ActiveOf(subscriptions, workspaceId));
      && |rows| == customers
      && SliceLength(|rows|, limit)
         == if 0 <= limit then (if customers <= limit then customers else limit)
            else (if customers <= -limit then 0 else customers - -limit)
  {
    var active := ActiveOf(subscriptions, workspaceId);
    var customers := Grouped(active);
    forall id
      ensures id in CustomersIn(subscriptions, workspaceId) <==> id in customers.keys
    {
      RowsArePerCustomer(active, id);
      ActiveCustomers(subscriptions, workspaceId, id);
    }
    DistinctSize(customers.keys, CustomersIn(subscriptions, workspaceId));
  }

  lemma ActiveCustomers(subscriptions: seq<SubscriptionRow>, workspaceId: string, id: string)
    ensures id in CustomersIn(subscriptions, workspaceId) <==> Appears(ActiveOf(subscriptions, workspaceId), id)
  {
    var active := ActiveOf(subscriptions, workspaceId);
    ActiveAreCounted(subscriptions, workspaceId);
    if id in CustomersIn(subscriptions, workspaceId) {
      var row :| row in subscriptions && Counts(workspaceId)(row) && row.customerId == id;
      FilteredItems(active, subscriptions, Counts(workspaceId), row);
      var i :| 0 <= i < |active| && active[i] == row;
    }
    if Appears(active, id) {
      var i :| 0 <= i < |active| && active[i].customerId == id;
      FilteredItems(active, subscriptions, Counts(workspaceId), active[i]);
    }
  }

  // ---------- Conservation ----------

  function RowMrr(row: CustomerRow): int {
    row.mrr
  }

  function RowCount(row: CustomerRow): int {
    row.subscriptionCount
  }

  lemma AddConserves(customers: Customers, subscription: SubscriptionRow)
    requires customers.Valid()
    ensures Sum(Add(customers, subscription).values, RowMrr)
      == Sum(customers.values, RowMrr) + MonthlyAmount(subscription)
    ensures Sum(Add(customers, subscription).values, RowCount) == Sum(customers.values, RowCount) + 1
  {
    hide MonthlyAmount;
    var id := subscription.customerId;
    var row := customers.Get(id).GetOr(CustomerRow(id, subscription.customerEmail, 0, 0));
    var updated :=
      row.(mrr := row.mrr + MonthlyAmount(subscription), subscriptionCount := row.subscriptionCount + 1);
    if customers.Has(id) {
      SumUpdates(customers.values, IndexOf(customers.keys, id), updated, RowMrr);
      SumUpdates(customers.values, IndexOf(customers.keys, id), updated, RowCount);
    } else {
      assert (customers.values + [updated])[..|customers.values|] == customers.values;
    }
  }

  // The rows share out all the MRR and all the subscriptions.
  lemma {:induction false} GroupingConserves(subscriptions: seq<SubscriptionRow>)
    ensures Sum(Rows(subscriptions), RowMrr) == TotalMrr(subscriptions)
    ensures Sum(Rows(subscriptions), RowCount) == |subscriptions|
  {
    if subscriptions != [] {
      var n := |subscriptions| - 1;
      GroupingConserves(subscriptions[..n]);
      AddConserves(Grouped(subscriptions[..n]), subscriptions[n]);
    }
  }

  // ---------- A true top list ----------

  predicate Descending(rows: seq<CustomerRow>) {
    forall i, j | 0 <= i < j < |rows| :: rows[i].mrr >= rows[j].mrr
  }

  lemma {:induction false} InsertAdds(row: CustomerRow, sorted: seq<CustomerRow>)
    ensures multiset(Insert(row, sorted)) == multiset(sorted) + multiset{row}
  {
    if !(sorted == [] || sorted[|sorted| - 1].mrr >= row.mrr) {
      var n := |sorted| - 1;
      InsertAdds(row, sorted[..n]);
      assert sorted == sorted[..n] + [sorted[n]];
    }
  }

  lemma {:induction false} InsertKeepsOrder(row: CustomerRow, sorted: seq<CustomerRow>)
    requires Descending(sorted)
    ensures Descending(Insert(row, sorted))
    ensures forall other | other in Insert(row, sorted) :: other in sorted || other == row
  {
    if !(sorted == [] || sorted[|sorted| - 1].mrr >= row.mrr) {
      var n := |sorted| - 1;
      InsertKeepsOrder(row, sorted[..n]);
      var shorter := Insert(row, sorted[..n]);
      forall i | 0 <= i < |shorter|
        ensures shorter[i].mrr >= sorted[n].mrr
      {
        assert shorter[i] in shorter;
      }
    }
  }

  lemma {:induction false} SortIsPermutation(rows: seq<CustomerRow>)
    ensures multiset(SortedByMrr(rows)) == multiset(rows)
    ensures |SortedByMrr(rows)| == |rows|
  {
    if rows != [] {
      var n := |rows| - 1;
      SortIsPermutation(rows[..n]);
      InsertAdds(rows[n], SortedByMrr(rows[..n]));
      assert rows == rows[..n] + [rows[n]];
    }
    assert |multiset(SortedByMrr(rows))| == |SortedByMrr(rows)|;
  }

  lemma {:induction false} SortDescends(rows: seq<CustomerRow>)
    ensures Descending(SortedByMrr(rows))
  {
    if rows != [] {
      SortDescends(rows[..|rows| - 1]);
      InsertKeepsOrder(rows[|rows| - 1], SortedByMrr(rows[..|rows| - 1]));
    }
  }

  // The rows with a given MRR, in order.
  function Ties(rows: seq<CustomerRow>, mrr: int): seq<CustomerRow> {
    if rows == [] then []
    else
      Ties(rows[..|rows| - 1], mrr) + if rows[|rows| - 1].mrr == mrr then [rows[|rows| - 1]] else []
  }

  lemma {:induction false} InsertIsStable(row: CustomerRow, sorted: seq<CustomerRow>, mrr: int)
    requires Descending(sorted)
    ensures Ties(Insert(row, sorted), mrr) == Ties(sorted, mrr) + if row.mrr == mrr then [row] else []
  {
    if sorted == [] || sorted[|sorted| - 1].mrr >= row.mrr {
      assert (sorted + [row])[..|sorted|] == sorted;
    } else {
      var n := |sorted| - 1;
      InsertIsStable(row, sorted[..n], mrr);
      var shorter := Insert(row, sorted[..n]);
      assert Insert(row, sorted)[..|shorter|] == shorter;
      if mrr == row.mrr {
        assert Ties(sorted, mrr) == Ties(sorted[..n], mrr);
      } else if mrr == sorted[n].mrr {
        assert Ties(sorted, mrr) == Ties(sorted[..n], mrr) + [sorted[n]];
      }
    }
  }

  // Customers with equal MRR stay in order of first appearance.
  lemma {:induction false} SortIsStable(rows: seq<CustomerRow>, mrr: int)
    ensures Ties(SortedByMrr(rows), mrr) == Ties(rows, mrr)
  {
    if rows != [] {
      var n := |rows| - 1;
      SortIsStable(rows[..n], mrr);
      SortDescends(rows[..n]);
      InsertIsStable(rows[n], SortedByMrr(rows[..n]), mrr);
    }
  }

  // Whatever the limit: the list descends, it and the rows left out make up the grouping, and no customer
  // left out has more MRR than one included.
  lemma TopIsTrueTop(subscriptions: seq<SubscriptionRow>, limit: int)
    ensures |SortedByMrr(Rows(subscriptions))| == |Rows(subscriptions)|
    ensures var rows := Rows(subscriptions);
      var k := SliceLength(|rows|, limit);
      var top, omitted := SortedByMrr(rows)[..k], SortedByMrr(rows)[k..];
      && Descending(top)
      && multiset(top) + multiset(omitted) == multiset(rows)
      && forall i, j | 0 <= i < |top| && 0 <= j < |omitted| :: top[i].mrr >= omitted[j].mrr
  {
    hide Grouped;
    hide SortedByMrr;
    var rows := Rows(subscriptions);
    SortIsPermutation(rows);
    SortDescends(rows);
    SplitDescending(SortedByMrr(rows), SliceLength(|rows|, limit));
  }

  lemma SplitDescending(sorted: seq<CustomerRow>, k: nat)
    requires k <= |sorted| && Descending(sorted)
    ensures Descending(sorted[..k])
    ensures multiset(sorted[..k]) + multiset(sorted[k..]) == multiset(sorted)
    ensures forall i, j | 0 <= i < |sorted[..k]| && 0 <= j < |sorted[k..]| ::
      sorted[..k][i].mrr >= sorted[k..][j].mrr
  {
    assert sorted == sorted[..k] + sorted[k..];
  }

  // With room for every customer the list still carries the whole MRR.
  lemma TopConserves(subscriptions: seq<SubscriptionRow>, limit: int)
    requires limit >= |Rows(subscriptions)|
    ensures |SortedByMrr(Rows(subscriptions))| == |Rows(subscriptions)|
    ensures var rows := Rows(subscriptions);
      Sum(SortedByMrr(rows)[..SliceLength(|rows|, limit)], RowMrr) == TotalMrr(subscriptions)
  {
    hide Grouped;
    hide SortedByMrr;
    var rows := Rows(subscriptions);
    SortIsPermutation(rows);
    GroupingConserves(subscriptions);
    SumPermutes(rows, SortedByMrr(rows), RowMrr);
    assert SortedByMrr(rows)[..|rows|] == SortedByMrr(rows);
  }
}
