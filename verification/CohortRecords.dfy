// The figures of a cohort, read off the event and subscription records themselves, and the stored cohort rows
// read back from the analysis.
module CohortRecords {
  import opened Wrappers
  import opened Numbers
  import opened OrderedMaps
  import opened Mrr
  import opened Cohorts

  // ---------- One run ----------

  // The customers won by the workspace from midnight on the first day of the month to midnight on the last.
  function Won(events: seq<NewSubscriptionEvent>, workspaceId: string, y: int, m: nat): set<string>
    requires m < 12
  {
    set event |
      && event in events
      && event.workspaceId == workspaceId
      && CohortStart(y, m) <= event.occurredAt && event.occurredAt <= CohortEnd(y, m)
      :: event.customerId
  }

  // Those of them who have an active or trialing subscription.
  function Stayed(
      subscriptions: seq<SubscriptionRow>, customers: set<string>, workspaceId: string): set<string>
  {
    set row |
      row in subscriptions && row.workspaceId == workspaceId && row.status in {"active", "trialing"}
      && row.customerId in customers
      :: row.customerId
  }

  // What events of the cohort brought in: their new MRR, or else their amount.
  function WonMrr(events: seq<NewSubscriptionEvent>, workspaceId: string, y: int, m: nat): int
    requires m < 12
  {
    if events == [] then 0
    else
      var event := events[|events| - 1];
      WonMrr(events[..|events| - 1], workspaceId, y, m)
      + if event.workspaceId == workspaceId && CohortStart(y, m) <= event.occurredAt
           && event.occurredAt <= CohortEnd(y, m)
        then
          match event.newMrr
          case Some(mrr) => mrr
          case None => event.amount
        else
          0
  }

  function StayedMrr(subscriptions: seq<SubscriptionRow>, customers: set<string>, workspaceId: string): int {
    if subscriptions == [] then 0
    else
      var row := subscriptions[|subscriptions| - 1];
      StayedMrr(subscriptions[..|subscriptions| - 1], customers, workspaceId)
      + if row.workspaceId == workspaceId && row.status in {"active", "trialing"} && row.customerId in customers then
          MonthlyAmount(row)
        else
          0
  }

  lemma CohortIsWon(events: seq<NewSubscriptionEvent>, workspaceId: string, y: int, m: nat)
    requires m < 12
    ensures CohortCustomers(events, workspaceId, y, m) == Won(events, workspaceId, y, m)
  {
    hide CohortStart;
    hide CohortEnd;
    forall id
      ensures id in CohortCustomers(events, workspaceId, y, m) <==> id in Won(events, workspaceId, y, m)
    {
      if id in CohortCustomers(events, workspaceId, y, m) {
        var i :| 0 <= i < |events| && Acquired(events[i], workspaceId, y, m) && events[i].customerId == id;
        assert events[i] in events;
      }
      if id in Won(events, workspaceId, y, m) {
        var event :| event in events && Acquired(event, workspaceId, y, m) && event.customerId == id;
        var i :| 0 <= i < |events| && events[i] == event;
        assert Acquired(events[i], workspaceId, y, m);
      }
    }
  }

  lemma {:induction false} StartIsWon(events: seq<NewSubscriptionEvent>, workspaceId: string, y: int, m: nat)
    requires m < 12
    ensures StartMrr(events, workspaceId, y, m) == WonMrr(events, workspaceId, y, m)
  {
    hide CohortStart;
    hide CohortEnd;
    if events != [] {
      StartIsWon(events[..|events| - 1], workspaceId, y, m);
    }
  }

  // Remaining is the active rows of the cohort's customers: one condition, applied to the whole table.
  lemma RemainingStep(subscriptions: seq<SubscriptionRow>, customers: set<string>, row: SubscriptionRow)
    ensures var before := Remaining(subscriptions, customers);
      Remaining(subscriptions + [row], customers) == if row.customerId in customers then before + [row] else before
  {
    assert (subscriptions + [row])[..|subscriptions|] == subscriptions;
  }

  lemma {:induction false} RemainingHaveStayed(
      subscriptions: seq<SubscriptionRow>, customers: set<string>, workspaceId: string)
    ensures var remaining := Remaining(ActiveOf(subscriptions, workspaceId), customers);
      && CustomersOf(remaining) == Stayed(subscriptions, customers, workspaceId)
      && TotalMrr(remaining) == StayedMrr(subscriptions, customers, workspaceId)
  {
    hide MonthlyAmount;
    if subscriptions == [] {
      assert CustomersOf(Remaining([], customers)) == {};
    } else {
      var n := |subscriptions| - 1;
      var before := ActiveOf(subscriptions[..n], workspaceId);
      RemainingHaveStayed(subscriptions[..n], customers, workspaceId);
      ActiveStep(subscriptions, workspaceId);
      StayedStep(subscriptions, customers, workspaceId);
      RemainingStep(before, customers, subscriptions[n]);
      OneMoreCustomer(Remaining(before, customers), subscriptions[n]);
      TotalOfOneMore(Remaining(before, customers), subscriptions[n]);
    }
  }

  lemma StayedStep(subscriptions: seq<SubscriptionRow>, customers: set<string>, workspaceId: string)
    requires subscriptions != []
    ensures var n := |subscriptions| - 1;
      var row := subscriptions[n];
      Stayed(subscriptions, customers, workspaceId)
      == Stayed(subscriptions[..n], customers, workspaceId)
       + if Counts(workspaceId)(row) && row.customerId in customers then {row.customerId} else {}
  {
    var n := |subscriptions| - 1;
    assert forall row :: row in subscriptions <==> row in subscriptions[..n] || row == subscriptions[n];
  }

  // The figures of any run in terms of the records: how many were won and how many of them have stayed, with
  // their MRR, and the two retentions as shares up to rounding.
  lemma FiguresFromRecords(
      events: seq<NewSubscriptionEvent>, subscriptions: seq<SubscriptionRow>, workspaceId: string, y: int, m: nat)
    requires m < 12
    ensures var won := Won(events, workspaceId, y, m);
      var figures := Figures(events, subscriptions, workspaceId, y, m);
      && (figures.None? <==> won == {})
      && (figures.Some? ==>
            && var f := figures.value;
            && f.customersAtStart == |won|
            && f.customersRemaining == |Stayed(subscriptions, won, workspaceId)|
            && f.mrrAtStart == WonMrr(events, workspaceId, y, m)
            && f.mrrRemaining == StayedMrr(subscriptions, won, workspaceId)
            && IsShare(f.customerRetention, f.customersRemaining, f.customersAtStart, 10000.0)
            && (f.mrrAtStart > 0 ==> IsShare(f.revenueRetention, f.mrrRemaining, f.mrrAtStart, 10000.0))
            && (f.mrrAtStart <= 0 ==> f.revenueRetention == 0))
  {
    hide Won;
    hide WonMrr;
    hide Stayed;
    hide StayedMrr;
    hide StartMrr;
    hide CohortCustomers;
    hide Remaining;
    var won := Won(events, workspaceId, y, m);
    CohortIsWon(events, workspaceId, y, m);
    StartIsWon(events, workspaceId, y, m);
    RemainingHaveStayed(subscriptions, won, workspaceId);
    if won != {} {
      RoundedShare(|Stayed(subscriptions, won, workspaceId)|, |won|, 10000.0);
    }
    if WonMrr(events, workspaceId, y, m) > 0 {
      RoundedShare(StayedMrr(subscriptions, won, workspaceId), WonMrr(events, workspaceId, y, m), 10000.0);
    }
  }

  // ---------- Reading the stored rows back ----------

  // The stored row that a cell of the analysis stands for; percentages go back to their hundredths.
  function RestoredCell(month: int, customersAtStart: int, cell: CohortCell): StoredCohort {
    StoredCohort(
      month, cell.monthNumber, customersAtStart, cell.customersRemaining, cell.mrrRemaining,
      (cell.customerRetention * 100.0).Floor, (cell.revenueRetention * 100.0).Floor)
  }

  function RestoredRow(row: CohortRow): seq<StoredCohort> {
    seq(|row.months|, i requires 0 <= i < |row.months| =>
      RestoredCell(row.cohortMonth, row.customersAtStart, row.months[i]))
  }

  function Restored(rows: seq<CohortRow>): seq<StoredCohort> {
    if rows == [] then [] else Restored(rows[..|rows| - 1]) + RestoredRow(rows[|rows| - 1])
  }

  // The customersAtStart of the first stored row of a month.
  function StartOf(cohorts: seq<StoredCohort>, month: int): Option<int> {
    if cohorts == [] then None
    else
      var n := |cohorts| - 1;
      var earlier := StartOf(cohorts[..n], month);
      if earlier.Some? then earlier
      else if cohorts[n].cohortMonth == month then Some(cohorts[n].customersAtStart)
      else None
  }

  lemma {:induction false} RowsKeepStart(cohorts: seq<StoredCohort>, month: int)
    ensures Regrouped(cohorts).Has(month) <==> StartOf(cohorts, month).Some?
    ensures Regrouped(cohorts).Has(month) ==>
      StartOf(cohorts, month) == Some(Regrouped(cohorts).Get(month).value.customersAtStart)
  {
    hide Cell;
    if cohorts != [] {
      var n := |cohorts| - 1;
      RowsKeepStart(cohorts[..n], month);
      AddCellChangesOneRow(Regrouped(cohorts[..n]), cohorts[n], month);
    }
  }

  lemma RestoredLast(rows: seq<CohortRow>, row: CohortRow)
    ensures Restored(rows + [row]) == Restored(rows) + RestoredRow(row)
    ensures rows != [] ==> Restored(rows[|rows| - 1 := row]) == Restored(rows[..|rows| - 1]) + RestoredRow(row)
  {
    assert (rows + [row])[..|rows|] == rows;
    if rows != [] {
      assert rows[|rows| - 1 := row][..|rows| - 1] == rows[..|rows| - 1];
    }
  }

  lemma RestoresCell(stored: StoredCohort)
    ensures RestoredCell(stored.cohortMonth, stored.customersAtStart, Cell(stored)) == stored
  {
  }

  lemma RestoredMore(row: CohortRow, stored: StoredCohort)
    requires row.cohortMonth == stored.cohortMonth
    ensures RestoredRow(row.(months := row.months + [Cell(stored)]))
      == RestoredRow(row) + [stored.(customersAtStart := row.customersAtStart)]
  {
    RestoresCell(stored.(customersAtStart := row.customersAtStart));
    assert Cell(stored.(customersAtStart := row.customersAtStart)) == Cell(stored);
  }

  // Adding to the last row, or starting a new one, restores one more stored row at the end.
  lemma AddCellRestores(rows: CohortMap, stored: StoredCohort)
    requires rows.Valid() && MonthsMatchKeys(rows)
    requires rows.Has(stored.cohortMonth) ==> rows.keys[|rows.keys| - 1] == stored.cohortMonth
    ensures var row :=
        rows.Get(stored.cohortMonth).GetOr(CohortRow(stored.cohortMonth, stored.customersAtStart, []));
      Restored(AddCell(rows, stored).values)
      == Restored(rows.values) + [stored.(customersAtStart := row.customersAtStart)]
  {
    hide Cell;
    var key := stored.cohortMonth;
    var row := rows.Get(key).GetOr(CohortRow(key, stored.customersAtStart, []));
    RestoredLast(rows.values, row.(months := row.months + [Cell(stored)]));
    RestoredMore(row, stored);
    if rows.Has(key) {
      assert IndexOf(rows.keys, key) == |rows.values| - 1;
    } else {
      assert RestoredRow(row) == [];
    }
  }

  function WithStarts(cohorts: seq<StoredCohort>): seq<StoredCohort> {
    if cohorts == [] then []
    else
      var n := |cohorts| - 1;
      var start := StartOf(cohorts, cohorts[n].cohortMonth);
      WithStarts(cohorts[..n]) + [cohorts[n].(customersAtStart := start.GetOr(0))]
  }

  lemma {:induction false} RestoresInOrder(cohorts: seq<StoredCohort>)
    requires OrderedByMonth(cohorts)
    ensures Restored(Regrouped(cohorts).values) == WithStarts(cohorts)
  {
    hide Cell;
    hide AddCell;
    hide RestoredRow;
    if cohorts != [] {
      var n := |cohorts| - 1;
      var month := cohorts[n].cohortMonth;
      RestoresInOrder(cohorts[..n]);
      OrderFollowsInput(cohorts[..n]);
      RowsCarryTheirMonth(cohorts[..n]);
      RowsKeepStart(cohorts[..n], month);
      if n > 0 {
        assert cohorts[n - 1].cohortMonth <= month;
      }
      AddCellRestores(Regrouped(cohorts[..n]), cohorts[n]);
    }
  }

  // Every stored row of a month has the same customersAtStart.
  predicate StartsAgree(cohorts: seq<StoredCohort>) {
    forall i, j | 0 <= i < |cohorts| && 0 <= j < |cohorts| && cohorts[i].cohortMonth == cohorts[j].cohortMonth ::
      cohorts[i].customersAtStart == cohorts[j].customersAtStart
  }

  // The start of a month is that of one of its rows.
  lemma {:induction false} StartIsStored(cohorts: seq<StoredCohort>, month: int)
    ensures StartOf(cohorts, month).Some? <==> exists i | 0 <= i < |cohorts| :: cohorts[i].cohortMonth == month
    ensures StartOf(cohorts, month).Some? ==>
      exists i | 0 <= i < |cohorts| ::
        cohorts[i].cohortMonth == month && StartOf(cohorts, month) == Some(cohorts[i].customersAtStart)
  {
    if cohorts != [] {
      var n := |cohorts| - 1;
      StartIsStored(cohorts[..n], month);
      if i :| 0 <= i < |cohorts| && cohorts[i].cohortMonth == month {
        assert i < n ==> cohorts[..n][i].cohortMonth == month;
      }
      if StartOf(cohorts[..n], month).Some? {
        var i :| 0 <= i < n && cohorts[..n][i].cohortMonth == month
          && StartOf(cohorts[..n], month) == Some(cohorts[..n][i].customersAtStart);
        assert cohorts[i].cohortMonth == month;
      } else if cohorts[n].cohortMonth == month {
        assert StartOf(cohorts, month) == Some(cohorts[n].customersAtStart);
      }
    }
  }

  lemma StartsAgreeStep(cohorts: seq<StoredCohort>)
    requires cohorts != []
    ensures var n := |cohorts| - 1;
      var start := StartOf(cohorts, cohorts[n].cohortMonth);
      StartsAgree(cohorts) <==> StartsAgree(cohorts[..n]) && start == Some(cohorts[n].customersAtStart)
  {
    var n := |cohorts| - 1;
    var month, before := cohorts[n].cohortMonth, cohorts[..n];
    StartIsStored(cohorts, month);
    StartIsStored(before, month);
    if StartsAgree(before) && StartOf(cohorts, month) == Some(cohorts[n].customersAtStart) {
      forall i | 0 <= i < n && cohorts[i].cohortMonth == month
        ensures cohorts[i].customersAtStart == cohorts[n].customersAtStart
      {
        assert before[i].cohortMonth == month;
        var j :| 0 <= j < n && before[j].cohortMonth == month
          && StartOf(before, month) == Some(before[j].customersAtStart);
        assert before[i].customersAtStart == before[j].customersAtStart;
      }
      forall i, j | 0 <= i < |cohorts| && 0 <= j < |cohorts| && cohorts[i].cohortMonth == cohorts[j].cohortMonth
        ensures cohorts[i].customersAtStart == cohorts[j].customersAtStart
      {
        if i < n && j < n {
          assert before[i].customersAtStart == before[j].customersAtStart;
        }
      }
    }
  }

  lemma {:induction false} StartsKept(cohorts: seq<StoredCohort>)
    ensures |WithStarts(cohorts)| == |cohorts|
    ensures WithStarts(cohorts) == cohorts <==> StartsAgree(cohorts)
  {
    hide StartsAgree;
    if cohorts == [] {
      assert StartsAgree(cohorts) by {
        NothingDisagrees();
      }
    } else {
      var n := |cohorts| - 1;
      StartsKept(cohorts[..n]);
      StartsAgreeStep(cohorts);
      StartIsStored(cohorts, cohorts[n].cohortMonth);
      assert cohorts == cohorts[..n] + [cohorts[n]];
    }
  }

  lemma NothingDisagrees()
    ensures StartsAgree([])
  {
  }

  // For input in the order of the query the analysis can be read back: cell by cell it gives the stored rows, all
  // of them as they are if and only if the rows of each month agree on the customers at the start.
  lemma AnalysisRestoresExactly(cohorts: seq<StoredCohort>)
    requires OrderedByMonth(cohorts)
    ensures Restored(Regrouped(cohorts).values) == WithStarts(cohorts)
    ensures Restored(Regrouped(cohorts).values) == cohorts <==> StartsAgree(cohorts)
  {
    RestoresInOrder(cohorts);
    StartsKept(cohorts);
  }
}
